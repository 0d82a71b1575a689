/**
  Conservative loss of facts in checker-suppressed regions: once the ignored definitions are known,
  every catalogue gives up the proposals that an ignored definition owns or is mentioned in.
 */
module Demotion {
  import opened Collections
  import opened Types
  import opened Facts
  import opened Closure

  // ----- Who refers to an ignored definition -----

  predicate ValueReferences(ig: IgnoredDefinitions, t: StaticType)
    decreases t
  {
    match t
    case NominalClass(c) => ig.Identity(c.definition)
    case ExactClass(c) => ig.Identity(c.definition)
    case Union(es) => exists i :: 0 <= i < |es| && ValueReferences(ig, es[i])
    case Optional(e) => ValueReferences(ig, e)
    case Callable(s) => SignatureReferences(ig, s)
    case TypeVariable(binder, bound, cs) =>
      || ig.Identity(binder)
      || (bound.Some? && ValueReferences(ig, bound.value))
      || (exists i :: 0 <= i < |cs| && ValueReferences(ig, cs[i]))
    case StructuralProtocol(p, _) => p.Some? && ig.Identity(p.value.definition)
    case _ => false
  }

  predicate SignatureReferences(ig: IgnoredDefinitions, s: CallableSignature)
    decreases s
  {
    || ValueReferences(ig, s.returnType)
    || (exists i :: 0 <= i < |s.parameters| && ParameterReferences(ig, s.parameters[i]))
  }

  predicate ParameterReferences(ig: IgnoredDefinitions, p: ParameterTypeFact)
    decreases p
  {
    ValueReferences(ig, p.valueType) || DefaultReferences(ig, p.default)
  }

  predicate DefaultReferences(ig: IgnoredDefinitions, d: DefaultFact)
    decreases d
  {
    match d
    case DefaultValue(v, _) => ValueReferences(ig, v)
    case DefaultFactory(i, r) => ig.Some(i) || ValueReferences(ig, r)
    case _ => false
  }

  predicate TargetReferences(ig: IgnoredDefinitions, t: CallableTargetFact) {
    match t
    case SourceFunction(id) => ig.Identity(id)
    case MethodTarget(c, _, implementation) => ig.Identity(c.definition) || ig.Some(implementation)
    case GeneratedTarget(g) => ig.Identity(g.ofClass.definition)
    case DynamicTarget => false
  }

  predicate DescriptorReferences(ig: IgnoredDefinitions, d: DescriptorFact) {
    || (d.descriptorType.Some? && ValueReferences(ig, d.descriptorType.value))
    || ig.Some(d.getter) || ig.Some(d.setter) || ig.Some(d.deleter)
  }

  // ----- Demotion of the parts -----

  predicate ValueAffected(ig: IgnoredDefinitions, t: StaticType, full: bool) {
    full || ValueReferences(ig, t)
  }

  function DemoteValue(ig: IgnoredDefinitions, t: StaticType, full: bool): StaticType {
    if ValueAffected(ig, t, full) then Unknown else t
  }

  predicate DefaultAffected(ig: IgnoredDefinitions, d: DefaultFact, full: bool) {
    (full && d != Missing) || DefaultReferences(ig, d)
  }

  function DemoteDefault(ig: IgnoredDefinitions, d: DefaultFact, full: bool): DefaultFact {
    if DefaultAffected(ig, d, full) then DefaultUnknown else d
  }

  predicate ParameterAffected(ig: IgnoredDefinitions, p: ParameterTypeFact, full: bool) {
    ValueAffected(ig, p.valueType, full) || DefaultAffected(ig, p.default, full)
  }

  function DemoteParameter(ig: IgnoredDefinitions, p: ParameterTypeFact, full: bool): ParameterTypeFact {
    p.(valueType := DemoteValue(ig, p.valueType, full), default := DemoteDefault(ig, p.default, full))
  }

  predicate SignatureAffected(ig: IgnoredDefinitions, s: CallableSignature, full: bool) {
    || ValueAffected(ig, s.returnType, full)
    || (exists i :: 0 <= i < |s.parameters| && ParameterAffected(ig, s.parameters[i], full))
  }

  function Marked(uncertainty: set<UncertaintyReason>, affected: bool): set<UncertaintyReason> {
    if affected then uncertainty + {IGNORED_DIAGNOSTIC} else uncertainty
  }

  function DemoteParameters(ig: IgnoredDefinitions, ps: seq<ParameterTypeFact>, full: bool): (r: seq<ParameterTypeFact>)
    ensures |r| == |ps| && forall i :: 0 <= i < |ps| ==> r[i] == DemoteParameter(ig, ps[i], full)
  {
    seq(|ps|, i requires 0 <= i < |ps| => DemoteParameter(ig, ps[i], full))
  }

  function DemoteSignature(ig: IgnoredDefinitions, s: CallableSignature, full: bool): CallableSignature {
    CallableSignature(
      DemoteParameters(ig, s.parameters, full), DemoteValue(ig, s.returnType, full), s.returnOrigin,
      Marked(s.uncertainty, SignatureAffected(ig, s, full)))
  }

  const UNKNOWN_DESCRIPTOR: DescriptorFact :=
    DescriptorFact(UnknownDescriptor, Option.None, Option.None, Option.None, Option.None)

  predicate DescriptorAffected(ig: IgnoredDefinitions, d: DescriptorFact, full: bool) {
    full || DescriptorReferences(ig, d)
  }

  function DemoteDescriptor(ig: IgnoredDefinitions, d: DescriptorFact, full: bool): DescriptorFact {
    if DescriptorAffected(ig, d, full) then UNKNOWN_DESCRIPTOR else d
  }

  // ----- Demotion of the catalogues -----

  predicate BindingFull(ig: IgnoredDefinitions, b: GlobalBindingFact) {
    ig.wholeModule || ig.Some(b.definition)
  }

  function DemoteBinding(ig: IgnoredDefinitions, b: GlobalBindingFact): GlobalBindingFact {
    var full := BindingFull(ig, b);
    b.(valueType := DemoteValue(ig, b.valueType, full),
       uncertainty := Marked(b.uncertainty, ValueAffected(ig, b.valueType, full)))
  }

  predicate FieldFull(ig: IgnoredDefinitions, f: FieldTypeFact, full: bool) {
    full || ig.Identity(f.declaringClass.definition) || ig.Some(f.annotationDefinition)
  }

  predicate FieldAffected(ig: IgnoredDefinitions, f: FieldTypeFact, full: bool) {
    var fieldFull := FieldFull(ig, f, full);
    || ValueAffected(ig, f.valueType, fieldFull)
    || DefaultAffected(ig, f.default, fieldFull)
    || DescriptorAffected(ig, f.descriptor, fieldFull)
  }

  function DemoteField(ig: IgnoredDefinitions, f: FieldTypeFact, full: bool): FieldTypeFact {
    var fieldFull := FieldFull(ig, f, full);
    FieldTypeFact(
      f.name, f.declaringClass, DemoteValue(ig, f.valueType, fieldFull), f.origin, f.annotationDefinition,
      if fieldFull then DynamicField else f.fieldKind,
      if fieldFull then READ_PYTHON_ATTRIBUTE else f.readPolicy,
      if fieldFull then WRITE_DYNAMIC else f.writePolicy,
      if fieldFull then INITIALIZATION_UNKNOWN else f.initialization,
      DemoteDefault(ig, f.default, fieldFull), DemoteDescriptor(ig, f.descriptor, fieldFull),
      Marked(f.uncertainty, FieldAffected(ig, f, full)))
  }

  function DemoteMethod(ig: IgnoredDefinitions, m: MethodTypeFact, full: bool): MethodTypeFact {
    m.(signature := DemoteSignature(ig, m.signature, full),
       overridePolicy := if full then OVERRIDE_DYNAMIC else m.overridePolicy,
       uncertainty := Marked(m.uncertainty, SignatureAffected(ig, m.signature, full)))
  }

  predicate MemberAffected(ig: IgnoredDefinitions, m: ClassMemberFact, full: bool) {
    ValueAffected(ig, m.valueType, full) || DescriptorAffected(ig, m.descriptor, full)
  }

  function DemoteMember(ig: IgnoredDefinitions, m: ClassMemberFact, full: bool): ClassMemberFact {
    m.(valueType := DemoteValue(ig, m.valueType, full),
       descriptor := DemoteDescriptor(ig, m.descriptor, full),
       kind := if full then MEMBER_DYNAMIC else m.kind,
       uncertainty := Marked(m.uncertainty, MemberAffected(ig, m, full)))
  }

  function DemoteParticipation(p: ParticipationProposal, full: bool): ParticipationProposal {
    if !full then p
    else if p.Candidate? then Dynamic({DYNAMIC_IGNORED_DIAGNOSTIC})
    else Dynamic(p.reasons + {DYNAMIC_IGNORED_DIAGNOSTIC})
  }

  function DemoteFields(ig: IgnoredDefinitions, fs: seq<FieldTypeFact>, full: bool): (r: seq<FieldTypeFact>)
    ensures |r| == |fs| && forall i :: 0 <= i < |fs| ==> r[i] == DemoteField(ig, fs[i], full)
  {
    seq(|fs|, i requires 0 <= i < |fs| => DemoteField(ig, fs[i], full))
  }

  function DemoteMethods(ig: IgnoredDefinitions, ms: seq<MethodTypeFact>, full: bool): (r: seq<MethodTypeFact>)
    ensures |r| == |ms| && forall i :: 0 <= i < |ms| ==> r[i] == DemoteMethod(ig, ms[i], full)
  {
    seq(|ms|, i requires 0 <= i < |ms| => DemoteMethod(ig, ms[i], full))
  }

  function DemoteClassMembers(ig: IgnoredDefinitions, ms: seq<ClassMemberFact>, full: bool): (r: seq<ClassMemberFact>)
    ensures |r| == |ms| && forall i :: 0 <= i < |ms| ==> r[i] == DemoteMember(ig, ms[i], full)
  {
    seq(|ms|, i requires 0 <= i < |ms| => DemoteMember(ig, ms[i], full))
  }

  function DemoteClass(ig: IgnoredDefinitions, c: ClassTypeFact): ClassTypeFact {
    var full := ig.Identity(c.identity);
    ClassTypeFact(
      c.identity, c.bases, c.metaclass, c.decorators,
      DemoteParticipation(c.participation, full),
      if full then DICTIONARY_UNKNOWN else c.dictionary,
      DemoteFields(ig, c.instanceFields, full), DemoteMethods(ig, c.methods, full),
      DemoteClassMembers(ig, c.classMembers, full),
      if full then c.inheritance.(complete := false) else c.inheritance,
      if full then OPENNESS_UNKNOWN else c.openness,
      c.transform,
      Marked(c.uncertainty, full))
  }

  function DemoteFunction(ig: IgnoredDefinitions, f: FunctionTypeFact): FunctionTypeFact {
    var full := ig.Identity(f.identity);
    f.(signature := DemoteSignature(ig, f.signature, full),
       uncertainty := Marked(f.uncertainty, SignatureAffected(ig, f.signature, full)))
  }

  predicate OwnerIgnored(ig: IgnoredDefinitions, o: NominalBindingOwner) {
    match o
    case FunctionOwner(f, _) => ig.Identity(f)
    case FieldOwner(field) => ig.Identity(field.declaringClass.definition) || ig.Identity(field.annotationDefinition)
  }

  predicate Keeps(ig: IgnoredDefinitions, b: NominalBindingFact) {
    && !OwnerIgnored(ig, b.owner)
    && !ig.Identity(b.ofClass.definition) && !ig.Identity(b.binding) && !ig.Identity(b.bindingScope)
  }

  function Keeping(ig: IgnoredDefinitions): NominalBindingFact -> bool { b => Keeps(ig, b) }

  function Retained(ig: IgnoredDefinitions, bs: seq<NominalBindingFact>): seq<NominalBindingFact> {
    Filter(Keeping(ig), bs)
  }

  predicate SiteAffected(ig: IgnoredDefinitions, s: AttributeSiteFact) {
    || ig.Identity(s.identity.enclosing)
    || ValueReferences(ig, s.receiverType)
    || (s.valueType.Some? && ValueReferences(ig, s.valueType.value))
    || (s.declaringClass.Some? && ig.Identity(s.declaringClass.value.definition))
  }

  function DemoteSite(ig: IgnoredDefinitions, s: AttributeSiteFact): AttributeSiteFact {
    if SiteAffected(ig, s) then
      s.(receiverType := Unknown,
         valueType := if s.valueType.Some? then Some(Unknown) else Option.None,
         declaringClass := Option.None,
         uncertainty := Marked(s.uncertainty, true))
    else s
  }

  predicate CallAffected(ig: IgnoredDefinitions, s: CallSiteFact) {
    || ig.Identity(s.identity.enclosing)
    || (s.receiver.Some? && ValueReferences(ig, s.receiver.value.valueType))
    || (exists i :: 0 <= i < |s.candidateTargets| && TargetReferences(ig, s.candidateTargets[i]))
    || SignatureReferences(ig, s.signature)
    || ValueReferences(ig, s.resultType)
  }

  function DemoteCall(ig: IgnoredDefinitions, s: CallSiteFact): CallSiteFact {
    if CallAffected(ig, s) then
      CallSiteFact(
        s.identity,
        if s.receiver.None? then Option.None
        else Some(ReceiverTypeFact(Unknown, Marked(s.receiver.value.uncertainty, true))),
        s.attributeName, [DynamicTarget], BINDING_DYNAMIC,
        DemoteSignature(ig, s.signature, true), Unknown, CALL_DYNAMIC)
    else s
  }

  function DemoteBindings(ig: IgnoredDefinitions, bs: seq<GlobalBindingFact>): (r: seq<GlobalBindingFact>)
    ensures |r| == |bs| && forall i :: 0 <= i < |bs| ==> r[i] == DemoteBinding(ig, bs[i])
  {
    seq(|bs|, i requires 0 <= i < |bs| => DemoteBinding(ig, bs[i]))
  }

  function DemoteClasses(ig: IgnoredDefinitions, cs: seq<ClassTypeFact>): (r: seq<ClassTypeFact>)
    ensures |r| == |cs| && forall i :: 0 <= i < |cs| ==> r[i] == DemoteClass(ig, cs[i])
  {
    seq(|cs|, i requires 0 <= i < |cs| => DemoteClass(ig, cs[i]))
  }

  function DemoteFunctions(ig: IgnoredDefinitions, fs: seq<FunctionTypeFact>): (r: seq<FunctionTypeFact>)
    ensures |r| == |fs| && forall i :: 0 <= i < |fs| ==> r[i] == DemoteFunction(ig, fs[i])
  {
    seq(|fs|, i requires 0 <= i < |fs| => DemoteFunction(ig, fs[i]))
  }

  function DemoteSites(ig: IgnoredDefinitions, ss: seq<AttributeSiteFact>): (r: seq<AttributeSiteFact>)
    ensures |r| == |ss| && forall i :: 0 <= i < |ss| ==> r[i] == DemoteSite(ig, ss[i])
  {
    seq(|ss|, i requires 0 <= i < |ss| => DemoteSite(ig, ss[i]))
  }

  function DemoteCalls(ig: IgnoredDefinitions, ss: seq<CallSiteFact>): (r: seq<CallSiteFact>)
    ensures |r| == |ss| && forall i :: 0 <= i < |ss| ==> r[i] == DemoteCall(ig, ss[i])
  {
    seq(|ss|, i requires 0 <= i < |ss| => DemoteCall(ig, ss[i]))
  }

  /** Every catalogue rewritten; identities, policy, dependencies and diagnostics survive. */
  function DemoteWith(ig: IgnoredDefinitions, facts: ModuleTypeFacts): ModuleTypeFacts {
    facts.(
      globalBindings := DemoteBindings(ig, facts.globalBindings),
      classes := DemoteClasses(ig, facts.classes),
      functions := DemoteFunctions(ig, facts.functions),
      nominalBindings := Retained(ig, facts.nominalBindings),
      attributeSites := DemoteSites(ig, facts.attributeSites),
      callSites := DemoteCalls(ig, facts.callSites))
  }

  predicate HasSuppressed(facts: ModuleTypeFacts) {
    exists i :: 0 <= i < |facts.diagnostics| && facts.diagnostics[i].suppressed
  }

  function Demoted(facts: ModuleTypeFacts): ModuleTypeFacts {
    if HasSuppressed(facts) then DemoteWith(Ignored(facts), facts) else facts
  }

  /** A signature gives something up exactly if an ignored definition owns it or is mentioned in it. */
  lemma AffectedMeansRefers(ig: IgnoredDefinitions, s: CallableSignature, owned: bool)
    ensures SignatureAffected(ig, s, owned) <==> owned || SignatureReferences(ig, s)
  {
    forall i | 0 <= i < |s.parameters|
      ensures !owned ==> (ParameterAffected(ig, s.parameters[i], owned) <==> ParameterReferences(ig, s.parameters[i]))
    {
    }
  }

  // ----- A larger ignored set absorbs a smaller one -----

  lemma {:induction false} ValueReferencesGrow(ig: IgnoredDefinitions, ig': IgnoredDefinitions, t: StaticType)
    requires ig.Within(ig') && ValueReferences(ig, t)
    ensures ValueReferences(ig', t)
    decreases t
  {
    match t {
      case Union(es) =>
        var i :| 0 <= i < |es| && ValueReferences(ig, es[i]);
        ValueReferencesGrow(ig, ig', es[i]);
      case Optional(e) => ValueReferencesGrow(ig, ig', e);
      case Callable(s) => SignatureReferencesGrow(ig, ig', s);
      case TypeVariable(binder, bound, cs) =>
        if bound.Some? && ValueReferences(ig, bound.value) {
          ValueReferencesGrow(ig, ig', bound.value);
        } else if i :| 0 <= i < |cs| && ValueReferences(ig, cs[i]) {
          ValueReferencesGrow(ig, ig', cs[i]);
        }
      case _ =>
    }
  }

  lemma {:induction false} SignatureReferencesGrow(
    ig: IgnoredDefinitions, ig': IgnoredDefinitions, s: CallableSignature)
    requires ig.Within(ig') && SignatureReferences(ig, s)
    ensures SignatureReferences(ig', s)
    decreases s
  {
    if ValueReferences(ig, s.returnType) {
      ValueReferencesGrow(ig, ig', s.returnType);
    } else {
      var i :| 0 <= i < |s.parameters| && ParameterReferences(ig, s.parameters[i]);
      var p := s.parameters[i];
      if ValueReferences(ig, p.valueType) {
        ValueReferencesGrow(ig, ig', p.valueType);
      } else {
        DefaultReferencesGrow(ig, ig', p.default);
      }
      assert ParameterReferences(ig', s.parameters[i]);
    }
  }

  lemma {:induction false} DefaultReferencesGrow(ig: IgnoredDefinitions, ig': IgnoredDefinitions, d: DefaultFact)
    requires ig.Within(ig') && DefaultReferences(ig, d)
    ensures DefaultReferences(ig', d)
    decreases d
  {
    match d {
      case DefaultValue(v, _) => ValueReferencesGrow(ig, ig', v);
      case DefaultFactory(i, r) => if !ig.Some(i) { ValueReferencesGrow(ig, ig', r); }
    }
  }

  lemma ValueAbsorbs(ig: IgnoredDefinitions, ig': IgnoredDefinitions, t: StaticType, full: bool, full': bool)
    requires ig.Within(ig') && (full ==> full')
    ensures DemoteValue(ig', DemoteValue(ig, t, full), full') == DemoteValue(ig', t, full')
    ensures ValueAffected(ig, t, full) || ValueAffected(ig', DemoteValue(ig, t, full), full')
       <==> ValueAffected(ig', t, full')
  {
    if ValueReferences(ig, t) { ValueReferencesGrow(ig, ig', t); }
  }

  lemma DefaultAbsorbs(ig: IgnoredDefinitions, ig': IgnoredDefinitions, d: DefaultFact, full: bool, full': bool)
    requires ig.Within(ig') && (full ==> full')
    ensures DemoteDefault(ig', DemoteDefault(ig, d, full), full') == DemoteDefault(ig', d, full')
    ensures DefaultAffected(ig, d, full) || DefaultAffected(ig', DemoteDefault(ig, d, full), full')
       <==> DefaultAffected(ig', d, full')
  {
    if DefaultReferences(ig, d) { DefaultReferencesGrow(ig, ig', d); }
  }

  lemma DescriptorAbsorbs(ig: IgnoredDefinitions, ig': IgnoredDefinitions, d: DescriptorFact, full: bool, full': bool)
    requires ig.Within(ig') && (full ==> full')
    ensures DemoteDescriptor(ig', DemoteDescriptor(ig, d, full), full') == DemoteDescriptor(ig', d, full')
    ensures DescriptorAffected(ig, d, full) || DescriptorAffected(ig', DemoteDescriptor(ig, d, full), full')
       <==> DescriptorAffected(ig', d, full')
  {
    if d.descriptorType.Some? && ValueReferences(ig, d.descriptorType.value) {
      ValueReferencesGrow(ig, ig', d.descriptorType.value);
    }
  }

  lemma ParameterAbsorbs(ig: IgnoredDefinitions, ig': IgnoredDefinitions, p: ParameterTypeFact, full: bool, full': bool)
    requires ig.Within(ig') && (full ==> full')
    ensures DemoteParameter(ig', DemoteParameter(ig, p, full), full') == DemoteParameter(ig', p, full')
    ensures ParameterAffected(ig, p, full) || ParameterAffected(ig', DemoteParameter(ig, p, full), full')
       <==> ParameterAffected(ig', p, full')
  {
    ValueAbsorbs(ig, ig', p.valueType, full, full');
    DefaultAbsorbs(ig, ig', p.default, full, full');
  }

  lemma SignatureAbsorbs(ig: IgnoredDefinitions, ig': IgnoredDefinitions, s: CallableSignature, full: bool, full': bool)
    requires ig.Within(ig') && (full ==> full')
    ensures DemoteSignature(ig', DemoteSignature(ig, s, full), full') == DemoteSignature(ig', s, full')
    ensures SignatureAffected(ig, s, full) || SignatureAffected(ig', DemoteSignature(ig, s, full), full')
       <==> SignatureAffected(ig', s, full')
  {
    ValueAbsorbs(ig, ig', s.returnType, full, full');
    var ps, qs := s.parameters, DemoteParameters(ig, s.parameters, full);
    forall i | 0 <= i < |ps|
      ensures DemoteParameter(ig', qs[i], full') == DemoteParameter(ig', ps[i], full')
      ensures ParameterAffected(ig, ps[i], full) || ParameterAffected(ig', qs[i], full')
         <==> ParameterAffected(ig', ps[i], full')
    {
      ParameterAbsorbs(ig, ig', ps[i], full, full');
    }
    assert DemoteParameters(ig', qs, full') == DemoteParameters(ig', ps, full');
    AffectedParameters(ig, ig', ps, qs, full, full');
  }

  lemma AffectedParameters(ig: IgnoredDefinitions, ig': IgnoredDefinitions, ps: seq<ParameterTypeFact>,
                           qs: seq<ParameterTypeFact>, full: bool, full': bool)
    requires |ps| == |qs| && forall i :: 0 <= i < |ps| ==>
      (ParameterAffected(ig, ps[i], full) || ParameterAffected(ig', qs[i], full')
       <==> ParameterAffected(ig', ps[i], full'))
    ensures (exists i :: 0 <= i < |ps| && ParameterAffected(ig, ps[i], full))
         || (exists i :: 0 <= i < |qs| && ParameterAffected(ig', qs[i], full'))
       <==> exists i :: 0 <= i < |ps| && ParameterAffected(ig', ps[i], full')
  {
    if i :| 0 <= i < |ps| && ParameterAffected(ig', ps[i], full') {
      assert ParameterAffected(ig, ps[i], full) || ParameterAffected(ig', qs[i], full');
    }
  }

  lemma BindingAbsorbs(ig: IgnoredDefinitions, ig': IgnoredDefinitions, b: GlobalBindingFact)
    requires ig.Within(ig') && (ig.wholeModule ==> ig'.wholeModule)
    ensures DemoteBinding(ig', DemoteBinding(ig, b)) == DemoteBinding(ig', b)
  {
    ValueAbsorbs(ig, ig', b.valueType, BindingFull(ig, b), BindingFull(ig', b));
  }

  lemma FieldAbsorbs(ig: IgnoredDefinitions, ig': IgnoredDefinitions, f: FieldTypeFact, full: bool, full': bool)
    requires ig.Within(ig') && (full ==> full')
    ensures DemoteField(ig', DemoteField(ig, f, full), full') == DemoteField(ig', f, full')
  {
    var ff, ff' := FieldFull(ig, f, full), FieldFull(ig', f, full');
    ValueAbsorbs(ig, ig', f.valueType, ff, ff');
    DefaultAbsorbs(ig, ig', f.default, ff, ff');
    DescriptorAbsorbs(ig, ig', f.descriptor, ff, ff');
  }

  lemma MethodAbsorbs(ig: IgnoredDefinitions, ig': IgnoredDefinitions, m: MethodTypeFact, full: bool, full': bool)
    requires ig.Within(ig') && (full ==> full')
    ensures DemoteMethod(ig', DemoteMethod(ig, m, full), full') == DemoteMethod(ig', m, full')
  {
    SignatureAbsorbs(ig, ig', m.signature, full, full');
  }

  lemma MemberAbsorbs(ig: IgnoredDefinitions, ig': IgnoredDefinitions, m: ClassMemberFact, full: bool, full': bool)
    requires ig.Within(ig') && (full ==> full')
    ensures DemoteMember(ig', DemoteMember(ig, m, full), full') == DemoteMember(ig', m, full')
  {
    ValueAbsorbs(ig, ig', m.valueType, full, full');
    DescriptorAbsorbs(ig, ig', m.descriptor, full, full');
  }

  lemma ClassAbsorbs(ig: IgnoredDefinitions, ig': IgnoredDefinitions, c: ClassTypeFact)
    requires ig.Within(ig')
    ensures DemoteClass(ig', DemoteClass(ig, c)) == DemoteClass(ig', c)
  {
    var full, full' := ig.Identity(c.identity), ig'.Identity(c.identity);
    FieldsAbsorb(ig, ig', c.instanceFields, full, full');
    MethodsAbsorb(ig, ig', c.methods, full, full');
    MembersAbsorb(ig, ig', c.classMembers, full, full');
  }

  lemma FieldsAbsorb(ig: IgnoredDefinitions, ig': IgnoredDefinitions, fs: seq<FieldTypeFact>, full: bool, full': bool)
    requires ig.Within(ig') && (full ==> full')
    ensures DemoteFields(ig', DemoteFields(ig, fs, full), full') == DemoteFields(ig', fs, full')
  {
    forall i | 0 <= i < |fs|
      ensures DemoteField(ig', DemoteField(ig, fs[i], full), full') == DemoteField(ig', fs[i], full')
    {
      FieldAbsorbs(ig, ig', fs[i], full, full');
    }
  }

  lemma MethodsAbsorb(ig: IgnoredDefinitions, ig': IgnoredDefinitions, ms: seq<MethodTypeFact>, full: bool, full': bool)
    requires ig.Within(ig') && (full ==> full')
    ensures DemoteMethods(ig', DemoteMethods(ig, ms, full), full') == DemoteMethods(ig', ms, full')
  {
    forall i | 0 <= i < |ms|
      ensures DemoteMethod(ig', DemoteMethod(ig, ms[i], full), full') == DemoteMethod(ig', ms[i], full')
    {
      MethodAbsorbs(ig, ig', ms[i], full, full');
    }
  }

  lemma MembersAbsorb(
    ig: IgnoredDefinitions, ig': IgnoredDefinitions, ms: seq<ClassMemberFact>, full: bool, full': bool)
    requires ig.Within(ig') && (full ==> full')
    ensures DemoteClassMembers(ig', DemoteClassMembers(ig, ms, full), full') == DemoteClassMembers(ig', ms, full')
  {
    forall i | 0 <= i < |ms|
      ensures DemoteMember(ig', DemoteMember(ig, ms[i], full), full') == DemoteMember(ig', ms[i], full')
    {
      MemberAbsorbs(ig, ig', ms[i], full, full');
    }
  }

  lemma FunctionAbsorbs(ig: IgnoredDefinitions, ig': IgnoredDefinitions, f: FunctionTypeFact)
    requires ig.Within(ig')
    ensures DemoteFunction(ig', DemoteFunction(ig, f)) == DemoteFunction(ig', f)
  {
    SignatureAbsorbs(ig, ig', f.signature, ig.Identity(f.identity), ig'.Identity(f.identity));
  }

  lemma RetainedMembers(ig: IgnoredDefinitions, bs: seq<NominalBindingFact>)
    ensures forall b :: b in Retained(ig, bs) <==> b in bs && Keeps(ig, b)
  {
    forall b ensures b in Retained(ig, bs) <==> b in bs && Keeps(ig, b) {
      FilterIn(Keeping(ig), bs, b);
    }
  }

  lemma SiteAbsorbs(ig: IgnoredDefinitions, ig': IgnoredDefinitions, s: AttributeSiteFact)
    requires ig.Within(ig')
    ensures DemoteSite(ig', DemoteSite(ig, s)) == DemoteSite(ig', s)
  {
    if ValueReferences(ig, s.receiverType) { ValueReferencesGrow(ig, ig', s.receiverType); }
    if s.valueType.Some? && ValueReferences(ig, s.valueType.value) { ValueReferencesGrow(ig, ig', s.valueType.value); }
  }

  lemma CallAffectedGrows(ig: IgnoredDefinitions, ig': IgnoredDefinitions, s: CallSiteFact)
    requires ig.Within(ig') && CallAffected(ig, s)
    ensures CallAffected(ig', s)
  {
    if s.receiver.Some? && ValueReferences(ig, s.receiver.value.valueType) {
      ValueReferencesGrow(ig, ig', s.receiver.value.valueType);
    } else if SignatureReferences(ig, s.signature) {
      SignatureReferencesGrow(ig, ig', s.signature);
    } else if ValueReferences(ig, s.resultType) {
      ValueReferencesGrow(ig, ig', s.resultType);
    } else if i :| 0 <= i < |s.candidateTargets| && TargetReferences(ig, s.candidateTargets[i]) {
      assert TargetReferences(ig', s.candidateTargets[i]);
    }
  }

  /** A fully demoted signature is the same whichever set demoted it. */
  lemma FullSignature(ig: IgnoredDefinitions, ig': IgnoredDefinitions, s: CallableSignature)
    ensures DemoteSignature(ig', DemoteSignature(ig, s, true), true) == DemoteSignature(ig', s, true)
    ensures DemoteSignature(ig', s, true) == DemoteSignature(ig, s, true)
    ensures !SignatureReferences(ig', DemoteSignature(ig, s, true))
  {
    var once := DemoteParameters(ig, s.parameters, true);
    assert DemoteParameters(ig', once, true) == DemoteParameters(ig', s.parameters, true) == once;
    var full := DemoteSignature(ig, s, true);
    forall i | 0 <= i < |full.parameters| ensures !ParameterReferences(ig', full.parameters[i]) {
      assert full.parameters[i] == DemoteParameter(ig, s.parameters[i], true);
    }
    assert !ValueReferences(ig', full.returnType);
  }

  lemma CallAbsorbs(ig: IgnoredDefinitions, ig': IgnoredDefinitions, s: CallSiteFact)
    requires ig.Within(ig')
    ensures DemoteCall(ig', DemoteCall(ig, s)) == DemoteCall(ig', s)
  {
    if CallAffected(ig, s) {
      CallAffectedGrows(ig, ig', s);
      FullSignature(ig, ig', s.signature);
    }
  }

  /** Demoting for a larger set undoes nothing and needs nothing that a smaller demotion removed. */
  lemma DemoteAbsorbs(ig: IgnoredDefinitions, ig': IgnoredDefinitions, facts: ModuleTypeFacts)
    requires ig.Within(ig') && (ig.wholeModule ==> ig'.wholeModule)
    ensures DemoteWith(ig', DemoteWith(ig, facts)) == DemoteWith(ig', facts)
  {
    var once, both, direct := DemoteWith(ig, facts), DemoteWith(ig', DemoteWith(ig, facts)), DemoteWith(ig', facts);
    forall i | 0 <= i < |facts.globalBindings| ensures both.globalBindings[i] == direct.globalBindings[i] {
      BindingAbsorbs(ig, ig', facts.globalBindings[i]);
    }
    forall i | 0 <= i < |facts.classes| ensures both.classes[i] == direct.classes[i] {
      ClassAbsorbs(ig, ig', facts.classes[i]);
    }
    forall i | 0 <= i < |facts.functions| ensures both.functions[i] == direct.functions[i] {
      FunctionAbsorbs(ig, ig', facts.functions[i]);
    }
    FilterAbsorbs(Keeping(ig), Keeping(ig'), facts.nominalBindings);
    forall i | 0 <= i < |facts.attributeSites| ensures both.attributeSites[i] == direct.attributeSites[i] {
      SiteAbsorbs(ig, ig', facts.attributeSites[i]);
    }
    forall i | 0 <= i < |facts.callSites| ensures both.callSites[i] == direct.callSites[i] {
      CallAbsorbs(ig, ig', facts.callSites[i]);
    }
  }

  // ----- Idempotence -----

  lemma DemotedTaints(ig: IgnoredDefinitions, via: IgnoredDefinitions, c: ClassTypeFact)
    ensures via.TaintsClass(DemoteClass(ig, c)) == via.TaintsClass(c)
  {
    var full := ig.Identity(c.identity);
    var ms, ns := c.methods, DemoteMethods(ig, c.methods, full);
    forall i | 0 <= i < |ms| ensures ns[i].implementation == ms[i].implementation {
      assert ns[i] == DemoteMethod(ig, ms[i], full);
    }
    assert (exists i :: 0 <= i < |ns| && via.Some(ns[i].implementation))
      <==> (exists i :: 0 <= i < |ms| && via.Some(ms[i].implementation));
  }

  lemma DemotedClassRound(ig: IgnoredDefinitions, via: IgnoredDefinitions, cs: seq<ClassTypeFact>)
    ensures TaintedClasses(DemoteClasses(ig, cs), via, |cs|) == TaintedClasses(cs, via, |cs|)
  {
    var ds := DemoteClasses(ig, cs);
    forall i | 0 <= i < |cs|
      ensures ds[i].identity == cs[i].identity && via.TaintsClass(ds[i]) == via.TaintsClass(cs[i])
    {
      DemotedTaints(ig, via, cs[i]);
    }
  }

  lemma DemotedFunctionRound(ig: IgnoredDefinitions, via: IgnoredDefinitions, fs: seq<FunctionTypeFact>)
    ensures TaintedFunctions(DemoteFunctions(ig, fs), via, |fs|) == TaintedFunctions(fs, via, |fs|)
  {
    var gs := DemoteFunctions(ig, fs);
    forall i | 0 <= i < |fs|
      ensures gs[i].identity == fs[i].identity && via.TaintsFunction(gs[i]) == via.TaintsFunction(fs[i])
    {
      assert gs[i] == DemoteFunction(ig, fs[i]);
    }
  }

  lemma DemotedOwners(ig: IgnoredDefinitions, facts: ModuleTypeFacts, range: SourceRange)
    ensures Owners(DemoteWith(ig, facts), range) == Owners(facts, range)
  {
    var d := DemoteWith(ig, facts);
    assert ClassOwners(d.classes, range, |d.classes|) == ClassOwners(facts.classes, range, |facts.classes|);
    assert FunctionOwners(d.functions, range, |d.functions|) ==
           FunctionOwners(facts.functions, range, |facts.functions|);
  }

  /** Demotion removes none of what the ignored set is computed from. */
  lemma DemotedIgnored(ig: IgnoredDefinitions, facts: ModuleTypeFacts)
    ensures Ignored(DemoteWith(ig, facts)) == Ignored(facts)
  {
    var d := DemoteWith(ig, facts);
    forall via ensures Round(d, via) == Round(facts, via) {
      DemotedClassRound(ig, via, facts.classes);
      DemotedFunctionRound(ig, via, facts.functions);
    }
    DemotedSeeds(ig, facts);
    ClosedSame(d, facts, Seeds(facts));
  }

  lemma DemotedSeeds(ig: IgnoredDefinitions, facts: ModuleTypeFacts)
    ensures Seeds(DemoteWith(ig, facts)) == Seeds(facts)
  {
    var d, n := DemoteWith(ig, facts), |facts.diagnostics|;
    forall i | 0 <= i < n
      ensures DiagnosticSeeds(d, facts.diagnostics[i]) == DiagnosticSeeds(facts, facts.diagnostics[i])
      ensures TaintsModule(d, facts.diagnostics[i]) == TaintsModule(facts, facts.diagnostics[i])
    {
      var scope := facts.diagnostics[i].scope;
      if !scope.ModuleScope? { DemotedOwners(ig, facts, ScopeRange(scope)); }
    }
    assert SeedsUpTo(d, n) == SeedsUpTo(facts, n);
  }

  /** Demotion is idempotent, which is what lets a loader insist on facts that are already demoted. */
  lemma DemotionIdempotent(facts: ModuleTypeFacts)
    ensures Demoted(Demoted(facts)) == Demoted(facts)
  {
    var ig := Ignored(facts);
    DemotedIgnored(ig, facts);
    DemoteAbsorbs(ig, ig, facts);
  }

  // ----- The early return -----

  ghost predicate Empty(ig: IgnoredDefinitions) {
    !ig.wholeModule && forall id :: !ig.Identity(id)
  }

  lemma {:induction false} EmptyValue(ig: IgnoredDefinitions, t: StaticType)
    requires Empty(ig)
    ensures !ValueReferences(ig, t)
    decreases t
  {
    match t {
      case Union(es) => forall i | 0 <= i < |es| ensures !ValueReferences(ig, es[i]) { EmptyValue(ig, es[i]); }
      case Optional(e) => EmptyValue(ig, e);
      case Callable(s) => EmptySignature(ig, s);
      case TypeVariable(_, bound, cs) =>
        if bound.Some? { EmptyValue(ig, bound.value); }
        forall i | 0 <= i < |cs| ensures !ValueReferences(ig, cs[i]) { EmptyValue(ig, cs[i]); }
      case _ =>
    }
  }

  lemma {:induction false} EmptySignature(ig: IgnoredDefinitions, s: CallableSignature)
    requires Empty(ig)
    ensures !SignatureReferences(ig, s) && DemoteSignature(ig, s, false) == s
    decreases s
  {
    EmptyValue(ig, s.returnType);
    forall i | 0 <= i < |s.parameters| ensures !ParameterReferences(ig, s.parameters[i]) {
      EmptyValue(ig, s.parameters[i].valueType);
      EmptyDefault(ig, s.parameters[i].default);
    }
    assert DemoteParameters(ig, s.parameters, false) == s.parameters;
  }

  lemma {:induction false} EmptyDefault(ig: IgnoredDefinitions, d: DefaultFact)
    requires Empty(ig)
    ensures !DefaultReferences(ig, d)
    decreases d
  {
    match d {
      case DefaultValue(v, _) => EmptyValue(ig, v);
      case DefaultFactory(_, r) => EmptyValue(ig, r);
      case _ =>
    }
  }

  lemma EmptyDescriptor(ig: IgnoredDefinitions, d: DescriptorFact)
    requires Empty(ig)
    ensures DemoteDescriptor(ig, d, false) == d && !DescriptorAffected(ig, d, false)
  {
    if d.descriptorType.Some? { EmptyValue(ig, d.descriptorType.value); }
  }

  lemma EmptyClass(ig: IgnoredDefinitions, c: ClassTypeFact)
    requires Empty(ig)
    ensures DemoteClass(ig, c) == c
  {
    forall i | 0 <= i < |c.instanceFields| ensures DemoteField(ig, c.instanceFields[i], false) == c.instanceFields[i] {
      EmptyField(ig, c.instanceFields[i]);
    }
    forall i | 0 <= i < |c.methods| ensures DemoteMethod(ig, c.methods[i], false) == c.methods[i] {
      EmptySignature(ig, c.methods[i].signature);
    }
    forall i | 0 <= i < |c.classMembers| ensures DemoteMember(ig, c.classMembers[i], false) == c.classMembers[i] {
      EmptyValue(ig, c.classMembers[i].valueType);
      EmptyDescriptor(ig, c.classMembers[i].descriptor);
    }
    assert DemoteFields(ig, c.instanceFields, false) == c.instanceFields;
    assert DemoteMethods(ig, c.methods, false) == c.methods;
    assert DemoteClassMembers(ig, c.classMembers, false) == c.classMembers;
  }

  lemma EmptyField(ig: IgnoredDefinitions, f: FieldTypeFact)
    requires Empty(ig)
    ensures DemoteField(ig, f, false) == f
  {
    EmptyValue(ig, f.valueType);
    EmptyDefault(ig, f.default);
    EmptyDescriptor(ig, f.descriptor);
  }

  lemma EmptySite(ig: IgnoredDefinitions, s: AttributeSiteFact)
    requires Empty(ig)
    ensures DemoteSite(ig, s) == s
  {
    EmptyValue(ig, s.receiverType);
    if s.valueType.Some? { EmptyValue(ig, s.valueType.value); }
  }

  lemma EmptyCall(ig: IgnoredDefinitions, s: CallSiteFact)
    requires Empty(ig)
    ensures DemoteCall(ig, s) == s
  {
    if s.receiver.Some? { EmptyValue(ig, s.receiver.value.valueType); }
    EmptySignature(ig, s.signature);
    EmptyValue(ig, s.resultType);
  }

  lemma EmptyDemotes(ig: IgnoredDefinitions, facts: ModuleTypeFacts)
    requires Empty(ig)
    ensures DemoteWith(ig, facts) == facts
  {
    forall i | 0 <= i < |facts.globalBindings|
      ensures DemoteBinding(ig, facts.globalBindings[i]) == facts.globalBindings[i]
    {
      EmptyValue(ig, facts.globalBindings[i].valueType);
    }
    assert DemoteBindings(ig, facts.globalBindings) == facts.globalBindings;
    forall i | 0 <= i < |facts.classes| ensures DemoteClass(ig, facts.classes[i]) == facts.classes[i] {
      EmptyClass(ig, facts.classes[i]);
    }
    assert DemoteClasses(ig, facts.classes) == facts.classes;
    forall i | 0 <= i < |facts.functions| ensures DemoteFunction(ig, facts.functions[i]) == facts.functions[i] {
      EmptySignature(ig, facts.functions[i].signature);
    }
    assert DemoteFunctions(ig, facts.functions) == facts.functions;
    FilterAll(Keeping(ig), facts.nominalBindings);
    forall i | 0 <= i < |facts.attributeSites|
      ensures DemoteSite(ig, facts.attributeSites[i]) == facts.attributeSites[i]
    {
      EmptySite(ig, facts.attributeSites[i]);
    }
    assert DemoteSites(ig, facts.attributeSites) == facts.attributeSites;
    forall i | 0 <= i < |facts.callSites| ensures DemoteCall(ig, facts.callSites[i]) == facts.callSites[i] {
      EmptyCall(ig, facts.callSites[i]);
    }
    assert DemoteCalls(ig, facts.callSites) == facts.callSites;
  }

  /** The early return for facts without a suppressed diagnostic is the general path on an empty set. */
  lemma EarlyReturnAgrees(facts: ModuleTypeFacts)
    ensures Demoted(facts) == DemoteWith(Ignored(facts), facts)
  {
    if !HasSuppressed(facts) {
      forall id ensures !Ignored(facts).Identity(id) {
        NothingSuppressed(facts, id);
      }
      IgnoredIsLeast(facts, {});
      EmptyDemotes(Ignored(facts), facts);
    }
  }
}
