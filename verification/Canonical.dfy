/**
  Canonical module facts: demotion commutes with normalization, and canonicalizing twice is
  canonicalizing once, so that facts in canonical form are recognised as such.
 */
module Canonical {
  import opened Ordering
  import opened Stability
  import opened Types
  import opened Normalization
  import opened Facts
  import opened Closure
  import opened Demotion

  // ----- Whether a type refers to an ignored definition survives normalization -----

  predicate SomeRefers(ig: IgnoredDefinitions, ts: seq<StaticType>) {
    exists i :: 0 <= i < |ts| && ValueReferences(ig, ts[i])
  }

  lemma MembersRefer(ig: IgnoredDefinitions, t: StaticType)
    ensures ValueReferences(ig, t) <==> exists y :: y in Members(t) && ValueReferences(ig, y)
  {
    if t.Union? {
      if i :| 0 <= i < |t.elements| && ValueReferences(ig, t.elements[i]) {
        assert t.elements[i] in Members(t);
      }
    } else {
      assert t in Members(t);
    }
  }

  lemma AssembleRefers(ig: IgnoredDefinitions, ts: seq<StaticType>)
    requires forall i :: 0 <= i < |ts| ==> Flat(ts[i])
    ensures ValueReferences(ig, Assemble(ts)) <==> SomeRefers(ig, ts)
  {
    AssembleMembers(ts);
    MembersRefer(ig, Assemble(ts));
    if ValueReferences(ig, Assemble(ts)) {
      var y :| y in Members(Assemble(ts)) && ValueReferences(ig, y);
      var i :| 0 <= i < |ts| && y in Members(ts[i]);
      MembersRefer(ig, ts[i]);
    }
    if SomeRefers(ig, ts) {
      var i :| 0 <= i < |ts| && ValueReferences(ig, ts[i]);
      MembersRefer(ig, ts[i]);
      var y :| y in Members(ts[i]) && ValueReferences(ig, y);
      assert y in Members(Assemble(ts));
    }
  }

  lemma SortedSetRefers(ig: IgnoredDefinitions, ts: seq<StaticType>)
    ensures SomeRefers(ig, SortedSet(ts, TypeKey)) <==> SomeRefers(ig, ts)
  {
    TypeKeyIsInjective();
    SortedSetFacts(ts, TypeKey);
    var s := SortedSet(ts, TypeKey);
    if i :| 0 <= i < |s| && ValueReferences(ig, s[i]) {
      assert s[i] in ts;
    }
    if i :| 0 <= i < |ts| && ValueReferences(ig, ts[i]) {
      assert ts[i] in s;
    }
  }

  lemma {:induction false} VariableRefers(
    ig: IgnoredDefinitions, binder: SourceIdentity, bound: Option<StaticType>, cs: seq<StaticType>)
    requires bound.Some? ==> (ValueReferences(ig, Norm(bound.value)) <==> ValueReferences(ig, bound.value))
    requires SomeRefers(ig, NormEach(cs)) <==> SomeRefers(ig, cs)
    ensures var t := TypeVariable(binder, bound, cs); ValueReferences(ig, Norm(t)) <==> ValueReferences(ig, t)
  {
    SortedSetRefers(ig, NormEach(cs));
  }

  lemma {:induction false} UnionRefers(ig: IgnoredDefinitions, es: seq<StaticType>, b: int)
    requires forall i :: 0 <= i < |es| ==> Fits(es[i], b)
    ensures ValueReferences(ig, Norm(Union(es))) <==> SomeRefers(ig, NormEach(es))
  {
    var ns := NormEach(es);
    NormEachCanonical(es, b);
    forall i | 0 <= i < |ns| ensures Flat(ns[i]) { NormalFlat(ns[i]); }
    AssembleRefers(ig, ns);
  }

  lemma {:induction false} NormRefers(ig: IgnoredDefinitions, t: StaticType, b: int)
    requires Fits(t, b)
    ensures ValueReferences(ig, Norm(t)) <==> ValueReferences(ig, t)
    decreases t
  {
    match t {
      case Optional(e) =>
        NormRefers(ig, e, b - 2);
        OptionalRefers(ig, e, b - 2);
      case Union(es) =>
        NormEachRefers(ig, es, b - 1);
        UnionRefers(ig, es, b - 1);
      case Callable(s) =>
        NormSignatureRefers(ig, s, b - 1);
      case TypeVariable(binder, bound, cs) =>
        if bound.Some? { NormRefers(ig, bound.value, b - 1); }
        NormEachRefers(ig, cs, b - 1);
        VariableRefers(ig, binder, bound, cs);
      case _ =>
    }
  }

  lemma {:induction false} OptionalRefers(ig: IgnoredDefinitions, e: StaticType, b: int)
    requires Fits(e, b)
    ensures ValueReferences(ig, Norm(Optional(e))) <==> ValueReferences(ig, Norm(e))
  {
    NormCanonical(e, b);
    NormalFlat(Norm(e));
    var ns := [Norm(e), NoneType];
    assert ns[0] == Norm(e) && ns[1] == NoneType;
    AssembleRefers(ig, ns);
  }

  lemma {:induction false} NormEachRefers(ig: IgnoredDefinitions, ts: seq<StaticType>, b: int)
    requires forall i :: 0 <= i < |ts| ==> Fits(ts[i], b)
    ensures SomeRefers(ig, NormEach(ts)) <==> SomeRefers(ig, ts)
    decreases ts
  {
    var ns := NormEach(ts);
    forall i | 0 <= i < |ts| ensures ValueReferences(ig, ns[i]) == ValueReferences(ig, ts[i]) {
      NormRefers(ig, ts[i], b);
    }
    if i :| 0 <= i < |ts| && ValueReferences(ig, ts[i]) {
      assert ValueReferences(ig, ns[i]);
    }
  }

  lemma {:induction false} NormSignatureRefers(ig: IgnoredDefinitions, s: CallableSignature, b: int)
    requires FitsSignature(s, b)
    ensures SignatureReferences(ig, NormSignature(s)) <==> SignatureReferences(ig, s)
    decreases s
  {
    NormRefers(ig, s.returnType, b - 1);
    var ps, ns := s.parameters, NormParameters(s.parameters);
    forall i | 0 <= i < |ps| ensures ParameterReferences(ig, ns[i]) == ParameterReferences(ig, ps[i]) {
      assert FitsParameter(ps[i], b - 1) && ns[i] == NormParameter(ps[i]);
      NormRefers(ig, ps[i].valueType, b - 1);
      NormDefaultRefers(ig, ps[i].default, b - 1);
    }
    if i :| 0 <= i < |ps| && ParameterReferences(ig, ps[i]) {
      assert ParameterReferences(ig, ns[i]);
    }
  }

  lemma {:induction false} NormDefaultRefers(ig: IgnoredDefinitions, d: DefaultFact, b: int)
    requires FitsDefault(d, b)
    ensures DefaultReferences(ig, NormDefault(d)) <==> DefaultReferences(ig, d)
    decreases d
  {
    match d {
      case DefaultValue(v, _) => NormRefers(ig, v, b - 1);
      case DefaultFactory(_, r) => NormRefers(ig, r, b - 1);
      case _ =>
    }
  }

  // ----- Demotion commutes with normalization -----

  lemma {:induction false} ValueCommutes(ig: IgnoredDefinitions, t: StaticType, full: bool, depth: nat)
    requires NormalizeAtDepth(t, depth).Ok?
    ensures ValueReferences(ig, NormalizeAtDepth(t, depth).value) <==> ValueReferences(ig, t)
    ensures NormalizeAtDepth(DemoteValue(ig, t, full), depth)
         == Ok(DemoteValue(ig, NormalizeAtDepth(t, depth).value, full))
  {
    NormalizeExact(t, depth);
    NormRefers(ig, t, 64 - depth);
  }

  lemma DefaultCommutes(ig: IgnoredDefinitions, d: DefaultFact, full: bool, depth: nat)
    requires NormalizeDefault(d, depth).Ok?
    ensures NormalizeDefault(DemoteDefault(ig, d, full), depth)
         == Ok(DemoteDefault(ig, NormalizeDefault(d, depth).value, full))
  {
    NormalizeDefaultExact(d, depth);
    NormDefaultRefers(ig, d, 64 - depth);
  }

  lemma ParameterNormCommutes(ig: IgnoredDefinitions, p: ParameterTypeFact, full: bool, b: int)
    requires FitsParameter(p, b)
    ensures NormParameter(DemoteParameter(ig, p, full)) == DemoteParameter(ig, NormParameter(p), full)
    ensures FitsParameter(DemoteParameter(ig, p, full), b)
    ensures ParameterAffected(ig, NormParameter(p), full) == ParameterAffected(ig, p, full)
  {
    NormRefers(ig, p.valueType, b);
    NormDefaultRefers(ig, p.default, b);
  }

  lemma {:induction false} SignatureNormCommutes(ig: IgnoredDefinitions, s: CallableSignature, full: bool, b: int)
    requires FitsSignature(s, b)
    ensures FitsSignature(DemoteSignature(ig, s, full), b)
    ensures NormSignature(DemoteSignature(ig, s, full)) == DemoteSignature(ig, NormSignature(s), full)
  {
    NormRefers(ig, s.returnType, b - 1);
    var ps, ns := s.parameters, NormParameters(s.parameters);
    forall i | 0 <= i < |ps|
      ensures FitsParameter(DemoteParameter(ig, ps[i], full), b - 1)
      ensures NormParameter(DemoteParameter(ig, ps[i], full)) == DemoteParameter(ig, ns[i], full)
      ensures ParameterAffected(ig, ns[i], full) == ParameterAffected(ig, ps[i], full)
    {
      assert FitsParameter(ps[i], b - 1) && ns[i] == NormParameter(ps[i]);
      ParameterNormCommutes(ig, ps[i], full, b - 1);
    }
    assert NormParameters(DemoteParameters(ig, ps, full)) == DemoteParameters(ig, ns, full);
    if i :| 0 <= i < |ps| && ParameterAffected(ig, ps[i], full) {
      assert ParameterAffected(ig, ns[i], full);
    }
  }

  lemma {:induction false} SignatureCommutes(ig: IgnoredDefinitions, s: CallableSignature, full: bool, depth: nat)
    requires NormalizeSignature(s, depth).Ok?
    ensures NormalizeSignature(DemoteSignature(ig, s, full), depth)
         == Ok(DemoteSignature(ig, NormalizeSignature(s, depth).value, full))
  {
    NormalizeSignatureExact(s, depth);
    SignatureNormCommutes(ig, s, full, 64 - depth);
    NormalizeSignatureExact(DemoteSignature(ig, s, full), depth);
  }

  // ----- Canonicalization of a module -----

  function OverrideKey(o: ClassPolicyOverride): Key { Node([RangeKey(o.classRange), BoolKey(o.checkedAttr)]) }

  function DependencyKey(d: DependencyFingerprint): Key { StringKey(d.ofModule.moduleName) }

  function BindingKey(b: GlobalBindingFact): Key { StringKey(b.name) }

  function ClassFactKey(c: ClassTypeFact): Key { IdentityKey(c.identity) }

  function FunctionFactKey(f: FunctionTypeFact): Key { IdentityKey(f.identity) }

  function MethodKey(m: MethodTypeFact): Key { StringKey(m.name) }

  function MemberKey(m: ClassMemberFact): Key { StringKey(m.name) }

  function AnnotationTargetKey(t: AnnotationTarget): Key {
    if t.ParameterTarget? then Node([Atom(0), Atom(t.index)]) else Node([Atom(1)])
  }

  function OwnerKey(o: NominalBindingOwner): Key {
    match o
    case FunctionOwner(f, a) => Node([Atom(0), IdentityKey(f), AnnotationTargetKey(a)])
    case FieldOwner(f) =>
      Node([Atom(1), Node([ClassKey(f.declaringClass), IdentityKey(f.annotationDefinition), StringKey(f.name)])])
  }

  function NominalKey(b: NominalBindingFact): Key {
    Node([OwnerKey(b.owner), RangeKey(b.expressionRange), StringKey(b.name), ClassKey(b.ofClass),
          IdentityKey(b.binding), IdentityKey(b.bindingScope)])
  }

  function SiteKey(s: AttributeSiteFact): Key {
    Node([ModuleKey(s.identity.inModule), Atom(s.identity.sourceDigest), IdentityKey(s.identity.enclosing),
          RangeKey(s.identity.expressionRange)])
  }

  function CallKey(s: CallSiteFact): Key {
    Node([ModuleKey(s.identity.inModule), Atom(s.identity.sourceDigest), IdentityKey(s.identity.enclosing),
          RangeKey(s.identity.expressionRange), Atom(s.identity.expressionKind)])
  }

  function GeneratedKey(g: GeneratedFunctionFact): Key {
    Node([ClassKey(g.ofClass), Atom(g.transform), StringKey(g.name)])
  }

  function TargetKey(t: CallableTargetFact): Key {
    match t
    case SourceFunction(id) => Node([Atom(0), IdentityKey(id)])
    case MethodTarget(c, n, i) => Node([Atom(1), ClassKey(c), StringKey(n), OptionalKey(i, IdentityKey)])
    case GeneratedTarget(g) => Node([Atom(2), GeneratedKey(g)])
    case DynamicTarget => Node([Atom(3)])
  }

  function ScopeKey(s: DiagnosticScope): Key {
    match s
    case ModuleScope => Node([Atom(0)])
    case DefinitionScope(d) => Node([Atom(1), IdentityKey(d)])
    case SiteScope(r) => Node([Atom(2), RangeKey(r)])
  }

  function DiagnosticKey(d: StrictDiagnostic): Key {
    var related := d.relatedDefinitions;
    Node([Atom(d.code), Atom(d.severity), RangeKey(d.sourceRange), ScopeKey(d.scope),
          Node(seq(|related|, i requires 0 <= i < |related| => IdentityKey(related[i]))),
          BoolKey(d.suppressed), StringKey(d.message)])
  }

  /** Applies a fallible rewriting to each element in order; the first failure is the result. */
  function EachOk<T>(f: T -> Result<T>, s: seq<T>): Result<seq<T>> {
    if s == [] then Ok([])
    else
      var x :- f(s[0]);
      var xs :- EachOk(f, s[1..]);
      Ok([x] + xs)
  }

  function NormalizeBinding(b: GlobalBindingFact): Result<GlobalBindingFact> {
    var t :- Normalized(b.valueType);
    Ok(b.(valueType := t))
  }

  function NormalizeDescriptor(d: DescriptorFact): Result<DescriptorFact> {
    if d.descriptorType.None? then Ok(d)
    else
      var t :- Normalized(d.descriptorType.value);
      Ok(d.(descriptorType := Some(t)))
  }

  function NormalizeField(f: FieldTypeFact): Result<FieldTypeFact> {
    var t :- Normalized(f.valueType);
    var default :- NormalizeDefault(f.default, 0);
    var descriptor :- NormalizeDescriptor(f.descriptor);
    Ok(f.(valueType := t, default := default, descriptor := descriptor))
  }

  function NormalizeMethod(m: MethodTypeFact): Result<MethodTypeFact> {
    var s :- NormalizeSignature(m.signature, 0);
    Ok(m.(signature := s))
  }

  function NormalizeMember(m: ClassMemberFact): Result<ClassMemberFact> {
    var t :- Normalized(m.valueType);
    var descriptor :- NormalizeDescriptor(m.descriptor);
    Ok(m.(valueType := t, descriptor := descriptor))
  }

  function NormalizeClass(c: ClassTypeFact): Result<ClassTypeFact> {
    var fields :- EachOk(NormalizeField, c.instanceFields);
    var methods :- EachOk(NormalizeMethod, SortBy(c.methods, MethodKey));
    var members :- EachOk(NormalizeMember, SortBy(c.classMembers, MemberKey));
    Ok(c.(instanceFields := fields, methods := methods, classMembers := members))
  }

  function NormalizeFunction(f: FunctionTypeFact): Result<FunctionTypeFact> {
    var s :- NormalizeSignature(f.signature, 0);
    Ok(f.(signature := s))
  }

  function NormalizeSite(s: AttributeSiteFact): Result<AttributeSiteFact> {
    var receiver :- Normalized(s.receiverType);
    if s.valueType.None? then Ok(s.(receiverType := receiver))
    else
      var value :- Normalized(s.valueType.value);
      Ok(s.(receiverType := receiver, valueType := Some(value)))
  }

  function NormalizeReceiver(r: Option<ReceiverTypeFact>): Result<Option<ReceiverTypeFact>> {
    if r.None? then Ok(r)
    else
      var t :- Normalized(r.value.valueType);
      Ok(Some(r.value.(valueType := t)))
  }

  function NormalizeCall(s: CallSiteFact): Result<CallSiteFact> {
    var receiver :- NormalizeReceiver(s.receiver);
    var signature :- NormalizeSignature(s.signature, 0);
    var resultType :- Normalized(s.resultType);
    Ok(s.(receiver := receiver, candidateTargets := SortedSet(s.candidateTargets, TargetKey),
          signature := signature, resultType := resultType))
  }

  function SortDiagnostic(d: StrictDiagnostic): StrictDiagnostic {
    d.(relatedDefinitions := SortedSet(d.relatedDefinitions, IdentityKey))
  }

  function SortDiagnostics(ds: seq<StrictDiagnostic>): seq<StrictDiagnostic> {
    SortBy(seq(|ds|, i requires 0 <= i < |ds| => SortDiagnostic(ds[i])), DiagnosticKey)
  }

  datatype Catalogues = Catalogues(
    bindings: seq<GlobalBindingFact>, classes: seq<ClassTypeFact>, functions: seq<FunctionTypeFact>,
    sites: seq<AttributeSiteFact>, calls: seq<CallSiteFact>)

  function ArrangedCatalogues(facts: ModuleTypeFacts): Result<Catalogues> {
    var bindings :- EachOk(NormalizeBinding, SortBy(facts.globalBindings, BindingKey));
    var classes :- EachOk(NormalizeClass, SortBy(facts.classes, ClassFactKey));
    var functions :- EachOk(NormalizeFunction, SortBy(facts.functions, FunctionFactKey));
    var sites :- EachOk(NormalizeSite, SortBy(facts.attributeSites, SiteKey));
    var calls :- EachOk(NormalizeCall, SortBy(facts.callSites, CallKey));
    Ok(Catalogues(bindings, classes, functions, sites, calls))
  }

  /** The sorting and normalizing part, catalogue by catalogue. */
  function Arranged(facts: ModuleTypeFacts): Result<ModuleTypeFacts> {
    var c :- ArrangedCatalogues(facts);
    Ok(ModuleTypeFacts(
         facts.schemaVersion, facts.ofModule, facts.sourceDigest, facts.sourceSize, facts.sourceDialect,
         facts.languagePolicy.(overrides := SortBy(facts.languagePolicy.overrides, OverrideKey)),
         SortBy(facts.consumedDependencies, DependencyKey),
         c.bindings, c.classes, c.functions,
         SortBy(facts.nominalBindings, NominalKey),
         c.sites, c.calls, SortDiagnostics(facts.diagnostics)))
  }

  function Canonicalized(facts: ModuleTypeFacts): Result<ModuleTypeFacts> {
    var arranged :- Arranged(facts);
    Ok(Demoted(arranged))
  }

  // ----- Canonicalizing twice -----

  ghost predicate Settles<T(!new)>(f: T -> Result<T>) {
    forall x :: f(x).Ok? ==> f(f(x).value) == f(x)
  }

  ghost predicate KeepsKey<T(!new)>(f: T -> Result<T>, key: T -> Key) {
    forall x :: f(x).Ok? ==> key(f(x).value) == key(x)
  }

  /** In order, and every element already in normal form. */
  ghost predicate Settled<T>(f: T -> Result<T>, key: T -> Key, s: seq<T>) {
    SortedBy(s, key) && forall i :: 0 <= i < |s| ==> f(s[i]) == Ok(s[i])
  }

  lemma {:induction false} EachOkPointwise<T>(f: T -> Result<T>, s: seq<T>)
    requires EachOk(f, s).Ok?
    ensures var r := EachOk(f, s).value; |r| == |s| && forall i :: 0 <= i < |s| ==> f(s[i]) == Ok(r[i])
  {
    if s == [] {
    } else {
      EachOkPointwise(f, s[1..]);
      var r, rest := EachOk(f, s).value, EachOk(f, s[1..]).value;
      forall i | 0 <= i < |s| ensures f(s[i]) == Ok(r[i]) {
        if i > 0 { assert s[i] == s[1..][i - 1] && r[i] == rest[i - 1]; }
      }
    }
  }

  lemma {:induction false} EachOkFixed<T>(f: T -> Result<T>, s: seq<T>)
    requires forall i :: 0 <= i < |s| ==> f(s[i]) == Ok(s[i])
    ensures EachOk(f, s) == Ok(s)
  {
    if s == [] {
    } else {
      EachOkFixed(f, s[1..]);
      assert s == [s[0]] + s[1..];
    }
  }

  lemma ArrangedSettles<T(!new)>(f: T -> Result<T>, key: T -> Key, s: seq<T>)
    requires Settles(f) && KeepsKey(f, key) && EachOk(f, SortBy(s, key)).Ok?
    ensures Settled(f, key, EachOk(f, SortBy(s, key)).value)
  {
    var t := SortBy(s, key);
    SortBySorted(s, key);
    EachOkPointwise(f, t);
    var r := EachOk(f, t).value;
    forall i | 0 <= i < |r| ensures f(r[i]) == Ok(r[i]) && key(r[i]) == key(t[i]) {
      assert f(t[i]) == Ok(r[i]);
    }
  }

  lemma SettledFixed<T>(f: T -> Result<T>, key: T -> Key, s: seq<T>)
    requires Settled(f, key, s)
    ensures EachOk(f, SortBy(s, key)) == Ok(s)
  {
    SortByFixed(s, key);
    EachOkFixed(f, s);
  }

  /** An elementwise rewriting that respects keys and normal forms keeps a list settled. */
  lemma SettledMapped<T>(f: T -> Result<T>, key: T -> Key, s: seq<T>, r: seq<T>)
    requires Settled(f, key, s) && |r| == |s|
    requires forall i :: 0 <= i < |s| ==> key(r[i]) == key(s[i]) && f(r[i]) == Ok(r[i])
    ensures Settled(f, key, r)
  {
  }

  lemma NormalizedSettles(t: StaticType)
    requires Normalized(t).Ok?
    ensures Normalized(Normalized(t).value) == Normalized(t)
  {
    NormalizationCanonical(t, 0, 0);
  }

  lemma DescriptorSettles(d: DescriptorFact)
    requires NormalizeDescriptor(d).Ok?
    ensures NormalizeDescriptor(NormalizeDescriptor(d).value) == NormalizeDescriptor(d)
  {
    if d.descriptorType.Some? { NormalizedSettles(d.descriptorType.value); }
  }

  lemma FieldSettles(f: FieldTypeFact)
    requires NormalizeField(f).Ok?
    ensures NormalizeField(NormalizeField(f).value) == NormalizeField(f)
  {
    NormalizedSettles(f.valueType);
    DefaultNormalizationCanonical(f.default, 0);
    DescriptorSettles(f.descriptor);
  }

  lemma MethodSettles(m: MethodTypeFact)
    requires NormalizeMethod(m).Ok?
    ensures NormalizeMethod(NormalizeMethod(m).value) == NormalizeMethod(m)
  {
    SignatureNormalizationCanonical(m.signature, 0);
  }

  lemma MemberSettles(m: ClassMemberFact)
    requires NormalizeMember(m).Ok?
    ensures NormalizeMember(NormalizeMember(m).value) == NormalizeMember(m)
  {
    NormalizedSettles(m.valueType);
    DescriptorSettles(m.descriptor);
  }

  ghost predicate SettledFields(fs: seq<FieldTypeFact>) {
    forall i :: 0 <= i < |fs| ==> NormalizeField(fs[i]) == Ok(fs[i])
  }

  ghost predicate SettledClass(c: ClassTypeFact) {
    && SettledFields(c.instanceFields)
    && Settled(NormalizeMethod, MethodKey, c.methods)
    && Settled(NormalizeMember, MemberKey, c.classMembers)
  }

  lemma SettledClassFixed(c: ClassTypeFact)
    requires SettledClass(c)
    ensures NormalizeClass(c) == Ok(c)
  {
    EachOkFixed(NormalizeField, c.instanceFields);
    SettledFixed(NormalizeMethod, MethodKey, c.methods);
    SettledFixed(NormalizeMember, MemberKey, c.classMembers);
  }

  lemma NormalizedClassSettled(c: ClassTypeFact)
    requires NormalizeClass(c).Ok?
    ensures SettledClass(NormalizeClass(c).value)
  {
    NormalizedFieldsSettled(c.instanceFields);
    MembersSettle();
    ArrangedSettles(NormalizeMethod, MethodKey, c.methods);
    ArrangedSettles(NormalizeMember, MemberKey, c.classMembers);
  }

  lemma NormalizedFieldsSettled(fs: seq<FieldTypeFact>)
    requires EachOk(NormalizeField, fs).Ok?
    ensures SettledFields(EachOk(NormalizeField, fs).value)
  {
    EachOkPointwise(NormalizeField, fs);
    var r := EachOk(NormalizeField, fs).value;
    forall i | 0 <= i < |r| ensures NormalizeField(r[i]) == Ok(r[i]) {
      assert NormalizeField(fs[i]) == Ok(r[i]);
      FieldSettles(fs[i]);
    }
  }

  lemma MembersSettle()
    ensures Settles(NormalizeMethod) && KeepsKey(NormalizeMethod, MethodKey)
    ensures Settles(NormalizeMember) && KeepsKey(NormalizeMember, MemberKey)
  {
    forall m | NormalizeMethod(m).Ok? ensures NormalizeMethod(NormalizeMethod(m).value) == NormalizeMethod(m) {
      MethodSettles(m);
    }
    forall m | NormalizeMember(m).Ok? ensures NormalizeMember(NormalizeMember(m).value) == NormalizeMember(m) {
      MemberSettles(m);
    }
  }

  lemma SiteSettles(s: AttributeSiteFact)
    requires NormalizeSite(s).Ok?
    ensures NormalizeSite(NormalizeSite(s).value) == NormalizeSite(s)
  {
    NormalizedSettles(s.receiverType);
    if s.valueType.Some? { NormalizedSettles(s.valueType.value); }
  }

  lemma CallSettles(s: CallSiteFact)
    requires NormalizeCall(s).Ok?
    ensures NormalizeCall(NormalizeCall(s).value) == NormalizeCall(s)
  {
    if s.receiver.Some? { NormalizedSettles(s.receiver.value.valueType); }
    SignatureNormalizationCanonical(s.signature, 0);
    NormalizedSettles(s.resultType);
    SortedSetTwice(s.candidateTargets, TargetKey);
  }

  lemma CataloguesSettle()
    ensures Settles(NormalizeBinding) && KeepsKey(NormalizeBinding, BindingKey)
    ensures Settles(NormalizeClass) && KeepsKey(NormalizeClass, ClassFactKey)
    ensures Settles(NormalizeFunction) && KeepsKey(NormalizeFunction, FunctionFactKey)
  {
    forall b | NormalizeBinding(b).Ok? ensures NormalizeBinding(NormalizeBinding(b).value) == NormalizeBinding(b) {
      NormalizedSettles(b.valueType);
    }
    forall c | NormalizeClass(c).Ok? ensures NormalizeClass(NormalizeClass(c).value) == NormalizeClass(c) {
      NormalizedClassSettled(c);
      SettledClassFixed(NormalizeClass(c).value);
    }
    forall f | NormalizeFunction(f).Ok? ensures NormalizeFunction(NormalizeFunction(f).value) == NormalizeFunction(f) {
      SignatureNormalizationCanonical(f.signature, 0);
    }
  }

  lemma SitesSettle()
    ensures Settles(NormalizeSite) && KeepsKey(NormalizeSite, SiteKey)
    ensures Settles(NormalizeCall) && KeepsKey(NormalizeCall, CallKey)
  {
    forall s | NormalizeSite(s).Ok? ensures NormalizeSite(NormalizeSite(s).value) == NormalizeSite(s) {
      SiteSettles(s);
    }
    forall s | NormalizeCall(s).Ok? ensures NormalizeCall(NormalizeCall(s).value) == NormalizeCall(s) {
      CallSettles(s);
    }
  }

  ghost predicate SettledDiagnostics(ds: seq<StrictDiagnostic>) {
    SortedBy(ds, DiagnosticKey) && forall i :: 0 <= i < |ds| ==> SortDiagnostic(ds[i]) == ds[i]
  }

  lemma DiagnosticsSettle(ds: seq<StrictDiagnostic>)
    ensures SettledDiagnostics(SortDiagnostics(ds))
  {
    var inner := seq(|ds|, i requires 0 <= i < |ds| => SortDiagnostic(ds[i]));
    SortBySorted(inner, DiagnosticKey);
    SortByMembers(inner, DiagnosticKey);
    var r := SortDiagnostics(ds);
    forall i | 0 <= i < |r| ensures SortDiagnostic(r[i]) == r[i] {
      assert r[i] in multiset(inner);
      var j :| 0 <= j < |inner| && inner[j] == r[i];
      SortedSetTwice(ds[j].relatedDefinitions, IdentityKey);
    }
  }

  lemma SettledDiagnosticsFixed(ds: seq<StrictDiagnostic>)
    requires SettledDiagnostics(ds)
    ensures SortDiagnostics(ds) == ds
  {
    assert seq(|ds|, i requires 0 <= i < |ds| => SortDiagnostic(ds[i])) == ds;
    SortByFixed(ds, DiagnosticKey);
  }

  /** Every catalogue is in order and every entry in normal form. */
  ghost predicate SettledFacts(facts: ModuleTypeFacts) {
    && SortedBy(facts.languagePolicy.overrides, OverrideKey)
    && SortedBy(facts.consumedDependencies, DependencyKey)
    && Settled(NormalizeBinding, BindingKey, facts.globalBindings)
    && Settled(NormalizeClass, ClassFactKey, facts.classes)
    && Settled(NormalizeFunction, FunctionFactKey, facts.functions)
    && SortedBy(facts.nominalBindings, NominalKey)
    && Settled(NormalizeSite, SiteKey, facts.attributeSites)
    && Settled(NormalizeCall, CallKey, facts.callSites)
    && SettledDiagnostics(facts.diagnostics)
  }

  lemma ArrangedIsSettled(facts: ModuleTypeFacts)
    requires Arranged(facts).Ok?
    ensures SettledFacts(Arranged(facts).value)
  {
    CataloguesSettle();
    SitesSettle();
    SortBySorted(facts.languagePolicy.overrides, OverrideKey);
    SortBySorted(facts.consumedDependencies, DependencyKey);
    SortBySorted(facts.nominalBindings, NominalKey);
    ArrangedSettles(NormalizeBinding, BindingKey, facts.globalBindings);
    ArrangedSettles(NormalizeClass, ClassFactKey, facts.classes);
    ArrangedSettles(NormalizeFunction, FunctionFactKey, facts.functions);
    ArrangedSettles(NormalizeSite, SiteKey, facts.attributeSites);
    ArrangedSettles(NormalizeCall, CallKey, facts.callSites);
    DiagnosticsSettle(facts.diagnostics);
  }

  lemma SettledIsArranged(facts: ModuleTypeFacts)
    requires SettledFacts(facts)
    ensures Arranged(facts) == Ok(facts)
  {
    SortByFixed(facts.languagePolicy.overrides, OverrideKey);
    SortByFixed(facts.consumedDependencies, DependencyKey);
    SortByFixed(facts.nominalBindings, NominalKey);
    SettledFixed(NormalizeBinding, BindingKey, facts.globalBindings);
    SettledFixed(NormalizeClass, ClassFactKey, facts.classes);
    SettledFixed(NormalizeFunction, FunctionFactKey, facts.functions);
    SettledFixed(NormalizeSite, SiteKey, facts.attributeSites);
    SettledFixed(NormalizeCall, CallKey, facts.callSites);
    SettledDiagnosticsFixed(facts.diagnostics);
  }

  // ----- Demotion keeps facts settled -----

  lemma DemotedDescriptorSettled(ig: IgnoredDefinitions, d: DescriptorFact, full: bool)
    requires NormalizeDescriptor(d) == Ok(d)
    ensures NormalizeDescriptor(DemoteDescriptor(ig, d, full)) == Ok(DemoteDescriptor(ig, d, full))
  {
  }

  lemma DemotedFieldSettled(ig: IgnoredDefinitions, f: FieldTypeFact, full: bool)
    requires NormalizeField(f) == Ok(f)
    ensures NormalizeField(DemoteField(ig, f, full)) == Ok(DemoteField(ig, f, full))
  {
    var ff := FieldFull(ig, f, full);
    assert Normalized(f.valueType) == Ok(f.valueType);
    DefaultCommutes(ig, f.default, ff, 0);
    DemotedDescriptorSettled(ig, f.descriptor, ff);
  }

  lemma DemotedSignatureSettled(ig: IgnoredDefinitions, s: CallableSignature, full: bool)
    requires NormalizeSignature(s, 0) == Ok(s)
    ensures NormalizeSignature(DemoteSignature(ig, s, full), 0) == Ok(DemoteSignature(ig, s, full))
  {
    SignatureCommutes(ig, s, full, 0);
  }

  lemma DemotedFieldsSettled(ig: IgnoredDefinitions, fs: seq<FieldTypeFact>, full: bool)
    requires SettledFields(fs)
    ensures SettledFields(DemoteFields(ig, fs, full))
  {
    forall i | 0 <= i < |fs| ensures NormalizeField(DemoteField(ig, fs[i], full)) == Ok(DemoteField(ig, fs[i], full)) {
      DemotedFieldSettled(ig, fs[i], full);
    }
  }

  lemma DemotedMethodsSettled(ig: IgnoredDefinitions, ms: seq<MethodTypeFact>, full: bool)
    requires Settled(NormalizeMethod, MethodKey, ms)
    ensures Settled(NormalizeMethod, MethodKey, DemoteMethods(ig, ms, full))
  {
    var r := DemoteMethods(ig, ms, full);
    forall i | 0 <= i < |ms| ensures NormalizeMethod(r[i]) == Ok(r[i]) && MethodKey(r[i]) == MethodKey(ms[i]) {
      assert NormalizeMethod(ms[i]) == Ok(ms[i]);
      DemotedSignatureSettled(ig, ms[i].signature, full);
    }
    SettledMapped(NormalizeMethod, MethodKey, ms, r);
  }

  lemma DemotedMembersSettled(ig: IgnoredDefinitions, ms: seq<ClassMemberFact>, full: bool)
    requires Settled(NormalizeMember, MemberKey, ms)
    ensures Settled(NormalizeMember, MemberKey, DemoteClassMembers(ig, ms, full))
  {
    var r := DemoteClassMembers(ig, ms, full);
    forall i | 0 <= i < |ms| ensures NormalizeMember(r[i]) == Ok(r[i]) && MemberKey(r[i]) == MemberKey(ms[i]) {
      assert NormalizeMember(ms[i]) == Ok(ms[i]);
      DemotedDescriptorSettled(ig, ms[i].descriptor, full);
    }
    SettledMapped(NormalizeMember, MemberKey, ms, r);
  }

  lemma DemotedClassSettled(ig: IgnoredDefinitions, c: ClassTypeFact)
    requires NormalizeClass(c) == Ok(c)
    ensures NormalizeClass(DemoteClass(ig, c)) == Ok(DemoteClass(ig, c))
  {
    NormalizedClassSettled(c);
    var full := ig.Identity(c.identity);
    DemotedFieldsSettled(ig, c.instanceFields, full);
    DemotedMethodsSettled(ig, c.methods, full);
    DemotedMembersSettled(ig, c.classMembers, full);
    SettledClassFixed(DemoteClass(ig, c));
  }

  lemma SingletonSorted<T>(x: T, key: T -> Key)
    ensures SortedSet([x], key) == [x]
  {
    assert SortBy([x], key) == [x];
  }

  lemma DemotedCallSettled(ig: IgnoredDefinitions, s: CallSiteFact)
    requires NormalizeCall(s) == Ok(s)
    ensures NormalizeCall(DemoteCall(ig, s)) == Ok(DemoteCall(ig, s))
  {
    hide SortedSet, NormalizeSignature, DemoteSignature;
    DemotedSignatureSettled(ig, s.signature, true);
    SingletonSorted(DynamicTarget, TargetKey);
  }

  lemma DemotedIsSettled(ig: IgnoredDefinitions, facts: ModuleTypeFacts)
    requires SettledFacts(facts)
    ensures SettledFacts(DemoteWith(ig, facts))
  {
    var d := DemoteWith(ig, facts);
    forall i | 0 <= i < |facts.globalBindings|
      ensures NormalizeBinding(d.globalBindings[i]) == Ok(d.globalBindings[i])
    {
      assert NormalizeBinding(facts.globalBindings[i]) == Ok(facts.globalBindings[i]);
    }
    SettledMapped(NormalizeBinding, BindingKey, facts.globalBindings, d.globalBindings);
    forall i | 0 <= i < |facts.classes| ensures NormalizeClass(d.classes[i]) == Ok(d.classes[i]) {
      DemotedClassSettled(ig, facts.classes[i]);
    }
    SettledMapped(NormalizeClass, ClassFactKey, facts.classes, d.classes);
    forall i | 0 <= i < |facts.functions| ensures NormalizeFunction(d.functions[i]) == Ok(d.functions[i]) {
      assert NormalizeFunction(facts.functions[i]) == Ok(facts.functions[i]);
      DemotedSignatureSettled(ig, facts.functions[i].signature, ig.Identity(facts.functions[i].identity));
    }
    SettledMapped(NormalizeFunction, FunctionFactKey, facts.functions, d.functions);
    FilterSorted(Keeping(ig), facts.nominalBindings, NominalKey);
    forall i | 0 <= i < |facts.attributeSites| ensures NormalizeSite(d.attributeSites[i]) == Ok(d.attributeSites[i]) {
      assert NormalizeSite(facts.attributeSites[i]) == Ok(facts.attributeSites[i]);
    }
    SettledMapped(NormalizeSite, SiteKey, facts.attributeSites, d.attributeSites);
    forall i | 0 <= i < |facts.callSites| ensures NormalizeCall(d.callSites[i]) == Ok(d.callSites[i]) {
      DemotedCallSettled(ig, facts.callSites[i]);
    }
    SettledMapped(NormalizeCall, CallKey, facts.callSites, d.callSites);
  }

  /** What canonicalization returns is its own canonical form, and is already demoted. */
  lemma CanonicalizationIdempotent(facts: ModuleTypeFacts)
    requires Canonicalized(facts).Ok?
    ensures var c := Canonicalized(facts).value; Canonicalized(c) == Ok(c) && Demoted(c) == c
  {
    var arranged := Arranged(facts).value;
    ArrangedIsSettled(facts);
    EarlyReturnAgrees(arranged);
    DemotedIsSettled(Ignored(arranged), arranged);
    SettledIsArranged(Demoted(arranged));
    DemotionIdempotent(arranged);
  }
}
