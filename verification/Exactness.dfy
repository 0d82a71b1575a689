/**
  Demotion is exact: afterwards nothing mentions an ignored definition and everything an ignored
  definition owns has given up its proposals, while everything else is untouched. More suppressed
  diagnostics never make a fact more precise.
 */
module Exactness {
  import opened Types
  import opened Meaning
  import opened Facts
  import opened Closure
  import opened Demotion

  // ----- Nothing ignored is mentioned any more -----

  ghost predicate CleanField(ig: IgnoredDefinitions, f: FieldTypeFact) {
    && !ValueReferences(ig, f.valueType) && !DefaultReferences(ig, f.default) && !DescriptorReferences(ig, f.descriptor)
    && (FieldFull(ig, f, false) ==> SurrenderedField(f))
  }

  ghost predicate SurrenderedField(f: FieldTypeFact) {
    && f.valueType == Unknown && f.default in {Missing, DefaultUnknown} && f.descriptor == UNKNOWN_DESCRIPTOR
    && f.fieldKind == DynamicField && f.readPolicy == READ_PYTHON_ATTRIBUTE && f.writePolicy == WRITE_DYNAMIC
    && f.initialization == INITIALIZATION_UNKNOWN && IGNORED_DIAGNOSTIC in f.uncertainty
  }

  ghost predicate SurrenderedSignature(s: CallableSignature) {
    && s.returnType == Unknown && IGNORED_DIAGNOSTIC in s.uncertainty
    && forall i :: 0 <= i < |s.parameters| ==>
         s.parameters[i].valueType == Unknown && s.parameters[i].default in {Missing, DefaultUnknown}
  }

  ghost predicate CleanMember(ig: IgnoredDefinitions, m: ClassMemberFact) {
    !ValueReferences(ig, m.valueType) && !DescriptorReferences(ig, m.descriptor)
  }

  ghost predicate CleanClass(ig: IgnoredDefinitions, c: ClassTypeFact) {
    && (forall i :: 0 <= i < |c.instanceFields| ==> CleanField(ig, c.instanceFields[i]))
    && (forall i :: 0 <= i < |c.methods| ==> !SignatureReferences(ig, c.methods[i].signature))
    && (forall i :: 0 <= i < |c.classMembers| ==> CleanMember(ig, c.classMembers[i]))
    && (ig.Identity(c.identity) ==> SurrenderedClass(c))
  }

  ghost predicate SurrenderedClass(c: ClassTypeFact) {
    && c.participation.Dynamic? && DYNAMIC_IGNORED_DIAGNOSTIC in c.participation.reasons
    && c.dictionary == DICTIONARY_UNKNOWN && c.openness == OPENNESS_UNKNOWN && !c.inheritance.complete
    && IGNORED_DIAGNOSTIC in c.uncertainty
    && (forall i :: 0 <= i < |c.instanceFields| ==> SurrenderedField(c.instanceFields[i]))
    && (forall i :: 0 <= i < |c.methods| ==>
          SurrenderedSignature(c.methods[i].signature) && c.methods[i].overridePolicy == OVERRIDE_DYNAMIC)
    && (forall i :: 0 <= i < |c.classMembers| ==>
          && c.classMembers[i].valueType == Unknown && c.classMembers[i].descriptor == UNKNOWN_DESCRIPTOR
          && c.classMembers[i].kind == MEMBER_DYNAMIC)
  }

  ghost predicate CleanFunction(ig: IgnoredDefinitions, f: FunctionTypeFact) {
    !SignatureReferences(ig, f.signature) && (ig.Identity(f.identity) ==> SurrenderedSignature(f.signature))
  }

  ghost predicate SurrenderedSite(s: AttributeSiteFact) {
    && s.receiverType == Unknown && (s.valueType.Some? ==> s.valueType.value == Unknown) && s.declaringClass.None?
    && IGNORED_DIAGNOSTIC in s.uncertainty
  }

  ghost predicate CleanSite(ig: IgnoredDefinitions, s: AttributeSiteFact) {
    && !ValueReferences(ig, s.receiverType)
    && (s.valueType.Some? ==> !ValueReferences(ig, s.valueType.value))
    && (s.declaringClass.Some? ==> !ig.Identity(s.declaringClass.value.definition))
    && (ig.Identity(s.identity.enclosing) ==> SurrenderedSite(s))
  }

  ghost predicate SurrenderedCall(s: CallSiteFact) {
    && (s.receiver.Some? ==>
          s.receiver.value.valueType == Unknown && IGNORED_DIAGNOSTIC in s.receiver.value.uncertainty)
    && s.candidateTargets == [DynamicTarget] && s.binding == BINDING_DYNAMIC
    && SurrenderedSignature(s.signature) && s.resultType == Unknown && s.uncertainty == CALL_DYNAMIC
  }

  ghost predicate CleanCall(ig: IgnoredDefinitions, s: CallSiteFact) {
    && (s.receiver.Some? ==> !ValueReferences(ig, s.receiver.value.valueType))
    && (forall i :: 0 <= i < |s.candidateTargets| ==> !TargetReferences(ig, s.candidateTargets[i]))
    && !SignatureReferences(ig, s.signature) && !ValueReferences(ig, s.resultType)
    && (ig.Identity(s.identity.enclosing) ==> SurrenderedCall(s))
  }

  ghost predicate Clean(ig: IgnoredDefinitions, facts: ModuleTypeFacts) {
    && (forall i :: 0 <= i < |facts.globalBindings| ==>
          var b := facts.globalBindings[i];
          !ValueReferences(ig, b.valueType) && (BindingFull(ig, b) ==> b.valueType == Unknown))
    && (forall i :: 0 <= i < |facts.classes| ==> CleanClass(ig, facts.classes[i]))
    && (forall i :: 0 <= i < |facts.functions| ==> CleanFunction(ig, facts.functions[i]))
    && (forall i :: 0 <= i < |facts.nominalBindings| ==> Keeps(ig, facts.nominalBindings[i]))
    && (forall i :: 0 <= i < |facts.attributeSites| ==> CleanSite(ig, facts.attributeSites[i]))
    && (forall i :: 0 <= i < |facts.callSites| ==> CleanCall(ig, facts.callSites[i]))
  }

  lemma SignatureClean(ig: IgnoredDefinitions, s: CallableSignature, full: bool)
    ensures !SignatureReferences(ig, DemoteSignature(ig, s, full))
    ensures full ==> SurrenderedSignature(DemoteSignature(ig, s, full))
  {
    var ps := DemoteParameters(ig, s.parameters, full);
    forall i | 0 <= i < |ps| ensures !ParameterReferences(ig, ps[i]) {
      assert ps[i] == DemoteParameter(ig, s.parameters[i], full);
    }
  }

  lemma FieldClean(ig: IgnoredDefinitions, f: FieldTypeFact, full: bool)
    ensures CleanField(ig, DemoteField(ig, f, full))
    ensures full ==> SurrenderedField(DemoteField(ig, f, full))
  {
  }

  lemma ClassClean(ig: IgnoredDefinitions, c: ClassTypeFact)
    ensures CleanClass(ig, DemoteClass(ig, c))
  {
    var full, d := ig.Identity(c.identity), DemoteClass(ig, c);
    forall i | 0 <= i < |c.instanceFields|
      ensures CleanField(ig, d.instanceFields[i]) && (full ==> SurrenderedField(d.instanceFields[i]))
    {
      FieldClean(ig, c.instanceFields[i], full);
    }
    forall i | 0 <= i < |c.methods|
      ensures !SignatureReferences(ig, d.methods[i].signature)
      ensures full ==> SurrenderedSignature(d.methods[i].signature)
    {
      SignatureClean(ig, c.methods[i].signature, full);
    }
  }

  lemma CallClean(ig: IgnoredDefinitions, s: CallSiteFact)
    ensures CleanCall(ig, DemoteCall(ig, s))
  {
    SignatureClean(ig, s.signature, true);
  }

  /** After demotion no type, default, descriptor, target, site or binding mentions an ignored definition. */
  lemma DemotionIsClean(ig: IgnoredDefinitions, facts: ModuleTypeFacts)
    ensures Clean(ig, DemoteWith(ig, facts))
  {
    var d := DemoteWith(ig, facts);
    forall i | 0 <= i < |facts.classes| ensures CleanClass(ig, d.classes[i]) {
      ClassClean(ig, facts.classes[i]);
    }
    forall i | 0 <= i < |facts.functions| ensures CleanFunction(ig, d.functions[i]) {
      SignatureClean(ig, facts.functions[i].signature, ig.Identity(facts.functions[i].identity));
    }
    RetainedMembers(ig, facts.nominalBindings);
    forall i | 0 <= i < |d.nominalBindings| ensures Keeps(ig, d.nominalBindings[i]) {
      assert d.nominalBindings[i] in d.nominalBindings;
    }
    forall i | 0 <= i < |facts.attributeSites| ensures CleanSite(ig, d.attributeSites[i]) {
      assert d.attributeSites[i] == DemoteSite(ig, facts.attributeSites[i]);
    }
    forall i | 0 <= i < |facts.callSites| ensures CleanCall(ig, d.callSites[i]) {
      CallClean(ig, facts.callSites[i]);
    }
  }

  // ----- Everything else is untouched, part by part -----

  /** An uncertainty set gains the one reason exactly where something was given up. */
  ghost predicate Noted(before: set<UncertaintyReason>, after: set<UncertaintyReason>, affected: bool) {
    && before <= after <= before + {IGNORED_DIAGNOSTIC}
    && (affected ==> IGNORED_DIAGNOSTIC in after) && (!affected ==> after == before)
  }

  ghost predicate ParameterKept(ig: IgnoredDefinitions, before: ParameterTypeFact, after: ParameterTypeFact) {
    && (ValueReferences(ig, before.valueType) || after.valueType == before.valueType)
    && (DefaultReferences(ig, before.default) || after.default == before.default)
  }

  /** A signature that no ignored definition owns loses only the parts that refer to one. */
  ghost predicate SignatureKept(
    ig: IgnoredDefinitions, before: CallableSignature, after: CallableSignature, owned: bool)
  {
    && |after.parameters| == |before.parameters| && after.returnOrigin == before.returnOrigin
    && Noted(before.uncertainty, after.uncertainty, owned || SignatureReferences(ig, before))
    && (forall i :: 0 <= i < |before.parameters| ==>
          after.parameters[i] ==
          before.parameters[i].(valueType := after.parameters[i].valueType, default := after.parameters[i].default))
    && (!owned ==>
          && (ValueReferences(ig, before.returnType) || after.returnType == before.returnType)
          && forall i :: 0 <= i < |before.parameters| ==>
               ParameterKept(ig, before.parameters[i], after.parameters[i]))
  }

  ghost predicate BindingKept(ig: IgnoredDefinitions, before: GlobalBindingFact, after: GlobalBindingFact) {
    var owned, refers := BindingFull(ig, before), ValueReferences(ig, before.valueType);
    && after == before.(valueType := after.valueType, uncertainty := after.uncertainty)
    && Noted(before.uncertainty, after.uncertainty, owned || refers)
    && (owned || refers || after.valueType == before.valueType)
  }

  ghost predicate FieldRefers(ig: IgnoredDefinitions, f: FieldTypeFact) {
    ValueReferences(ig, f.valueType) || DefaultReferences(ig, f.default) || DescriptorReferences(ig, f.descriptor)
  }

  ghost predicate FieldKept(ig: IgnoredDefinitions, before: FieldTypeFact, after: FieldTypeFact, owned: bool) {
    && after.name == before.name && after.declaringClass == before.declaringClass
    && after.origin == before.origin && after.annotationDefinition == before.annotationDefinition
    && Noted(before.uncertainty, after.uncertainty, owned || FieldRefers(ig, before))
    && (!owned ==>
          && (ValueReferences(ig, before.valueType) || after.valueType == before.valueType)
          && (DefaultReferences(ig, before.default) || after.default == before.default)
          && (DescriptorReferences(ig, before.descriptor) || after.descriptor == before.descriptor)
          && after.fieldKind == before.fieldKind && after.readPolicy == before.readPolicy
          && after.writePolicy == before.writePolicy && after.initialization == before.initialization)
  }

  ghost predicate MethodKept(ig: IgnoredDefinitions, before: MethodTypeFact, after: MethodTypeFact, owned: bool) {
    && after == before.(signature := after.signature, overridePolicy := after.overridePolicy,
                        uncertainty := after.uncertainty)
    && SignatureKept(ig, before.signature, after.signature, owned)
    && Noted(before.uncertainty, after.uncertainty, owned || SignatureReferences(ig, before.signature))
    && (!owned ==> after.overridePolicy == before.overridePolicy)
  }

  ghost predicate MemberKept(ig: IgnoredDefinitions, before: ClassMemberFact, after: ClassMemberFact, owned: bool) {
    var refers := ValueReferences(ig, before.valueType) || DescriptorReferences(ig, before.descriptor);
    && after == before.(valueType := after.valueType, descriptor := after.descriptor, kind := after.kind,
                        uncertainty := after.uncertainty)
    && Noted(before.uncertainty, after.uncertainty, owned || refers)
    && (!owned ==>
          && (ValueReferences(ig, before.valueType) || after.valueType == before.valueType)
          && (DescriptorReferences(ig, before.descriptor) || after.descriptor == before.descriptor)
          && after.kind == before.kind)
  }

  /** Only an ignored class gives up its own proposals, and its reasons for being dynamic grow by one at most. */
  ghost predicate ProposalsKept(before: ClassTypeFact, after: ClassTypeFact, owned: bool) {
    && after.identity == before.identity && after.bases == before.bases && after.metaclass == before.metaclass
    && after.decorators == before.decorators && after.transform == before.transform
    && after.inheritance.linearizedBases == before.inheritance.linearizedBases
    && Noted(before.uncertainty, after.uncertainty, owned)
    && (after.participation.Dynamic? && owned ==>
          after.participation.reasons <=
          (if before.participation.Dynamic? then before.participation.reasons else {}) + {DYNAMIC_IGNORED_DIAGNOSTIC})
    && (!owned ==>
          && after.participation == before.participation && after.dictionary == before.dictionary
          && after.inheritance == before.inheritance && after.openness == before.openness)
  }

  ghost predicate ClassKept(ig: IgnoredDefinitions, before: ClassTypeFact, after: ClassTypeFact) {
    var owned := ig.Identity(before.identity);
    && ProposalsKept(before, after, owned)
    && |after.instanceFields| == |before.instanceFields| && |after.methods| == |before.methods|
    && |after.classMembers| == |before.classMembers|
    && (forall i :: 0 <= i < |before.instanceFields| ==>
          var f := before.instanceFields[i]; FieldKept(ig, f, after.instanceFields[i], FieldFull(ig, f, owned)))
    && (forall i :: 0 <= i < |before.methods| ==> MethodKept(ig, before.methods[i], after.methods[i], owned))
    && (forall i :: 0 <= i < |before.classMembers| ==>
          MemberKept(ig, before.classMembers[i], after.classMembers[i], owned))
  }

  ghost predicate FunctionKept(ig: IgnoredDefinitions, before: FunctionTypeFact, after: FunctionTypeFact) {
    var owned := ig.Identity(before.identity);
    && after == before.(signature := after.signature, uncertainty := after.uncertainty)
    && SignatureKept(ig, before.signature, after.signature, owned)
    && Noted(before.uncertainty, after.uncertainty, owned || SignatureReferences(ig, before.signature))
  }

  /** The bindings that mention no ignored definition, each as often and in the order in which they were listed. */
  ghost predicate KeptInOrder(ig: IgnoredDefinitions, before: seq<NominalBindingFact>, after: seq<NominalBindingFact>) {
    exists at :: Selects(ig, before, after, at)
  }

  ghost predicate Selects(
    ig: IgnoredDefinitions, before: seq<NominalBindingFact>, after: seq<NominalBindingFact>, at: seq<nat>)
  {
    && |at| == |after| && (forall j, k :: 0 <= j < k < |at| ==> at[j] < at[k])
    && (forall k :: 0 <= k < |at| ==> at[k] < |before| && after[k] == before[at[k]])
    && (forall i :: 0 <= i < |before| ==> (Keeps(ig, before[i]) <==> i in at))
  }

  /** A site is demoted as a whole: one part that refers costs it all its proposals. */
  ghost predicate SiteKept(ig: IgnoredDefinitions, before: AttributeSiteFact, after: AttributeSiteFact) {
    && after.identity == before.identity && after.name == before.name && after.access == before.access
    && (after.valueType.Some? <==> before.valueType.Some?)
    && (!SiteAffected(ig, before) ==> after == before)
    && (SiteAffected(ig, before) ==> SurrenderedSite(after) && Noted(before.uncertainty, after.uncertainty, true))
  }

  ghost predicate CallKept(ig: IgnoredDefinitions, before: CallSiteFact, after: CallSiteFact) {
    && after.identity == before.identity && after.attributeName == before.attributeName
    && (after.receiver.Some? <==> before.receiver.Some?)
    && (!CallAffected(ig, before) ==> after == before)
    && (CallAffected(ig, before) ==>
          && SurrenderedCall(after) && SignatureKept(ig, before.signature, after.signature, true)
          && (after.receiver.Some? ==>
                Noted(before.receiver.value.uncertainty, after.receiver.value.uncertainty, true)))
  }

  /** Every value that is neither owned by nor refers to an ignored definition is what it was. */
  ghost predicate Untouched(ig: IgnoredDefinitions, before: ModuleTypeFacts, after: ModuleTypeFacts) {
    && after == before.(globalBindings := after.globalBindings, classes := after.classes, functions := after.functions,
                        nominalBindings := after.nominalBindings, attributeSites := after.attributeSites,
                        callSites := after.callSites)
    && |after.globalBindings| == |before.globalBindings| && |after.classes| == |before.classes|
    && |after.functions| == |before.functions| && |after.attributeSites| == |before.attributeSites|
    && |after.callSites| == |before.callSites|
    && (forall i :: 0 <= i < |before.globalBindings| ==>
          BindingKept(ig, before.globalBindings[i], after.globalBindings[i]))
    && (forall i :: 0 <= i < |before.classes| ==> ClassKept(ig, before.classes[i], after.classes[i]))
    && (forall i :: 0 <= i < |before.functions| ==> FunctionKept(ig, before.functions[i], after.functions[i]))
    && KeptInOrder(ig, before.nominalBindings, after.nominalBindings)
    && (forall i :: 0 <= i < |before.attributeSites| ==>
          SiteKept(ig, before.attributeSites[i], after.attributeSites[i]))
    && (forall i :: 0 <= i < |before.callSites| ==> CallKept(ig, before.callSites[i], after.callSites[i]))
  }

  lemma SignatureIsKept(ig: IgnoredDefinitions, s: CallableSignature, owned: bool)
    ensures SignatureKept(ig, s, DemoteSignature(ig, s, owned), owned)
  {
    var d := DemoteSignature(ig, s, owned);
    forall i | 0 <= i < |s.parameters|
      ensures d.parameters[i] == DemoteParameter(ig, s.parameters[i], owned)
      ensures !owned ==> (ParameterAffected(ig, s.parameters[i], owned) <==> ParameterReferences(ig, s.parameters[i]))
    {
    }
    assert SignatureAffected(ig, s, owned) <==> owned || SignatureReferences(ig, s);
  }

  lemma FieldIsKept(ig: IgnoredDefinitions, f: FieldTypeFact, full: bool)
    ensures FieldKept(ig, f, DemoteField(ig, f, full), FieldFull(ig, f, full))
  {
  }

  lemma ClassIsKept(ig: IgnoredDefinitions, c: ClassTypeFact)
    ensures ClassKept(ig, c, DemoteClass(ig, c))
  {
    var owned, d := ig.Identity(c.identity), DemoteClass(ig, c);
    forall i | 0 <= i < |c.instanceFields|
      ensures FieldKept(ig, c.instanceFields[i], d.instanceFields[i], FieldFull(ig, c.instanceFields[i], owned))
    {
      FieldIsKept(ig, c.instanceFields[i], owned);
    }
    forall i | 0 <= i < |c.methods| ensures MethodKept(ig, c.methods[i], d.methods[i], owned) {
      MethodIsKept(ig, c.methods[i], owned);
    }
    forall i | 0 <= i < |c.classMembers| ensures MemberKept(ig, c.classMembers[i], d.classMembers[i], owned) {
      assert d.classMembers[i] == DemoteMember(ig, c.classMembers[i], owned);
    }
  }

  lemma MethodIsKept(ig: IgnoredDefinitions, m: MethodTypeFact, owned: bool)
    ensures MethodKept(ig, m, DemoteMethod(ig, m, owned), owned)
  {
    SignatureIsKept(ig, m.signature, owned);
    AffectedMeansRefers(ig, m.signature, owned);
  }

  lemma FunctionIsKept(ig: IgnoredDefinitions, f: FunctionTypeFact)
    ensures FunctionKept(ig, f, DemoteFunction(ig, f))
  {
    SignatureIsKept(ig, f.signature, ig.Identity(f.identity));
    AffectedMeansRefers(ig, f.signature, ig.Identity(f.identity));
  }

  lemma CallIsKept(ig: IgnoredDefinitions, s: CallSiteFact)
    ensures CallKept(ig, s, DemoteCall(ig, s))
  {
    SignatureIsKept(ig, s.signature, true);
    SignatureClean(ig, s.signature, true);
  }

  lemma {:induction false} RetainedSelects(ig: IgnoredDefinitions, bs: seq<NominalBindingFact>) returns (at: seq<nat>)
    ensures Selects(ig, bs, Retained(ig, bs), at)
  {
    if bs == [] {
      at := [];
    } else {
      var front := bs[..|bs| - 1];
      var inner := RetainedSelects(ig, front);
      at := inner + if Keeps(ig, bs[|bs| - 1]) then [|bs| - 1] else [];
      forall i | 0 <= i < |bs| ensures Keeps(ig, bs[i]) <==> i in at {
        if i < |bs| - 1 {
          assert front[i] == bs[i];
        }
      }
    }
  }

  lemma DemotionTouchesNothingElse(ig: IgnoredDefinitions, facts: ModuleTypeFacts)
    ensures Untouched(ig, facts, DemoteWith(ig, facts))
  {
    var d := DemoteWith(ig, facts);
    forall i | 0 <= i < |facts.classes| ensures ClassKept(ig, facts.classes[i], d.classes[i]) {
      ClassIsKept(ig, facts.classes[i]);
    }
    forall i | 0 <= i < |facts.functions| ensures FunctionKept(ig, facts.functions[i], d.functions[i]) {
      FunctionIsKept(ig, facts.functions[i]);
    }
    var at := RetainedSelects(ig, facts.nominalBindings);
    forall i | 0 <= i < |facts.attributeSites| ensures SiteKept(ig, facts.attributeSites[i], d.attributeSites[i]) {
      assert d.attributeSites[i] == DemoteSite(ig, facts.attributeSites[i]);
    }
    forall i | 0 <= i < |facts.callSites| ensures CallKept(ig, facts.callSites[i], d.callSites[i]) {
      CallIsKept(ig, facts.callSites[i]);
    }
  }

  /** Both halves at once, for the set the source computes. */
  lemma DemotionExact(facts: ModuleTypeFacts)
    ensures Clean(Ignored(facts), Demoted(facts))
    ensures Untouched(Ignored(facts), facts, Demoted(facts))
  {
    EarlyReturnAgrees(facts);
    DemotionIsClean(Ignored(facts), facts);
    DemotionTouchesNothingElse(Ignored(facts), facts);
  }

  // ----- Precision only ever falls -----

  predicate CoarserValue(a: StaticType, b: StaticType) { a == Unknown || a == b }

  predicate CoarserDefault(a: DefaultFact, b: DefaultFact) { a == b || (a == DefaultUnknown && b != Missing) }

  predicate CoarserDescriptor(a: DescriptorFact, b: DescriptorFact) { a == b || a == UNKNOWN_DESCRIPTOR }

  ghost predicate CoarserParameter(a: ParameterTypeFact, b: ParameterTypeFact) {
    && a == b.(valueType := a.valueType, default := a.default)
    && CoarserValue(a.valueType, b.valueType) && CoarserDefault(a.default, b.default)
  }

  ghost predicate CoarserSignature(a: CallableSignature, b: CallableSignature) {
    && |a.parameters| == |b.parameters| && a.returnOrigin == b.returnOrigin && b.uncertainty <= a.uncertainty
    && CoarserValue(a.returnType, b.returnType)
    && forall i :: 0 <= i < |a.parameters| ==> CoarserParameter(a.parameters[i], b.parameters[i])
  }

  predicate CoarserBinding(a: GlobalBindingFact, b: GlobalBindingFact) {
    && a == b.(valueType := a.valueType, uncertainty := a.uncertainty)
    && CoarserValue(a.valueType, b.valueType) && b.uncertainty <= a.uncertainty
  }

  predicate CoarserField(a: FieldTypeFact, b: FieldTypeFact) {
    && a.name == b.name && a.declaringClass == b.declaringClass && a.origin == b.origin
    && a.annotationDefinition == b.annotationDefinition
    && CoarserValue(a.valueType, b.valueType) && CoarserDefault(a.default, b.default)
    && CoarserDescriptor(a.descriptor, b.descriptor) && b.uncertainty <= a.uncertainty
    && (a.fieldKind == DynamicField || a.fieldKind == b.fieldKind)
    && (a.readPolicy == READ_PYTHON_ATTRIBUTE || a.readPolicy == b.readPolicy)
    && (a.writePolicy == WRITE_DYNAMIC || a.writePolicy == b.writePolicy)
    && (a.initialization == INITIALIZATION_UNKNOWN || a.initialization == b.initialization)
  }

  ghost predicate CoarserMethod(a: MethodTypeFact, b: MethodTypeFact) {
    && a == b.(signature := a.signature, overridePolicy := a.overridePolicy, uncertainty := a.uncertainty)
    && CoarserSignature(a.signature, b.signature) && b.uncertainty <= a.uncertainty
    && (a.overridePolicy == OVERRIDE_DYNAMIC || a.overridePolicy == b.overridePolicy)
  }

  predicate CoarserMember(a: ClassMemberFact, b: ClassMemberFact) {
    && a == b.(valueType := a.valueType, descriptor := a.descriptor, kind := a.kind, uncertainty := a.uncertainty)
    && CoarserValue(a.valueType, b.valueType) && CoarserDescriptor(a.descriptor, b.descriptor)
    && b.uncertainty <= a.uncertainty && (a.kind == MEMBER_DYNAMIC || a.kind == b.kind)
  }

  predicate CoarserParticipation(a: ParticipationProposal, b: ParticipationProposal) {
    a == b || (a.Dynamic? && (b.Dynamic? ==> b.reasons <= a.reasons))
  }

  ghost predicate CoarserClass(a: ClassTypeFact, b: ClassTypeFact) {
    && a.identity == b.identity && a.bases == b.bases && a.metaclass == b.metaclass && a.decorators == b.decorators
    && a.transform == b.transform && a.inheritance.linearizedBases == b.inheritance.linearizedBases
    && CoarserParticipation(a.participation, b.participation)
    && (a.dictionary == DICTIONARY_UNKNOWN || a.dictionary == b.dictionary)
    && (a.openness == OPENNESS_UNKNOWN || a.openness == b.openness)
    && (a.inheritance.complete ==> b.inheritance.complete) && b.uncertainty <= a.uncertainty
    && |a.instanceFields| == |b.instanceFields| && |a.methods| == |b.methods| && |a.classMembers| == |b.classMembers|
    && (forall i :: 0 <= i < |a.instanceFields| ==> CoarserField(a.instanceFields[i], b.instanceFields[i]))
    && (forall i :: 0 <= i < |a.methods| ==> CoarserMethod(a.methods[i], b.methods[i]))
    && (forall i :: 0 <= i < |a.classMembers| ==> CoarserMember(a.classMembers[i], b.classMembers[i]))
  }

  ghost predicate CoarserFunction(a: FunctionTypeFact, b: FunctionTypeFact) {
    && a == b.(signature := a.signature, uncertainty := a.uncertainty)
    && CoarserSignature(a.signature, b.signature) && b.uncertainty <= a.uncertainty
  }

  predicate CoarserSite(a: AttributeSiteFact, b: AttributeSiteFact) {
    && a.identity == b.identity && a.name == b.name && a.access == b.access && b.uncertainty <= a.uncertainty
    && CoarserValue(a.receiverType, b.receiverType)
    && (a.valueType == b.valueType || (a.valueType == Some(Unknown) && b.valueType.Some?))
    && (a.declaringClass.None? || a.declaringClass == b.declaringClass)
  }

  ghost predicate CoarserCall(a: CallSiteFact, b: CallSiteFact) {
    && a.identity == b.identity && a.attributeName == b.attributeName
    && (a.receiver.Some? <==> b.receiver.Some?)
    && (a.receiver.Some? ==>
          && CoarserValue(a.receiver.value.valueType, b.receiver.value.valueType)
          && b.receiver.value.uncertainty <= a.receiver.value.uncertainty)
    && (a.candidateTargets == [DynamicTarget] || a.candidateTargets == b.candidateTargets)
    && (a.binding == BINDING_DYNAMIC || a.binding == b.binding)
    && CoarserSignature(a.signature, b.signature) && CoarserValue(a.resultType, b.resultType)
    && (a.uncertainty == CALL_DYNAMIC || a.uncertainty == b.uncertainty)
  }

  /** `a` proposes nothing that `b` does not propose at least as precisely. */
  ghost predicate Coarser(a: ModuleTypeFacts, b: ModuleTypeFacts) {
    && |a.globalBindings| == |b.globalBindings| && |a.classes| == |b.classes| && |a.functions| == |b.functions|
    && |a.attributeSites| == |b.attributeSites| && |a.callSites| == |b.callSites|
    && (forall i :: 0 <= i < |a.globalBindings| ==> CoarserBinding(a.globalBindings[i], b.globalBindings[i]))
    && (forall i :: 0 <= i < |a.classes| ==> CoarserClass(a.classes[i], b.classes[i]))
    && (forall i :: 0 <= i < |a.functions| ==> CoarserFunction(a.functions[i], b.functions[i]))
    && (forall x :: x in a.nominalBindings ==> x in b.nominalBindings)
    && (forall i :: 0 <= i < |a.attributeSites| ==> CoarserSite(a.attributeSites[i], b.attributeSites[i]))
    && (forall i :: 0 <= i < |a.callSites| ==> CoarserCall(a.callSites[i], b.callSites[i]))
  }

  lemma SignatureCoarsens(ig: IgnoredDefinitions, s: CallableSignature, full: bool)
    ensures CoarserSignature(DemoteSignature(ig, s, full), s)
  {
  }

  lemma ClassCoarsens(ig: IgnoredDefinitions, c: ClassTypeFact)
    ensures CoarserClass(DemoteClass(ig, c), c)
  {
    var full, d := ig.Identity(c.identity), DemoteClass(ig, c);
    forall i | 0 <= i < |c.methods| ensures CoarserMethod(d.methods[i], c.methods[i]) {
      SignatureCoarsens(ig, c.methods[i].signature, full);
    }
  }

  lemma CallCoarsens(ig: IgnoredDefinitions, s: CallSiteFact)
    ensures CoarserCall(DemoteCall(ig, s), s)
  {
    SignatureCoarsens(ig, s.signature, true);
  }

  lemma DemotionCoarsens(ig: IgnoredDefinitions, facts: ModuleTypeFacts)
    ensures Coarser(DemoteWith(ig, facts), facts)
  {
    var d := DemoteWith(ig, facts);
    forall i | 0 <= i < |facts.classes| ensures CoarserClass(d.classes[i], facts.classes[i]) {
      ClassCoarsens(ig, facts.classes[i]);
    }
    forall i | 0 <= i < |facts.functions| ensures CoarserFunction(d.functions[i], facts.functions[i]) {
      SignatureCoarsens(ig, facts.functions[i].signature, ig.Identity(facts.functions[i].identity));
    }
    RetainedMembers(ig, facts.nominalBindings);
    forall i | 0 <= i < |facts.callSites| ensures CoarserCall(d.callSites[i], facts.callSites[i]) {
      CallCoarsens(ig, facts.callSites[i]);
    }
  }

  /** Adding diagnostics, suppressed or not and wherever they stand, never makes any fact more precise. */
  lemma DemotionMonotone(facts: ModuleTypeFacts, diagnostics: seq<StrictDiagnostic>)
    requires forall d :: d in facts.diagnostics ==> d in diagnostics
    ensures Coarser(Demoted(facts.(diagnostics := diagnostics)), Demoted(facts))
  {
    var facts' := facts.(diagnostics := diagnostics);
    var ig, ig' := Ignored(facts), Ignored(facts');
    EarlyReturnAgrees(facts);
    EarlyReturnAgrees(facts');
    IgnoredGrows(facts, diagnostics);
    WholeModuleGrows(facts, diagnostics);
    DemoteAbsorbs(ig, ig', facts);
    DemotionCoarsens(ig', DemoteWith(ig, facts));
    assert DemoteWith(ig', facts') == DemoteWith(ig', facts).(diagnostics := diagnostics);
  }

  lemma WholeModuleGrows(facts: ModuleTypeFacts, diagnostics: seq<StrictDiagnostic>)
    requires forall d :: d in facts.diagnostics ==> d in diagnostics
    ensures Ignored(facts).wholeModule ==> Ignored(facts.(diagnostics := diagnostics)).wholeModule
  {
    var facts' := facts.(diagnostics := diagnostics);
    IgnoredIsLeast(facts, {});
    IgnoredIsLeast(facts', {});
    SeedsGrow(facts, facts');
  }

  // ----- No other result would do -----

  lemma NotedOnce(before: set<UncertaintyReason>, after: set<UncertaintyReason>, affected: bool)
    requires Noted(before, after, affected)
    ensures after == Marked(before, affected)
  {
  }

  lemma SignatureDetermined(ig: IgnoredDefinitions, b: CallableSignature, a: CallableSignature, owned: bool)
    requires CoarserSignature(a, b) && !SignatureReferences(ig, a) && SignatureKept(ig, b, a, owned)
    requires owned ==> SurrenderedSignature(a)
    ensures a == DemoteSignature(ig, b, owned)
  {
    NotedOnce(b.uncertainty, a.uncertainty, owned || SignatureReferences(ig, b));
    AffectedMeansRefers(ig, b, owned);
    var d := DemoteSignature(ig, b, owned);
    forall i | 0 <= i < |b.parameters| ensures a.parameters[i] == d.parameters[i] {
      assert CoarserParameter(a.parameters[i], b.parameters[i]);
      assert !ParameterReferences(ig, a.parameters[i]);
      assert d.parameters[i] == DemoteParameter(ig, b.parameters[i], owned);
    }
    assert a.parameters == d.parameters;
  }

  lemma FieldDetermined(ig: IgnoredDefinitions, b: FieldTypeFact, a: FieldTypeFact, full: bool)
    requires CoarserField(a, b) && CleanField(ig, a) && FieldKept(ig, b, a, FieldFull(ig, b, full))
    requires full ==> SurrenderedField(a)
    ensures a == DemoteField(ig, b, full)
  {
    var owned := FieldFull(ig, b, full);
    NotedOnce(b.uncertainty, a.uncertainty, owned || FieldRefers(ig, b));
    assert owned ==> SurrenderedField(a);
    assert FieldAffected(ig, b, full) <==> owned || FieldRefers(ig, b);
  }

  lemma MethodDetermined(ig: IgnoredDefinitions, b: MethodTypeFact, a: MethodTypeFact, owned: bool)
    requires CoarserMethod(a, b) && !SignatureReferences(ig, a.signature) && MethodKept(ig, b, a, owned)
    requires owned ==> SurrenderedSignature(a.signature) && a.overridePolicy == OVERRIDE_DYNAMIC
    ensures a == DemoteMethod(ig, b, owned)
  {
    SignatureDetermined(ig, b.signature, a.signature, owned);
    AffectedMeansRefers(ig, b.signature, owned);
    NotedOnce(b.uncertainty, a.uncertainty, owned || SignatureReferences(ig, b.signature));
  }

  lemma MemberDetermined(ig: IgnoredDefinitions, b: ClassMemberFact, a: ClassMemberFact, owned: bool)
    requires CoarserMember(a, b) && CleanMember(ig, a) && MemberKept(ig, b, a, owned)
    requires owned ==> a.valueType == Unknown && a.descriptor == UNKNOWN_DESCRIPTOR && a.kind == MEMBER_DYNAMIC
    ensures a == DemoteMember(ig, b, owned)
  {
    NotedOnce(b.uncertainty, a.uncertainty, MemberAffected(ig, b, owned));
  }

  lemma ProposalsDetermined(ig: IgnoredDefinitions, b: ClassTypeFact, a: ClassTypeFact, owned: bool)
    requires CoarserClass(a, b) && ProposalsKept(b, a, owned) && (owned ==> SurrenderedClass(a))
    ensures a.participation == DemoteParticipation(b.participation, owned)
    ensures a.dictionary == (if owned then DICTIONARY_UNKNOWN else b.dictionary)
    ensures a.openness == (if owned then OPENNESS_UNKNOWN else b.openness)
    ensures a.inheritance == (if owned then b.inheritance.(complete := false) else b.inheritance)
    ensures a.uncertainty == Marked(b.uncertainty, owned)
  {
    NotedOnce(b.uncertainty, a.uncertainty, owned);
    if owned && b.participation.Dynamic? {
      assert a.participation.reasons == b.participation.reasons + {DYNAMIC_IGNORED_DIAGNOSTIC};
    }
  }

  lemma ClassDetermined(ig: IgnoredDefinitions, b: ClassTypeFact, a: ClassTypeFact)
    requires CoarserClass(a, b) && CleanClass(ig, a) && ClassKept(ig, b, a)
    ensures a == DemoteClass(ig, b)
  {
    var owned, d := ig.Identity(b.identity), DemoteClass(ig, b);
    ProposalsDetermined(ig, b, a, owned);
    forall i | 0 <= i < |b.instanceFields| ensures a.instanceFields[i] == d.instanceFields[i] {
      FieldDetermined(ig, b.instanceFields[i], a.instanceFields[i], owned);
    }
    forall i | 0 <= i < |b.methods| ensures a.methods[i] == d.methods[i] {
      MethodDetermined(ig, b.methods[i], a.methods[i], owned);
    }
    forall i | 0 <= i < |b.classMembers| ensures a.classMembers[i] == d.classMembers[i] {
      MemberDetermined(ig, b.classMembers[i], a.classMembers[i], owned);
    }
    assert a.instanceFields == d.instanceFields && a.methods == d.methods && a.classMembers == d.classMembers;
  }

  lemma FunctionDetermined(ig: IgnoredDefinitions, b: FunctionTypeFact, a: FunctionTypeFact)
    requires CoarserFunction(a, b) && CleanFunction(ig, a) && FunctionKept(ig, b, a)
    ensures a == DemoteFunction(ig, b)
  {
    var owned := ig.Identity(b.identity);
    SignatureDetermined(ig, b.signature, a.signature, owned);
    AffectedMeansRefers(ig, b.signature, owned);
    NotedOnce(b.uncertainty, a.uncertainty, owned || SignatureReferences(ig, b.signature));
  }

  lemma SiteDetermined(ig: IgnoredDefinitions, b: AttributeSiteFact, a: AttributeSiteFact)
    requires SiteKept(ig, b, a)
    ensures a == DemoteSite(ig, b)
  {
    if SiteAffected(ig, b) {
      NotedOnce(b.uncertainty, a.uncertainty, true);
    }
  }

  lemma CallDetermined(ig: IgnoredDefinitions, b: CallSiteFact, a: CallSiteFact)
    requires CoarserCall(a, b) && CleanCall(ig, a) && CallKept(ig, b, a)
    ensures a == DemoteCall(ig, b)
  {
    if CallAffected(ig, b) {
      SignatureDetermined(ig, b.signature, a.signature, true);
      if a.receiver.Some? {
        NotedOnce(b.receiver.value.uncertainty, a.receiver.value.uncertainty, true);
      }
    }
  }

  lemma {:induction false} SelectionDetermined(
    ig: IgnoredDefinitions, bs: seq<NominalBindingFact>, after: seq<NominalBindingFact>, at: seq<nat>)
    requires Selects(ig, bs, after, at)
    ensures after == Retained(ig, bs)
  {
    if bs == [] {
      assert |at| == 0;
    } else if Keeps(ig, bs[|bs| - 1]) {
      SelectedLast(ig, bs, after, at);
      SelectionDetermined(ig, bs[..|bs| - 1], after[..|at| - 1], at[..|at| - 1]);
      assert after == after[..|at| - 1] + [after[|at| - 1]];
    } else {
      SelectsFront(ig, bs, after, at);
      SelectionDetermined(ig, bs[..|bs| - 1], after, at);
    }
  }

  lemma SelectedLast(ig: IgnoredDefinitions, bs: seq<NominalBindingFact>, after: seq<NominalBindingFact>, at: seq<nat>)
    requires bs != [] && Keeps(ig, bs[|bs| - 1]) && Selects(ig, bs, after, at)
    ensures at != [] && after[|at| - 1] == bs[|bs| - 1]
    ensures Selects(ig, bs[..|bs| - 1], after[..|at| - 1], at[..|at| - 1])
  {
    var n, m := |bs| - 1, |at| - 1;
    LastSelected(at, n);
    forall i | 0 <= i < n ensures Keeps(ig, bs[i]) <==> i in at[..m] {
      if i in at {
        var k :| 0 <= k < |at| && at[k] == i;
        assert at[..m][k] == i;
      }
    }
    SelectsFront(ig, bs, after[..m], at[..m]);
  }

  lemma LastSelected(at: seq<nat>, n: nat)
    requires n in at && (forall j, k :: 0 <= j < k < |at| ==> at[j] < at[k]) && forall k :: 0 <= k < |at| ==> at[k] <= n
    ensures at[|at| - 1] == n
  {
    var k :| 0 <= k < |at| && at[k] == n;
  }

  lemma SelectsFront(ig: IgnoredDefinitions, bs: seq<NominalBindingFact>, after: seq<NominalBindingFact>, at: seq<nat>)
    requires bs != [] && |at| == |after| && (forall j, k :: 0 <= j < k < |at| ==> at[j] < at[k])
    requires forall k :: 0 <= k < |at| ==> at[k] < |bs| - 1 && after[k] == bs[at[k]]
    requires forall i :: 0 <= i < |bs| - 1 ==> (Keeps(ig, bs[i]) <==> i in at)
    ensures Selects(ig, bs[..|bs| - 1], after, at)
  {
    var front := bs[..|bs| - 1];
    forall i | 0 <= i < |front| ensures Keeps(ig, front[i]) <==> i in at {
      assert front[i] == bs[i];
    }
  }

  /**
    Demotion is the only coarsening that mentions no ignored definition and touches nothing else: giving up
    less would leave a mention, and giving up more would touch a part that nothing ignored owns or is
    mentioned in.
   */
  lemma DemotionDetermined(ig: IgnoredDefinitions, facts: ModuleTypeFacts, other: ModuleTypeFacts)
    requires Coarser(other, facts) && Clean(ig, other) && Untouched(ig, facts, other)
    ensures other == DemoteWith(ig, facts)
  {
    var d := DemoteWith(ig, facts);
    BindingsDetermined(ig, facts, other);
    forall i | 0 <= i < |facts.classes| ensures other.classes[i] == d.classes[i] {
      ClassDetermined(ig, facts.classes[i], other.classes[i]);
    }
    forall i | 0 <= i < |facts.functions| ensures other.functions[i] == d.functions[i] {
      FunctionDetermined(ig, facts.functions[i], other.functions[i]);
    }
    var at :| Selects(ig, facts.nominalBindings, other.nominalBindings, at);
    SelectionDetermined(ig, facts.nominalBindings, other.nominalBindings, at);
    forall i | 0 <= i < |facts.attributeSites| ensures other.attributeSites[i] == d.attributeSites[i] {
      SiteDetermined(ig, facts.attributeSites[i], other.attributeSites[i]);
    }
    forall i | 0 <= i < |facts.callSites| ensures other.callSites[i] == d.callSites[i] {
      CallDetermined(ig, facts.callSites[i], other.callSites[i]);
    }
    assert other.classes == d.classes && other.functions == d.functions;
    assert other.attributeSites == d.attributeSites && other.callSites == d.callSites;
  }

  lemma BindingsDetermined(ig: IgnoredDefinitions, facts: ModuleTypeFacts, other: ModuleTypeFacts)
    requires Coarser(other, facts) && Clean(ig, other) && Untouched(ig, facts, other)
    ensures other.globalBindings == DemoteBindings(ig, facts.globalBindings)
  {
    forall i | 0 <= i < |facts.globalBindings|
      ensures other.globalBindings[i] == DemoteBinding(ig, facts.globalBindings[i])
    {
      var b, a := facts.globalBindings[i], other.globalBindings[i];
      assert BindingKept(ig, b, a) && CoarserBinding(a, b);
      NotedOnce(b.uncertainty, a.uncertainty, ValueAffected(ig, b.valueType, BindingFull(ig, b)));
    }
  }

  // ----- Runtime write checks -----

  /** `ResolvedStrictPolicy::checked_attributes`: the first override for exactly this class, or the default. */
  function CheckedFields(policy: ResolvedStrictPolicy, range: SourceRange): bool {
    OverrideFor(policy.overrides, range, policy.checkedAttr)
  }

  function OverrideFor(rules: seq<ClassPolicyOverride>, range: SourceRange, default: bool): bool {
    if rules == [] then default
    else if rules[0].classRange == range then rules[0].checkedAttr
    else OverrideFor(rules[1..], range, default)
  }

  function RequiredType(checked: bool, origin: AnnotationOrigin, t: StaticType): Option<StaticType> {
    if checked && origin == Explicit && SupportedShape(t) then Some(t) else Option.None
  }

  function RequiredWriteType(f: FieldTypeFact, checked: bool): Option<StaticType> {
    if f.descriptor.kind != NotADescriptor
       || f.fieldKind !in {InstanceField, CallableInstanceField, ShadowableClassDefault}
    then Option.None
    else RequiredType(checked, f.origin, f.valueType)
  }

  predicate Requires(c: ClassTypeFact, policy: ResolvedStrictPolicy, f: FieldTypeFact) {
    f.declaringClass.definition == c.identity && RequiredWriteType(f, CheckedFields(policy, c.identity.range)).Some?
  }

  /** The fields whose writes are checked, in declaration order. */
  function RequiredFieldBindings(c: ClassTypeFact, policy: ResolvedStrictPolicy): seq<FieldTypeFact> {
    RequiredAmong(c, policy, c.instanceFields)
  }

  function RequiredAmong(c: ClassTypeFact, policy: ResolvedStrictPolicy, fs: seq<FieldTypeFact>): seq<FieldTypeFact> {
    if fs == [] then []
    else (if Requires(c, policy, fs[0]) then [fs[0]] else []) + RequiredAmong(c, policy, fs[1..])
  }

  /** The field keeps its declaration, annotation and type, whatever happened to its default. */
  predicate SameObligation(f: FieldTypeFact, g: FieldTypeFact) {
    && f.name == g.name && f.declaringClass == g.declaringClass && f.annotationDefinition == g.annotationDefinition
    && f.valueType == g.valueType && f.descriptor == g.descriptor
  }

  lemma RequiredAfterDemotion(ig: IgnoredDefinitions, c: ClassTypeFact, policy: ResolvedStrictPolicy, f: FieldTypeFact)
    ensures var g := DemoteField(ig, f, ig.Identity(c.identity));
            Requires(DemoteClass(ig, c), policy, g) <==>
              && Requires(c, policy, f) && !FieldFull(ig, f, ig.Identity(c.identity))
              && !ValueReferences(ig, f.valueType) && !DescriptorReferences(ig, f.descriptor)
  {
  }

  ghost predicate Undertaken(ig: IgnoredDefinitions, c: ClassTypeFact, policy: ResolvedStrictPolicy,
                             before: seq<FieldTypeFact>, g: FieldTypeFact) {
    && !ig.Identity(g.declaringClass.definition) && !ig.Some(g.annotationDefinition)
    && !ValueReferences(ig, g.valueType)
    && exists f :: f in before && Requires(c, policy, f) && SameObligation(f, g)
  }

  lemma {:induction false} RequiredAmongShrinks(
    ig: IgnoredDefinitions, c: ClassTypeFact, policy: ResolvedStrictPolicy, fs: seq<FieldTypeFact>)
    ensures var after := RequiredAmong(DemoteClass(ig, c), policy, DemoteFields(ig, fs, ig.Identity(c.identity)));
            && |after| <= |RequiredAmong(c, policy, fs)|
            && forall g :: g in after ==> Undertaken(ig, c, policy, fs, g)
  {
    if fs == [] {
    } else {
      var full := ig.Identity(c.identity);
      var gs := DemoteFields(ig, fs, full);
      assert gs[1..] == DemoteFields(ig, fs[1..], full);
      RequiredAmongShrinks(ig, c, policy, fs[1..]);
      RequiredAfterDemotion(ig, c, policy, fs[0]);
      var after := RequiredAmong(DemoteClass(ig, c), policy, gs);
      forall g | g in after ensures Undertaken(ig, c, policy, fs, g) {
        if g in RequiredAmong(DemoteClass(ig, c), policy, gs[1..]) {
          assert Undertaken(ig, c, policy, fs[1..], g);
          var f :| f in fs[1..] && Requires(c, policy, f) && SameObligation(f, g);
          assert f in fs;
        } else {
          assert g == gs[0] == DemoteField(ig, fs[0], full) && fs[0] in fs;
        }
      }
    }
  }

  /**
    Under every policy, each field whose writes a demoted class still checks was checked before with
    the same type, and none is declared by, annotated by, or typed with an ignored definition.
   */
  lemma DemotionOnlyDropsWriteChecks(ig: IgnoredDefinitions, c: ClassTypeFact, policy: ResolvedStrictPolicy)
    ensures |RequiredFieldBindings(DemoteClass(ig, c), policy)| <= |RequiredFieldBindings(c, policy)|
    ensures forall g :: g in RequiredFieldBindings(DemoteClass(ig, c), policy) ==>
              Undertaken(ig, c, policy, c.instanceFields, g)
  {
    RequiredAmongShrinks(ig, c, policy, c.instanceFields);
  }
}
