/**
  Demoting a module's facts before canonicalizing them makes no difference: sorting and normalizing commute
  with demotion catalogue by catalogue, and neither changes which definitions are ignored.
 */
module Commutation {
  import opened Ordering
  import opened Stability
  import opened Types
  import opened Normalization
  import opened Facts
  import opened Closure
  import opened Demotion
  import opened Canonical

  // ----- Rewriting element by element -----

  function Each<T>(g: T -> T, s: seq<T>): (r: seq<T>)
    ensures |r| == |s| && forall i :: 0 <= i < |s| ==> r[i] == g(s[i])
  {
    seq(|s|, i requires 0 <= i < |s| => g(s[i]))
  }

  ghost predicate RespectsKey<T(!new)>(g: T -> T, key: T -> Key) {
    forall x :: key(g(x)) == key(x)
  }

  /** Rewriting before or after normalizing is the same, whenever normalizing succeeds. */
  ghost predicate CommutesWith<T(!new)>(f: T -> Result<T>, g: T -> T) {
    forall x :: f(x).Ok? ==> f(g(x)) == Ok(g(f(x).value))
  }

  lemma EachCons<T>(g: T -> T, x: T, s: seq<T>)
    ensures Each(g, [x] + s) == [g(x)] + Each(g, s)
  {
  }

  lemma {:induction false} InsertEach<T(!new)>(g: T -> T, x: T, s: seq<T>, key: T -> Key)
    requires RespectsKey(g, key)
    ensures Insert(g(x), Each(g, s), key) == Each(g, Insert(x, s, key))
  {
    if s != [] && Less(key(s[0]), key(x)) {
      InsertEach(g, x, s[1..], key);
      assert s == [s[0]] + s[1..];
      EachCons(g, s[0], s[1..]);
      EachCons(g, s[0], Insert(x, s[1..], key));
      assert Each(g, s)[1..] == Each(g, s[1..]);
    } else {
      EachCons(g, x, s);
    }
  }

  lemma {:induction false} SortEach<T(!new)>(g: T -> T, s: seq<T>, key: T -> Key)
    requires RespectsKey(g, key)
    ensures SortBy(Each(g, s), key) == Each(g, SortBy(s, key))
  {
    if s == [] {
    } else {
      SortEach(g, s[1..], key);
      assert Each(g, s)[1..] == Each(g, s[1..]);
      InsertEach(g, s[0], SortBy(s[1..], key), key);
    }
  }

  lemma {:induction false} EachOkEach<T(!new)>(f: T -> Result<T>, g: T -> T, s: seq<T>)
    requires CommutesWith(f, g) && EachOk(f, s).Ok?
    ensures EachOk(f, Each(g, s)) == Ok(Each(g, EachOk(f, s).value))
  {
    if s == [] {
    } else {
      EachOkEach(f, g, s[1..]);
      assert Each(g, s)[1..] == Each(g, s[1..]);
      EachCons(g, f(s[0]).value, EachOk(f, s[1..]).value);
    }
  }

  /** Sorting and normalizing a catalogue commutes with rewriting each of its entries. */
  lemma ArrangeEach<T(!new)>(f: T -> Result<T>, g: T -> T, s: seq<T>, key: T -> Key)
    requires RespectsKey(g, key) && CommutesWith(f, g) && EachOk(f, SortBy(s, key)).Ok?
    ensures EachOk(f, SortBy(Each(g, s), key)) == Ok(Each(g, EachOk(f, SortBy(s, key)).value))
  {
    SortEach(g, s, key);
    EachOkEach(f, g, SortBy(s, key));
  }

  // ----- The parts -----

  lemma SignatureSame(ig: IgnoredDefinitions, s: CallableSignature, full: bool)
    requires NormalizeSignature(s, 0).Ok?
    ensures var n := NormalizeSignature(s, 0).value;
            && NormalizeSignature(DemoteSignature(ig, s, full), 0) == Ok(DemoteSignature(ig, n, full))
            && (SignatureReferences(ig, n) <==> SignatureReferences(ig, s))
            && (SignatureAffected(ig, n, full) <==> SignatureAffected(ig, s, full))
  {
    SignatureCommutes(ig, s, full, 0);
    NormalizeSignatureExact(s, 0);
    NormSignatureRefers(ig, s, 64);
    AffectedMeansRefers(ig, s, full);
    AffectedMeansRefers(ig, NormalizeSignature(s, 0).value, full);
  }

  lemma DefaultSame(ig: IgnoredDefinitions, d: DefaultFact, full: bool)
    requires NormalizeDefault(d, 0).Ok?
    ensures var n := NormalizeDefault(d, 0).value;
            && NormalizeDefault(DemoteDefault(ig, d, full), 0) == Ok(DemoteDefault(ig, n, full))
            && (DefaultAffected(ig, n, full) <==> DefaultAffected(ig, d, full))
  {
    DefaultCommutes(ig, d, full, 0);
    NormalizeDefaultExact(d, 0);
    NormDefaultRefers(ig, d, 64);
  }

  lemma DescriptorSame(ig: IgnoredDefinitions, d: DescriptorFact, full: bool)
    requires NormalizeDescriptor(d).Ok?
    ensures var n := NormalizeDescriptor(d).value;
            && NormalizeDescriptor(DemoteDescriptor(ig, d, full)) == Ok(DemoteDescriptor(ig, n, full))
            && (DescriptorReferences(ig, n) <==> DescriptorReferences(ig, d))
  {
    if d.descriptorType.Some? {
      ValueCommutes(ig, d.descriptorType.value, full, 0);
    }
  }

  // ----- The entries -----

  function BindingDemotion(ig: IgnoredDefinitions): GlobalBindingFact -> GlobalBindingFact { b => DemoteBinding(ig, b) }

  function FieldDemotion(ig: IgnoredDefinitions, full: bool): FieldTypeFact -> FieldTypeFact {
    f => DemoteField(ig, f, full)
  }

  function MethodDemotion(ig: IgnoredDefinitions, full: bool): MethodTypeFact -> MethodTypeFact {
    m => DemoteMethod(ig, m, full)
  }

  function MemberDemotion(ig: IgnoredDefinitions, full: bool): ClassMemberFact -> ClassMemberFact {
    m => DemoteMember(ig, m, full)
  }

  function ClassDemotion(ig: IgnoredDefinitions): ClassTypeFact -> ClassTypeFact { c => DemoteClass(ig, c) }

  function FunctionDemotion(ig: IgnoredDefinitions): FunctionTypeFact -> FunctionTypeFact { f => DemoteFunction(ig, f) }

  function SiteDemotion(ig: IgnoredDefinitions): AttributeSiteFact -> AttributeSiteFact { s => DemoteSite(ig, s) }

  function CallDemotion(ig: IgnoredDefinitions): CallSiteFact -> CallSiteFact { s => DemoteCall(ig, s) }

  lemma BindingsCommute(ig: IgnoredDefinitions)
    ensures CommutesWith(NormalizeBinding, BindingDemotion(ig)) && RespectsKey(BindingDemotion(ig), BindingKey)
  {
    forall b | NormalizeBinding(b).Ok?
      ensures NormalizeBinding(DemoteBinding(ig, b)) == Ok(DemoteBinding(ig, NormalizeBinding(b).value))
    {
      ValueCommutes(ig, b.valueType, BindingFull(ig, b), 0);
    }
  }

  lemma FieldCommutes(ig: IgnoredDefinitions, f: FieldTypeFact, full: bool)
    requires NormalizeField(f).Ok?
    ensures NormalizeField(DemoteField(ig, f, full)) == Ok(DemoteField(ig, NormalizeField(f).value, full))
  {
    var owned := FieldFull(ig, f, full);
    ValueCommutes(ig, f.valueType, owned, 0);
    DefaultSame(ig, f.default, owned);
    DescriptorSame(ig, f.descriptor, owned);
  }

  lemma MethodsCommute(ig: IgnoredDefinitions, full: bool)
    ensures CommutesWith(NormalizeMethod, MethodDemotion(ig, full)) && RespectsKey(MethodDemotion(ig, full), MethodKey)
  {
    forall m | NormalizeMethod(m).Ok?
      ensures NormalizeMethod(DemoteMethod(ig, m, full)) == Ok(DemoteMethod(ig, NormalizeMethod(m).value, full))
    {
      SignatureSame(ig, m.signature, full);
    }
  }

  lemma MembersCommute(ig: IgnoredDefinitions, full: bool)
    ensures CommutesWith(NormalizeMember, MemberDemotion(ig, full)) && RespectsKey(MemberDemotion(ig, full), MemberKey)
  {
    forall m | NormalizeMember(m).Ok?
      ensures NormalizeMember(DemoteMember(ig, m, full)) == Ok(DemoteMember(ig, NormalizeMember(m).value, full))
    {
      ValueCommutes(ig, m.valueType, full, 0);
      DescriptorSame(ig, m.descriptor, full);
    }
  }

  lemma FieldsCommute(ig: IgnoredDefinitions, full: bool)
    ensures CommutesWith(NormalizeField, FieldDemotion(ig, full))
  {
    forall f | NormalizeField(f).Ok?
      ensures NormalizeField(DemoteField(ig, f, full)) == Ok(DemoteField(ig, NormalizeField(f).value, full))
    {
      FieldCommutes(ig, f, full);
    }
  }

  lemma ClassCommutes(ig: IgnoredDefinitions, c: ClassTypeFact)
    requires NormalizeClass(c).Ok?
    ensures NormalizeClass(DemoteClass(ig, c)) == Ok(DemoteClass(ig, NormalizeClass(c).value))
  {
    var full := ig.Identity(c.identity);
    FieldsCommute(ig, full);
    EachOkEach(NormalizeField, FieldDemotion(ig, full), c.instanceFields);
    MethodsCommute(ig, full);
    ArrangeEach(NormalizeMethod, MethodDemotion(ig, full), c.methods, MethodKey);
    MembersCommute(ig, full);
    ArrangeEach(NormalizeMember, MemberDemotion(ig, full), c.classMembers, MemberKey);
    var n := NormalizeClass(c).value;
    assert DemoteFields(ig, c.instanceFields, full) == Each(FieldDemotion(ig, full), c.instanceFields);
    assert DemoteFields(ig, n.instanceFields, full) == Each(FieldDemotion(ig, full), n.instanceFields);
    assert DemoteMethods(ig, c.methods, full) == Each(MethodDemotion(ig, full), c.methods);
    assert DemoteMethods(ig, n.methods, full) == Each(MethodDemotion(ig, full), n.methods);
    assert DemoteClassMembers(ig, c.classMembers, full) == Each(MemberDemotion(ig, full), c.classMembers);
    assert DemoteClassMembers(ig, n.classMembers, full) == Each(MemberDemotion(ig, full), n.classMembers);
  }

  lemma ClassesCommute(ig: IgnoredDefinitions)
    ensures CommutesWith(NormalizeClass, ClassDemotion(ig)) && RespectsKey(ClassDemotion(ig), ClassFactKey)
  {
    forall c | NormalizeClass(c).Ok?
      ensures NormalizeClass(DemoteClass(ig, c)) == Ok(DemoteClass(ig, NormalizeClass(c).value))
    {
      ClassCommutes(ig, c);
    }
  }

  lemma FunctionsCommute(ig: IgnoredDefinitions)
    ensures CommutesWith(NormalizeFunction, FunctionDemotion(ig)) && RespectsKey(FunctionDemotion(ig), FunctionFactKey)
  {
    forall f | NormalizeFunction(f).Ok?
      ensures NormalizeFunction(DemoteFunction(ig, f)) == Ok(DemoteFunction(ig, NormalizeFunction(f).value))
    {
      SignatureSame(ig, f.signature, ig.Identity(f.identity));
    }
  }

  lemma SiteCommutes(ig: IgnoredDefinitions, s: AttributeSiteFact)
    requires NormalizeSite(s).Ok?
    ensures NormalizeSite(DemoteSite(ig, s)) == Ok(DemoteSite(ig, NormalizeSite(s).value))
  {
    ValueCommutes(ig, s.receiverType, true, 0);
    if s.valueType.Some? {
      ValueCommutes(ig, s.valueType.value, true, 0);
    }
    assert SiteAffected(ig, NormalizeSite(s).value) <==> SiteAffected(ig, s);
  }

  lemma SitesCommute(ig: IgnoredDefinitions)
    ensures CommutesWith(NormalizeSite, SiteDemotion(ig)) && RespectsKey(SiteDemotion(ig), SiteKey)
  {
    forall s | NormalizeSite(s).Ok?
      ensures NormalizeSite(DemoteSite(ig, s)) == Ok(DemoteSite(ig, NormalizeSite(s).value))
    {
      SiteCommutes(ig, s);
    }
  }

  lemma TargetsSame(ig: IgnoredDefinitions, ts: seq<CallableTargetFact>)
    ensures (exists i :: 0 <= i < |SortedSet(ts, TargetKey)| && TargetReferences(ig, SortedSet(ts, TargetKey)[i]))
       <==> (exists i :: 0 <= i < |ts| && TargetReferences(ig, ts[i]))
  {
    var r := SortedSet(ts, TargetKey);
    SortByMembers(ts, TargetKey);
    DedupFacts(SortBy(ts, TargetKey));
    if i :| 0 <= i < |r| && TargetReferences(ig, r[i]) {
      assert r[i] in SortBy(ts, TargetKey);
      assert r[i] in multiset(ts);
      var j :| 0 <= j < |ts| && ts[j] == r[i];
    }
    if i :| 0 <= i < |ts| && TargetReferences(ig, ts[i]) {
      assert ts[i] in multiset(SortBy(ts, TargetKey));
      assert ts[i] in r;
      var j :| 0 <= j < |r| && r[j] == ts[i];
    }
  }

  lemma CallAffectedSame(ig: IgnoredDefinitions, s: CallSiteFact)
    requires NormalizeCall(s).Ok?
    ensures CallAffected(ig, NormalizeCall(s).value) <==> CallAffected(ig, s)
  {
    if s.receiver.Some? {
      ValueCommutes(ig, s.receiver.value.valueType, true, 0);
    }
    SignatureSame(ig, s.signature, true);
    ValueCommutes(ig, s.resultType, true, 0);
    TargetsSame(ig, s.candidateTargets);
  }

  lemma CallCommutes(ig: IgnoredDefinitions, s: CallSiteFact)
    requires NormalizeCall(s).Ok?
    ensures NormalizeCall(DemoteCall(ig, s)) == Ok(DemoteCall(ig, NormalizeCall(s).value))
  {
    CallAffectedSame(ig, s);
    SignatureSame(ig, s.signature, true);
    SingletonSorted(DynamicTarget, TargetKey);
  }

  lemma CallsCommute(ig: IgnoredDefinitions)
    ensures CommutesWith(NormalizeCall, CallDemotion(ig)) && RespectsKey(CallDemotion(ig), CallKey)
  {
    forall s | NormalizeCall(s).Ok?
      ensures NormalizeCall(DemoteCall(ig, s)) == Ok(DemoteCall(ig, NormalizeCall(s).value))
    {
      CallCommutes(ig, s);
    }
  }

  // ----- The ignored definitions do not change -----

  /** Everything about a class that decides whether it is ignored. */
  ghost predicate AlikeClasses(a: ClassTypeFact, b: ClassTypeFact) {
    && a.identity == b.identity && a.decorators == b.decorators
    && forall via: IgnoredDefinitions :: via.TaintsClass(a) == via.TaintsClass(b)
  }

  ghost predicate AlikeFunctions(a: FunctionTypeFact, b: FunctionTypeFact) {
    a.identity == b.identity && a.decorators == b.decorators
  }

  ghost predicate AlikeDiagnostics(a: StrictDiagnostic, b: StrictDiagnostic) {
    && a.scope == b.scope && a.suppressed == b.suppressed
    && Closure.SameMembers(a.relatedDefinitions, b.relatedDefinitions)
  }

  ghost predicate Alike(a: ModuleTypeFacts, b: ModuleTypeFacts) {
    && a.ofModule == b.ofModule
    && |a.classes| == |b.classes| && |a.functions| == |b.functions| && |a.diagnostics| == |b.diagnostics|
    && (forall i :: 0 <= i < |a.classes| ==> AlikeClasses(a.classes[i], b.classes[i]))
    && (forall i :: 0 <= i < |a.functions| ==> AlikeFunctions(a.functions[i], b.functions[i]))
    && (forall i :: 0 <= i < |a.diagnostics| ==> AlikeDiagnostics(a.diagnostics[i], b.diagnostics[i]))
  }

  lemma AlikeRounds(a: ModuleTypeFacts, b: ModuleTypeFacts, via: IgnoredDefinitions)
    requires Alike(a, b)
    ensures Round(a, via) == Round(b, via)
  {
    assert TaintedClasses(a.classes, via, |a.classes|) == TaintedClasses(b.classes, via, |b.classes|);
    forall i | 0 <= i < |a.functions| ensures via.TaintsFunction(a.functions[i]) == via.TaintsFunction(b.functions[i]) {
      assert AlikeFunctions(a.functions[i], b.functions[i]);
    }
    assert TaintedFunctions(a.functions, via, |a.functions|) == TaintedFunctions(b.functions, via, |b.functions|);
  }

  lemma AlikeOwners(a: ModuleTypeFacts, b: ModuleTypeFacts, range: SourceRange)
    requires Alike(a, b)
    ensures Owners(a, range) == Owners(b, range)
  {
    assert ClassOwners(a.classes, range, |a.classes|) == ClassOwners(b.classes, range, |b.classes|);
    assert FunctionOwners(a.functions, range, |a.functions|) == FunctionOwners(b.functions, range, |b.functions|);
  }

  lemma AlikeDiagnosticSeeds(a: ModuleTypeFacts, b: ModuleTypeFacts, d: StrictDiagnostic, e: StrictDiagnostic)
    requires Alike(a, b) && AlikeDiagnostics(d, e)
    ensures DiagnosticSeeds(a, d) == DiagnosticSeeds(b, e) && TaintsModule(a, d) == TaintsModule(b, e)
  {
    if !d.scope.ModuleScope? {
      AlikeOwners(a, b, ScopeRange(d.scope));
      assert (set r | r in d.relatedDefinitions) == (set r | r in e.relatedDefinitions);
    }
  }

  lemma AlikeSeeds(a: ModuleTypeFacts, b: ModuleTypeFacts)
    requires Alike(a, b)
    ensures Seeds(a) == Seeds(b)
  {
    var n := |a.diagnostics|;
    forall i | 0 <= i < n
      ensures DiagnosticSeeds(a, a.diagnostics[i]) == DiagnosticSeeds(b, b.diagnostics[i])
      ensures TaintsModule(a, a.diagnostics[i]) == TaintsModule(b, b.diagnostics[i])
    {
      AlikeDiagnosticSeeds(a, b, a.diagnostics[i], b.diagnostics[i]);
    }
    assert SeedsUpTo(a, n) == SeedsUpTo(b, n);
  }

  /** Facts that agree entry by entry on what decides the ignored set have the same ignored set. */
  lemma AlikeIgnored(a: ModuleTypeFacts, b: ModuleTypeFacts)
    requires Alike(a, b)
    ensures Ignored(a) == Ignored(b)
  {
    AlikeSeeds(a, b);
    forall via ensures Round(a, via) == Round(b, via) {
      AlikeRounds(a, b, via);
    }
    ClosedSame(a, b, Seeds(a));
  }

  lemma NormalizedImplementations(c: ClassTypeFact, via: IgnoredDefinitions)
    requires NormalizeClass(c).Ok?
    ensures var n := NormalizeClass(c).value;
            (exists i :: 0 <= i < |n.methods| && via.Some(n.methods[i].implementation))
            <==> (exists i :: 0 <= i < |c.methods| && via.Some(c.methods[i].implementation))
  {
    var sorted, n := SortBy(c.methods, MethodKey), NormalizeClass(c).value;
    SortByMembers(c.methods, MethodKey);
    EachOkPointwise(NormalizeMethod, sorted);
    forall i | 0 <= i < |sorted| ensures n.methods[i].implementation == sorted[i].implementation {
      assert NormalizeMethod(sorted[i]) == Ok(n.methods[i]);
    }
    if i :| 0 <= i < |n.methods| && via.Some(n.methods[i].implementation) {
      assert sorted[i] in multiset(c.methods);
      var j :| 0 <= j < |c.methods| && c.methods[j] == sorted[i];
    }
    if i :| 0 <= i < |c.methods| && via.Some(c.methods[i].implementation) {
      assert c.methods[i] in multiset(sorted);
      var j :| 0 <= j < |sorted| && sorted[j] == c.methods[i];
      assert via.Some(n.methods[j].implementation);
    }
  }

  lemma NormalizedClassAlike(c: ClassTypeFact)
    requires NormalizeClass(c).Ok?
    ensures AlikeClasses(c, NormalizeClass(c).value)
  {
    forall via: IgnoredDefinitions ensures via.TaintsClass(c) == via.TaintsClass(NormalizeClass(c).value) {
      NormalizedImplementations(c, via);
    }
  }

  lemma SortedDiagnosticAlike(d: StrictDiagnostic)
    ensures AlikeDiagnostics(d, SortDiagnostic(d))
  {
    var sorted := SortBy(d.relatedDefinitions, IdentityKey);
    SortByMembers(d.relatedDefinitions, IdentityKey);
    DedupFacts(sorted);
    forall x ensures x in d.relatedDefinitions <==> x in SortDiagnostic(d).relatedDefinitions {
      assert x in d.relatedDefinitions <==> x in multiset(d.relatedDefinitions);
      assert x in sorted <==> x in multiset(sorted);
    }
  }

  lemma SortSameMembers<T(!new)>(s: seq<T>, key: T -> Key)
    ensures Closure.SameMembers(s, SortBy(s, key))
  {
    SortByMembers(s, key);
    forall x ensures x in s <==> x in SortBy(s, key) {
      assert x in s <==> x in multiset(s);
      assert x in SortBy(s, key) <==> x in multiset(SortBy(s, key));
    }
  }

  /** The facts with their classes, functions and diagnostics sorted, but not normalized yet. */
  function SortedFacts(facts: ModuleTypeFacts): ModuleTypeFacts {
    facts.(classes := SortBy(facts.classes, ClassFactKey), functions := SortBy(facts.functions, FunctionFactKey),
           diagnostics := SortDiagnostics(facts.diagnostics))
  }

  lemma SortedIgnored(facts: ModuleTypeFacts)
    ensures Ignored(SortedFacts(facts)) == Ignored(facts)
  {
    var ds := facts.diagnostics;
    var tidy := facts.(diagnostics := seq(|ds|, i requires 0 <= i < |ds| => SortDiagnostic(ds[i])));
    forall i | 0 <= i < |ds| ensures AlikeDiagnostics(ds[i], tidy.diagnostics[i]) {
      SortedDiagnosticAlike(ds[i]);
    }
    AlikeIgnored(facts, tidy);
    SortSameMembers(facts.classes, ClassFactKey);
    SortSameMembers(facts.functions, FunctionFactKey);
    SortSameMembers(tidy.diagnostics, DiagnosticKey);
    IgnoredOrderIndependent(tidy, SortedFacts(facts));
  }

  /** Sorting and normalizing change nothing that the ignored set is computed from. */
  lemma ArrangedIgnored(facts: ModuleTypeFacts)
    requires Arranged(facts).Ok?
    ensures Ignored(Arranged(facts).value) == Ignored(facts)
  {
    var sorted, arranged := SortedFacts(facts), Arranged(facts).value;
    EachOkPointwise(NormalizeClass, sorted.classes);
    EachOkPointwise(NormalizeFunction, sorted.functions);
    forall i | 0 <= i < |sorted.classes| ensures AlikeClasses(sorted.classes[i], arranged.classes[i]) {
      assert NormalizeClass(sorted.classes[i]) == Ok(arranged.classes[i]);
      NormalizedClassAlike(sorted.classes[i]);
    }
    forall i | 0 <= i < |sorted.functions| ensures AlikeFunctions(sorted.functions[i], arranged.functions[i]) {
      assert NormalizeFunction(sorted.functions[i]) == Ok(arranged.functions[i]);
    }
    AlikeIgnored(sorted, arranged);
    SortedIgnored(facts);
  }

  // ----- The whole module -----

  lemma CataloguesCommute(ig: IgnoredDefinitions, facts: ModuleTypeFacts)
    requires ArrangedCatalogues(facts).Ok?
    ensures var c := ArrangedCatalogues(facts).value;
            ArrangedCatalogues(DemoteWith(ig, facts)) ==
            Ok(Catalogues(DemoteBindings(ig, c.bindings), DemoteClasses(ig, c.classes),
                          DemoteFunctions(ig, c.functions), DemoteSites(ig, c.sites), DemoteCalls(ig, c.calls)))
  {
    BindingsArranged(ig, facts.globalBindings);
    ClassesArranged(ig, facts.classes);
    FunctionsArranged(ig, facts.functions);
    SitesArranged(ig, facts.attributeSites);
    CallsArranged(ig, facts.callSites);
  }

  lemma BindingsArranged(ig: IgnoredDefinitions, bs: seq<GlobalBindingFact>)
    requires EachOk(NormalizeBinding, SortBy(bs, BindingKey)).Ok?
    ensures EachOk(NormalizeBinding, SortBy(DemoteBindings(ig, bs), BindingKey)) ==
            Ok(DemoteBindings(ig, EachOk(NormalizeBinding, SortBy(bs, BindingKey)).value))
  {
    BindingsCommute(ig);
    ArrangeEach(NormalizeBinding, BindingDemotion(ig), bs, BindingKey);
    var ns := EachOk(NormalizeBinding, SortBy(bs, BindingKey)).value;
    assert DemoteBindings(ig, bs) == Each(BindingDemotion(ig), bs);
    assert DemoteBindings(ig, ns) == Each(BindingDemotion(ig), ns);
  }

  lemma ClassesArranged(ig: IgnoredDefinitions, cs: seq<ClassTypeFact>)
    requires EachOk(NormalizeClass, SortBy(cs, ClassFactKey)).Ok?
    ensures EachOk(NormalizeClass, SortBy(DemoteClasses(ig, cs), ClassFactKey)) ==
            Ok(DemoteClasses(ig, EachOk(NormalizeClass, SortBy(cs, ClassFactKey)).value))
  {
    ClassesCommute(ig);
    ArrangeEach(NormalizeClass, ClassDemotion(ig), cs, ClassFactKey);
    var ns := EachOk(NormalizeClass, SortBy(cs, ClassFactKey)).value;
    assert DemoteClasses(ig, cs) == Each(ClassDemotion(ig), cs) && DemoteClasses(ig, ns) == Each(ClassDemotion(ig), ns);
  }

  lemma FunctionsArranged(ig: IgnoredDefinitions, fs: seq<FunctionTypeFact>)
    requires EachOk(NormalizeFunction, SortBy(fs, FunctionFactKey)).Ok?
    ensures EachOk(NormalizeFunction, SortBy(DemoteFunctions(ig, fs), FunctionFactKey)) ==
            Ok(DemoteFunctions(ig, EachOk(NormalizeFunction, SortBy(fs, FunctionFactKey)).value))
  {
    FunctionsCommute(ig);
    ArrangeEach(NormalizeFunction, FunctionDemotion(ig), fs, FunctionFactKey);
    var ns := EachOk(NormalizeFunction, SortBy(fs, FunctionFactKey)).value;
    assert DemoteFunctions(ig, fs) == Each(FunctionDemotion(ig), fs);
    assert DemoteFunctions(ig, ns) == Each(FunctionDemotion(ig), ns);
  }

  lemma SitesArranged(ig: IgnoredDefinitions, ss: seq<AttributeSiteFact>)
    requires EachOk(NormalizeSite, SortBy(ss, SiteKey)).Ok?
    ensures EachOk(NormalizeSite, SortBy(DemoteSites(ig, ss), SiteKey)) ==
            Ok(DemoteSites(ig, EachOk(NormalizeSite, SortBy(ss, SiteKey)).value))
  {
    SitesCommute(ig);
    ArrangeEach(NormalizeSite, SiteDemotion(ig), ss, SiteKey);
    var ns := EachOk(NormalizeSite, SortBy(ss, SiteKey)).value;
    assert DemoteSites(ig, ss) == Each(SiteDemotion(ig), ss) && DemoteSites(ig, ns) == Each(SiteDemotion(ig), ns);
  }

  lemma CallsArranged(ig: IgnoredDefinitions, ss: seq<CallSiteFact>)
    requires EachOk(NormalizeCall, SortBy(ss, CallKey)).Ok?
    ensures EachOk(NormalizeCall, SortBy(DemoteCalls(ig, ss), CallKey)) ==
            Ok(DemoteCalls(ig, EachOk(NormalizeCall, SortBy(ss, CallKey)).value))
  {
    CallsCommute(ig);
    ArrangeEach(NormalizeCall, CallDemotion(ig), ss, CallKey);
    var ns := EachOk(NormalizeCall, SortBy(ss, CallKey)).value;
    assert DemoteCalls(ig, ss) == Each(CallDemotion(ig), ss) && DemoteCalls(ig, ns) == Each(CallDemotion(ig), ns);
  }

  /** Sorting and normalizing commute with demotion for any set of definitions. */
  lemma ArrangingCommutes(ig: IgnoredDefinitions, facts: ModuleTypeFacts)
    requires Arranged(facts).Ok?
    ensures Arranged(DemoteWith(ig, facts)) == Ok(DemoteWith(ig, Arranged(facts).value))
  {
    CataloguesCommute(ig, facts);
    FilterSort(Keeping(ig), facts.nominalBindings, NominalKey);
  }

  /** Facts that were demoted before have the same canonical form. */
  lemma CanonicalizationAbsorbsDemotion(facts: ModuleTypeFacts)
    requires Arranged(facts).Ok?
    ensures Canonicalized(Demoted(facts)) == Canonicalized(facts)
  {
    var ig, arranged := Ignored(facts), Arranged(facts).value;
    ArrangingCommutes(ig, facts);
    ArrangedIgnored(facts);
    EarlyReturnAgrees(facts);
    EarlyReturnAgrees(arranged);
    DemotionIdempotent(arranged);
  }
}
