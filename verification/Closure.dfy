/**
  Which definitions a suppressed diagnostic taints: the seeds it names or overlaps, closed under
  lexical overlap, bases, method resolution order, metaclass, decorators and method implementations.
 */
module Closure {
  import opened Collections
  import opened Types
  import opened Facts

  predicate Overlaps(left: SourceRange, right: SourceRange) {
    if left.start == left.end then right.start <= left.start < right.end
    else if right.start == right.end then left.start <= right.start < left.end
    else left.start < right.end && right.start < left.end
  }

  datatype IgnoredDefinitions = IgnoredDefinitions(
    inModule: ModuleContentId, wholeModule: bool, definitions: set<SourceIdentity>)
  {
    predicate Identity(id: SourceIdentity) {
      || (wholeModule && id.inModule == inModule)
      || id in definitions
      || (id.kind != Module &&
          exists d :: d in definitions && d.inModule == id.inModule && Overlaps(d.range, id.range))
    }

    predicate Some(id: Option<SourceIdentity>) {
      id.Some? && Identity(id.value)
    }

    predicate Base(b: BaseReference) {
      b.ClassBase? && Identity(b.base.definition)
    }

    /** One of the reasons for which a class cannot keep its proposals. */
    predicate TaintsClass(c: ClassTypeFact) {
      || Identity(c.identity)
      || (exists i :: 0 <= i < |c.bases| && Base(c.bases[i]))
      || (exists i :: 0 <= i < |c.inheritance.linearizedBases| && Base(c.inheritance.linearizedBases[i]))
      || (c.metaclass.ClassMetaclass? && Identity(c.metaclass.metaclass.definition))
      || (exists i :: 0 <= i < |c.decorators| && Some(c.decorators[i].definition))
      || (exists i :: 0 <= i < |c.methods| && Some(c.methods[i].implementation))
    }

    predicate TaintsFunction(f: FunctionTypeFact) {
      || Identity(f.identity)
      || (exists i :: 0 <= i < |f.decorators| && Some(f.decorators[i].definition))
    }

    function Plus(more: set<SourceIdentity>): IgnoredDefinitions {
      this.(definitions := definitions + more)
    }

    /** Everything this set ignores, the other ignores too. */
    ghost predicate Within(other: IgnoredDefinitions) {
      forall id :: Identity(id) ==> other.Identity(id)
    }
  }

  // ----- Seeds -----

  function ScopeRange(scope: DiagnosticScope): SourceRange
    requires !scope.ModuleScope?
  {
    if scope.DefinitionScope? then scope.definition.range else scope.site
  }

  predicate OwnsRange(id: SourceIdentity, decorators: seq<DecoratorFact>, range: SourceRange) {
    || Overlaps(id.range, range)
    || exists i :: 0 <= i < |decorators| && Overlaps(decorators[i].expressionRange, range)
  }

  /** The classes and functions whose text, or whose decorators' text, the range touches. */
  function Owners(facts: ModuleTypeFacts, range: SourceRange): set<SourceIdentity> {
    ClassOwners(facts.classes, range, |facts.classes|) + FunctionOwners(facts.functions, range, |facts.functions|)
  }

  function ClassOwners(cs: seq<ClassTypeFact>, range: SourceRange, n: nat): set<SourceIdentity>
    requires n <= |cs|
  {
    set i | 0 <= i < n && OwnsRange(cs[i].identity, cs[i].decorators, range) :: cs[i].identity
  }

  function FunctionOwners(fs: seq<FunctionTypeFact>, range: SourceRange, n: nat): set<SourceIdentity>
    requires n <= |fs|
  {
    set i | 0 <= i < n && OwnsRange(fs[i].identity, fs[i].decorators, range) :: fs[i].identity
  }

  /** A suppressed diagnostic taints the whole module when it is about the module or finds no owner. */
  predicate TaintsModule(facts: ModuleTypeFacts, d: StrictDiagnostic) {
    d.suppressed && (d.scope.ModuleScope? || Owners(facts, ScopeRange(d.scope)) == {})
  }

  function DiagnosticSeeds(facts: ModuleTypeFacts, d: StrictDiagnostic): set<SourceIdentity> {
    if d.suppressed && !d.scope.ModuleScope?
    then Owners(facts, ScopeRange(d.scope)) + set r | r in d.relatedDefinitions
    else {}
  }

  function Seeds(facts: ModuleTypeFacts): IgnoredDefinitions {
    IgnoredDefinitions(
      facts.ofModule,
      exists i :: 0 <= i < |facts.diagnostics| && TaintsModule(facts, facts.diagnostics[i]),
      SeedsUpTo(facts, |facts.diagnostics|))
  }

  function SeedsUpTo(facts: ModuleTypeFacts, n: nat): set<SourceIdentity>
    requires n <= |facts.diagnostics|
  {
    set i, id | 0 <= i < n && id in DiagnosticSeeds(facts, facts.diagnostics[i]) :: id
  }

  // ----- The closure -----

  /** What one round of the loop finds tainted. */
  function Round(facts: ModuleTypeFacts, ig: IgnoredDefinitions): set<SourceIdentity> {
    TaintedClasses(facts.classes, ig, |facts.classes|) + TaintedFunctions(facts.functions, ig, |facts.functions|)
  }

  function TaintedClasses(cs: seq<ClassTypeFact>, ig: IgnoredDefinitions, n: nat): set<SourceIdentity>
    requires n <= |cs|
  {
    set i | 0 <= i < n && ig.TaintsClass(cs[i]) :: cs[i].identity
  }

  function TaintedFunctions(fs: seq<FunctionTypeFact>, ig: IgnoredDefinitions, n: nat): set<SourceIdentity>
    requires n <= |fs|
  {
    set i | 0 <= i < n && ig.TaintsFunction(fs[i]) :: fs[i].identity
  }

  function Catalogued(facts: ModuleTypeFacts): set<SourceIdentity> {
    ClassIdentities(facts.classes, |facts.classes|) + FunctionIdentities(facts.functions, |facts.functions|)
  }

  function ClassIdentities(cs: seq<ClassTypeFact>, n: nat): set<SourceIdentity>
    requires n <= |cs|
  {
    set i | 0 <= i < n :: cs[i].identity
  }

  function FunctionIdentities(fs: seq<FunctionTypeFact>, n: nat): set<SourceIdentity>
    requires n <= |fs|
  {
    set i | 0 <= i < n :: fs[i].identity
  }

  /** The rounds repeated until one finds nothing new. */
  function Closed(facts: ModuleTypeFacts, ig: IgnoredDefinitions): IgnoredDefinitions
    decreases |Catalogued(facts) - ig.definitions|
  {
    var added := Round(facts, ig);
    if added <= ig.definitions then ig
    else
      RoundShrinks(facts, ig);
      Closed(facts, ig.Plus(added))
  }

  lemma RoundShrinks(facts: ModuleTypeFacts, ig: IgnoredDefinitions)
    requires !(Round(facts, ig) <= ig.definitions)
    ensures |Catalogued(facts) - ig.Plus(Round(facts, ig)).definitions| < |Catalogued(facts) - ig.definitions|
  {
    var all, before, after := Catalogued(facts), ig.definitions, ig.Plus(Round(facts, ig)).definitions;
    var id :| id in Round(facts, ig) && id !in before;
    assert id in all;
    SmallerSet(all - after, all - before, id);
  }

  lemma SmallerSet(s: set<SourceIdentity>, t: set<SourceIdentity>, x: SourceIdentity)
    requires s <= t && x in t && x !in s
    ensures |s| < |t|
  {
    assert s <= t - {x};
    SubsetSize(s, t - {x});
  }

  function Ignored(facts: ModuleTypeFacts): IgnoredDefinitions {
    Closed(facts, Seeds(facts))
  }

  /** `definitions` contains every class and function that it taints. */
  ghost predicate IsClosed(facts: ModuleTypeFacts, ig: IgnoredDefinitions) {
    Round(facts, ig) <= ig.definitions
  }

  lemma IdentityGrows(ig: IgnoredDefinitions, ig': IgnoredDefinitions)
    requires ig.inModule == ig'.inModule && (ig.wholeModule ==> ig'.wholeModule) && ig.definitions <= ig'.definitions
    ensures ig.Within(ig')
  {
  }

  lemma RoundGrows(facts: ModuleTypeFacts, ig: IgnoredDefinitions, ig': IgnoredDefinitions)
    requires ig.Within(ig')
    ensures Round(facts, ig) <= Round(facts, ig')
  {
    forall c | ig.TaintsClass(c) ensures ig'.TaintsClass(c) {
      TaintsClassGrows(ig, ig', c);
    }
    forall f | ig.TaintsFunction(f) ensures ig'.TaintsFunction(f) {
      TaintsFunctionGrows(ig, ig', f);
    }
  }

  lemma TaintsClassGrows(ig: IgnoredDefinitions, ig': IgnoredDefinitions, c: ClassTypeFact)
    requires ig.Within(ig') && ig.TaintsClass(c)
    ensures ig'.TaintsClass(c)
  {
    if i :| 0 <= i < |c.bases| && ig.Base(c.bases[i]) {
      assert ig'.Base(c.bases[i]);
    } else if i :| 0 <= i < |c.inheritance.linearizedBases| && ig.Base(c.inheritance.linearizedBases[i]) {
      assert ig'.Base(c.inheritance.linearizedBases[i]);
    } else if i :| 0 <= i < |c.decorators| && ig.Some(c.decorators[i].definition) {
      assert ig'.Some(c.decorators[i].definition);
    } else if i :| 0 <= i < |c.methods| && ig.Some(c.methods[i].implementation) {
      assert ig'.Some(c.methods[i].implementation);
    }
  }

  lemma TaintsFunctionGrows(ig: IgnoredDefinitions, ig': IgnoredDefinitions, f: FunctionTypeFact)
    requires ig.Within(ig') && ig.TaintsFunction(f)
    ensures ig'.TaintsFunction(f)
  {
    if i :| 0 <= i < |f.decorators| && ig.Some(f.decorators[i].definition) {
      assert ig'.Some(f.decorators[i].definition);
    }
  }

  lemma {:induction false} ClosedIsLeast(facts: ModuleTypeFacts, ig: IgnoredDefinitions, other: IgnoredDefinitions)
    ensures var c := Closed(facts, ig);
            && IsClosed(facts, c) && ig.definitions <= c.definitions
            && c.inModule == ig.inModule && c.wholeModule == ig.wholeModule
    ensures && IsClosed(facts, other) && ig.definitions <= other.definitions
            && other.inModule == ig.inModule && (ig.wholeModule ==> other.wholeModule)
            ==> Closed(facts, ig).definitions <= other.definitions
    decreases |Catalogued(facts) - ig.definitions|
  {
    var added := Round(facts, ig);
    if !(added <= ig.definitions) {
      RoundShrinks(facts, ig);
      ClosedIsLeast(facts, ig.Plus(added), other);
      if && IsClosed(facts, other) && ig.definitions <= other.definitions
         && other.inModule == ig.inModule && (ig.wholeModule ==> other.wholeModule) {
        IdentityGrows(ig, other);
        RoundGrows(facts, ig, other);
      }
    }
  }

  /**
    The ignored definitions are the least set that contains the seeds of the suppressed diagnostics
    and every catalogued class and function tainted by it.
   */
  lemma IgnoredIsLeast(facts: ModuleTypeFacts, definitions: set<SourceIdentity>)
    ensures IsClosed(facts, Ignored(facts)) && Seeds(facts).definitions <= Ignored(facts).definitions
    ensures var other := Seeds(facts).(definitions := definitions);
            IsClosed(facts, other) && Seeds(facts).definitions <= definitions
            ==> Ignored(facts).definitions <= definitions
    ensures Ignored(facts).wholeModule == Seeds(facts).wholeModule && Ignored(facts).inModule == facts.ofModule
  {
    ClosedIsLeast(facts, Seeds(facts), Seeds(facts).(definitions := definitions));
  }

  ghost predicate SameMembers<T(!new)>(s: seq<T>, t: seq<T>) {
    forall x :: x in s <==> x in t
  }

  /** The order and repetition of classes, functions and diagnostics do not matter. */
  lemma IgnoredOrderIndependent(facts: ModuleTypeFacts, facts': ModuleTypeFacts)
    requires facts.ofModule == facts'.ofModule
    requires SameMembers(facts.classes, facts'.classes) && SameMembers(facts.functions, facts'.functions)
    requires SameMembers(facts.diagnostics, facts'.diagnostics)
    ensures Ignored(facts) == Ignored(facts')
  {
    SeedsSame(facts, facts');
    forall via ensures Round(facts, via) == Round(facts', via) {
      RoundSame(facts, facts', via);
      RoundSame(facts', facts, via);
    }
    ClosedSame(facts, facts', Seeds(facts));
  }

  lemma SeedsSame(facts: ModuleTypeFacts, facts': ModuleTypeFacts)
    requires facts.ofModule == facts'.ofModule
    requires SameMembers(facts.classes, facts'.classes) && SameMembers(facts.functions, facts'.functions)
    requires SameMembers(facts.diagnostics, facts'.diagnostics)
    ensures Seeds(facts) == Seeds(facts')
  {
    SeedsGrow(facts, facts');
    SeedsGrow(facts', facts);
  }

  lemma RoundSame(facts: ModuleTypeFacts, facts': ModuleTypeFacts, ig: IgnoredDefinitions)
    requires SameMembers(facts.classes, facts'.classes) && SameMembers(facts.functions, facts'.functions)
    ensures Round(facts, ig) <= Round(facts', ig)
  {
    forall i | 0 <= i < |facts.classes| && ig.TaintsClass(facts.classes[i])
      ensures facts.classes[i].identity in Round(facts', ig)
    {
      assert facts.classes[i] in facts'.classes;
      var j :| 0 <= j < |facts'.classes| && facts'.classes[j] == facts.classes[i];
    }
    forall i | 0 <= i < |facts.functions| && ig.TaintsFunction(facts.functions[i])
      ensures facts.functions[i].identity in Round(facts', ig)
    {
      assert facts.functions[i] in facts'.functions;
      var j :| 0 <= j < |facts'.functions| && facts'.functions[j] == facts.functions[i];
    }
  }

  lemma OwnersGrow(facts: ModuleTypeFacts, facts': ModuleTypeFacts, range: SourceRange)
    requires SameMembers(facts.classes, facts'.classes) && SameMembers(facts.functions, facts'.functions)
    ensures Owners(facts, range) <= Owners(facts', range)
  {
    var cs, fs := facts.classes, facts.functions;
    forall i | 0 <= i < |cs| && OwnsRange(cs[i].identity, cs[i].decorators, range)
      ensures cs[i].identity in Owners(facts', range)
    {
      assert cs[i] in facts'.classes;
      var j :| 0 <= j < |facts'.classes| && facts'.classes[j] == cs[i];
    }
    forall i | 0 <= i < |fs| && OwnsRange(fs[i].identity, fs[i].decorators, range)
      ensures fs[i].identity in Owners(facts', range)
    {
      assert fs[i] in facts'.functions;
      var j :| 0 <= j < |facts'.functions| && facts'.functions[j] == fs[i];
    }
  }

  lemma SeedsGrow(facts: ModuleTypeFacts, facts': ModuleTypeFacts)
    requires facts.ofModule == facts'.ofModule
    requires SameMembers(facts.classes, facts'.classes) && SameMembers(facts.functions, facts'.functions)
    requires forall d :: d in facts.diagnostics ==> d in facts'.diagnostics
    ensures Seeds(facts).wholeModule ==> Seeds(facts').wholeModule
    ensures Seeds(facts).definitions <= Seeds(facts').definitions
  {
    var ds, ds' := facts.diagnostics, facts'.diagnostics;
    forall d ensures DiagnosticSeeds(facts, d) == DiagnosticSeeds(facts', d)
      ensures TaintsModule(facts, d) == TaintsModule(facts', d)
    {
      if !d.scope.ModuleScope? {
        OwnersGrow(facts, facts', ScopeRange(d.scope));
        OwnersGrow(facts', facts, ScopeRange(d.scope));
      }
    }
    if i :| 0 <= i < |ds| && TaintsModule(facts, ds[i]) {
      assert ds[i] in ds';
      var j :| 0 <= j < |ds'| && ds'[j] == ds[i];
      assert TaintsModule(facts', ds'[j]);
    }
    forall id | id in Seeds(facts).definitions ensures id in Seeds(facts').definitions {
      var i :| 0 <= i < |ds| && id in DiagnosticSeeds(facts, ds[i]);
      assert ds[i] in ds';
      var j :| 0 <= j < |ds'| && ds'[j] == ds[i];
      assert id in DiagnosticSeeds(facts', ds'[j]);
    }
  }

  /** The closure depends on the catalogues only through what each round finds. */
  lemma {:induction false} ClosedSame(facts: ModuleTypeFacts, facts': ModuleTypeFacts, ig: IgnoredDefinitions)
    requires forall via :: Round(facts, via) == Round(facts', via)
    ensures Closed(facts, ig) == Closed(facts', ig)
    decreases |Catalogued(facts) - ig.definitions|
  {
    if !(Round(facts, ig) <= ig.definitions) {
      RoundShrinks(facts, ig);
      ClosedSame(facts, facts', ig.Plus(Round(facts, ig)));
    }
  }

  /** More diagnostics, suppressed or not, never shrink the ignored set. */
  lemma IgnoredGrows(facts: ModuleTypeFacts, diagnostics: seq<StrictDiagnostic>)
    requires forall d :: d in facts.diagnostics ==> d in diagnostics
    ensures Ignored(facts).Within(Ignored(facts.(diagnostics := diagnostics)))
  {
    var facts' := facts.(diagnostics := diagnostics);
    SeedsGrow(facts, facts');
    var other := Ignored(facts');
    ClosedIsLeast(facts', Seeds(facts'), other);
    assert Round(facts, other) == Round(facts', other);
    ClosedIsLeast(facts, Seeds(facts), other);
    IdentityGrows(Ignored(facts), other);
  }

  /** Without a suppressed diagnostic nothing is ignored. */
  lemma NothingSuppressed(facts: ModuleTypeFacts, id: SourceIdentity)
    requires forall i :: 0 <= i < |facts.diagnostics| ==> !facts.diagnostics[i].suppressed
    ensures !Ignored(facts).Identity(id)
  {
    assert Seeds(facts).definitions == {};
    assert Round(facts, Seeds(facts)) == {};
  }

  // ----- The loops of the source -----

  ghost predicate TaintedUpTo(facts: ModuleTypeFacts, n: nat)
    requires n <= |facts.diagnostics|
  {
    exists k :: 0 <= k < n && TaintsModule(facts, facts.diagnostics[k])
  }

  lemma TaintStep(facts: ModuleTypeFacts, n: nat)
    requires n < |facts.diagnostics|
    ensures TaintedUpTo(facts, n + 1) <==> TaintedUpTo(facts, n) || TaintsModule(facts, facts.diagnostics[n])
  {
  }

  /** The seeding loop over the diagnostics, each looking for its owners. */
  method CollectSeeds(facts: ModuleTypeFacts) returns (ig: IgnoredDefinitions)
    ensures ig == Seeds(facts)
  {
    var wholeModule, definitions := false, {};
    for i := 0 to |facts.diagnostics|
      invariant wholeModule <==> TaintedUpTo(facts, i)
      invariant definitions == SeedsUpTo(facts, i)
    {
      SeedStep(facts, i);
      TaintStep(facts, i);
      var tainted, seeds := SeedsOf(facts, facts.diagnostics[i]);
      wholeModule, definitions := wholeModule || tainted, definitions + seeds;
    }
    ig := IgnoredDefinitions(facts.ofModule, wholeModule, definitions);
  }

  /** One diagnostic: whether it taints the whole module, and what it adds. */
  method SeedsOf(facts: ModuleTypeFacts, d: StrictDiagnostic) returns (tainted: bool, seeds: set<SourceIdentity>)
    ensures tainted == TaintsModule(facts, d) && seeds == DiagnosticSeeds(facts, d)
  {
    if !d.suppressed {
      return false, {};
    }
    if d.scope.ModuleScope? {
      return true, {};
    }
    var owners := FindOwners(facts, ScopeRange(d.scope));
    tainted, seeds := owners == {}, owners + set r | r in d.relatedDefinitions;
  }

  lemma SeedStep(facts: ModuleTypeFacts, n: nat)
    requires n < |facts.diagnostics|
    ensures SeedsUpTo(facts, n + 1) == SeedsUpTo(facts, n) + DiagnosticSeeds(facts, facts.diagnostics[n])
  {
  }

  method FindOwners(facts: ModuleTypeFacts, range: SourceRange) returns (owners: set<SourceIdentity>)
    ensures owners == Owners(facts, range)
  {
    owners := {};
    for i := 0 to |facts.classes|
      invariant owners == ClassOwners(facts.classes, range, i)
    {
      var c := facts.classes[i];
      if OwnsRange(c.identity, c.decorators, range) {
        owners := owners + {c.identity};
      }
    }
    for i := 0 to |facts.functions|
      invariant owners == ClassOwners(facts.classes, range, |facts.classes|) + FunctionOwners(facts.functions, range, i)
    {
      var f := facts.functions[i];
      if OwnsRange(f.identity, f.decorators, range) {
        owners := owners + {f.identity};
      }
    }
  }

  method FindTainted(facts: ModuleTypeFacts, ig: IgnoredDefinitions) returns (added: set<SourceIdentity>)
    ensures added == Round(facts, ig)
  {
    added := {};
    for i := 0 to |facts.classes|
      invariant added == TaintedClasses(facts.classes, ig, i)
    {
      if ig.TaintsClass(facts.classes[i]) {
        added := added + {facts.classes[i].identity};
      }
    }
    for i := 0 to |facts.functions|
      invariant added == TaintedClasses(facts.classes, ig, |facts.classes|) + TaintedFunctions(facts.functions, ig, i)
    {
      if ig.TaintsFunction(facts.functions[i]) {
        added := added + {facts.functions[i].identity};
      }
    }
  }

  /** The loop until stable, with a bound on how often it goes round. */
  method CloseIgnored(facts: ModuleTypeFacts) returns (ig: IgnoredDefinitions, rounds: nat)
    ensures ig == Ignored(facts)
    ensures rounds <= |facts.classes| + |facts.functions| + 1
  {
    ig := CollectSeeds(facts);
    rounds := 0;
    var stable := false;
    while !stable
      invariant Closed(facts, ig) == Ignored(facts)
      invariant stable ==> Round(facts, ig) <= ig.definitions
      invariant rounds + |Catalogued(facts) - ig.definitions| <= |Catalogued(facts)| + if stable then 1 else 0
      decreases !stable, |Catalogued(facts) - ig.definitions|
    {
      var added := FindTainted(facts, ig);
      var before := |ig.definitions|;
      GrowthMeansNew(ig.definitions, added);
      if !(added <= ig.definitions) { RoundShrinks(facts, ig); }
      ig := ig.Plus(added);
      rounds := rounds + 1;
      stable := before == |ig.definitions|;
    }
    CatalogueSize(facts);
  }

  /** The source compares set sizes to see whether a round added anything. */
  lemma GrowthMeansNew(s: set<SourceIdentity>, added: set<SourceIdentity>)
    ensures |s| == |s + added| <==> added <= s
    ensures added <= s ==> s + added == s
  {
    if added <= s {
      assert s + added == s;
    } else {
      var x :| x in added && x !in s;
      SmallerSet(s, s + added, x);
    }
  }

  lemma CatalogueSize(facts: ModuleTypeFacts)
    ensures |Catalogued(facts)| <= |facts.classes| + |facts.functions|
  {
    ClassCount(facts.classes, |facts.classes|);
    FunctionCount(facts.functions, |facts.functions|);
  }

  lemma {:induction false} ClassCount(cs: seq<ClassTypeFact>, n: nat)
    requires n <= |cs|
    ensures |ClassIdentities(cs, n)| <= n
  {
    if n == 0 {
    } else {
      ClassCount(cs, n - 1);
      assert ClassIdentities(cs, n) == ClassIdentities(cs, n - 1) + {cs[n - 1].identity};
    }
  }

  lemma {:induction false} FunctionCount(fs: seq<FunctionTypeFact>, n: nat)
    requires n <= |fs|
    ensures |FunctionIdentities(fs, n)| <= n
  {
    if n == 0 {
    } else {
      FunctionCount(fs, n - 1);
      assert FunctionIdentities(fs, n) == FunctionIdentities(fs, n - 1) + {fs[n - 1].identity};
    }
  }
}
