/**
  The canonical form of a module's facts does not depend on the order of its catalogues: exactly the order
  of entries with the same sort key can be seen in it, because the sorts are stable.
 */
module Reordering {
  import opened Collections
  import opened Ordering
  import opened Stability
  import opened Types
  import opened Normalization
  import opened Facts
  import opened Closure
  import opened Demotion
  import opened Canonical
  import opened Commutation

  // ----- The order inside an entry -----

  function TidyClass(c: ClassTypeFact): ClassTypeFact {
    c.(methods := SortBy(c.methods, MethodKey), classMembers := SortBy(c.classMembers, MemberKey))
  }

  function TidyCall(s: CallSiteFact): CallSiteFact {
    s.(candidateTargets := SortedSet(s.candidateTargets, TargetKey))
  }

  /** Tidying an entry first makes no difference to its normal form. */
  ghost predicate Invisible<T(!new)>(f: T -> Result<T>, tidy: T -> T, key: T -> Key) {
    RespectsKey(tidy, key) && forall x :: f(tidy(x)) == f(x)
  }

  lemma TidyClassInvisible()
    ensures Invisible(NormalizeClass, TidyClass, ClassFactKey)
  {
    forall c: ClassTypeFact ensures NormalizeClass(TidyClass(c)) == NormalizeClass(c) {
      SortBySorted(c.methods, MethodKey);
      SortByFixed(SortBy(c.methods, MethodKey), MethodKey);
      SortBySorted(c.classMembers, MemberKey);
      SortByFixed(SortBy(c.classMembers, MemberKey), MemberKey);
    }
  }

  lemma TidyCallInvisible()
    ensures Invisible(NormalizeCall, TidyCall, CallKey)
  {
    forall s: CallSiteFact ensures NormalizeCall(TidyCall(s)) == NormalizeCall(s) {
      SortedSetTwice(s.candidateTargets, TargetKey);
    }
  }

  lemma {:induction false} EachOkTidied<T(!new)>(f: T -> Result<T>, tidy: T -> T, s: seq<T>)
    requires forall x :: f(tidy(x)) == f(x)
    ensures EachOk(f, Each(tidy, s)) == EachOk(f, s)
  {
    if s == [] {
    } else {
      EachOkTidied(f, tidy, s[1..]);
      assert Each(tidy, s)[1..] == Each(tidy, s[1..]);
    }
  }

  /** A catalogue is arranged alike, failures included, if its tidied entries have the same groups. */
  lemma ArrangedAlike<T(!new)>(f: T -> Result<T>, tidy: T -> T, s: seq<T>, t: seq<T>, key: T -> Key)
    requires Invisible(f, tidy, key) && SameGroups(Each(tidy, s), Each(tidy, t), key)
    ensures EachOk(f, SortBy(s, key)) == EachOk(f, SortBy(t, key))
  {
    SortsAlike(Each(tidy, s), Each(tidy, t), key);
    SortEach(tidy, s, key);
    SortEach(tidy, t, key);
    EachOkTidied(f, tidy, SortBy(s, key));
    EachOkTidied(f, tidy, SortBy(t, key));
  }

  // ----- The order of the entries -----

  ghost predicate SameFrame(a: ModuleTypeFacts, b: ModuleTypeFacts) {
    && a.schemaVersion == b.schemaVersion && a.ofModule == b.ofModule && a.sourceDigest == b.sourceDigest
    && a.sourceSize == b.sourceSize && a.sourceDialect == b.sourceDialect
    && a.languagePolicy == b.languagePolicy.(overrides := a.languagePolicy.overrides)
  }

  /** The same facts up to the order of entries with different keys, and up to the order inside an entry. */
  ghost predicate Reordered(a: ModuleTypeFacts, b: ModuleTypeFacts) {
    && SameFrame(a, b)
    && SameGroups(a.languagePolicy.overrides, b.languagePolicy.overrides, OverrideKey)
    && SameGroups(a.consumedDependencies, b.consumedDependencies, DependencyKey)
    && SameGroups(a.globalBindings, b.globalBindings, BindingKey)
    && SameGroups(Each(TidyClass, a.classes), Each(TidyClass, b.classes), ClassFactKey)
    && SameGroups(a.functions, b.functions, FunctionFactKey)
    && SameGroups(a.nominalBindings, b.nominalBindings, NominalKey)
    && SameGroups(a.attributeSites, b.attributeSites, SiteKey)
    && SameGroups(Each(TidyCall, a.callSites), Each(TidyCall, b.callSites), CallKey)
    && SameGroups(Each(SortDiagnostic, a.diagnostics), Each(SortDiagnostic, b.diagnostics), DiagnosticKey)
  }

  lemma CataloguesReordered(a: ModuleTypeFacts, b: ModuleTypeFacts)
    requires Reordered(a, b)
    ensures ArrangedCatalogues(a) == ArrangedCatalogues(b)
  {
    SortsAlike(a.globalBindings, b.globalBindings, BindingKey);
    TidyClassInvisible();
    ArrangedAlike(NormalizeClass, TidyClass, a.classes, b.classes, ClassFactKey);
    SortsAlike(a.functions, b.functions, FunctionFactKey);
    SortsAlike(a.attributeSites, b.attributeSites, SiteKey);
    TidyCallInvisible();
    ArrangedAlike(NormalizeCall, TidyCall, a.callSites, b.callSites, CallKey);
  }

  lemma DiagnosticsReordered(a: seq<StrictDiagnostic>, b: seq<StrictDiagnostic>)
    ensures SortDiagnostics(a) == SortDiagnostics(b)
       <==> SameGroups(Each(SortDiagnostic, a), Each(SortDiagnostic, b), DiagnosticKey)
  {
    assert Each(SortDiagnostic, a) == seq(|a|, i requires 0 <= i < |a| => SortDiagnostic(a[i]));
    assert Each(SortDiagnostic, b) == seq(|b|, i requires 0 <= i < |b| => SortDiagnostic(b[i]));
    SortsAlike(Each(SortDiagnostic, a), Each(SortDiagnostic, b), DiagnosticKey);
  }

  /** Reordering changes neither the canonical facts nor the error. */
  lemma CanonicalOrderIndependent(a: ModuleTypeFacts, b: ModuleTypeFacts)
    requires Reordered(a, b)
    ensures Arranged(a) == Arranged(b) && Canonicalized(a) == Canonicalized(b)
  {
    CataloguesReordered(a, b);
    SortsAlike(a.languagePolicy.overrides, b.languagePolicy.overrides, OverrideKey);
    SortsAlike(a.consumedDependencies, b.consumedDependencies, DependencyKey);
    SortsAlike(a.nominalBindings, b.nominalBindings, NominalKey);
    DiagnosticsReordered(a.diagnostics, b.diagnostics);
  }

  // ----- What can be seen of the order -----

  function Same<T>(x: T): T { x }

  lemma EachSame<T>(s: seq<T>)
    ensures Each(Same, s) == s
  {
  }

  /** Every entry is its own normal form once it is tidied. */
  ghost predicate NormalEntries<T>(f: T -> Result<T>, tidy: T -> T, s: seq<T>) {
    forall x :: x in s ==> f(x) == Ok(tidy(x))
  }

  lemma {:induction false} EachOkNormal<T>(f: T -> Result<T>, tidy: T -> T, s: seq<T>)
    requires NormalEntries(f, tidy, s)
    ensures EachOk(f, s) == Ok(Each(tidy, s))
  {
    if s == [] {
    } else {
      assert s[0] in s;
      EachOkNormal(f, tidy, s[1..]);
      EachCons(tidy, s[0], s[1..]);
      assert s == [s[0]] + s[1..];
    }
  }

  lemma ArrangedNormal<T(!new)>(f: T -> Result<T>, tidy: T -> T, s: seq<T>, key: T -> Key)
    requires RespectsKey(tidy, key) && NormalEntries(f, tidy, s)
    ensures EachOk(f, SortBy(s, key)) == Ok(SortBy(Each(tidy, s), key))
  {
    SortByMembers(s, key);
    forall x | x in SortBy(s, key) ensures x in s {
      assert x in multiset(SortBy(s, key));
    }
    EachOkNormal(f, tidy, SortBy(s, key));
    SortEach(tidy, s, key);
  }

  ghost predicate Normal(facts: ModuleTypeFacts) {
    && NormalEntries(NormalizeBinding, Same, facts.globalBindings)
    && NormalEntries(NormalizeClass, TidyClass, facts.classes)
    && NormalEntries(NormalizeFunction, Same, facts.functions)
    && NormalEntries(NormalizeSite, Same, facts.attributeSites)
    && NormalEntries(NormalizeCall, TidyCall, facts.callSites)
  }

  lemma NormalCatalogues(facts: ModuleTypeFacts)
    requires Normal(facts)
    ensures ArrangedCatalogues(facts) ==
            Ok(Catalogues(
                 SortBy(facts.globalBindings, BindingKey), SortBy(Each(TidyClass, facts.classes), ClassFactKey),
                 SortBy(facts.functions, FunctionFactKey), SortBy(facts.attributeSites, SiteKey),
                 SortBy(Each(TidyCall, facts.callSites), CallKey)))
  {
    EachSame(facts.globalBindings);
    ArrangedNormal(NormalizeBinding, Same, facts.globalBindings, BindingKey);
    ArrangedNormal(NormalizeClass, TidyClass, facts.classes, ClassFactKey);
    EachSame(facts.functions);
    ArrangedNormal(NormalizeFunction, Same, facts.functions, FunctionFactKey);
    EachSame(facts.attributeSites);
    ArrangedNormal(NormalizeSite, Same, facts.attributeSites, SiteKey);
    ArrangedNormal(NormalizeCall, TidyCall, facts.callSites, CallKey);
  }

  /** For facts in normal form that is all: two of them are arranged alike exactly if one is the other reordered. */
  lemma ReorderedExactly(a: ModuleTypeFacts, b: ModuleTypeFacts)
    requires Normal(a) && Normal(b)
    ensures Arranged(a) == Arranged(b) <==> Reordered(a, b)
  {
    NormalCatalogues(a);
    NormalCatalogues(b);
    SortsAlike(a.languagePolicy.overrides, b.languagePolicy.overrides, OverrideKey);
    SortsAlike(a.consumedDependencies, b.consumedDependencies, DependencyKey);
    SortsAlike(a.globalBindings, b.globalBindings, BindingKey);
    SortsAlike(Each(TidyClass, a.classes), Each(TidyClass, b.classes), ClassFactKey);
    SortsAlike(a.functions, b.functions, FunctionFactKey);
    SortsAlike(a.nominalBindings, b.nominalBindings, NominalKey);
    SortsAlike(a.attributeSites, b.attributeSites, SiteKey);
    SortsAlike(Each(TidyCall, a.callSites), Each(TidyCall, b.callSites), CallKey);
    DiagnosticsReordered(a.diagnostics, b.diagnostics);
  }

  /** Two bindings of one name keep their order, so exchanging them is visible. */
  lemma RepeatedNameMatters(facts: ModuleTypeFacts, x: GlobalBindingFact, y: GlobalBindingFact)
    requires Normal(facts.(globalBindings := [x, y])) && x.name == y.name && x != y
    ensures Arranged(facts.(globalBindings := [x, y])) != Arranged(facts.(globalBindings := [y, x]))
  {
    var a, b := facts.(globalBindings := [x, y]), facts.(globalBindings := [y, x]);
    var named := WithKey(BindingKey, BindingKey(x));
    forall z | z in [y, x] ensures NormalizeBinding(z) == Ok(Same(z)) {
      assert z in [x, y];
    }
    ReorderedExactly(a, b);
    FilterAll(named, [x, y]);
    FilterAll(named, [y, x]);
    assert [x, y][0] != [y, x][0];
  }

  // ----- Keys that do not repeat -----

  /** The same entries, in any order, where entries with the same key are the same. */
  ghost predicate Shuffled<T>(s: seq<T>, t: seq<T>, key: T -> Key) {
    multiset(s) == multiset(t) && DeterminedBy(s, key)
  }

  lemma ShuffledReordered(a: ModuleTypeFacts, b: ModuleTypeFacts)
    requires SameFrame(a, b)
    requires Shuffled(a.languagePolicy.overrides, b.languagePolicy.overrides, OverrideKey)
    requires Shuffled(a.consumedDependencies, b.consumedDependencies, DependencyKey)
    requires Shuffled(a.globalBindings, b.globalBindings, BindingKey)
    requires Shuffled(Each(TidyClass, a.classes), Each(TidyClass, b.classes), ClassFactKey)
    requires Shuffled(a.functions, b.functions, FunctionFactKey)
    requires Shuffled(a.nominalBindings, b.nominalBindings, NominalKey)
    requires Shuffled(a.attributeSites, b.attributeSites, SiteKey)
    requires Shuffled(Each(TidyCall, a.callSites), Each(TidyCall, b.callSites), CallKey)
    requires Shuffled(Each(SortDiagnostic, a.diagnostics), Each(SortDiagnostic, b.diagnostics), DiagnosticKey)
    ensures Reordered(a, b)
  {
    ReorderedGroups(a.languagePolicy.overrides, b.languagePolicy.overrides, OverrideKey);
    ReorderedGroups(a.consumedDependencies, b.consumedDependencies, DependencyKey);
    ReorderedGroups(a.globalBindings, b.globalBindings, BindingKey);
    ReorderedGroups(Each(TidyClass, a.classes), Each(TidyClass, b.classes), ClassFactKey);
    ReorderedGroups(a.functions, b.functions, FunctionFactKey);
    ReorderedGroups(a.nominalBindings, b.nominalBindings, NominalKey);
    ReorderedGroups(a.attributeSites, b.attributeSites, SiteKey);
    ReorderedGroups(Each(TidyCall, a.callSites), Each(TidyCall, b.callSites), CallKey);
    ReorderedGroups(Each(SortDiagnostic, a.diagnostics), Each(SortDiagnostic, b.diagnostics), DiagnosticKey);
  }

  /** Inside a class, methods and members may come in any order too. */
  lemma ShuffledClass(c: ClassTypeFact, methods: seq<MethodTypeFact>, members: seq<ClassMemberFact>)
    requires Shuffled(c.methods, methods, MethodKey) && Shuffled(c.classMembers, members, MemberKey)
    ensures TidyClass(c.(methods := methods, classMembers := members)) == TidyClass(c)
  {
    ReorderedGroups(c.methods, methods, MethodKey);
    SortsAlike(c.methods, methods, MethodKey);
    ReorderedGroups(c.classMembers, members, MemberKey);
    SortsAlike(c.classMembers, members, MemberKey);
  }
}
