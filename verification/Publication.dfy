/**
  Publishing a generation and loading it again: building and signing a manifest, authenticating it,
  finding a module in it, and verifying that module's shard.
 */
module Publication {
  import opened Ordering
  import opened Types
  import opened Normalization
  import opened Facts
  import opened Demotion
  import opened Canonical
  import Reordering
  import opened Manifest
  import Hex

  // ----- Building -----

  ghost function NewManifest(p: Platform, environment: ArtifactEnvironment, modules: seq<ModuleArtifactIndex>)
    : Outcome<TypeArtifactManifest>
  {
    var draft := TypeArtifactManifest(CURRENT_VERSIONS, 0, environment, CanonicalModules(modules));
    var manifest := draft.(generation := ContentGeneration(p, draft));
    if ManifestValid(p, manifest) then Success(manifest) else Failure(InvalidStructure)
  }

  /** One module up to the order of its dependency records. */
  datatype Shape = Shape(index: ModuleArtifactIndex, dependencies: multiset<DependencyFingerprint>)

  ghost function ShapeOf(m: ModuleArtifactIndex): Shape {
    Shape(m.(consumedDependencies := []), multiset(m.consumedDependencies))
  }

  ghost function Shapes(ms: seq<ModuleArtifactIndex>): (r: seq<Shape>)
    ensures |r| == |ms| && forall i :: 0 <= i < |ms| ==> r[i] == ShapeOf(ms[i])
  {
    seq(|ms|, i requires 0 <= i < |ms| => ShapeOf(ms[i]))
  }

  /** The same modules, in any order, each with its dependencies in any order. */
  ghost predicate Reordered(ms: seq<ModuleArtifactIndex>, ns: seq<ModuleArtifactIndex>) {
    multiset(Shapes(ms)) == multiset(Shapes(ns))
  }

  lemma StringKeyTells(a: string, b: string)
    ensures StringKey(a) == StringKey(b) <==> a == b
  {
    if StringKey(a) == StringKey(b) { StringKeyInjective(a, b); }
  }

  lemma DistinctDependenciesByKey(ds: seq<DependencyFingerprint>)
    ensures DistinctDependencies(ds) <==> DistinctBy(ds, DependencyKey)
  {
    forall i, j | 0 <= i < j < |ds|
      ensures DependencyKey(ds[i]) == DependencyKey(ds[j]) <==> ds[i].ofModule.moduleName == ds[j].ofModule.moduleName
    {
      StringKeyTells(ds[i].ofModule.moduleName, ds[j].ofModule.moduleName);
    }
  }

  lemma DistinctModulesByKey(ms: seq<ModuleArtifactIndex>)
    ensures DistinctModules(ms) <==> DistinctBy(ms, IndexKey)
  {
    forall i, j | 0 <= i < j < |ms| ensures IndexKey(ms[i]) == IndexKey(ms[j]) <==> ms[i].Name() == ms[j].Name() {
      StringKeyTells(ms[i].Name(), ms[j].Name());
    }
  }

  lemma SameShapeSameIndex(m: ModuleArtifactIndex, n: ModuleArtifactIndex)
    requires ShapeOf(m) == ShapeOf(n) && DistinctDependencies(m.consumedDependencies)
    ensures CanonicalIndex(m) == CanonicalIndex(n)
  {
    DistinctDependenciesByKey(m.consumedDependencies);
    SortByPermutation(m.consumedDependencies, n.consumedDependencies, DependencyKey);
    assert m == m.(consumedDependencies := []).(consumedDependencies := m.consumedDependencies);
    assert n == n.(consumedDependencies := []).(consumedDependencies := n.consumedDependencies);
  }

  function Removed<T>(s: seq<T>, j: nat): (r: seq<T>)
    requires j < |s|
    ensures |r| == |s| - 1 && forall i :: 0 <= i < |r| ==> r[i] == s[if i < j then i else i + 1]
  {
    s[..j] + s[j + 1..]
  }

  lemma RemovedMultiset<T>(s: seq<T>, j: nat)
    requires j < |s|
    ensures multiset(s) == multiset(Removed(s, j)) + multiset{s[j]}
  {
    assert s == s[..j] + [s[j]] + s[j + 1..];
  }

  /** If `a` determines `b` across two lists, equal collections of `a` give equal collections of `b`. */
  lemma {:induction false} Determines<A, B>(a: seq<A>, a': seq<A>, b: seq<B>, b': seq<B>)
    requires |a| == |b| && |a'| == |b'| && multiset(a) == multiset(a')
    requires forall i, j :: 0 <= i < |a| && 0 <= j < |a'| && a[i] == a'[j] ==> b[i] == b'[j]
    ensures multiset(b) == multiset(b') && |b| == |b'|
    decreases |a|
  {
    assert |multiset(a)| == |multiset(a')|;
    if a != [] {
      assert a[0] in multiset(a');
      var j :| 0 <= j < |a'| && a'[j] == a[0];
      RemovedMultiset(a, 0);
      RemovedMultiset(a', j);
      RemovedMultiset(b, 0);
      RemovedMultiset(b', j);
      assert multiset(Removed(a, 0)) == multiset(Removed(a', j)) by {
        assert multiset(Removed(a, 0)) == multiset(a) - multiset{a[0]};
        assert multiset(Removed(a', j)) == multiset(a') - multiset{a'[j]};
      }
      Determines(Removed(a, 0), Removed(a', j), Removed(b, 0), Removed(b', j));
    }
  }

  /** Modules of the same shapes have the same canonical indexes, counted with repetition. */
  lemma SameShapesSameIndexes(ms: seq<ModuleArtifactIndex>, ns: seq<ModuleArtifactIndex>)
    requires Reordered(ms, ns)
    requires forall i :: 0 <= i < |ms| ==> DistinctDependencies(ms[i].consumedDependencies)
    ensures multiset(CanonicalIndexes(ms)) == multiset(CanonicalIndexes(ns))
  {
    forall i, j | 0 <= i < |ms| && 0 <= j < |ns| && Shapes(ms)[i] == Shapes(ns)[j]
      ensures CanonicalIndexes(ms)[i] == CanonicalIndexes(ns)[j]
    {
      SameShapeSameIndex(ms[i], ns[j]);
    }
    Determines(Shapes(ms), Shapes(ns), CanonicalIndexes(ms), CanonicalIndexes(ns));
  }

  /** Sorting commutes with canonicalizing each index, because names survive. */
  lemma CanonicalModulesSorted(ms: seq<ModuleArtifactIndex>)
    ensures SortedBy(CanonicalModules(ms), IndexKey)
    ensures multiset(CanonicalModules(ms)) == multiset(CanonicalIndexes(ms))
  {
    SortBySorted(ms, IndexKey);
    SortByMembers(ms, IndexKey);
    var sorted, r := SortBy(ms, IndexKey), CanonicalModules(ms);
    Determines(ms, sorted, CanonicalIndexes(ms), r);
    forall i | 0 <= i < |r| ensures IndexKey(r[i]) == IndexKey(sorted[i]) {}
  }

  /** Valid canonical modules come from modules whose dependency records were distinct. */
  lemma ValidMeansDistinct(p: Platform, ms: seq<ModuleArtifactIndex>)
    requires ModulesValid(p, CanonicalModules(ms))
    ensures forall i :: 0 <= i < |ms| ==> DistinctDependencies(ms[i].consumedDependencies)
    ensures DistinctBy(CanonicalModules(ms), IndexKey)
  {
    var r := CanonicalModules(ms);
    DistinctModulesByKey(r);
    CanonicalModulesSorted(ms);
    forall i | 0 <= i < |ms| ensures DistinctDependencies(ms[i].consumedDependencies) {
      var c := CanonicalIndexes(ms)[i];
      assert c in multiset(CanonicalIndexes(ms));
      assert c in multiset(r);
      var k :| 0 <= k < |r| && r[k] == c;
      assert DependenciesValid(p, r[k].consumedDependencies, r[k].Name());
      var ds := ms[i].consumedDependencies;
      SortByMembers(ds, DependencyKey);
      DistinctDependenciesByKey(SortBy(ds, DependencyKey));
      DistinctPermuted(SortBy(ds, DependencyKey), ds, DependencyKey);
      DistinctDependenciesByKey(ds);
    }
  }

  lemma ReorderedCanonical(p: Platform, ms: seq<ModuleArtifactIndex>, ns: seq<ModuleArtifactIndex>)
    requires Reordered(ms, ns) && ModulesValid(p, CanonicalModules(ms))
    ensures CanonicalModules(ms) == CanonicalModules(ns)
  {
    ValidMeansDistinct(p, ms);
    SameShapesSameIndexes(ms, ns);
    CanonicalModulesSorted(ms);
    CanonicalModulesSorted(ns);
    DistinctDetermines(CanonicalModules(ms), IndexKey);
    SortedUnique(CanonicalModules(ms), CanonicalModules(ns), IndexKey);
  }

  // ----- The check does not see the order -----

  /** Every module of a reordered list has a counterpart with the same records. */
  lemma ReorderedCounterpart(ms: seq<ModuleArtifactIndex>, ns: seq<ModuleArtifactIndex>, j: nat) returns (i: nat)
    requires Reordered(ms, ns) && j < |ns|
    ensures i < |ms| && ShapeOf(ms[i]) == ShapeOf(ns[j])
  {
    assert Shapes(ns)[j] in multiset(Shapes(ns));
    assert Shapes(ns)[j] in multiset(Shapes(ms));
    i :| 0 <= i < |ms| && Shapes(ms)[i] == Shapes(ns)[j];
  }

  lemma SameShapeSameMembers(m: ModuleArtifactIndex, n: ModuleArtifactIndex, d: DependencyFingerprint)
    requires ShapeOf(m) == ShapeOf(n)
    ensures d in m.consumedDependencies <==> d in n.consumedDependencies
  {
    assert d in m.consumedDependencies <==> d in multiset(m.consumedDependencies);
    assert d in n.consumedDependencies <==> d in multiset(n.consumedDependencies);
  }

  lemma SameShapeSameRecord(m: ModuleArtifactIndex, n: ModuleArtifactIndex)
    requires ShapeOf(m) == ShapeOf(n)
    ensures SameRecord(m, n)
  {
    assert n.(consumedDependencies := []).(consumedDependencies := n.consumedDependencies) == n;
    assert m.(consumedDependencies := []).(consumedDependencies := n.consumedDependencies) ==
           m.(consumedDependencies := n.consumedDependencies);
  }

  lemma ReorderedProducers(ms: seq<ModuleArtifactIndex>, ns: seq<ModuleArtifactIndex>)
    requires Reordered(ms, ns)
    ensures ProducersAmong(ms, ns)
  {
    forall j | 0 <= j < |ns| ensures Lists(ms, ns[j]) {
      var i := ReorderedCounterpart(ms, ns, j);
      SameShapeSameRecord(ms[i], ns[j]);
    }
  }

  lemma ReorderedClaim(ms: seq<ModuleArtifactIndex>, ns: seq<ModuleArtifactIndex>, d: DependencyFingerprint)
    requires Reordered(ms, ns) && d in AllDependencies(ns)
    ensures d in AllDependencies(ms)
  {
    AllDependenciesMembers(ns, d);
    var j :| 0 <= j < |ns| && d in ns[j].consumedDependencies;
    var i := ReorderedCounterpart(ms, ns, j);
    SameShapeSameMembers(ms[i], ns[j], d);
    AllDependenciesMembers(ms, d);
  }

  ghost function Stripped(ms: seq<ModuleArtifactIndex>): (r: seq<ModuleArtifactIndex>)
    ensures |r| == |ms| && forall i :: 0 <= i < |ms| ==> r[i] == ms[i].(consumedDependencies := [])
  {
    seq(|ms|, i requires 0 <= i < |ms| => ms[i].(consumedDependencies := []))
  }

  lemma ReorderedDistinct(ms: seq<ModuleArtifactIndex>, ns: seq<ModuleArtifactIndex>)
    requires Reordered(ms, ns) && DistinctModules(ms)
    ensures DistinctModules(ns)
  {
    Determines(Shapes(ms), Shapes(ns), Stripped(ms), Stripped(ns));
    assert forall i :: 0 <= i < |ms| ==> Stripped(ms)[i].Name() == ms[i].Name();
    assert forall i :: 0 <= i < |ns| ==> Stripped(ns)[i].Name() == ns[i].Name();
    assert DistinctModules(Stripped(ms));
    DistinctModulesByKey(Stripped(ms));
    DistinctPermuted(Stripped(ms), Stripped(ns), IndexKey);
    DistinctModulesByKey(Stripped(ns));
    forall i, j | 0 <= i < j < |ns| ensures ns[i].Name() != ns[j].Name() {
      assert Stripped(ns)[i].Name() != Stripped(ns)[j].Name();
    }
  }

  lemma PermutedDependenciesValid(
    p: Platform, ds: seq<DependencyFingerprint>, es: seq<DependencyFingerprint>, owner: string)
    requires multiset(ds) == multiset(es) && DependenciesValid(p, ds, owner)
    ensures DependenciesValid(p, es, owner)
  {
    forall i | 0 <= i < |es| ensures p.validName(es[i].ofModule.moduleName) && es[i].ofModule.moduleName != owner {
      assert es[i] in multiset(ds);
      var k :| 0 <= k < |ds| && ds[k] == es[i];
    }
    DistinctDependenciesByKey(ds);
    DistinctPermuted(ds, es, DependencyKey);
    DistinctDependenciesByKey(es);
  }

  lemma ReorderedStaysValid(p: Platform, ms: seq<ModuleArtifactIndex>, ns: seq<ModuleArtifactIndex>)
    requires Reordered(ms, ns) && ModulesValid(p, ms)
    ensures ModulesValid(p, ns)
  {
    ReorderedDistinct(ms, ns);
    forall j | 0 <= j < |ns|
      ensures p.validName(ns[j].Name()) && DependenciesValid(p, ns[j].consumedDependencies, ns[j].Name())
    {
      var i := ReorderedCounterpart(ms, ns, j);
      SameShapeSameRecord(ms[i], ns[j]);
      assert ms[i].Name() == ns[j].Name();
      PermutedDependenciesValid(p, ms[i].consumedDependencies, ns[j].consumedDependencies, ns[j].Name());
    }
    ReorderedProducers(ms, ns);
    forall d ensures d in AllDependencies(ms) <==> d in AllDependencies(ns) {
      if d in AllDependencies(ms) { ReorderedClaim(ns, ms, d); }
      if d in AllDependencies(ns) { ReorderedClaim(ms, ns, d); }
    }
    ClaimsCarry(ms, ns, AllDependencies(ms), AllDependencies(ns));
  }

  /** The check accepts a list of modules exactly when it accepts every reordering of it. */
  lemma ValidityOrderIndependent(p: Platform, ms: seq<ModuleArtifactIndex>, ns: seq<ModuleArtifactIndex>)
    requires Reordered(ms, ns)
    ensures ModulesValid(p, ms) <==> ModulesValid(p, ns)
  {
    if ModulesValid(p, ms) {
      ReorderedStaysValid(p, ms, ns);
    } else if ModulesValid(p, ns) {
      ReorderedStaysValid(p, ns, ms);
    }
  }

  /** Reordering modules or their dependencies changes neither success nor the manifest built. */
  lemma BuildOrderIndependent(
    p: Platform, e: ArtifactEnvironment, ms: seq<ModuleArtifactIndex>, ns: seq<ModuleArtifactIndex>)
    requires Reordered(ms, ns)
    ensures NewManifest(p, e, ms) == NewManifest(p, e, ns)
  {
    if NewManifest(p, e, ms).Success? {
      ReorderedCanonical(p, ms, ns);
    } else if NewManifest(p, e, ns).Success? {
      ReorderedCanonical(p, ns, ms);
    }
  }

  lemma CanonicalModulesTwice(ms: seq<ModuleArtifactIndex>)
    ensures CanonicalModules(CanonicalModules(ms)) == CanonicalModules(ms)
  {
    var r := CanonicalModules(ms);
    CanonicalModulesSorted(ms);
    SortByFixed(r, IndexKey);
    forall i | 0 <= i < |r| ensures CanonicalIndex(r[i]) == r[i] {
      var m := SortBy(ms, IndexKey)[i];
      SortBySorted(m.consumedDependencies, DependencyKey);
      SortByFixed(SortBy(m.consumedDependencies, DependencyKey), DependencyKey);
    }
  }

  // ----- Signing and authenticating -----

  ghost function SignManifest(p: Platform, m: TypeArtifactManifest, key: SigningKey): Outcome<Bytes> {
    var manifest := CanonicalManifest(m);
    var bytes := EnvelopeBytes(manifest, Hex.Encode(p.sign(key, PayloadBytes(manifest))));
    var _ :- Need(ManifestValid(p, manifest), InvalidStructure);
    var _ :- Need(p.size(bytes) <= MAX_MANIFEST_BYTES, SizeLimit);
    Success(bytes)
  }

  datatype ArtifactExpectations = ArtifactExpectations(generation: Fingerprint, environment: ArtifactEnvironment)

  datatype VerifiedManifest = VerifiedManifest(manifest: TypeArtifactManifest, manifestDigest: Fingerprint)

  ghost function VerifyManifest(p: Platform, bytes: Bytes, anchor: TrustAnchor, expected: ArtifactExpectations)
    : Outcome<VerifiedManifest>
  {
    var _ :- Need(p.size(bytes) <= MAX_MANIFEST_BYTES, SizeLimit);
    var _ :- Need(bytes.EnvelopeBytes?, BadEncoding);
    var m, signature := bytes.manifest, Hex.Decode(bytes.signature);
    var _ :- Need(|bytes.signature| == 128 && signature.Some?, BadEncoding);
    var _ :- Need(p.verify(anchor, PayloadBytes(m), signature.value), UntrustedSignature);
    var _ :- Need(ManifestValid(p, m), InvalidStructure);
    var _ :- Need(CanonicalManifest(m) == m, NonCanonicalEncoding);
    var _ :- Need(m.generation == expected.generation, GenerationMismatch);
    var _ :- Need(EnvironmentValid(p, expected.environment), InvalidStructure);
    var _ :- Need(m.environment == expected.environment, EnvironmentMismatch);
    Success(VerifiedManifest(m, p.digest(bytes)))
  }

  /** What was signed verifies under the signer's anchor against the manifest's own generation and environment. */
  lemma SignedVerifies(p: Platform, m: TypeArtifactManifest, key: SigningKey)
    requires p.Signs() && SignManifest(p, m, key).Success?
    ensures var bytes := SignManifest(p, m, key).value;
            VerifyManifest(p, bytes, p.anchor(key), ArtifactExpectations(m.generation, m.environment))
            == Success(VerifiedManifest(CanonicalManifest(m), p.digest(bytes)))
  {
    var manifest := CanonicalManifest(m);
    var signature := p.sign(key, PayloadBytes(manifest));
    assert |signature| == 64 && p.verify(p.anchor(key), PayloadBytes(manifest), signature);
    Hex.RoundTrip(signature);
    CanonicalModulesTwice(m.modules);
  }

  /** The same manifest signed from any order gives the same bytes. */
  lemma SignatureOrderIndependent(p: Platform, m: TypeArtifactManifest, n: TypeArtifactManifest, key: SigningKey)
    requires n == m.(modules := n.modules) && Reordered(m.modules, n.modules)
    ensures SignManifest(p, m, key) == SignManifest(p, n, key)
  {
    if ManifestValid(p, CanonicalManifest(m)) {
      ReorderedCanonical(p, m.modules, n.modules);
    } else if ManifestValid(p, CanonicalManifest(n)) {
      ReorderedCanonical(p, n.modules, m.modules);
    }
  }

  /** Whatever is accepted carries a valid signature, is canonical and valid, and is what was expected. */
  lemma AcceptedIsAuthentic(p: Platform, bytes: Bytes, anchor: TrustAnchor, expected: ArtifactExpectations)
    requires VerifyManifest(p, bytes, anchor, expected).Success?
    ensures var m := VerifyManifest(p, bytes, anchor, expected).value.manifest;
            && Trusted(p, m)
            && m.generation == expected.generation && m.environment == expected.environment
            && (exists signature :: bytes == EnvelopeBytes(m, Hex.Encode(signature)) && |signature| == 64
                                  && p.verify(anchor, PayloadBytes(m), signature))
  {
    var signature := Hex.Decode(bytes.signature).value;
    Hex.DecodeEncodes(bytes.signature);
    Hex.RoundTrip(signature);
    assert bytes == EnvelopeBytes(bytes.manifest, Hex.Encode(signature));
  }

  /** The form in which a manifest is handed to the loader. */
  ghost predicate Trusted(p: Platform, m: TypeArtifactManifest) {
    ManifestValid(p, m) && CanonicalManifest(m) == m
  }

  lemma TrustedIsSorted(p: Platform, m: TypeArtifactManifest)
    requires Trusted(p, m)
    ensures SortedBy(m.modules, IndexKey) && DistinctModules(m.modules)
    ensures forall i :: 0 <= i < |m.modules| ==>
      SortBy(m.modules[i].consumedDependencies, DependencyKey) == m.modules[i].consumedDependencies
  {
    CanonicalModulesSorted(m.modules);
    SortByFixed(m.modules, IndexKey);
    var ms := m.modules;
    assert CanonicalModules(ms) == ms;
    forall i | 0 <= i < |ms| ensures CanonicalIndex(ms[i]) == ms[i] {
      assert CanonicalIndexes(ms)[i] == ms[i];
    }
  }

  // ----- Looking a module up -----

  /** Binary search by name finds a module exactly when it is listed. */
  method ModuleIndex(ms: seq<ModuleArtifactIndex>, name: string) returns (r: Outcome<ModuleArtifactIndex>)
    requires SortedBy(ms, IndexKey) && DistinctModules(ms)
    ensures r == FindModule(ms, name)
    ensures r.Success? <==> exists i :: 0 <= i < |ms| && ms[i].Name() == name
    ensures r.Success? ==> r.value in ms && r.value.Name() == name
    ensures r.Failure? ==> r.error == MissingModule(name)
  {
    var lo, hi := 0, |ms|;
    while lo < hi
      invariant 0 <= lo <= hi <= |ms|
      invariant forall i :: 0 <= i < lo ==> Less(IndexKey(ms[i]), StringKey(name))
      invariant forall i :: hi <= i < |ms| ==> Less(StringKey(name), IndexKey(ms[i]))
    {
      var mid := lo + (hi - lo) / 2;
      if ms[mid].Name() == name {
        FindListed(ms, ms[mid]);
        return Success(ms[mid]);
      }
      StringKeyTells(ms[mid].Name(), name);
      LessTotal(IndexKey(ms[mid]), StringKey(name));
      if Less(IndexKey(ms[mid]), StringKey(name)) {
        forall i | 0 <= i <= mid ensures Less(IndexKey(ms[i]), StringKey(name)) {
          BelowSorted(ms, i, mid, name);
        }
        lo := mid + 1;
      } else {
        forall i | mid <= i < |ms| ensures Less(StringKey(name), IndexKey(ms[i])) {
          AboveSorted(ms, mid, i, name);
        }
        hi := mid;
      }
    }
    forall i | 0 <= i < |ms| ensures ms[i].Name() != name {
      LessIrreflexive(StringKey(name));
    }
    r := Failure(MissingModule(name));
  }

  lemma BelowSorted(ms: seq<ModuleArtifactIndex>, i: nat, mid: nat, name: string)
    requires SortedBy(ms, IndexKey) && i <= mid < |ms| && Less(IndexKey(ms[mid]), StringKey(name))
    ensures Less(IndexKey(ms[i]), StringKey(name))
  {
    if i < mid {
      LessTotal(IndexKey(ms[i]), IndexKey(ms[mid]));
      if Less(IndexKey(ms[i]), IndexKey(ms[mid])) {
        LessTransitive(IndexKey(ms[i]), IndexKey(ms[mid]), StringKey(name));
      }
    }
  }

  lemma AboveSorted(ms: seq<ModuleArtifactIndex>, mid: nat, i: nat, name: string)
    requires SortedBy(ms, IndexKey) && mid <= i < |ms| && Less(StringKey(name), IndexKey(ms[mid]))
    ensures Less(StringKey(name), IndexKey(ms[i]))
  {
    if mid < i {
      LessTotal(IndexKey(ms[mid]), IndexKey(ms[i]));
      if Less(IndexKey(ms[mid]), IndexKey(ms[i])) {
        LessTransitive(StringKey(name), IndexKey(ms[mid]), IndexKey(ms[i]));
      }
    }
  }

  /** The search as a specification: the listed module of that name. */
  ghost function FindModule(ms: seq<ModuleArtifactIndex>, name: string): Outcome<ModuleArtifactIndex> {
    if i :| 0 <= i < |ms| && ms[i].Name() == name then Success(ms[i]) else Failure(MissingModule(name))
  }

  lemma FindListed(ms: seq<ModuleArtifactIndex>, m: ModuleArtifactIndex)
    requires DistinctModules(ms) && m in ms
    ensures FindModule(ms, m.Name()) == Success(m)
  {
    var i :| 0 <= i < |ms| && ms[i] == m;
    var name := m.Name();
    assert FindModule(ms, name).Success?;
    var k :| 0 <= k < |ms| && ms[k].Name() == name && FindModule(ms, name) == Success(ms[k]);
  }

  // ----- Shards -----

  /** Structural validation, of which only the parts shared with this model are spelled out. */
  ghost predicate FactsValid(p: Platform, facts: ModuleTypeFacts, source: Option<seq<nat>>) {
    && facts.schemaVersion == ARTIFACT_SCHEMA_VERSION && p.validName(facts.ofModule.moduleName)
    && DependenciesValid(p, facts.consumedDependencies, facts.ofModule.moduleName)
    && (source.Some? ==> SourceMatches(p, facts.ofModule, facts.sourceDigest, facts.sourceSize, source.value))
    && p.validRecord(facts, source)
    && Demoted(facts) == facts
  }

  predicate SourceMatches(p: Platform, m: ModuleContentId, digest: Fingerprint, size: nat, source: seq<nat>) {
    digest == p.digest(Raw(source)) && m.sourceHash == p.sourceHash(source) && size == |source|
  }

  /** Encoding hands out the canonical facts; the shard's bytes and digest follow from them. */
  ghost function EncodeShard(p: Platform, facts: ModuleTypeFacts): Outcome<ModuleTypeFacts> {
    var canonical := Canonicalized(facts);
    var _ :- Need(canonical.Ok?, if canonical.Err? then InvalidType(canonical.error) else InvalidStructure);
    var _ :- Need(FactsValid(p, canonical.value, Option.None), InvalidFacts);
    var _ :- Need(p.size(ShardBytes(canonical.value)) <= MAX_SHARD_BYTES, SizeLimit);
    Success(canonical.value)
  }

  function IndexOf(p: Platform, facts: ModuleTypeFacts): ModuleArtifactIndex {
    ModuleArtifactIndex(
      facts.ofModule, facts.sourceDigest, facts.sourceSize, p.digest(PolicyBytes(facts.languagePolicy)),
      p.digest(ShardBytes(facts)), facts.consumedDependencies)
  }

  ghost function VerifyShard(p: Platform, index: ModuleArtifactIndex, bytes: Bytes): Outcome<ModuleTypeFacts> {
    var _ :- Need(p.size(bytes) <= MAX_SHARD_BYTES, SizeLimit);
    var _ :- Need(p.digest(bytes) == index.shardDigest, ShardMismatch(index.Name()));
    var _ :- Need(bytes.ShardBytes?, BadEncoding);
    var facts := bytes.facts;
    var _ :- Need(FactsValid(p, facts, Option.None), InvalidFacts);
    var _ :- Need(Canonicalized(facts) == Ok(facts), NonCanonicalEncoding);
    var _ :- Need(IndexOf(p, facts).(shardDigest := index.shardDigest) == index, ShardMismatch(index.Name()));
    Success(facts)
  }

  datatype VerifiedFacts = VerifiedFacts(facts: ModuleTypeFacts, generation: Fingerprint, shardDigest: Fingerprint)

  ghost function VerifyModule(p: Platform, m: TypeArtifactManifest, name: string, source: seq<nat>,
                              policy: ResolvedStrictPolicy, dependencies: seq<DependencyFingerprint>, bytes: Bytes)
    : Outcome<VerifiedFacts>
  {
    var index :- FindModule(m.modules, name);
    var _ :- Need(SourceMatches(p, index.ofModule, index.sourceDigest, index.sourceSize, source), SourceMismatch(name));
    var _ :- Need(index.effectivePolicy == p.digest(PolicyBytes(policy)), PolicyMismatch(name));
    var current := SortBy(dependencies, DependencyKey);
    var _ :- Need(DependenciesValid(p, current, name), DependencyMismatch(name));
    var _ :- Need(index.consumedDependencies == current, DependencyMismatch(name));
    var facts :- VerifyShard(p, index, bytes);
    var _ :- Need(facts.languagePolicy == policy, PolicyMismatch(name));
    var _ :- Need(FactsValid(p, facts, Some(source)), InvalidFacts);
    Success(VerifiedFacts(facts, m.generation, index.shardDigest))
  }

  /** An encoded shard verifies against its own index. */
  lemma ShardVerifies(p: Platform, facts: ModuleTypeFacts)
    requires EncodeShard(p, facts).Success?
    ensures var c := EncodeShard(p, facts).value; VerifyShard(p, IndexOf(p, c), ShardBytes(c)) == Success(c)
  {
    CanonicalizationIdempotent(facts);
  }

  /** The shard, and with it its bytes, its digest and its index, does not depend on the order of the catalogues. */
  lemma ShardOrderIndependent(p: Platform, a: ModuleTypeFacts, b: ModuleTypeFacts)
    requires Reordering.Reordered(a, b)
    ensures EncodeShard(p, a) == EncodeShard(p, b)
  {
    hide Canonicalized, Reordering.Reordered;
    Reordering.CanonicalOrderIndependent(a, b);
  }

  ghost predicate CollisionFree(p: Platform) {
    forall a, b :: p.digest(a) == p.digest(b) ==> a == b
  }

  /** With digests that do not collide, the index of a shard admits no other bytes. */
  lemma OnlyItsOwnShard(p: Platform, facts: ModuleTypeFacts, bytes: Bytes)
    requires CollisionFree(p) && VerifyShard(p, IndexOf(p, facts), bytes).Success?
    ensures bytes == ShardBytes(facts) && VerifyShard(p, IndexOf(p, facts), bytes).value == facts
  {
    assert p.digest(bytes) == p.digest(ShardBytes(facts));
  }

  /** The checks that `VerifyModule` makes around the shard. */
  lemma AcceptedModuleParts(
    p: Platform, m: TypeArtifactManifest, index: ModuleArtifactIndex, source: seq<nat>, policy: ResolvedStrictPolicy,
    dependencies: seq<DependencyFingerprint>, bytes: Bytes, r: Outcome<VerifiedFacts>)
    requires FindModule(m.modules, index.Name()) == Success(index)
    requires r == VerifyModule(p, m, index.Name(), source, policy, dependencies, bytes) && r.Success?
    ensures VerifyShard(p, index, bytes) == Success(r.value.facts)
    ensures r.value == VerifiedFacts(r.value.facts, m.generation, index.shardDigest)
    ensures r.value.facts.languagePolicy == policy && FactsValid(p, r.value.facts, Some(source))
    ensures index.consumedDependencies == SortBy(dependencies, DependencyKey)
  {
  }

  /**
    Whatever a loader accepts for a listed module is what was published: the same shard and facts, the
    policy they were made under, and the same dependencies up to their order.
   */
  lemma AcceptedModuleIsPublished(
    p: Platform, m: TypeArtifactManifest, facts: ModuleTypeFacts, source: seq<nat>, policy: ResolvedStrictPolicy,
    dependencies: seq<DependencyFingerprint>, bytes: Bytes, r: Outcome<VerifiedFacts>)
    requires CollisionFree(p) && Trusted(p, m) && IndexOf(p, facts) in m.modules
    requires r == VerifyModule(p, m, facts.ofModule.moduleName, source, policy, dependencies, bytes) && r.Success?
    ensures r.value == VerifiedFacts(facts, m.generation, p.digest(ShardBytes(facts)))
    ensures bytes == ShardBytes(facts) && policy == facts.languagePolicy && FactsValid(p, facts, Some(source))
    ensures multiset(dependencies) == multiset(facts.consumedDependencies)
  {
    FindListed(m.modules, IndexOf(p, facts));
    AcceptedModuleParts(p, m, IndexOf(p, facts), source, policy, dependencies, bytes, r);
    OnlyItsOwnShard(p, facts, bytes);
    SortByMembers(dependencies, DependencyKey);
  }

  lemma CanonicalDependencies(facts: ModuleTypeFacts)
    requires Canonicalized(facts).Ok?
    ensures Canonicalized(facts).value.consumedDependencies == SortBy(facts.consumedDependencies, DependencyKey)
  {
    DemotedDependencies(Arranged(facts).value);
    assert Arranged(facts).value.consumedDependencies == SortBy(facts.consumedDependencies, DependencyKey);
  }

  lemma DemotedDependencies(facts: ModuleTypeFacts)
    ensures Demoted(facts).consumedDependencies == facts.consumedDependencies
  {
  }

  lemma EncodedDependenciesSorted(p: Platform, facts: ModuleTypeFacts)
    requires EncodeShard(p, facts).Success?
    ensures SortedBy(EncodeShard(p, facts).value.consumedDependencies, DependencyKey)
    ensures DistinctBy(EncodeShard(p, facts).value.consumedDependencies, DependencyKey)
  {
    SortBySorted(facts.consumedDependencies, DependencyKey);
    CanonicalDependencies(facts);
    DistinctDependenciesByKey(EncodeShard(p, facts).value.consumedDependencies);
  }

  /**
    The published path: facts encoded into a shard, listed in a manifest, signed and authenticated, come
    back as the canonical facts, whatever the order in which the loader presents the dependencies. The
    one remaining condition is that the facts also validate against the source bytes.
   */
  lemma PublishedModuleVerifies(
    p: Platform, facts: ModuleTypeFacts, e: ArtifactEnvironment, modules: seq<ModuleArtifactIndex>, key: SigningKey,
    source: seq<nat>, dependencies: seq<DependencyFingerprint>)
    requires p.Signs() && EncodeShard(p, facts).Success?
    requires IndexOf(p, EncodeShard(p, facts).value) in modules
    requires NewManifest(p, e, modules).Success? && SignManifest(p, NewManifest(p, e, modules).value, key).Success?
    requires multiset(dependencies) == multiset(EncodeShard(p, facts).value.consumedDependencies)
    ensures var c, m := EncodeShard(p, facts).value, NewManifest(p, e, modules).value;
            var name, bytes := c.ofModule.moduleName, SignManifest(p, m, key).value;
            var verified := VerifyManifest(p, bytes, p.anchor(key), ArtifactExpectations(m.generation, e));
            && verified == Success(VerifiedManifest(m, p.digest(bytes)))
            && (VerifyModule(p, m, name, source, c.languagePolicy, dependencies, ShardBytes(c))
                  == Success(VerifiedFacts(c, m.generation, p.digest(ShardBytes(c))))
                <==> FactsValid(p, c, Some(source)))
  {
    var c, m := EncodeShard(p, facts).value, NewManifest(p, e, modules).value;
    CanonicalModulesTwice(modules);
    SignedVerifies(p, m, key);
    PublishedIndexListed(p, facts, modules);
    FindListed(m.modules, IndexOf(p, c));
    EncodedDependenciesSorted(p, facts);
    SortByPermutation(c.consumedDependencies, dependencies, DependencyKey);
    SortByFixed(c.consumedDependencies, DependencyKey);
    ShardVerifies(p, facts);
  }

  lemma PublishedIndexListed(p: Platform, facts: ModuleTypeFacts, modules: seq<ModuleArtifactIndex>)
    requires EncodeShard(p, facts).Success? && IndexOf(p, EncodeShard(p, facts).value) in modules
    ensures IndexOf(p, EncodeShard(p, facts).value) in CanonicalModules(modules)
  {
    var index := IndexOf(p, EncodeShard(p, facts).value);
    EncodedDependenciesSorted(p, facts);
    SortByFixed(index.consumedDependencies, DependencyKey);
    assert CanonicalIndex(index) == index;
    var i :| 0 <= i < |modules| && modules[i] == index;
    CanonicalModulesSorted(modules);
    assert CanonicalIndexes(modules)[i] == index;
    assert index in multiset(CanonicalIndexes(modules));
    assert index in multiset(CanonicalModules(modules));
  }
}
