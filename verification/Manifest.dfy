/**
  The signed manifest of a type-artifact generation: its canonical form and its consistency check.

  Byte strings are documents: a canonical encoding is the document of the value it encodes, so that
  decoding is exact, and bytes that encode nothing are `Raw`. Digests, sizes, signatures and the
  validity rules that only look inside one record are parameters, and may be any functions.
 */
module Manifest {
  import opened Ordering
  import opened Types
  import opened Normalization
  import opened Facts
  import opened Canonical
  import Hex

  const ARTIFACT_SCHEMA_VERSION: nat := 7
  const STRICT_CONTRACT_VERSION: nat := 3
  const DIALECT_VERSION: nat := 2
  const MAX_MANIFEST_BYTES: nat := 64 * 1024 * 1024
  const MAX_SHARD_BYTES: nat := 16 * 1024 * 1024

  datatype ContractError =
    | VersionMismatch
    | InvalidStructure
    | InvalidPolicy
    | InvalidSourceIdentity
    | InvalidFacts
    | InvalidType(cause: TypeError)
    | DependencyMismatch(name: string)
    | MissingModule(name: string)
    | SourceMismatch(name: string)
    | PolicyMismatch(name: string)
    | ShardMismatch(name: string)
    | GenerationMismatch
    | EnvironmentMismatch
    | UntrustedSignature
    | NonCanonicalEncoding
    | BadEncoding
    | SizeLimit

  datatype Outcome<+T> = Success(value: T) | Failure(error: ContractError) {
    predicate IsFailure() { Failure? }
    function PropagateFailure<U>(): Outcome<U> requires Failure? { Failure(error) }
    function Extract(): T requires Success? { value }
  }

  function Need(condition: bool, error: ContractError): Outcome<()> {
    if condition then Success(()) else Failure(error)
  }

  datatype ArtifactVersions = ArtifactVersions(schema: nat, strictContract: nat, dialect: nat)

  const CURRENT_VERSIONS := ArtifactVersions(ARTIFACT_SCHEMA_VERSION, STRICT_CONTRACT_VERSION, DIALECT_VERSION)

  datatype ArtifactEnvironment = ArtifactEnvironment(
    tyRevision: string,
    checkerSource: Fingerprint,
    exporterRevision: string,
    pythonMajor: nat,
    pythonMinor: nat,
    pythonPlatform: string,
    abi: Fingerprint,
    projectPolicy: Fingerprint,
    typecheckerConfiguration: Fingerprint,
    importSearchPath: Fingerprint,
    typeshed: Fingerprint,
    installedStubs: Fingerprint,
    installedDependencies: Fingerprint,
    strictEquality: bool,
    strictNarrowing: bool)

  datatype ModuleArtifactIndex = ModuleArtifactIndex(
    ofModule: ModuleContentId,
    sourceDigest: Fingerprint,
    sourceSize: nat,
    effectivePolicy: Fingerprint,
    shardDigest: Fingerprint,
    consumedDependencies: seq<DependencyFingerprint>)
  {
    function Name(): string { ofModule.moduleName }
  }

  datatype TypeArtifactManifest = TypeArtifactManifest(
    versions: ArtifactVersions,
    generation: Fingerprint,
    environment: ArtifactEnvironment,
    modules: seq<ModuleArtifactIndex>)

  datatype Bytes =
    | Raw(bytes: seq<nat>)
    | PolicyBytes(policy: ResolvedStrictPolicy)
    | ShardBytes(facts: ModuleTypeFacts)
    | GenerationBytes(versions: ArtifactVersions, environment: ArtifactEnvironment, modules: seq<ModuleArtifactIndex>)
    | PayloadBytes(payload: TypeArtifactManifest)
    | EnvelopeBytes(manifest: TypeArtifactManifest, signature: string)

  type SigningKey = nat
  type TrustAnchor = nat

  /** What the model leaves open, each as an arbitrary function. */
  datatype Platform = Platform(
    digest: Bytes -> Fingerprint,
    size: Bytes -> nat,
    sourceHash: seq<nat> -> nat,
    validName: string -> bool,
    validRevision: string -> bool,
    validRecord: (ModuleTypeFacts, Option<seq<nat>>) -> bool,
    anchor: SigningKey -> TrustAnchor,
    sign: (SigningKey, Bytes) -> seq<Hex.Byte>,
    verify: (TrustAnchor, Bytes, seq<Hex.Byte>) -> bool)
  {
    /** A signature has 64 bytes and verifies under the anchor of the key that made it. */
    ghost predicate Signs() {
      forall k, payload :: |sign(k, payload)| == 64 && verify(anchor(k), payload, sign(k, payload))
    }
  }

  // ----- Canonical form -----

  function IndexKey(m: ModuleArtifactIndex): Key { StringKey(m.Name()) }

  function CanonicalIndex(m: ModuleArtifactIndex): ModuleArtifactIndex {
    m.(consumedDependencies := SortBy(m.consumedDependencies, DependencyKey))
  }

  function CanonicalIndexes(ms: seq<ModuleArtifactIndex>): (r: seq<ModuleArtifactIndex>)
    ensures |r| == |ms| && forall i :: 0 <= i < |ms| ==> r[i] == CanonicalIndex(ms[i])
  {
    seq(|ms|, i requires 0 <= i < |ms| => CanonicalIndex(ms[i]))
  }

  function CanonicalModules(ms: seq<ModuleArtifactIndex>): seq<ModuleArtifactIndex> {
    CanonicalIndexes(SortBy(ms, IndexKey))
  }

  function CanonicalManifest(m: TypeArtifactManifest): TypeArtifactManifest {
    m.(modules := CanonicalModules(m.modules))
  }

  // ----- Consistency -----

  ghost predicate DistinctDependencies(ds: seq<DependencyFingerprint>) {
    forall i, j :: 0 <= i < j < |ds| ==> ds[i].ofModule.moduleName != ds[j].ofModule.moduleName
  }

  ghost predicate DependenciesValid(p: Platform, ds: seq<DependencyFingerprint>, owner: string) {
    && (forall i :: 0 <= i < |ds| ==> p.validName(ds[i].ofModule.moduleName) && ds[i].ofModule.moduleName != owner)
    && DistinctDependencies(ds)
  }

  predicate Agree(a: Option<Fingerprint>, b: Option<Fingerprint>) {
    a.Some? && b.Some? ==> a == b
  }

  /** Two claims about one dependency: the five identity fields agree, and so does every optional one both carry. */
  predicate Compatible(a: DependencyFingerprint, b: DependencyFingerprint) {
    && a.ofModule == b.ofModule && a.sourceDigest == b.sourceDigest && a.sourceSize == b.sourceSize
    && a.importResolution == b.importResolution && a.effectiveConfiguration == b.effectiveConfiguration
    && Agree(a.strictPolicy, b.strictPolicy) && Agree(a.typeContract, b.typeContract)
  }

  /** A claim about a module of the same generation must match what that module publishes. */
  predicate MatchesProducer(producer: ModuleArtifactIndex, d: DependencyFingerprint) {
    && producer.ofModule == d.ofModule && producer.sourceDigest == d.sourceDigest && producer.sourceSize == d.sourceSize
    && (d.typeContract.Some? ==> d.typeContract.value == producer.shardDigest)
    && (d.strictPolicy.Some? ==> d.strictPolicy.value == producer.effectivePolicy)
  }

  function AllDependencies(ms: seq<ModuleArtifactIndex>): seq<DependencyFingerprint> {
    if ms == [] then [] else AllDependencies(ms[..|ms| - 1]) + ms[|ms| - 1].consumedDependencies
  }

  ghost predicate PairwiseCompatible(ds: seq<DependencyFingerprint>) {
    forall i, j :: 0 <= i < |ds| && 0 <= j < |ds| && ds[i].ofModule.moduleName == ds[j].ofModule.moduleName ==>
      Compatible(ds[i], ds[j])
  }

  ghost predicate ProducersAgree(ms: seq<ModuleArtifactIndex>, ds: seq<DependencyFingerprint>) {
    forall i, k :: 0 <= i < |ms| && 0 <= k < |ds| && ms[i].Name() == ds[k].ofModule.moduleName ==>
      MatchesProducer(ms[i], ds[k])
  }

  ghost predicate DistinctModules(ms: seq<ModuleArtifactIndex>) {
    forall i, j :: 0 <= i < j < |ms| ==> ms[i].Name() != ms[j].Name()
  }

  ghost predicate ModulesValid(p: Platform, ms: seq<ModuleArtifactIndex>) {
    && DistinctModules(ms)
    && (forall i :: 0 <= i < |ms| ==>
          p.validName(ms[i].Name()) && DependenciesValid(p, ms[i].consumedDependencies, ms[i].Name()))
    && PairwiseCompatible(AllDependencies(ms))
    && ProducersAgree(ms, AllDependencies(ms))
  }

  predicate EnvironmentValid(p: Platform, e: ArtifactEnvironment) {
    && p.validRevision(e.tyRevision) && p.validRevision(e.exporterRevision) && p.validRevision(e.pythonPlatform)
    && e.pythonMajor == 3 && e.pythonMinor >= 7 && e.strictEquality && e.strictNarrowing
  }

  function ContentGeneration(p: Platform, m: TypeArtifactManifest): Fingerprint {
    p.digest(GenerationBytes(m.versions, m.environment, m.modules))
  }

  /** What a manifest must satisfy, as a statement about all its records at once. */
  ghost predicate ManifestValid(p: Platform, m: TypeArtifactManifest) {
    && m.versions == CURRENT_VERSIONS && EnvironmentValid(p, m.environment)
    && ModulesValid(p, m.modules)
    && ContentGeneration(p, m) == m.generation
  }

  // ----- The one-pass check -----

  method ValidateDependencies(p: Platform, ds: seq<DependencyFingerprint>, owner: string) returns (r: Outcome<()>)
    ensures r.Success? <==> DependenciesValid(p, ds, owner)
  {
    var names: set<string> := {};
    for i := 0 to |ds|
      invariant forall k :: 0 <= k < i ==>
        && p.validName(ds[k].ofModule.moduleName) && ds[k].ofModule.moduleName != owner
        && ds[k].ofModule.moduleName in names
      invariant forall n :: n in names ==> exists k :: 0 <= k < i && ds[k].ofModule.moduleName == n
      invariant DistinctDependencies(ds[..i])
    {
      var name := ds[i].ofModule.moduleName;
      if !p.validName(name) {
        return Failure(InvalidSourceIdentity);
      }
      if name == owner {
        return Failure(InvalidStructure);
      }
      if name in names {
        return Failure(DependencyMismatch(name));
      }
      names := names + {name};
    }
    assert ds[..|ds|] == ds;
    r := Success(());
  }

  /** The first claims of several records about one dependency, one optional value at a time. */
  function Merged(a: DependencyFingerprint, b: DependencyFingerprint): DependencyFingerprint {
    a.(strictPolicy := if a.strictPolicy.Some? then a.strictPolicy else b.strictPolicy,
       typeContract := if a.typeContract.Some? then a.typeContract else b.typeContract)
  }

  /** `m` speaks for every record in `ds` of its name: it agrees with each and carries what any of them carries. */
  ghost predicate Represents(m: DependencyFingerprint, ds: seq<DependencyFingerprint>, name: string) {
    && m.ofModule.moduleName == name
    && (exists k :: 0 <= k < |ds| && ds[k].ofModule.moduleName == name)
    && (forall k :: 0 <= k < |ds| && ds[k].ofModule.moduleName == name ==>
          && Compatible(m, ds[k])
          && (ds[k].strictPolicy.Some? ==> m.strictPolicy.Some?)
          && (ds[k].typeContract.Some? ==> m.typeContract.Some?))
    && (m.strictPolicy.Some? ==>
          exists k :: 0 <= k < |ds| && ds[k].ofModule.moduleName == name && ds[k].strictPolicy == m.strictPolicy)
    && (m.typeContract.Some? ==>
          exists k :: 0 <= k < |ds| && ds[k].ofModule.moduleName == name && ds[k].typeContract == m.typeContract)
  }

  ghost predicate Consumes(consumed: map<string, DependencyFingerprint>, ds: seq<DependencyFingerprint>) {
    && (forall k :: 0 <= k < |ds| ==> ds[k].ofModule.moduleName in consumed)
    && (forall n :: n in consumed ==> Represents(consumed[n], ds, n))
  }

  /** The merged record accepts a new one exactly when every earlier record does. */
  lemma RepresentativeDecides(m: DependencyFingerprint, ds: seq<DependencyFingerprint>, d: DependencyFingerprint)
    requires Represents(m, ds, d.ofModule.moduleName)
    ensures Compatible(m, d) <==>
      forall k :: 0 <= k < |ds| && ds[k].ofModule.moduleName == d.ofModule.moduleName ==> Compatible(ds[k], d)
  {
    var name := d.ofModule.moduleName;
    if forall k :: 0 <= k < |ds| && ds[k].ofModule.moduleName == name ==> Compatible(ds[k], d) {
      var k :| 0 <= k < |ds| && ds[k].ofModule.moduleName == name;
      assert Compatible(ds[k], d) && Compatible(m, ds[k]);
      if m.strictPolicy.Some? {
        var j :| 0 <= j < |ds| && ds[j].ofModule.moduleName == name && ds[j].strictPolicy == m.strictPolicy;
        assert Compatible(ds[j], d);
      }
      if m.typeContract.Some? {
        var j :| 0 <= j < |ds| && ds[j].ofModule.moduleName == name && ds[j].typeContract == m.typeContract;
        assert Compatible(ds[j], d);
      }
    }
  }

  lemma RepresentsMerged(m: DependencyFingerprint, ds: seq<DependencyFingerprint>, d: DependencyFingerprint)
    requires Represents(m, ds, d.ofModule.moduleName) && Compatible(m, d)
    ensures Represents(Merged(m, d), ds + [d], d.ofModule.moduleName)
  {
    var name, es := d.ofModule.moduleName, ds + [d];
    assert es[|ds|] == d;
    if m.strictPolicy.Some? {
      var j :| 0 <= j < |ds| && ds[j].ofModule.moduleName == name && ds[j].strictPolicy == m.strictPolicy;
      assert es[j] == ds[j];
    }
    if m.typeContract.Some? {
      var j :| 0 <= j < |ds| && ds[j].ofModule.moduleName == name && ds[j].typeContract == m.typeContract;
      assert es[j] == ds[j];
    }
  }

  lemma RepresentsOther(
    m: DependencyFingerprint, ds: seq<DependencyFingerprint>, d: DependencyFingerprint, name: string)
    requires Represents(m, ds, name) && d.ofModule.moduleName != name
    ensures Represents(m, ds + [d], name)
  {
    var es := ds + [d];
    var k :| 0 <= k < |ds| && ds[k].ofModule.moduleName == name;
    assert es[k] == ds[k];
    if m.strictPolicy.Some? {
      var j :| 0 <= j < |ds| && ds[j].ofModule.moduleName == name && ds[j].strictPolicy == m.strictPolicy;
      assert es[j] == ds[j];
    }
    if m.typeContract.Some? {
      var j :| 0 <= j < |ds| && ds[j].ofModule.moduleName == name && ds[j].typeContract == m.typeContract;
      assert es[j] == ds[j];
    }
  }

  lemma RepresentsFirst(ds: seq<DependencyFingerprint>, d: DependencyFingerprint)
    requires forall k :: 0 <= k < |ds| ==> ds[k].ofModule.moduleName != d.ofModule.moduleName
    ensures Represents(d, ds + [d], d.ofModule.moduleName)
  {
    assert (ds + [d])[|ds|] == d;
  }

  lemma PairwiseAppend(ds: seq<DependencyFingerprint>, d: DependencyFingerprint)
    requires PairwiseCompatible(ds)
    ensures PairwiseCompatible(ds + [d]) <==>
      forall k :: 0 <= k < |ds| && ds[k].ofModule.moduleName == d.ofModule.moduleName ==> Compatible(ds[k], d)
  {
    var es := ds + [d];
    assert es[|ds|] == d;
    forall k | 0 <= k < |ds| ensures es[k] == ds[k] {}
  }

  /** One record: refused if it contradicts what was seen, otherwise folded in. */
  method Consume(
    consumed: map<string, DependencyFingerprint>, d: DependencyFingerprint, ghost seen: seq<DependencyFingerprint>)
    returns (accepted: bool, consumed': map<string, DependencyFingerprint>)
    requires Consumes(consumed, seen) && PairwiseCompatible(seen)
    ensures accepted <==> PairwiseCompatible(seen + [d])
    ensures accepted ==> Consumes(consumed', seen + [d])
  {
    var name := d.ofModule.moduleName;
    PairwiseAppend(seen, d);
    consumed' := consumed;
    if name in consumed {
      var previous := consumed[name];
      RepresentativeDecides(previous, seen, d);
      if !Compatible(previous, d) {
        return false, consumed;
      }
      RepresentsMerged(previous, seen, d);
      consumed' := consumed[name := Merged(previous, d)];
    } else {
      RepresentsFirst(seen, d);
      consumed' := consumed[name := d];
    }
    accepted := true;
    forall n | n in consumed' && n != name ensures Represents(consumed'[n], seen + [d], n) {
      RepresentsOther(consumed[n], seen, d, n);
    }
    forall k | 0 <= k < |seen + [d]| ensures (seen + [d])[k].ofModule.moduleName in consumed' {
      if k < |seen| { assert (seen + [d])[k] == seen[k]; }
    }
  }

  /** The producer table built by the first loop. */
  ghost predicate Indexes(table: map<string, ModuleArtifactIndex>, ms: seq<ModuleArtifactIndex>) {
    && (forall i :: 0 <= i < |ms| ==> ms[i].Name() in table && table[ms[i].Name()] == ms[i])
    && (forall n :: n in table ==> exists i :: 0 <= i < |ms| && ms[i].Name() == n)
  }

  lemma ProducerDecides(table: map<string, ModuleArtifactIndex>, ms: seq<ModuleArtifactIndex>, d: DependencyFingerprint)
    requires Indexes(table, ms)
    ensures (d.ofModule.moduleName in table ==> MatchesProducer(table[d.ofModule.moduleName], d))
       <==> forall i :: 0 <= i < |ms| && ms[i].Name() == d.ofModule.moduleName ==> MatchesProducer(ms[i], d)
  {
    if d.ofModule.moduleName in table {
      var i :| 0 <= i < |ms| && ms[i].Name() == d.ofModule.moduleName;
    }
  }

  method ValidateModules(p: Platform, ms: seq<ModuleArtifactIndex>)
    returns (r: Outcome<()>, table: map<string, ModuleArtifactIndex>)
    ensures r.Success? <==> DistinctModules(ms) && forall i :: 0 <= i < |ms| ==>
      p.validName(ms[i].Name()) && DependenciesValid(p, ms[i].consumedDependencies, ms[i].Name())
    ensures r.Success? ==> Indexes(table, ms)
  {
    table := map[];
    for i := 0 to |ms|
      invariant Indexes(table, ms[..i]) && DistinctModules(ms[..i])
      invariant forall k :: 0 <= k < i ==>
        p.validName(ms[k].Name()) && DependenciesValid(p, ms[k].consumedDependencies, ms[k].Name())
    {
      var name := ms[i].Name();
      if !p.validName(name) {
        return Failure(InvalidSourceIdentity), table;
      }
      if name in table {
        var k :| 0 <= k < i && ms[..i][k].Name() == name;
        assert ms[k].Name() == ms[i].Name();
        return Failure(InvalidStructure), table;
      }
      IndexesAppend(table, ms[..i], ms[i]);
      assert ms[..i + 1] == ms[..i] + [ms[i]];
      table := table[name := ms[i]];
      var dependencies := ValidateDependencies(p, ms[i].consumedDependencies, name);
      if dependencies.Failure? {
        return dependencies, table;
      }
    }
    assert ms[..|ms|] == ms;
    r := Success(());
  }

  lemma IndexesAppend(table: map<string, ModuleArtifactIndex>, ms: seq<ModuleArtifactIndex>, m: ModuleArtifactIndex)
    requires Indexes(table, ms) && m.Name() !in table && DistinctModules(ms)
    ensures Indexes(table[m.Name() := m], ms + [m]) && DistinctModules(ms + [m])
  {
    var ns := ms + [m];
    assert ns[|ms|] == m;
    var extended := table[m.Name() := m];
    forall n | n in extended ensures exists i :: 0 <= i < |ns| && ns[i].Name() == n {
      if n in table {
        var i :| 0 <= i < |ms| && ms[i].Name() == n;
        assert ns[i] == ms[i];
      }
    }
  }

  lemma ProducersAppend(ms: seq<ModuleArtifactIndex>, ds: seq<DependencyFingerprint>, d: DependencyFingerprint)
    requires ProducersAgree(ms, ds)
    ensures ProducersAgree(ms, ds + [d]) <==>
      forall i :: 0 <= i < |ms| && ms[i].Name() == d.ofModule.moduleName ==> MatchesProducer(ms[i], d)
  {
    var es := ds + [d];
    assert es[|ds|] == d;
    forall k | 0 <= k < |ds| ensures es[k] == ds[k] {}
  }

  ghost predicate AllAgree(ms: seq<ModuleArtifactIndex>, ds: seq<DependencyFingerprint>) {
    PairwiseCompatible(ds) && ProducersAgree(ms, ds)
  }

  lemma AllAgreePrefix(ms: seq<ModuleArtifactIndex>, ds: seq<DependencyFingerprint>, more: seq<DependencyFingerprint>)
    requires AllAgree(ms, ds + more)
    ensures AllAgree(ms, ds)
  {
    forall k | 0 <= k < |ds| ensures ds[k] == (ds + more)[k] {}
  }

  lemma {:induction false} AllDependenciesSplit(ms: seq<ModuleArtifactIndex>, n: nat)
    requires n <= |ms|
    ensures exists more :: AllDependencies(ms) == AllDependencies(ms[..n]) + more
    decreases |ms|
  {
    if n == |ms| {
      assert ms[..n] == ms && AllDependencies(ms) == AllDependencies(ms) + [];
    } else {
      var front := ms[..|ms| - 1];
      AllDependenciesSplit(front, n);
      assert front[..n] == ms[..n];
      var more :| AllDependencies(front) == AllDependencies(ms[..n]) + more;
      assert AllDependencies(ms) == AllDependencies(ms[..n]) + (more + ms[|ms| - 1].consumedDependencies);
    }
  }

  /** One module's dependencies, each merged with what was seen and compared with its producer. */
  method ConsumeModule(
    table: map<string, ModuleArtifactIndex>, ms: seq<ModuleArtifactIndex>,
    before: map<string, DependencyFingerprint>, ds: seq<DependencyFingerprint>, ghost seen: seq<DependencyFingerprint>)
    returns (r: Outcome<()>, consumed: map<string, DependencyFingerprint>)
    requires Indexes(table, ms) && Consumes(before, seen) && AllAgree(ms, seen)
    ensures r.Success? <==> AllAgree(ms, seen + ds)
    ensures r.Success? ==> Consumes(consumed, seen + ds)
  {
    consumed := before;
    assert seen + ds[..0] == seen;
    for j := 0 to |ds|
      invariant Consumes(consumed, seen + ds[..j]) && AllAgree(ms, seen + ds[..j])
    {
      var d := ds[j];
      ghost var now := seen + ds[..j];
      assert seen + ds[..j + 1] == now + [d];
      assert seen + ds == (now + [d]) + ds[j + 1..];
      var accepted, next := Consume(consumed, d, now);
      ProducerDecides(table, ms, d);
      ProducersAppend(ms, now, d);
      if !accepted || (d.ofModule.moduleName in table && !MatchesProducer(table[d.ofModule.moduleName], d)) {
        if AllAgree(ms, seen + ds) { AllAgreePrefix(ms, now + [d], ds[j + 1..]); }
        return Failure(DependencyMismatch(d.ofModule.moduleName)), consumed;
      }
      consumed := next;
    }
    assert ds[..|ds|] == ds;
    r := Success(());
  }

  lemma PrefixDecides(ms: seq<ModuleArtifactIndex>, i: nat)
    requires i <= |ms| && !AllAgree(ms, AllDependencies(ms[..i]))
    ensures !AllAgree(ms, AllDependencies(ms))
  {
    AllDependenciesSplit(ms, i);
    var more :| AllDependencies(ms) == AllDependencies(ms[..i]) + more;
    if AllAgree(ms, AllDependencies(ms)) {
      AllAgreePrefix(ms, AllDependencies(ms[..i]), more);
    }
  }

  /** The second loop: accepts exactly when all records agree pairwise and with their producers. */
  method ValidateConsumed(table: map<string, ModuleArtifactIndex>, ms: seq<ModuleArtifactIndex>)
    returns (r: Outcome<()>)
    requires Indexes(table, ms)
    ensures r.Success? <==> AllAgree(ms, AllDependencies(ms))
  {
    var consumed: map<string, DependencyFingerprint> := map[];
    for i := 0 to |ms|
      invariant Consumes(consumed, AllDependencies(ms[..i])) && AllAgree(ms, AllDependencies(ms[..i]))
    {
      ghost var seen := AllDependencies(ms[..i]);
      assert ms[..i + 1][..i] == ms[..i];
      r, consumed := ConsumeModule(table, ms, consumed, ms[i].consumedDependencies, seen);
      if r.Failure? {
        PrefixDecides(ms, i + 1);
        return;
      }
    }
    assert ms[..|ms|] == ms;
    r := Success(());
  }

  /** The whole check accepts exactly the valid manifests. */
  method ValidateManifest(p: Platform, m: TypeArtifactManifest) returns (r: Outcome<()>)
    ensures r.Success? <==> ManifestValid(p, m)
  {
    if m.versions != CURRENT_VERSIONS {
      return Failure(VersionMismatch);
    }
    if !EnvironmentValid(p, m.environment) {
      var strict := m.environment.strictEquality && m.environment.strictNarrowing;
      return Failure(if strict then InvalidStructure else InvalidPolicy);
    }
    var table;
    r, table := ValidateModules(p, m.modules);
    if r.Failure? {
      return;
    }
    r := ValidateConsumed(table, m.modules);
    if r.Failure? {
      return;
    }
    if ContentGeneration(p, m) != m.generation {
      return Failure(GenerationMismatch);
    }
    r := Success(());
  }

  // ----- Order does not matter -----

  ghost predicate SameClaims(ds: seq<DependencyFingerprint>, es: seq<DependencyFingerprint>) {
    forall d :: d in ds <==> d in es
  }

  ghost predicate SameRecord(m: ModuleArtifactIndex, n: ModuleArtifactIndex) {
    m.(consumedDependencies := n.consumedDependencies) == n
  }

  ghost predicate Lists(ms: seq<ModuleArtifactIndex>, n: ModuleArtifactIndex) {
    exists i :: 0 <= i < |ms| && SameRecord(ms[i], n)
  }

  /** Every producer of the second list is one of the first, up to its own dependencies. */
  ghost predicate ProducersAmong(ms: seq<ModuleArtifactIndex>, ns: seq<ModuleArtifactIndex>) {
    forall j :: 0 <= j < |ns| ==> Lists(ms, ns[j])
  }

  /** Agreement looks only at which claims are made and which producers there are. */
  lemma ClaimsCarry(
    ms: seq<ModuleArtifactIndex>, ns: seq<ModuleArtifactIndex>,
    ds: seq<DependencyFingerprint>, es: seq<DependencyFingerprint>)
    requires SameClaims(ds, es) && ProducersAmong(ms, ns) && AllAgree(ms, ds)
    ensures AllAgree(ns, es)
  {
    forall i, j | 0 <= i < |es| && 0 <= j < |es| && es[i].ofModule.moduleName == es[j].ofModule.moduleName
      ensures Compatible(es[i], es[j])
    {
      assert es[i] in ds && es[j] in ds;
      var k :| 0 <= k < |ds| && ds[k] == es[i];
      var l :| 0 <= l < |ds| && ds[l] == es[j];
    }
    forall j, k | 0 <= j < |ns| && 0 <= k < |es| && ns[j].Name() == es[k].ofModule.moduleName
      ensures MatchesProducer(ns[j], es[k])
    {
      var i :| 0 <= i < |ms| && SameRecord(ms[i], ns[j]);
      assert es[k] in ds;
      var l :| 0 <= l < |ds| && ds[l] == es[k];
      assert MatchesProducer(ms[i], ds[l]);
    }
  }

  lemma {:induction false} AllDependenciesMembers(ms: seq<ModuleArtifactIndex>, d: DependencyFingerprint)
    ensures d in AllDependencies(ms) <==> exists i :: 0 <= i < |ms| && d in ms[i].consumedDependencies
  {
    if ms == [] {
    } else {
      var front := ms[..|ms| - 1];
      AllDependenciesMembers(front, d);
      assert forall i :: 0 <= i < |front| ==> front[i] == ms[i];
      if d in ms[|ms| - 1].consumedDependencies {
        assert d in AllDependencies(ms);
      }
    }
  }
}
