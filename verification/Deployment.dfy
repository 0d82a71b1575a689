/**
  The startup deployment descriptor, and the two ways of rebuilding the dependency expectations of its
  modules from the current filesystem: once for all consumers with shared file reads, or per consumer.
 */
module Deployment {
  import opened Ordering
  import opened Types
  import opened Facts
  import opened Canonical
  import opened Manifest
  import opened Inputs
  import opened Text

  const DEPLOYMENT_SCHEMA_VERSION: nat := 3

  datatype DeployedModule = DeployedModule(moduleName: string, sourcePath: string, policy: ResolvedStrictPolicy)

  datatype FileConfiguration = FileConfiguration(
    pythonMajor: nat,
    pythonMinor: nat,
    pythonPlatform: string,
    strictEquality: bool,
    strictNarrowing: bool,
    respectTypeIgnoreComments: bool,
    importSearchPaths: seq<string>,
    enabledDiagnostics: map<string, string>)

  datatype DependencySource = System(path: string) | Vendored(name: string)

  datatype AnalysisDependency = AnalysisDependency(
    importer: string,
    ofModule: ModuleContentId,
    source: DependencySource,
    sourceDigest: Fingerprint,
    sourceSize: nat,
    configuration: FileConfiguration)

  datatype Descriptor = Descriptor(
    schemaVersion: nat,
    artifactDirectory: string,
    environment: ArtifactEnvironment,
    modules: seq<DeployedModule>,
    dependencies: seq<AnalysisDependency>,
    inputs: seq<Input>)

  /**
    What the model leaves open, each as an arbitrary function. `admissible` stands for the checks on the
    trust anchor, the target interpreter, the shape of the inputs and the environment variables.
   */
  datatype Loader = Loader(
    digests: Digests,
    sourceHash: seq<nat> -> nat,
    validName: string -> bool,
    admissible: Descriptor -> bool,
    systemResolution: string -> Fingerprint,
    vendoredResolution: (Fingerprint, Fingerprint, string, ModuleContentId, Fingerprint, nat) -> Fingerprint,
    policyDigest: ResolvedStrictPolicy -> Fingerprint,
    configurationDigest: (Fingerprint, FileConfiguration) -> Fingerprint)
  {
    /** Resolutions and configurations are told apart by their digests. */
    ghost predicate Identifies() {
      && (forall p, q :: systemResolution(p) == systemResolution(q) ==> p == q)
      && (forall c, t, n, m, h, z, c', t', n', m', h', z' ::
            vendoredResolution(c, t, n, m, h, z) == vendoredResolution(c', t', n', m', h', z') ==> n == n')
      && (forall p, c, t, n, m, h, z :: systemResolution(p) != vendoredResolution(c, t, n, m, h, z))
      && (forall e, c, e', c' :: configurationDigest(e, c) == configurationDigest(e', c') ==> c == c')
    }
  }

  // ----- The expected fingerprint of one dependency -----

  const LEVELS: set<string> := {"info", "warning", "error", "fatal"}

  predicate ConfigurationMatches(c: FileConfiguration, e: ArtifactEnvironment) {
    && c.pythonMajor == e.pythonMajor && c.pythonMinor == e.pythonMinor && c.pythonPlatform == e.pythonPlatform
    && c.strictEquality && c.strictNarrowing && e.strictEquality && e.strictNarrowing
    && (forall n :: n in c.enabledDiagnostics ==> n != "" && c.enabledDiagnostics[n] in LEVELS)
    && (forall i :: 0 <= i < |c.importSearchPaths| ==> Absolute(c.importSearchPaths[i]))
  }

  predicate VendoredPathValid(path: string) {
    && path != "" && '\\' !in path && '\0' !in path
    && forall i :: 0 <= i < |SplitOn(path, '/')| ==> SplitOn(path, '/')[i] !in {"", ".", ".."}
  }

  function FindModule(ms: seq<DeployedModule>, name: string): (r: Option<DeployedModule>)
    ensures r.Some? <==> exists i :: 0 <= i < |ms| && ms[i].moduleName == name
    ensures r.Some? ==> r.value.moduleName == name
  {
    if ms == [] then Option.None
    else if ms[0].moduleName == name then Option.Some(ms[0])
    else
      assert forall i :: 0 < i < |ms| ==> ms[i] == ms[1..][i - 1];
      FindModule(ms[1..], name)
  }

  function FindInput(inputs: seq<Input>, path: string): (r: Option<Input>)
    ensures r.Some? ==> r.value in inputs && r.value.path == path
  {
    if inputs == [] then Option.None
    else if inputs[0].path == path then Option.Some(inputs[0])
    else FindInput(inputs[1..], path)
  }

  function Resolve(l: Loader, d: Descriptor, dep: AnalysisDependency): Outcome<(Fingerprint, Option<Fingerprint>)> {
    var deployed := FindModule(d.modules, dep.ofModule.moduleName);
    var mismatch := DependencyMismatch(dep.ofModule.moduleName);
    match dep.source
    case System(path) =>
      var _ :- Need(Absolute(path), InvalidStructure);
      var input := FindInput(d.inputs, path);
      if !(input.Some? && input.value.state.FileInput?) then Failure(mismatch)
      else
        var state := input.value.state;
        var _ :- Need(state.digest == dep.sourceDigest && state.size == dep.sourceSize, mismatch);
        var _ :- Need(deployed.Some? ==> deployed.value.sourcePath == state.canonicalPath, mismatch);
        Success((l.systemResolution(path),
                 if deployed.Some? then Option.Some(l.policyDigest(deployed.value.policy)) else Option.None))
    case Vendored(name) =>
      var _ :- Need(VendoredPathValid(name) && deployed.None?, mismatch);
      Success((l.vendoredResolution(d.environment.checkerSource, d.environment.typeshed, name, dep.ofModule,
                                    dep.sourceDigest, dep.sourceSize), Option.None))
  }

  /** `AnalysisDependency::fingerprint`: what the manifest must claim, from the descriptor alone. */
  function Expected(l: Loader, d: Descriptor, dep: AnalysisDependency): Outcome<DependencyFingerprint> {
    var _ :- Need(l.validName(dep.importer) && l.validName(dep.ofModule.moduleName), InvalidSourceIdentity);
    var _ :- Need(dep.importer != dep.ofModule.moduleName && FindModule(d.modules, dep.importer).Some?,
                  DependencyMismatch(dep.importer));
    var resolved :- Resolve(l, d, dep);
    var _ :- Need(ConfigurationMatches(dep.configuration, d.environment), InvalidStructure);
    Success(DependencyFingerprint(
              dep.ofModule, dep.sourceDigest, dep.sourceSize, resolved.0,
              l.configurationDigest(d.environment.typecheckerConfiguration, dep.configuration), resolved.1,
              Option.None))
  }

  type Expectation = AnalysisDependency -> Outcome<DependencyFingerprint>

  function Expecting(l: Loader, d: Descriptor): Expectation {
    dep => Expected(l, d, dep)
  }

  /** Equal fingerprints speak of the same module, bytes, source and effective configuration. */
  lemma ExpectedIdentifies(l: Loader, d: Descriptor, a: AnalysisDependency, b: AnalysisDependency)
    requires l.Identifies() && Expected(l, d, a).Success? && Expected(l, d, a) == Expected(l, d, b)
    ensures a == b.(importer := a.importer)
  {
    assert Resolve(l, d, a).value.0 == Resolve(l, d, b).value.0;
    match (a.source, b.source) {
      case (System(p), System(q)) =>
      case (Vendored(p), Vendored(q)) =>
      case (System(p), Vendored(q)) =>
        assert false;
      case (Vendored(p), System(q)) =>
        assert false;
    }
  }

  // ----- Descriptor validity -----

  ghost predicate DistinctNames(ms: seq<DeployedModule>) {
    forall i, j :: 0 <= i < j < |ms| ==> ms[i].moduleName != ms[j].moduleName
  }

  ghost predicate ModulesNamed(l: Loader, ms: seq<DeployedModule>) {
    forall i :: 0 <= i < |ms| ==> l.validName(ms[i].moduleName) && Absolute(ms[i].sourcePath)
  }

  ghost predicate DistinctImports(ds: seq<AnalysisDependency>) {
    forall i, j :: 0 <= i < j < |ds| ==>
      ds[i].importer != ds[j].importer || ds[i].ofModule.moduleName != ds[j].ofModule.moduleName
  }

  ghost predicate AllExpected(ds: seq<AnalysisDependency>, claim: Expectation) {
    forall i :: 0 <= i < |ds| ==> claim(ds[i]).Success?
  }

  ghost predicate DescriptorValid(l: Loader, d: Descriptor) {
    && d.schemaVersion == DEPLOYMENT_SCHEMA_VERSION && l.admissible(d) && Absolute(d.artifactDirectory)
    && ModulesNamed(l, d.modules)
    && DistinctNames(d.modules)
    && DistinctImports(d.dependencies)
    && AllExpected(d.dependencies, Expecting(l, d))
  }

  method ValidateModules(l: Loader, ms: seq<DeployedModule>) returns (ok: bool)
    ensures ok <==> DistinctNames(ms) && ModulesNamed(l, ms)
  {
    var names: set<string> := {};
    for i := 0 to |ms|
      invariant forall k :: 0 <= k < i ==> l.validName(ms[k].moduleName) && Absolute(ms[k].sourcePath)
      invariant forall k :: 0 <= k < i ==> ms[k].moduleName in names
      invariant forall n :: n in names ==> exists k :: 0 <= k < i && ms[k].moduleName == n
      invariant forall j, k :: 0 <= j < k < i ==> ms[j].moduleName != ms[k].moduleName
    {
      if !l.validName(ms[i].moduleName) || !Absolute(ms[i].sourcePath) || ms[i].moduleName in names {
        return false;
      }
      names := names + {ms[i].moduleName};
    }
    ok := true;
  }

  method ValidateImports(ds: seq<AnalysisDependency>, claim: Expectation) returns (ok: bool)
    ensures ok <==> DistinctImports(ds) && AllExpected(ds, claim)
  {
    var seen: set<(string, string)> := {};
    for i := 0 to |ds|
      invariant forall k :: 0 <= k < i ==> claim(ds[k]).Success?
      invariant forall k :: 0 <= k < i ==> (ds[k].importer, ds[k].ofModule.moduleName) in seen
      invariant forall p :: p in seen ==> exists k :: 0 <= k < i && p == (ds[k].importer, ds[k].ofModule.moduleName)
      invariant forall j, k :: 0 <= j < k < i ==>
        ds[j].importer != ds[k].importer || ds[j].ofModule.moduleName != ds[k].ofModule.moduleName
    {
      var pair := (ds[i].importer, ds[i].ofModule.moduleName);
      if pair in seen {
        return false;
      }
      seen := seen + {pair};
      if claim(ds[i]).Failure? {
        return false;
      }
    }
    ok := true;
  }

  method Validate(l: Loader, d: Descriptor) returns (ok: bool)
    ensures ok <==> DescriptorValid(l, d)
  {
    if d.schemaVersion != DEPLOYMENT_SCHEMA_VERSION || !l.admissible(d) || !Absolute(d.artifactDirectory) {
      return false;
    }
    ok := ValidateModules(l, d.modules);
    if ok {
      ok := ValidateImports(d.dependencies, Expecting(l, d));
    }
  }

  // ----- Reading the sources -----

  datatype ObservedSource = ObservedSource(size: nat, digest: Fingerprint, sourceHash: nat)

  function Observe(l: Loader, bytes: seq<nat>): ObservedSource {
    ObservedSource(|bytes|, l.digests.ofBytes(bytes), l.sourceHash(bytes))
  }

  /** `read_file_bounded`: the bytes of a regular file of exactly this size. */
  function ReadBounded(fs: FileSystem, path: string, size: nat): Outcome<seq<nat>> {
    var node := Lookup(fs, path);
    if node.RegularFile? && |node.bytes| == size then Success(node.bytes) else Failure(InvalidStructure)
  }

  predicate Describes(observed: ObservedSource, dep: AnalysisDependency) {
    && observed.size == dep.sourceSize && observed.digest == dep.sourceDigest
    && observed.sourceHash == dep.ofModule.sourceHash
  }

  /** The file a dependency names holds what the dependency claims. Vendored sources are not files. */
  ghost predicate Intact(l: Loader, fs: FileSystem, dep: AnalysisDependency) {
    dep.source.System? ==>
      var node := Lookup(fs, dep.source.path);
      node.RegularFile? && Describes(Observe(l, node.bytes), dep)
  }

  // ----- The two routes -----

  /** The expected fingerprints of one importer among the first `n` dependencies, in descriptor order. */
  ghost function ExpectedOf(ds: seq<AnalysisDependency>, claim: Expectation, importer: string, n: nat)
    : seq<DependencyFingerprint>
    requires n <= |ds|
  {
    if n == 0 then []
    else
      var expected := claim(ds[n - 1]);
      ExpectedOf(ds, claim, importer, n - 1) +
      if ds[n - 1].importer == importer && expected.Success? then [expected.value] else []
  }

  ghost function InOrder(ds: seq<AnalysisDependency>, claim: Expectation, importer: string)
    : seq<DependencyFingerprint>
  {
    SortBy(ExpectedOf(ds, claim, importer, |ds|), DependencyKey)
  }

  ghost predicate Verifies(l: Loader, fs: FileSystem, claim: Expectation, dep: AnalysisDependency) {
    Intact(l, fs, dep) && claim(dep).Success?
  }

  ghost predicate Deployed(ms: seq<DeployedModule>, name: string) {
    exists i :: 0 <= i < |ms| && ms[i].moduleName == name
  }

  ghost predicate InputsHold(l: Loader, fs: FileSystem, d: Descriptor) {
    forall i :: 0 <= i < |d.inputs| ==> StillHolds(l.digests, fs, d.inputs[i])
  }

  /** When the per-consumer recomputation succeeds. */
  ghost predicate ConsumerVerifies(l: Loader, fs: FileSystem, d: Descriptor, importer: string) {
    && DescriptorValid(l, d) && Deployed(d.modules, importer) && InputsHold(l, fs, d)
    && forall i :: 0 <= i < |d.dependencies| && d.dependencies[i].importer == importer ==>
         Verifies(l, fs, Expecting(l, d), d.dependencies[i])
  }

  /** `verified_analysis_dependencies`: every source is read again for this consumer. */
  method VerifiedDependencies(l: Loader, fs: FileSystem, d: Descriptor, importer: string)
    returns (r: Outcome<seq<DependencyFingerprint>>)
    ensures r.Success? <==> ConsumerVerifies(l, fs, d, importer)
    ensures r.Success? ==> r.value == InOrder(d.dependencies, Expecting(l, d), importer)
  {
    var valid := Validate(l, d);
    if !valid {
      return Failure(InvalidStructure);
    }
    if FindModule(d.modules, importer).None? {
      return Failure(DependencyMismatch(importer));
    }
    var held := VerifyInputs(l.digests, fs, d.inputs);
    if !held {
      return Failure(InvalidStructure);
    }
    r := Recompute(l, fs, d.dependencies, Expecting(l, d), importer);
  }

  method Recompute(l: Loader, fs: FileSystem, ds: seq<AnalysisDependency>, claim: Expectation, importer: string)
    returns (r: Outcome<seq<DependencyFingerprint>>)
    ensures r.Success? <==> forall i :: 0 <= i < |ds| && ds[i].importer == importer ==> Verifies(l, fs, claim, ds[i])
    ensures r.Success? ==> r.value == InOrder(ds, claim, importer)
  {
    var fingerprints: seq<DependencyFingerprint> := [];
    for i := 0 to |ds|
      invariant forall k :: 0 <= k < i && ds[k].importer == importer ==> Verifies(l, fs, claim, ds[k])
      invariant fingerprints == ExpectedOf(ds, claim, importer, i)
    {
      var dep := ds[i];
      if dep.importer == importer {
        if dep.source.System? {
          var bytes := ReadBounded(fs, dep.source.path, dep.sourceSize);
          if bytes.Failure? {
            assert !Verifies(l, fs, claim, ds[i]);
            return Failure(bytes.error);
          }
          if l.digests.ofBytes(bytes.value) != dep.sourceDigest
             || l.sourceHash(bytes.value) != dep.ofModule.sourceHash
          {
            assert !Verifies(l, fs, claim, ds[i]);
            return Failure(DependencyMismatch(dep.ofModule.moduleName));
          }
        }
        var expected := claim(dep);
        if expected.Failure? {
          assert !Verifies(l, fs, claim, ds[i]);
          return Failure(expected.error);
        }
        fingerprints := fingerprints + [expected.value];
      }
    }
    r := Success(SortBy(fingerprints, DependencyKey));
  }

  /** When the shared-read snapshot succeeds. */
  ghost predicate SnapshotVerifies(l: Loader, fs: FileSystem, d: Descriptor) {
    && DescriptorValid(l, d) && InputsHold(l, fs, d)
    && forall i :: 0 <= i < |d.dependencies| ==>
         Verifies(l, fs, Expecting(l, d), d.dependencies[i]) && Deployed(d.modules, d.dependencies[i].importer)
  }

  /** `verified_analysis_snapshot`: every source is read once, for whichever dependency names it first. */
  method VerifiedSnapshot(l: Loader, fs: FileSystem, d: Descriptor)
    returns (r: Outcome<map<string, seq<DependencyFingerprint>>>)
    ensures r.Success? <==> SnapshotVerifies(l, fs, d)
    ensures r.Success? ==> forall n :: n in r.value <==> Deployed(d.modules, n)
    ensures r.Success? ==> forall n :: n in r.value ==> r.value[n] == InOrder(d.dependencies, Expecting(l, d), n)
  {
    var valid := Validate(l, d);
    if !valid {
      return Failure(InvalidStructure);
    }
    var held := VerifyInputs(l.digests, fs, d.inputs);
    if !held {
      return Failure(InvalidStructure);
    }
    var collected := Collect(l, fs, d.modules, d.dependencies, Expecting(l, d));
    if collected.Failure? {
      return Failure(collected.error);
    }
    r := Success(map n | n in collected.value :: SortBy(collected.value[n], DependencyKey));
  }

  /** The shared observations are exactly what is on disk. */
  ghost predicate Faithful(l: Loader, fs: FileSystem, sources: map<string, ObservedSource>) {
    forall p :: p in sources ==> Lookup(fs, p).RegularFile? && sources[p] == Observe(l, Lookup(fs, p).bytes)
  }

  ghost predicate Gathered(
    ms: seq<DeployedModule>, ds: seq<AnalysisDependency>, claim: Expectation,
    gathered: map<string, seq<DependencyFingerprint>>, i: nat)
    requires i <= |ds|
  {
    && (forall n :: n in gathered <==> Deployed(ms, n))
    && (forall n :: n in gathered ==> gathered[n] == ExpectedOf(ds, claim, n, i))
  }

  method NoneYet(ms: seq<DeployedModule>) returns (gathered: map<string, seq<DependencyFingerprint>>)
    ensures forall n :: n in gathered <==> Deployed(ms, n)
    ensures forall n :: n in gathered ==> gathered[n] == []
  {
    gathered := map[];
    for i := 0 to |ms|
      invariant forall n :: n in gathered <==> exists k :: 0 <= k < i && ms[k].moduleName == n
      invariant forall n :: n in gathered ==> gathered[n] == []
    {
      gathered := gathered[ms[i].moduleName := []];
    }
  }

  /** One read of a source, or the observation an earlier dependency made of it. */
  method ObserveShared(l: Loader, fs: FileSystem, sources: map<string, ObservedSource>, dep: AnalysisDependency)
    returns (r: Outcome<map<string, ObservedSource>>)
    requires Faithful(l, fs, sources)
    ensures r.Success? <==> Intact(l, fs, dep)
    ensures r.Success? ==> Faithful(l, fs, r.value)
  {
    var known := sources;
    if dep.source.System? {
      var path := dep.source.path;
      if path !in known {
        var bytes := ReadBounded(fs, path, dep.sourceSize);
        if bytes.Failure? {
          return Failure(bytes.error);
        }
        known := known[path := Observe(l, bytes.value)];
      }
      if !Describes(known[path], dep) {
        return Failure(DependencyMismatch(dep.ofModule.moduleName));
      }
    }
    r := Success(known);
  }

  lemma GatheredNext(
    ms: seq<DeployedModule>, ds: seq<AnalysisDependency>, claim: Expectation,
    gathered: map<string, seq<DependencyFingerprint>>, i: nat)
    requires i < |ds| && Gathered(ms, ds, claim, gathered, i)
    requires ds[i].importer in gathered && claim(ds[i]).Success?
    ensures Gathered(ms, ds, claim,
                     gathered[ds[i].importer := gathered[ds[i].importer] + [claim(ds[i]).value]], i + 1)
  {
  }

  method Collect(
    l: Loader, fs: FileSystem, ms: seq<DeployedModule>, ds: seq<AnalysisDependency>, claim: Expectation)
    returns (r: Outcome<map<string, seq<DependencyFingerprint>>>)
    ensures r.Success? <==> forall i :: 0 <= i < |ds| ==> Verifies(l, fs, claim, ds[i]) && Deployed(ms, ds[i].importer)
    ensures r.Success? ==> Gathered(ms, ds, claim, r.value, |ds|)
  {
    var gathered := NoneYet(ms);
    var sources: map<string, ObservedSource> := map[];
    for i := 0 to |ds|
      invariant Faithful(l, fs, sources)
      invariant Gathered(ms, ds, claim, gathered, i)
      invariant forall k :: 0 <= k < i ==> Verifies(l, fs, claim, ds[k]) && Deployed(ms, ds[k].importer)
    {
      var dep := ds[i];
      var observed := ObserveShared(l, fs, sources, dep);
      if observed.Failure? {
        assert !Verifies(l, fs, claim, ds[i]);
        return Failure(observed.error);
      }
      sources := observed.value;
      if dep.importer !in gathered {
        assert !Deployed(ms, ds[i].importer);
        return Failure(DependencyMismatch(dep.importer));
      }
      var expected := claim(dep);
      if expected.Failure? {
        assert !Verifies(l, fs, claim, ds[i]);
        return Failure(expected.error);
      }
      GatheredNext(ms, ds, claim, gathered, i);
      gathered := gathered[dep.importer := gathered[dep.importer] + [expected.value]];
    }
    r := Success(gathered);
  }

  // ----- What the recorded inputs already guarantee -----

  /**
    Once the inputs hold, the file behind a system dependency has the size and digest the dependency
    claims, so that reading it again can only fail on the source hash.
   */
  lemma InputsCoverSources(l: Loader, fs: FileSystem, d: Descriptor, dep: AnalysisDependency)
    requires InputsHold(l, fs, d) && Expected(l, d, dep).Success? && dep.source.System?
    ensures var node := Lookup(fs, dep.source.path);
            && node.RegularFile? && |node.bytes| == dep.sourceSize && l.digests.ofBytes(node.bytes) == dep.sourceDigest
            && (Intact(l, fs, dep) <==> l.sourceHash(node.bytes) == dep.ofModule.sourceHash)
  {
    assert Resolve(l, d, dep).Success?;
    var input := FindInput(d.inputs, dep.source.path).value;
    var i :| 0 <= i < |d.inputs| && d.inputs[i] == input;
    assert StillHolds(l.digests, fs, d.inputs[i]);
  }

  // ----- Agreement -----

  lemma ExpectedImporterDeployed(l: Loader, d: Descriptor, dep: AnalysisDependency)
    requires Expected(l, d, dep).Success?
    ensures Deployed(d.modules, dep.importer)
  {
    assert FindModule(d.modules, dep.importer).Some?;
  }

  /**
    The snapshot succeeds exactly when every deployed module verifies on its own. Without any module the
    right-hand side says nothing, and the snapshot still checks the descriptor and its inputs.
   */
  lemma SnapshotIffConsumers(l: Loader, fs: FileSystem, d: Descriptor)
    ensures SnapshotVerifies(l, fs, d)
       <==> && (forall n :: Deployed(d.modules, n) ==> ConsumerVerifies(l, fs, d, n))
            && (d.modules == [] ==> DescriptorValid(l, d) && InputsHold(l, fs, d))
  {
    if (forall n :: Deployed(d.modules, n) ==> ConsumerVerifies(l, fs, d, n))
       && (d.modules == [] ==> DescriptorValid(l, d) && InputsHold(l, fs, d))
    {
      if d.modules != [] {
        assert Deployed(d.modules, d.modules[0].moduleName);
      }
      forall i | 0 <= i < |d.dependencies|
        ensures Verifies(l, fs, Expecting(l, d), d.dependencies[i]) && Deployed(d.modules, d.dependencies[i].importer)
      {
        ExpectedImporterDeployed(l, d, d.dependencies[i]);
        assert ConsumerVerifies(l, fs, d, d.dependencies[i].importer);
      }
    }
  }

  /** Sharing the reads changes nothing: both routes give every deployed module the same list in the same order. */
  method CompareRoutes(l: Loader, fs: FileSystem, d: Descriptor, importer: string)
    returns (shared: Outcome<map<string, seq<DependencyFingerprint>>>, alone: Outcome<seq<DependencyFingerprint>>)
    ensures shared.Success? && Deployed(d.modules, importer) ==>
      importer in shared.value && alone == Success(shared.value[importer])
    ensures shared.Success? && !Deployed(d.modules, importer) ==> importer !in shared.value && alone.Failure?
    ensures alone.Failure? && Deployed(d.modules, importer) ==> shared.Failure?
  {
    SnapshotIffConsumers(l, fs, d);
    shared := VerifiedSnapshot(l, fs, d);
    alone := VerifiedDependencies(l, fs, d, importer);
  }
}
