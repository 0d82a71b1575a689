/**
  Observed analysis inputs: what is recorded about a file or directory at build time, and when a later
  look at the filesystem still agrees with it.
 */
module Inputs {
  import opened Collections
  import opened Ordering
  import opened Stability
  import opened Types
  import opened Manifest

  /**
    A directory entry's name. `NotUtf8` stands for a name that is not UTF-8 and for an entry, or a whole
    listing, that cannot be read.
   */
  datatype EntryName = Utf8(text: string) | NotUtf8

  datatype DirEntry = DirEntry(name: EntryName, isFile: bool, isDirectory: bool, isSymlink: bool)

  /** A readable entry, as it is recorded. */
  datatype Entry = Entry(name: string, isFile: bool, isDirectory: bool, isSymlink: bool)

  datatype FileNode =
    | NotFound
    | Unreadable
    | RegularFile(canonical: string, bytes: seq<nat>)
    | Directory(canonical: string, entries: seq<DirEntry>)
    | Special(canonical: string)

  type FileSystem = map<string, FileNode>

  function Lookup(fs: FileSystem, path: string): FileNode {
    if path in fs then fs[path] else NotFound
  }

  predicate Absolute(path: string) {
    path != "" && path[0] == '/'
  }

  datatype DirectoryFilter =
    | All
    | Name(selected: string)
    | Prefix(prefix: string)
    | Suffix(suffix: string)
    | SourceSelection(excludedNames: seq<string>)

  predicate EndsWith(s: string, suffix: string) {
    |suffix| <= |s| && s[|s| - |suffix|..] == suffix
  }

  predicate Includes(filter: DirectoryFilter, e: Entry) {
    match filter
    case All => true
    case Name(selected) => e.name == selected
    case Prefix(prefix) => prefix <= e.name
    case Suffix(suffix) => EndsWith(e.name, suffix)
    case SourceSelection(excluded) =>
      e.name !in excluded && (e.isDirectory || e.isSymlink || (e.isFile && EndsWith(e.name, ".py")))
  }

  datatype Observation = Observation(filter: DirectoryFilter, entries: Fingerprint)

  datatype InputState =
    | MissingInput
    | FileInput(canonicalPath: string, digest: Fingerprint, size: nat)
    | DirectoryInput(canonicalPath: string, observations: seq<Observation>)

  datatype Input = Input(path: string, state: InputState)

  datatype Digests = Digests(ofBytes: seq<nat> -> Fingerprint, ofEntries: seq<Entry> -> Fingerprint) {
    ghost predicate CollisionFree() {
      && (forall a, b :: ofBytes(a) == ofBytes(b) ==> a == b)
      && (forall a, b :: ofEntries(a) == ofEntries(b) ==> a == b)
    }
  }

  // ----- Orders -----

  function EntryKey(e: Entry): Key {
    Node([StringKey(e.name), BoolKey(e.isFile), BoolKey(e.isDirectory), BoolKey(e.isSymlink)])
  }

  lemma EntryKeyIsInjective()
    ensures Injective(EntryKey)
  {
    forall a: Entry, b: Entry | EntryKey(a) == EntryKey(b) ensures a == b {
      var x, y := EntryKey(a).items, EntryKey(b).items;
      assert x[0] == y[0] && x[1] == y[1] && x[2] == y[2] && x[3] == y[3];
      StringKeyInjective(a.name, b.name);
    }
  }

  function FilterKey(f: DirectoryFilter): Key {
    match f
    case All => Node([Atom(0)])
    case Name(s) => Node([Atom(1), StringKey(s)])
    case Prefix(s) => Node([Atom(2), StringKey(s)])
    case Suffix(s) => Node([Atom(3), StringKey(s)])
    case SourceSelection(ns) => Node([Atom(4), Node(seq(|ns|, i requires 0 <= i < |ns| => StringKey(ns[i])))])
  }

  lemma FilterKeyIsInjective()
    ensures Injective(FilterKey)
  {
    forall a: DirectoryFilter, b: DirectoryFilter | FilterKey(a) == FilterKey(b) ensures a == b {
      FilterKeyInjective(a, b);
    }
  }

  lemma FilterKeyInjective(a: DirectoryFilter, b: DirectoryFilter)
    requires FilterKey(a) == FilterKey(b)
    ensures a == b
  {
    var x, y := FilterKey(a).items, FilterKey(b).items;
    assert x[0] == y[0];
    match a {
      case All =>
      case Name(s) => assert x[1] == y[1]; StringKeyInjective(s, b.selected);
      case Prefix(s) => assert x[1] == y[1]; StringKeyInjective(s, b.prefix);
      case Suffix(s) => assert x[1] == y[1]; StringKeyInjective(s, b.suffix);
      case SourceSelection(ns) =>
        assert x[1] == y[1];
        var p, q := x[1].items, y[1].items;
        assert |p| == |ns| && |q| == |b.excludedNames|;
        forall i | 0 <= i < |ns| ensures ns[i] == b.excludedNames[i] {
          assert p[i] == StringKey(ns[i]) && q[i] == StringKey(b.excludedNames[i]);
          StringKeyInjective(ns[i], b.excludedNames[i]);
        }
        assert ns == b.excludedNames;
    }
  }

  // ----- Capture -----

  /** Every name in the listing must be readable, selected by a filter or not. */
  predicate AllReadable(entries: seq<DirEntry>) {
    forall i :: 0 <= i < |entries| ==> entries[i].name.Utf8?
  }

  function Readable(entries: seq<DirEntry>): (r: seq<Entry>)
    requires AllReadable(entries)
    ensures |r| == |entries|
  {
    seq(|entries|, i requires 0 <= i < |entries| =>
      Entry(entries[i].name.text, entries[i].isFile, entries[i].isDirectory, entries[i].isSymlink))
  }

  function Including(filter: DirectoryFilter): Entry -> bool { e => Includes(filter, e) }

  function Selected(filter: DirectoryFilter, entries: seq<Entry>): seq<Entry> {
    Filter(Including(filter), entries)
  }

  function View(digests: Digests, filter: DirectoryFilter, entries: seq<Entry>): Fingerprint {
    digests.ofEntries(Selected(filter, SortBy(entries, EntryKey)))
  }

  function Observations(digests: Digests, filters: seq<DirectoryFilter>, entries: seq<Entry>): (r: seq<Observation>)
    ensures |r| == |filters|
    ensures forall i :: 0 <= i < |filters| ==> r[i] == Observation(filters[i], View(digests, filters[i], entries))
  {
    seq(|filters|, i requires 0 <= i < |filters| => Observation(filters[i], View(digests, filters[i], entries)))
  }

  function ObserveDirectory(digests: Digests, filters: seq<DirectoryFilter>, entries: seq<DirEntry>)
    : Outcome<seq<Observation>>
  {
    if filters == [] then Success([])
    else if !AllReadable(entries) then Failure(InvalidStructure)
    else Success(Observations(digests, SortedSet(filters, FilterKey), Readable(entries)))
  }

  function Capture(
    digests: Digests, fs: FileSystem, path: string, filters: seq<DirectoryFilter>, expectedSize: Option<nat>)
    : Outcome<InputState>
  {
    if !Absolute(path) then Failure(InvalidStructure)
    else
      match Lookup(fs, path)
      case NotFound => Success(MissingInput)
      case Unreadable => Failure(InvalidStructure)
      case RegularFile(canonical, bytes) =>
        if expectedSize.Some? && |bytes| != expectedSize.value then Failure(InvalidStructure)
        else Success(FileInput(canonical, digests.ofBytes(bytes), |bytes|))
      case Special(_) => Failure(InvalidStructure)
      case Directory(canonical, entries) =>
        var observations :- ObserveDirectory(digests, filters, entries);
        Success(DirectoryInput(canonical, observations))
  }

  function RecordedFilters(state: InputState): (r: seq<DirectoryFilter>)
    ensures state.DirectoryInput? ==>
      |r| == |state.observations| && forall i :: 0 <= i < |r| ==> r[i] == state.observations[i].filter
  {
    if state.DirectoryInput?
    then seq(|state.observations|, i requires 0 <= i < |state.observations| => state.observations[i].filter)
    else []
  }

  /** `verify_analysis_inputs` for one input: capture again with the recorded filters and compare. */
  predicate StillHolds(digests: Digests, fs: FileSystem, input: Input) {
    var size := if input.state.FileInput? then input.state.size else 0;
    Capture(digests, fs, input.path, RecordedFilters(input.state), Some(size)) == Success(input.state)
  }

  method VerifyInputs(digests: Digests, fs: FileSystem, inputs: seq<Input>) returns (ok: bool)
    ensures ok <==> forall i :: 0 <= i < |inputs| ==> StillHolds(digests, fs, inputs[i])
  {
    for i := 0 to |inputs|
      invariant forall k :: 0 <= k < i ==> StillHolds(digests, fs, inputs[k])
    {
      var input := inputs[i];
      var size := if input.state.FileInput? then input.state.size else 0;
      var captured := Capture(digests, fs, input.path, RecordedFilters(input.state), Some(size));
      if captured != Success(input.state) {
        assert !StillHolds(digests, fs, inputs[i]);
        return false;
      }
    }
    ok := true;
  }

  // ----- When a recorded input still holds -----

  lemma SelectedPermuted(filter: DirectoryFilter, a: seq<Entry>, b: seq<Entry>)
    requires multiset(a) == multiset(b)
    ensures multiset(Selected(filter, a)) == multiset(Selected(filter, b))
  {
    forall e ensures multiset(Selected(filter, a))[e] == multiset(Selected(filter, b))[e] {
      FilterMembers(Including(filter), a, e);
      FilterMembers(Including(filter), b, e);
    }
  }

  /** Two listings look alike through a filter exactly when it selects the same entries from both. */
  lemma ViewsAgree(digests: Digests, filter: DirectoryFilter, a: seq<Entry>, b: seq<Entry>)
    requires digests.CollisionFree()
    ensures View(digests, filter, a) == View(digests, filter, b)
       <==> multiset(Selected(filter, a)) == multiset(Selected(filter, b))
  {
    var s, t := Selected(filter, SortBy(a, EntryKey)), Selected(filter, SortBy(b, EntryKey));
    SortByMembers(a, EntryKey);
    SortByMembers(b, EntryKey);
    SelectedPermuted(filter, a, SortBy(a, EntryKey));
    SelectedPermuted(filter, b, SortBy(b, EntryKey));
    SortBySorted(a, EntryKey);
    SortBySorted(b, EntryKey);
    FilterSorted(Including(filter), SortBy(a, EntryKey), EntryKey);
    FilterSorted(Including(filter), SortBy(b, EntryKey), EntryKey);
    if multiset(s) == multiset(t) {
      EntryKeyIsInjective();
      SortedUnique(s, t, EntryKey);
    }
  }

  ghost predicate SameSelection(filters: seq<DirectoryFilter>, a: seq<DirEntry>, b: seq<DirEntry>)
    requires AllReadable(a) && AllReadable(b)
  {
    forall f :: f in filters ==> multiset(Selected(f, Readable(a))) == multiset(Selected(f, Readable(b)))
  }

  /** Agreement of two filesystems about one path, seen through the filters. */
  ghost predicate SameView(before: FileNode, after: FileNode, filters: seq<DirectoryFilter>) {
    match (before, after)
    case (NotFound, NotFound) => true
    case (RegularFile(c, b), RegularFile(c', b')) => c == c' && b == b'
    case (Directory(c, es), Directory(c', es')) =>
      c == c' && (filters == [] || (AllReadable(es) && AllReadable(es') && SameSelection(filters, es, es')))
    case _ => false
  }

  lemma FiltersRecorded(digests: Digests, canonical: string, filters: seq<DirectoryFilter>, entries: seq<Entry>)
    ensures RecordedFilters(DirectoryInput(canonical, Observations(digests, filters, entries))) == filters
  {
  }

  lemma DirectoryStillHolds(digests: Digests, filters: seq<DirectoryFilter>, before: seq<Entry>, after: seq<Entry>)
    requires digests.CollisionFree()
    ensures var sorted := SortedSet(filters, FilterKey);
            Observations(digests, sorted, after) == Observations(digests, sorted, before)
            <==> forall f :: f in filters ==> multiset(Selected(f, before)) == multiset(Selected(f, after))
  {
    var sorted := SortedSet(filters, FilterKey);
    FilterKeyIsInjective();
    SortedSetFacts(filters, FilterKey);
    var x, y := Observations(digests, sorted, after), Observations(digests, sorted, before);
    if x == y {
      forall f | f in filters ensures multiset(Selected(f, before)) == multiset(Selected(f, after)) {
        assert f in sorted;
        var i :| 0 <= i < |sorted| && sorted[i] == f;
        assert x[i] == y[i];
        ViewsAgree(digests, f, before, after);
      }
    }
    if forall f :: f in filters ==> multiset(Selected(f, before)) == multiset(Selected(f, after)) {
      forall i | 0 <= i < |sorted| ensures x[i] == y[i] {
        assert sorted[i] in filters;
        ViewsAgree(digests, sorted[i], before, after);
      }
    }
  }

  lemma SortedSetNonempty(filters: seq<DirectoryFilter>)
    ensures SortedSet(filters, FilterKey) == [] <==> filters == []
  {
    FilterKeyIsInjective();
    SortedSetFacts(filters, FilterKey);
    if filters != [] { assert filters[0] in filters; }
  }

  /**
    An input captured on one filesystem holds on another exactly when the kind and canonical path agree
    and, for files, the bytes agree, or, for directories, every recorded filter selects the same entries
    and, if anything was recorded at all, every name in the new listing is readable.
   */
  lemma CapturedHoldsExactly(
    digests: Digests, before: FileSystem, after: FileSystem, path: string, filters: seq<DirectoryFilter>)
    requires digests.CollisionFree() && Capture(digests, before, path, filters, Option.None).Success?
    ensures var state := Capture(digests, before, path, filters, Option.None).value;
            StillHolds(digests, after, Input(path, state))
            <==> SameView(Lookup(before, path), Lookup(after, path), filters)
  {
    var state := Capture(digests, before, path, filters, Option.None).value;
    match Lookup(before, path) {
      case Directory(canonical, entries) =>
        if filters != [] {
          var sorted := SortedSet(filters, FilterKey);
          FiltersRecorded(digests, canonical, sorted, Readable(entries));
          SortedSetNonempty(filters);
          SortedSetTwice(filters, FilterKey);
          if Lookup(after, path).Directory? && AllReadable(Lookup(after, path).entries) {
            DirectoryStillHolds(digests, filters, Readable(entries), Readable(Lookup(after, path).entries));
          }
        }
      case _ =>
    }
  }

  /** Entries that no recorded filter selects do not matter, provided their names can be read. */
  lemma UnselectedEntriesIgnored(
    digests: Digests, before: FileSystem, after: FileSystem, path: string, filters: seq<DirectoryFilter>)
    requires digests.CollisionFree() && Capture(digests, before, path, filters, Option.None).Success?
    requires Lookup(before, path).Directory? && Lookup(after, path).Directory?
    requires Lookup(before, path).canonical == Lookup(after, path).canonical
    requires AllReadable(Lookup(before, path).entries) && AllReadable(Lookup(after, path).entries)
    requires forall f, e :: f in filters && Includes(f, e) ==>
      multiset(Readable(Lookup(before, path).entries))[e] == multiset(Readable(Lookup(after, path).entries))[e]
    ensures StillHolds(digests, after, Input(path, Capture(digests, before, path, filters, Option.None).value))
  {
    var a, b := Readable(Lookup(before, path).entries), Readable(Lookup(after, path).entries);
    forall f | f in filters ensures multiset(Selected(f, a)) == multiset(Selected(f, b)) {
      forall e ensures multiset(Selected(f, a))[e] == multiset(Selected(f, b))[e] {
        FilterMembers(Including(f), a, e);
        FilterMembers(Including(f), b, e);
      }
    }
    CapturedHoldsExactly(digests, before, after, path, filters);
  }

  /** An unreadable name matters even though no filter can select it. */
  lemma UnreadableNameBreaksView(digests: Digests)
    ensures var before := map["/d" := Directory("/d", [])];
            var after := map["/d" := Directory("/d", [DirEntry(NotUtf8, true, false, false)])];
            var captured := Capture(digests, before, "/d", [Name("a.py")], Option.None);
            captured.Success? && !StillHolds(digests, after, Input("/d", captured.value))
  {
    var after: FileSystem := map["/d" := Directory("/d", [DirEntry(NotUtf8, true, false, false)])];
    assert Lookup(after, "/d").entries[0].name == NotUtf8;
    SortedSetNonempty([Name("a.py")]);
  }
}
