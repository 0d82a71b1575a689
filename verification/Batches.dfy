/**
  How the parallel test runner splits collected node identifiers into batches: parametrized cases of one
  test stay together, batches stay within one file and within a bounded size, and some tests run alone.
 */
module Batches {
  import opened Ordering

  const MAX_BATCH_NODEIDS: nat := 4

  const SINGLETON_NODE_GROUPS: set<string> := {
    "tests/test_counter_dump_file.py::test_profiled_full_nqueens_slice_preserves_results_mutations_and_ordinary_tracing",
    "tests/test_counter_dump_file.py::test_profiled_pyperformance_nqueens_preserves_rebinding_and_ordinary_tracing",
    "tests/test_closed_iterator_pipeline.py::test_reviewed_closed_pipelines_use_authenticated_entries",
    "tests/test_strict_scenarios.py::test_strict_scenario"
  }

  datatype Label =
    | GroupLabel(key: string)
    | ChunkLabel(key: string, index: nat, count: nat)
    | FileLabel(path: string, number: nat, count: nat)
    | NodeLabel(node: string)

  datatype Batch = Batch(title: Label, selectors: seq<string>)

  /** A dictionary entry; a dictionary is the sequence of its entries in insertion order. */
  datatype Group = Group(key: string, members: seq<string>)

  // ----- Node identifiers -----

  predicate OccursAt(s: string, part: string, i: int) {
    0 <= i && i + |part| <= |s| && s[i..i + |part|] == part
  }

  /** The last occurrence starting at or before `from`, or -1. */
  function LastFrom(s: string, part: string, from: int): (r: int)
    requires from >= -1
    ensures -1 <= r <= from
    ensures r >= 0 ==> OccursAt(s, part, r)
    ensures forall i :: r < i <= from ==> !OccursAt(s, part, i)
    decreases from
  {
    if from < 0 || OccursAt(s, part, from) then from else LastFrom(s, part, from - 1)
  }

  /** The first occurrence starting at or after `from`, or the length. */
  function FirstFrom(s: string, part: string, from: nat): (r: nat)
    requires from <= |s|
    ensures from <= r <= |s|
    ensures r < |s| ==> OccursAt(s, part, r)
    ensures forall i :: from <= i < r ==> !OccursAt(s, part, i)
    decreases |s| - from
  {
    if from == |s| || OccursAt(s, part, from) then from else FirstFrom(s, part, from + 1)
  }

  function NodeGroupKey(node: string): string {
    var lastSeparator, lastParameter := LastFrom(node, "::", |node|), LastFrom(node, "[", |node|);
    if lastParameter > lastSeparator then node[..lastParameter] else node
  }

  function NodeFilePath(node: string): string {
    node[..FirstFrom(node, "::", 0)]
  }

  // ----- Grouping -----

  type NodeKey = string -> string

  function FirstKeys(nodes: seq<string>, key: NodeKey): seq<string> {
    if nodes == [] then []
    else
      var keys, last := FirstKeys(nodes[..|nodes| - 1], key), key(nodes[|nodes| - 1]);
      if last in keys then keys else keys + [last]
  }

  function Members(nodes: seq<string>, key: NodeKey, k: string): seq<string> {
    if nodes == [] then []
    else
      var last := nodes[|nodes| - 1];
      Members(nodes[..|nodes| - 1], key, k) + if key(last) == k then [last] else []
  }

  function Groups(nodes: seq<string>, key: NodeKey): (gs: seq<Group>)
    ensures |gs| == |FirstKeys(nodes, key)|
    ensures forall i :: 0 <= i < |gs| ==>
      gs[i] == Group(FirstKeys(nodes, key)[i], Members(nodes, key, FirstKeys(nodes, key)[i]))
  {
    var keys := FirstKeys(nodes, key);
    seq(|keys|, i requires 0 <= i < |keys| => Group(keys[i], Members(nodes, key, keys[i])))
  }

  ghost predicate DistinctStrings(keys: seq<string>) {
    forall i, j :: 0 <= i < j < |keys| ==> keys[i] != keys[j]
  }

  lemma {:induction false} FirstKeysDistinct(nodes: seq<string>, key: NodeKey)
    ensures DistinctStrings(FirstKeys(nodes, key))
  {
    if nodes == [] {
    } else {
      FirstKeysDistinct(nodes[..|nodes| - 1], key);
    }
  }

  lemma {:induction false} FirstKeysCover(nodes: seq<string>, key: NodeKey, i: nat)
    requires i < |nodes|
    ensures key(nodes[i]) in FirstKeys(nodes, key)
  {
    if i == |nodes| - 1 {
    } else {
      FirstKeysCover(nodes[..|nodes| - 1], key, i);
    }
  }

  lemma FirstKeysFacts(nodes: seq<string>, key: NodeKey)
    ensures DistinctStrings(FirstKeys(nodes, key))
    ensures forall x :: x in nodes ==> key(x) in FirstKeys(nodes, key)
  {
    FirstKeysDistinct(nodes, key);
    forall x | x in nodes ensures key(x) in FirstKeys(nodes, key) {
      var i :| 0 <= i < |nodes| && nodes[i] == x;
      FirstKeysCover(nodes, key, i);
    }
  }

  lemma {:induction false} MembersCount(nodes: seq<string>, key: NodeKey, k: string, x: string)
    ensures multiset(Members(nodes, key, k))[x] == if key(x) == k then multiset(nodes)[x] else 0
  {
    if nodes == [] {
    } else {
      MembersCount(nodes[..|nodes| - 1], key, k, x);
      assert nodes == nodes[..|nodes| - 1] + [nodes[|nodes| - 1]];
    }
  }

  lemma MembersOf(nodes: seq<string>, key: NodeKey, k: string, x: string)
    ensures x in Members(nodes, key, k) <==> x in nodes && key(x) == k
  {
    MembersCount(nodes, key, k, x);
    assert x in Members(nodes, key, k) <==> x in multiset(Members(nodes, key, k));
    assert x in nodes <==> x in multiset(nodes);
  }

  lemma {:induction false} KeysOccur(nodes: seq<string>, key: NodeKey, k: string)
    requires k in FirstKeys(nodes, key)
    ensures Members(nodes, key, k) != []
  {
    if k in FirstKeys(nodes[..|nodes| - 1], key) {
      KeysOccur(nodes[..|nodes| - 1], key, k);
    }
  }

  function FlatGroups(gs: seq<Group>): seq<string> {
    if gs == [] then [] else FlatGroups(gs[..|gs| - 1]) + gs[|gs| - 1].members
  }

  lemma CountAppends(
    flat: seq<string>, members: seq<string>, keys: seq<string>, k: string, own: string, x: string, c: nat)
    requires multiset(flat)[x] == (if own in keys then c else 0) && multiset(members)[x] == (if own == k then c else 0)
    requires k !in keys
    ensures multiset(flat + members)[x] == if own in keys + [k] then c else 0
  {
  }

  lemma LaterKeyIsNew(keys: seq<string>, n: nat)
    requires DistinctStrings(keys) && n < |keys|
    ensures keys[n] !in keys[..n]
  {
  }

  lemma {:induction false} FlatGroupsCount(nodes: seq<string>, key: NodeKey, n: nat, x: string)
    requires n <= |FirstKeys(nodes, key)|
    ensures multiset(FlatGroups(Groups(nodes, key)[..n]))[x] ==
      if key(x) in FirstKeys(nodes, key)[..n] then multiset(nodes)[x] else 0
  {
    if n == 0 {
    } else {
      var gs, keys := Groups(nodes, key), FirstKeys(nodes, key);
      FlatGroupsCount(nodes, key, n - 1, x);
      FirstKeysDistinct(nodes, key);
      LaterKeyIsNew(keys, n - 1);
      MembersCount(nodes, key, keys[n - 1], x);
      var flat, members, count := FlatGroups(gs[..n - 1]), gs[n - 1].members, multiset(nodes)[x];
      CountAppends(flat, members, keys[..n - 1], keys[n - 1], key(x), x, count);
      assert gs[..n][..n - 1] == gs[..n - 1];
      assert keys[..n] == keys[..n - 1] + [keys[n - 1]];
    }
  }

  /** Grouping moves nodes around but neither loses nor repeats one. */
  lemma GroupsPartition(nodes: seq<string>, key: NodeKey)
    ensures multiset(FlatGroups(Groups(nodes, key))) == multiset(nodes)
  {
    var gs, keys := Groups(nodes, key), FirstKeys(nodes, key);
    assert gs[..|keys|] == gs && keys[..|keys|] == keys;
    FirstKeysFacts(nodes, key);
    forall x ensures multiset(FlatGroups(gs))[x] == multiset(nodes)[x] {
      FlatGroupsCount(nodes, key, |keys|, x);
      assert multiset(nodes)[x] > 0 ==> x in nodes;
    }
  }

  function IndexOf(gs: seq<Group>, k: string): (r: nat)
    ensures r <= |gs| && (r < |gs| ==> gs[r].key == k)
    ensures forall i :: 0 <= i < r ==> gs[i].key != k
  {
    IndexFrom(gs, k, 0)
  }

  function IndexFrom(gs: seq<Group>, k: string, from: nat): (r: nat)
    requires from <= |gs|
    ensures from <= r <= |gs| && (r < |gs| ==> gs[r].key == k)
    ensures forall i :: from <= i < r ==> gs[i].key != k
    decreases |gs| - from
  {
    if from == |gs| || gs[from].key == k then from else IndexFrom(gs, k, from + 1)
  }

  lemma GroupsNext(nodes: seq<string>, key: NodeKey, i: nat)
    requires i < |nodes|
    ensures FirstKeys(nodes[..i + 1], key) ==
      if key(nodes[i]) in FirstKeys(nodes[..i], key) then FirstKeys(nodes[..i], key)
      else FirstKeys(nodes[..i], key) + [key(nodes[i])]
    ensures forall k ::
      Members(nodes[..i + 1], key, k) == Members(nodes[..i], key, k) + if key(nodes[i]) == k then [nodes[i]] else []
  {
    assert nodes[..i + 1][..i] == nodes[..i];
  }

  lemma {:induction false} NoMembers(nodes: seq<string>, key: NodeKey, k: string)
    requires k !in FirstKeys(nodes, key)
    ensures Members(nodes, key, k) == []
  {
    FirstKeysFacts(nodes, key);
    if Members(nodes, key, k) != [] {
      MembersOf(nodes, key, k, Members(nodes, key, k)[0]);
    }
  }

  lemma GroupsExtend(nodes: seq<string>, key: NodeKey, i: nat, at: nat)
    requires i < |nodes| && at < |Groups(nodes[..i], key)| && Groups(nodes[..i], key)[at].key == key(nodes[i])
    ensures var gs := Groups(nodes[..i], key);
            Groups(nodes[..i + 1], key) == gs[at := Group(key(nodes[i]), gs[at].members + [nodes[i]])]
  {
    GroupsNext(nodes, key, i);
    FirstKeysFacts(nodes[..i], key);
    var gs, hs := Groups(nodes[..i], key), Groups(nodes[..i + 1], key);
    assert FirstKeys(nodes[..i], key)[at] == key(nodes[i]);
    forall j | 0 <= j < |gs| ensures hs[j] == gs[at := Group(key(nodes[i]), gs[at].members + [nodes[i]])][j] {
      var k := FirstKeys(nodes[..i], key)[j];
      assert hs[j] == Group(k, Members(nodes[..i + 1], key, k));
    }
  }

  lemma GroupsStart(nodes: seq<string>, key: NodeKey, i: nat)
    requires i < |nodes| && key(nodes[i]) !in FirstKeys(nodes[..i], key)
    ensures Groups(nodes[..i + 1], key) == Groups(nodes[..i], key) + [Group(key(nodes[i]), [nodes[i]])]
  {
    GroupsNext(nodes, key, i);
    NoMembers(nodes[..i], key, key(nodes[i]));
    var gs, hs := Groups(nodes[..i], key), Groups(nodes[..i + 1], key);
    forall j | 0 <= j < |hs| ensures hs[j] == (gs + [Group(key(nodes[i]), [nodes[i]])])[j] {
      var k := FirstKeys(nodes[..i + 1], key)[j];
      assert hs[j] == Group(k, Members(nodes[..i + 1], key, k));
    }
  }

  /** Filling an insertion-ordered dictionary of lists. */
  method GroupNodes(nodes: seq<string>, key: NodeKey) returns (gs: seq<Group>)
    ensures gs == Groups(nodes, key)
  {
    gs := [];
    for i := 0 to |nodes|
      invariant gs == Groups(nodes[..i], key)
    {
      var k := key(nodes[i]);
      var at := IndexOf(gs, k);
      if at < |gs| {
        GroupsExtend(nodes, key, i, at);
        gs := gs[at := Group(k, gs[at].members + [nodes[i]])];
      } else {
        assert k !in FirstKeys(nodes[..i], key) by {
          assert forall j :: 0 <= j < |gs| ==> FirstKeys(nodes[..i], key)[j] == gs[j].key;
        }
        GroupsStart(nodes, key, i);
        gs := gs + [Group(k, [nodes[i]])];
      }
    }
    assert nodes[..|nodes|] == nodes;
  }

  // ----- Flattened batches -----

  function Flat(bs: seq<Batch>): seq<string> {
    if bs == [] then [] else Flat(bs[..|bs| - 1]) + bs[|bs| - 1].selectors
  }

  lemma {:induction false} FlatConcat(a: seq<Batch>, b: seq<Batch>)
    ensures Flat(a + b) == Flat(a) + Flat(b)
  {
    if b == [] {
      assert a + b == a;
    } else {
      FlatConcat(a, b[..|b| - 1]);
      assert (a + b)[..|a + b| - 1] == a + b[..|b| - 1];
    }
  }

  lemma FlatAppend(a: seq<Batch>, b: Batch)
    ensures Flat(a + [b]) == Flat(a) + b.selectors
  {
    assert (a + [b])[..|a|] == a;
  }

  lemma {:induction false} FlatMember(bs: seq<Batch>, i: nat, x: string)
    requires i < |bs| && x in bs[i].selectors
    ensures x in Flat(bs)
  {
    if i == |bs| - 1 {
    } else {
      FlatMember(bs[..|bs| - 1], i, x);
    }
  }

  /** The batch sizes, largest first; equal sizes keep their order. */
  function SizeKey(b: Batch): Key { Atom(-|b.selectors|) }

  lemma {:induction false} FlatInsert(b: Batch, bs: seq<Batch>)
    ensures multiset(Flat(Insert(b, bs, SizeKey))) == multiset(b.selectors) + multiset(Flat(bs))
  {
    if bs != [] && Less(SizeKey(bs[0]), SizeKey(b)) {
      FlatInsert(b, bs[1..]);
      FlatConcat([bs[0]], Insert(b, bs[1..], SizeKey));
      FlatConcat([bs[0]], bs[1..]);
      assert bs == [bs[0]] + bs[1..];
    } else {
      FlatConcat([b], bs);
    }
  }

  lemma {:induction false} FlatSorted(bs: seq<Batch>)
    ensures multiset(Flat(SortBy(bs, SizeKey))) == multiset(Flat(bs))
  {
    if bs == [] {
    } else {
      FlatSorted(bs[1..]);
      FlatInsert(bs[0], SortBy(bs[1..], SizeKey));
      FlatConcat([bs[0]], bs[1..]);
      assert bs == [bs[0]] + bs[1..];
    }
  }

  // ----- What a batch must satisfy -----

  predicate Alone(node: string) { NodeGroupKey(node) in SINGLETON_NODE_GROUPS }

  /** Not empty, not too large, and a test that must run alone does. */
  ghost predicate Fine(b: Batch, limit: nat) {
    0 < |b.selectors| <= limit && forall x :: x in b.selectors && Alone(x) ==> |b.selectors| == 1
  }

  ghost predicate AllFine(bs: seq<Batch>, limit: nat) {
    forall i :: 0 <= i < |bs| ==> Fine(bs[i], limit)
  }

  predicate Ordinary(b: Batch) { b.selectors != [] && !Alone(b.selectors[0]) }

  /** No two neighbours would have fitted into one batch. */
  ghost predicate Unmergeable(bs: seq<Batch>, limit: nat) {
    forall i, j :: 0 <= i < j < |bs| && j == i + 1 && Ordinary(bs[i]) && Ordinary(bs[j]) ==>
      |bs[i].selectors| + |bs[j].selectors| > limit
  }

  ghost predicate Contiguous(whole: seq<string>, part: seq<string>) {
    exists i, j :: 0 <= i <= j <= |whole| && whole[i..j] == part
  }

  /** Some batch runs all of `part`, side by side. */
  ghost predicate Together(bs: seq<Batch>, part: seq<string>) {
    exists i :: 0 <= i < |bs| && Contiguous(bs[i].selectors, part)
  }

  lemma TogetherWithin(bs: seq<Batch>, i: nat, part: seq<string>)
    requires i < |bs| && Contiguous(bs[i].selectors, part)
    ensures Together(bs, part)
  {
  }

  lemma TogetherGrows(bs: seq<Batch>, more: seq<Batch>, part: seq<string>)
    requires Together(bs, part)
    ensures Together(bs + more, part)
  {
    var i :| 0 <= i < |bs| && Contiguous(bs[i].selectors, part);
    assert (bs + more)[i] == bs[i];
  }

  lemma TogetherLater(bs: seq<Batch>, more: seq<Batch>, part: seq<string>)
    requires Together(more, part)
    ensures Together(bs + more, part)
  {
    var i :| 0 <= i < |more| && Contiguous(more[i].selectors, part);
    assert (bs + more)[|bs| + i] == more[i];
  }

  lemma ContiguousGrows(whole: seq<string>, more: seq<string>, part: seq<string>)
    requires Contiguous(whole, part)
    ensures Contiguous(whole + more, part)
  {
    var i, j :| 0 <= i <= j <= |whole| && whole[i..j] == part;
    assert (whole + more)[i..j] == part;
  }

  lemma ContiguousLast(whole: seq<string>, part: seq<string>)
    ensures Contiguous(whole + part, part)
  {
    assert (whole + part)[|whole|..|whole + part|] == part;
  }

  // ----- Units: groups, cut into chunks where they are too large -----

  /** The title of a group, or of a chunk of it. */
  predicate Names(title: Label, key: string) {
    match title
    case GroupLabel(k) => k == key
    case ChunkLabel(k, _, _) => k == key
    case _ => false
  }

  ghost predicate UnitFine(u: Batch, limit: nat) {
    && 0 < |u.selectors| <= limit && Names(u.title, NodeGroupKey(u.selectors[0]))
    && forall x :: x in u.selectors ==> NodeGroupKey(x) == NodeGroupKey(u.selectors[0])
  }

  ghost predicate UnitsFine(units: seq<Batch>, limit: nat) {
    forall i :: 0 <= i < |units| ==> UnitFine(units[i], limit)
  }

  function CeilDiv(a: nat, b: nat): (q: nat)
    requires b > 0
    ensures q * b >= a && (q > 0 ==> (q - 1) * b < a)
  {
    (a + b - 1) / b
  }

  lemma Scaled(a: nat, b: nat, c: nat)
    requires a <= b
    ensures a * c <= b * c
  {
  }

  /** Before the last chunk a full one is taken; the last one ends the list. */
  lemma ChunkBounds(size: nat, limit: nat, count: nat, index: nat)
    requires limit > 0 && index < count && count * limit >= size && (count - 1) * limit < size
    ensures index * limit < size
    ensures index + 1 < count ==> (index + 1) * limit < size
    ensures index + 1 == count ==> size <= index * limit + limit
    ensures (index + 1) * limit == index * limit + limit
  {
    Scaled(index, count - 1, limit);
    if index + 1 < count {
      Scaled(index + 1, count - 1, limit);
    }
  }

  function Cut(members: seq<string>, start: nat, limit: nat): (chunk: seq<string>)
    requires start <= |members|
  {
    if start + limit < |members| then members[start..start + limit] else members[start..]
  }

  lemma CutExtends(members: seq<string>, start: nat, limit: nat)
    requires start <= |members|
    ensures start + limit <= |members| ==> members[..start] + Cut(members, start, limit) == members[..start + limit]
    ensures start + limit >= |members| ==> members[..start] + Cut(members, start, limit) == members
  {
  }

  lemma ChunkFine(group: Group, limit: nat, start: nat, title: Label)
    requires limit > 0 && start < |group.members| && Names(title, group.key)
    requires forall x :: x in group.members ==> NodeGroupKey(x) == group.key
    ensures UnitFine(Batch(title, Cut(group.members, start, limit)), limit)
  {
    var chunk := Cut(group.members, start, limit);
    forall i | 0 <= i < |chunk| ensures NodeGroupKey(chunk[i]) == group.key {
      assert chunk[i] == group.members[start + i];
      assert chunk[i] in group.members;
    }
  }

  /** The first `index` chunks: every one but the last of all is full. */
  ghost predicate Chunks(group: Group, limit: nat, count: nat, index: nat, units: seq<Batch>) {
    && |units| == index <= count && UnitsFine(units, limit)
    && (forall i :: 0 <= i < index && i < count - 1 ==> |units[i].selectors| == limit)
    && (forall i :: 0 <= i < index ==> units[i].title == ChunkLabel(group.key, i + 1, count))
    && (index < count ==> index * limit < |group.members| && Flat(units) == group.members[..index * limit])
    && (index == count ==> Flat(units) == group.members)
  }

  lemma ChunksMore(group: Group, limit: nat, count: nat, index: nat, units: seq<Batch>, start: nat)
    requires limit > 0 && count * limit >= |group.members| && (count > 0 ==> (count - 1) * limit < |group.members|)
    requires forall x :: x in group.members ==> NodeGroupKey(x) == group.key
    requires Chunks(group, limit, count, index, units) && index < count && start == index * limit
    ensures start < |group.members|
    ensures var unit := Batch(ChunkLabel(group.key, index + 1, count), Cut(group.members, start, limit));
            Chunks(group, limit, count, index + 1, units + [unit])
  {
    var unit := Batch(ChunkLabel(group.key, index + 1, count), Cut(group.members, start, limit));
    ChunkFine(group, limit, start, unit.title);
    ChunkBounds(|group.members|, limit, count, index);
    CutExtends(group.members, start, limit);
    FlatAppend(units, unit);
  }

  method Chunk(group: Group, limit: nat) returns (units: seq<Batch>)
    requires limit > 0 && forall x :: x in group.members ==> NodeGroupKey(x) == group.key
    ensures Flat(units) == group.members && UnitsFine(units, limit)
    ensures forall i :: 0 <= i < |units| - 1 ==> |units[i].selectors| == limit
    ensures forall i :: 0 <= i < |units| ==> units[i].title == ChunkLabel(group.key, i + 1, |units|)
  {
    hide UnitFine;
    var count := CeilDiv(|group.members|, limit);
    units := [];
    for index := 0 to count
      invariant Chunks(group, limit, count, index, units)
    {
      var start := index * limit;
      ChunksMore(group, limit, count, index, units, start);
      units := units + [Batch(ChunkLabel(group.key, index + 1, count), Cut(group.members, start, limit))];
    }
  }

  ghost predicate GroupsFine(gs: seq<Group>) {
    forall i :: 0 <= i < |gs| ==>
      gs[i].members != [] && forall x :: x in gs[i].members ==> NodeGroupKey(x) == gs[i].key
  }

  lemma GroupFine(g: Group, limit: nat)
    requires 0 < |g.members| <= limit && forall x :: x in g.members ==> NodeGroupKey(x) == g.key
    ensures UnitFine(Batch(GroupLabel(g.key), g.members), limit)
  {
  }

  method MakeUnits(gs: seq<Group>, limit: nat) returns (units: seq<Batch>)
    requires limit > 0 && GroupsFine(gs)
    ensures Flat(units) == FlatGroups(gs) && UnitsFine(units, limit)
    ensures forall i :: 0 <= i < |gs| && |gs[i].members| <= limit ==>
      Batch(GroupLabel(gs[i].key), gs[i].members) in units
  {
    hide UnitFine;
    units := [];
    for i := 0 to |gs|
      invariant Flat(units) == FlatGroups(gs[..i]) && UnitsFine(units, limit)
      invariant forall k :: 0 <= k < i && |gs[k].members| <= limit ==>
        Batch(GroupLabel(gs[k].key), gs[k].members) in units
    {
      assert gs[..i + 1][..i] == gs[..i];
      if |gs[i].members| <= limit {
        GroupFine(gs[i], limit);
        FlatAppend(units, Batch(GroupLabel(gs[i].key), gs[i].members));
        units := units + [Batch(GroupLabel(gs[i].key), gs[i].members)];
      } else {
        var chunks := Chunk(gs[i], limit);
        FlatConcat(units, chunks);
        units := units + chunks;
      }
    }
    assert gs[..|gs|] == gs;
  }

  // ----- Packing units into batches -----

  function Flushed(path: string, batches: seq<Batch>, units: seq<Batch>, selectors: seq<string>): seq<Batch> {
    if selectors == [] then batches
    else
      var title := if |units| == 1 then units[0].title else FileLabel(path, |batches| + 1, |selectors|);
      batches + [Batch(title, selectors)]
  }

  function OneEach(nodes: seq<string>): (bs: seq<Batch>)
    ensures |bs| == |nodes| && forall i :: 0 <= i < |nodes| ==> bs[i] == Batch(NodeLabel(nodes[i]), [nodes[i]])
  {
    seq(|nodes|, i requires 0 <= i < |nodes| => Batch(NodeLabel(nodes[i]), [nodes[i]]))
  }

  lemma {:induction false} FlatOneEach(nodes: seq<string>)
    ensures Flat(OneEach(nodes)) == nodes
  {
    if nodes == [] {
    } else {
      FlatOneEach(nodes[..|nodes| - 1]);
      assert OneEach(nodes)[..|nodes| - 1] == OneEach(nodes[..|nodes| - 1]);
    }
  }

  /** The batch being filled: ordinary nodes only, within the limit, and too much for the batch before it. */
  ghost predicate Open(batches: seq<Batch>, current: seq<string>, limit: nat) {
    && |current| <= limit && (forall x :: x in current ==> !Alone(x))
    && (batches != [] && Ordinary(batches[|batches| - 1]) ==>
          current != [] && |batches[|batches| - 1].selectors| + |current| > limit)
  }

  ghost predicate Placed(batches: seq<Batch>, current: seq<string>, part: seq<string>) {
    Together(batches, part) || Contiguous(current, part)
  }

  ghost predicate Packed(done: seq<Batch>, batches: seq<Batch>, current: seq<string>, limit: nat) {
    && Flat(batches) + current == Flat(done)
    && AllFine(batches, limit) && Unmergeable(batches, limit) && Open(batches, current, limit)
    && AllPlaced(done, batches, current)
  }

  /** Closing the open batch; what is left then fits the description of a finished list. */
  lemma FlushKeeps(
    path: string, done: seq<Batch>, batches: seq<Batch>, units: seq<Batch>, current: seq<string>, limit: nat)
    requires Packed(done, batches, current, limit) && (forall u :: u in done ==> u.selectors != [])
    ensures var r := Flushed(path, batches, units, current);
            && Flat(r) == Flat(done) && AllFine(r, limit) && Unmergeable(r, limit)
            && (forall u :: u in done && Ordinary(u) ==> Together(r, u.selectors))
            && (current != [] ==> r != [] && r[|r| - 1].selectors == current)
            && (current == [] ==> r == batches)
  {
    var r := Flushed(path, batches, units, current);
    if current != [] {
      FlatAppend(batches, r[|batches|]);
    }
    forall u | u in done && Ordinary(u) ensures Together(r, u.selectors) {
      assert Placed(batches, current, u.selectors);
      if Together(batches, u.selectors) {
        TogetherGrows(batches, r[|batches|..], u.selectors);
        assert batches + r[|batches|..] == r;
      } else if current != [] {
        TogetherWithin(r, |batches|, u.selectors);
      } else {
        EmptyHoldsNothing(current, u.selectors);
        assert false;
      }
    }
  }

  lemma EmptyHoldsNothing(whole: seq<string>, part: seq<string>)
    requires whole == [] && part != []
    ensures !Contiguous(whole, part)
  {
  }

  /** A unit whose nodes run alone. */
  lemma AloneKeeps(done: seq<Batch>, closed: seq<Batch>, u: Batch, limit: nat)
    requires Flat(closed) == Flat(done) && AllFine(closed, limit) && Unmergeable(closed, limit) && limit > 0
    requires forall v :: v in done && Ordinary(v) ==> Together(closed, v.selectors)
    requires UnitFine(u, limit) && Alone(u.selectors[0])
    ensures Packed(done + [u], closed + OneEach(u.selectors), [], limit)
  {
    var r := closed + OneEach(u.selectors);
    FlatAppend(done, u);
    FlatOneEach(u.selectors);
    FlatConcat(closed, OneEach(u.selectors));
    forall i | |closed| <= i < |r| ensures !Ordinary(r[i]) && Fine(r[i], limit) {
      assert r[i].selectors == [u.selectors[i - |closed|]];
      assert u.selectors[i - |closed|] in u.selectors;
    }
    forall v | v in done + [u] && Ordinary(v) ensures Placed(r, [], v.selectors) {
      TogetherGrows(closed, OneEach(u.selectors), v.selectors);
    }
  }

  lemma PlacedGrows(batches: seq<Batch>, current: seq<string>, more: seq<string>, part: seq<string>)
    requires Placed(batches, current, part)
    ensures Placed(batches, current + more, part)
  {
    if !Together(batches, part) {
      ContiguousGrows(current, more, part);
    }
  }

  ghost predicate AllPlaced(done: seq<Batch>, batches: seq<Batch>, current: seq<string>) {
    forall u :: u in done && Ordinary(u) ==> Placed(batches, current, u.selectors)
  }

  lemma AllPlacedNext(done: seq<Batch>, batches: seq<Batch>, current: seq<string>, u: Batch)
    requires AllPlaced(done, batches, current)
    ensures AllPlaced(done + [u], batches, current + u.selectors)
  {
    forall v | v in done + [u] && Ordinary(v) ensures Placed(batches, current + u.selectors, v.selectors) {
      if v in done {
        PlacedGrows(batches, current, u.selectors, v.selectors);
      } else {
        ContiguousLast(current, u.selectors);
      }
    }
  }

  /** A unit put into the open batch, once that batch is known to stay within its bounds. */
  lemma Joined(done: seq<Batch>, batches: seq<Batch>, current: seq<string>, u: Batch, limit: nat)
    requires Flat(batches) + current == Flat(done) && AllFine(batches, limit) && Unmergeable(batches, limit)
    requires AllPlaced(done, batches, current) && Open(batches, current + u.selectors, limit)
    ensures Packed(done + [u], batches, current + u.selectors, limit)
  {
    FlatAppend(done, u);
    AllPlacedNext(done, batches, current, u);
    assert Flat(batches) + (current + u.selectors) == (Flat(batches) + current) + u.selectors;
  }

  lemma OrdinaryThroughout(u: Batch, limit: nat)
    requires UnitFine(u, limit) && !Alone(u.selectors[0])
    ensures forall x :: x in u.selectors ==> !Alone(x)
  {
  }

  /** A unit that fits into the open batch. */
  lemma JoinKeeps(done: seq<Batch>, batches: seq<Batch>, current: seq<string>, u: Batch, limit: nat)
    requires Packed(done, batches, current, limit)
    requires UnitFine(u, limit) && !Alone(u.selectors[0]) && |current| + |u.selectors| <= limit
    ensures Packed(done + [u], batches, current + u.selectors, limit)
  {
    OrdinaryThroughout(u, limit);
    Joined(done, batches, current, u, limit);
  }

  /** A unit that starts the next batch. */
  lemma StartKeeps(done: seq<Batch>, closed: seq<Batch>, current: seq<string>, u: Batch, limit: nat)
    requires Flat(closed) == Flat(done) && AllFine(closed, limit) && Unmergeable(closed, limit)
    requires forall v :: v in done && Ordinary(v) ==> Together(closed, v.selectors)
    requires closed != [] && closed[|closed| - 1].selectors == current && |current| + |u.selectors| > limit
    requires UnitFine(u, limit) && !Alone(u.selectors[0])
    ensures Packed(done + [u], closed, [] + u.selectors, limit)
  {
    OrdinaryThroughout(u, limit);
    assert [] + u.selectors == u.selectors;
    assert Open(closed, [] + u.selectors, limit);
    assert Flat(closed) + [] == Flat(done);
    Joined(done, closed, [], u, limit);
  }

  // ----- The titles of the batches -----

  /** The open batch holds the last units, in full. */
  ghost predicate Opened(done: seq<Batch>, units: seq<Batch>, current: seq<string>) {
    && |units| <= |done| && units == done[|done| - |units|..] && Flat(units) == current
  }

  /** At least two units, one after the other, make up these selectors. */
  ghost predicate Several(done: seq<Batch>, selectors: seq<string>) {
    exists i, j :: 0 <= i < j - 1 < |done| && Flat(done[i..j]) == selectors
  }

  /** A batch is one of the units, a single node that runs alone, or several units with a title of the file. */
  ghost predicate TitledBatch(path: string, done: seq<Batch>, b: Batch, number: nat) {
    || b in done
    || (exists x :: Alone(x) && b == Batch(NodeLabel(x), [x]))
    || (b.title == FileLabel(path, number, |b.selectors|) && Several(done, b.selectors))
  }

  ghost predicate Titled(path: string, done: seq<Batch>, batches: seq<Batch>) {
    forall i :: 0 <= i < |batches| ==> TitledBatch(path, done, batches[i], i + 1)
  }

  lemma SeveralMore(done: seq<Batch>, u: Batch, selectors: seq<string>)
    requires Several(done, selectors)
    ensures Several(done + [u], selectors)
  {
    var i, j :| 0 <= i < j - 1 < |done| && Flat(done[i..j]) == selectors;
    assert (done + [u])[i..j] == done[i..j];
  }

  lemma TitledMore(path: string, done: seq<Batch>, u: Batch, batches: seq<Batch>)
    requires Titled(path, done, batches)
    ensures Titled(path, done + [u], batches)
  {
    forall i | 0 <= i < |batches| ensures TitledBatch(path, done + [u], batches[i], i + 1) {
      assert TitledBatch(path, done, batches[i], i + 1);
      if Several(done, batches[i].selectors) {
        SeveralMore(done, u, batches[i].selectors);
      }
    }
  }

  lemma FlatOne(u: Batch)
    ensures Flat([u]) == u.selectors
  {
    FlatAppend([], u);
  }

  lemma FlushTitled(path: string, done: seq<Batch>, batches: seq<Batch>, units: seq<Batch>, current: seq<string>)
    requires Titled(path, done, batches) && Opened(done, units, current)
    ensures Titled(path, done, Flushed(path, batches, units, current))
  {
    if current != [] {
      var r := Flushed(path, batches, units, current);
      if |units| == 1 {
        FlatOne(units[0]);
        assert units == [units[0]] && units[0] in done && r[|batches|] == units[0];
      } else {
        assert done[|done| - |units|..|done|] == units && Several(done, current);
      }
    }
  }

  lemma OneEachTitled(path: string, done: seq<Batch>, batches: seq<Batch>, u: Batch, limit: nat)
    requires Titled(path, done, batches) && UnitFine(u, limit) && Alone(u.selectors[0])
    ensures Titled(path, done, batches + OneEach(u.selectors))
  {
    var r := batches + OneEach(u.selectors);
    forall i | |batches| <= i < |r| ensures TitledBatch(path, done, r[i], i + 1) {
      var x := u.selectors[i - |batches|];
      assert x in u.selectors && r[i] == Batch(NodeLabel(x), [x]);
    }
  }

  lemma NothingOpen(done: seq<Batch>)
    ensures Opened(done, [], [])
  {
    assert done[|done|..] == [];
  }

  lemma OpenedMore(done: seq<Batch>, units: seq<Batch>, current: seq<string>, u: Batch)
    requires Opened(done, units, current)
    ensures Opened(done + [u], units + [u], current + u.selectors)
  {
    FlatAppend(units, u);
  }

  /** One unit: alone, or into the open batch, which is flushed first if the unit does not fit. */
  method PackUnit(
    path: string, before: seq<Batch>, units: seq<Batch>, selectors: seq<string>, unit: Batch, limit: nat,
    ghost done: seq<Batch>)
    returns (batches: seq<Batch>, currentUnits: seq<Batch>, current: seq<string>)
    requires limit > 0 && Packed(done, before, selectors, limit) && UnitFine(unit, limit)
    requires Opened(done, units, selectors) && Titled(path, done, before)
    requires forall u :: u in done ==> u.selectors != []
    ensures Packed(done + [unit], batches, current, limit)
    ensures Opened(done + [unit], currentUnits, current) && Titled(path, done + [unit], batches)
  {
    hide Packed, Opened, Titled, Flushed, Names;
    batches, currentUnits, current := before, units, selectors;
    FlushKeeps(path, done, before, units, selectors, limit);
    FlushTitled(path, done, before, units, selectors);
    if Alone(unit.selectors[0]) {
      batches := Flushed(path, batches, currentUnits, current);
      AloneKeeps(done, batches, unit, limit);
      OneEachTitled(path, done, batches, unit, limit);
      currentUnits, current := [], [];
      batches := batches + OneEach(unit.selectors);
      NothingOpen(done + [unit]);
    } else {
      if current != [] && |current| + |unit.selectors| > limit {
        batches := Flushed(path, batches, currentUnits, current);
        StartKeeps(done, batches, current, unit, limit);
        currentUnits, current := [], [];
        NothingOpen(done);
      } else {
        JoinKeeps(done, batches, current, unit, limit);
      }
      OpenedMore(done, currentUnits, current, unit);
      currentUnits, current := currentUnits + [unit], current + unit.selectors;
    }
    TitledMore(path, done, unit, batches);
  }

  lemma PackedNothing(path: string, limit: nat)
    ensures Packed([], [], [], limit) && Opened([], [], []) && Titled(path, [], [])
  {
  }

  method Pack(path: string, units: seq<Batch>, limit: nat) returns (batches: seq<Batch>)
    requires limit > 0 && UnitsFine(units, limit)
    ensures Flat(batches) == Flat(units) && AllFine(batches, limit) && Unmergeable(batches, limit)
    ensures forall u :: u in units && Ordinary(u) ==> Together(batches, u.selectors)
    ensures Titled(path, units, batches)
  {
    batches := [];
    var currentUnits: seq<Batch>, current: seq<string> := [], [];
    PackedNothing(path, limit);
    hide Packed, Opened, Titled, Names;
    assert units[..0] == [];
    for i := 0 to |units|
      invariant Packed(units[..i], batches, current, limit)
      invariant Opened(units[..i], currentUnits, current) && Titled(path, units[..i], batches)
    {
      assert UnitFine(units[i], limit);
      batches, currentUnits, current := PackUnit(path, batches, currentUnits, current, units[i], limit, units[..i]);
      assert units[..i + 1] == units[..i] + [units[i]];
    }
    assert units[..|units|] == units;
    FlushKeeps(path, units, batches, currentUnits, current, limit);
    FlushTitled(path, units, batches, currentUnits, current);
    batches := Flushed(path, batches, currentUnits, current);
  }

  // ----- One file -----

  ghost predicate Keepable(nodes: seq<string>, k: string, limit: nat) {
    && k in FirstKeys(nodes, NodeGroupKey) && k !in SINGLETON_NODE_GROUPS
    && |Members(nodes, NodeGroupKey, k)| <= limit
  }

  /** Every group that fits and need not be taken apart runs in one batch. */
  ghost predicate KeepsGroups(bs: seq<Batch>, nodes: seq<string>, limit: nat) {
    forall k :: Keepable(nodes, k, limit) ==> Together(bs, Members(nodes, NodeGroupKey, k))
  }

  lemma GroupsAreFine(nodes: seq<string>)
    ensures GroupsFine(Groups(nodes, NodeGroupKey))
  {
    var gs, keys := Groups(nodes, NodeGroupKey), FirstKeys(nodes, NodeGroupKey);
    forall i | 0 <= i < |gs|
      ensures gs[i].members != [] && forall x :: x in gs[i].members ==> NodeGroupKey(x) == gs[i].key
    {
      KeysOccur(nodes, NodeGroupKey, keys[i]);
      forall x | x in gs[i].members ensures NodeGroupKey(x) == gs[i].key {
        MembersOf(nodes, NodeGroupKey, keys[i], x);
      }
    }
  }

  lemma UnitsKeepGroups(bs: seq<Batch>, units: seq<Batch>, nodes: seq<string>, limit: nat)
    requires forall u :: u in units && Ordinary(u) ==> Together(bs, u.selectors)
    requires var gs := Groups(nodes, NodeGroupKey);
             forall i :: 0 <= i < |gs| && |gs[i].members| <= limit ==>
               Batch(GroupLabel(gs[i].key), gs[i].members) in units
    ensures KeepsGroups(bs, nodes, limit)
  {
    var gs, keys := Groups(nodes, NodeGroupKey), FirstKeys(nodes, NodeGroupKey);
    GroupsAreFine(nodes);
    forall k | Keepable(nodes, k, limit)
      ensures Together(bs, Members(nodes, NodeGroupKey, k))
    {
      var i :| 0 <= i < |keys| && keys[i] == k;
      assert gs[i].members[0] in gs[i].members;
      assert Ordinary(Batch(GroupLabel(gs[i].key), gs[i].members));
    }
  }

  /** The title says what the batch runs, and if it runs several groups, which batch of the file it is. */
  ghost predicate Labelled(path: string, b: Batch, number: nat) {
    match b.title
    case GroupLabel(k) => forall x :: x in b.selectors ==> NodeGroupKey(x) == k
    case ChunkLabel(k, _, _) => forall x :: x in b.selectors ==> NodeGroupKey(x) == k
    case NodeLabel(x) => b.selectors == [x] && Alone(x)
    case FileLabel(p, n, count) => p == path && n == number && count == |b.selectors|
  }

  lemma TitlesLabel(path: string, units: seq<Batch>, batches: seq<Batch>, limit: nat)
    requires UnitsFine(units, limit) && Titled(path, units, batches)
    ensures forall i :: 0 <= i < |batches| ==> Labelled(path, batches[i], i + 1)
  {
    forall i | 0 <= i < |batches| ensures Labelled(path, batches[i], i + 1) {
      assert TitledBatch(path, units, batches[i], i + 1);
      if batches[i] in units {
        var k :| 0 <= k < |units| && units[k] == batches[i];
        assert UnitFine(units[k], limit);
      }
    }
  }

  method MakeFileBatches(path: string, nodes: seq<string>, limit: nat) returns (batches: seq<Batch>)
    requires limit > 0
    ensures multiset(Flat(batches)) == multiset(nodes)
    ensures AllFine(batches, limit) && Unmergeable(batches, limit) && KeepsGroups(batches, nodes, limit)
    ensures forall i :: 0 <= i < |batches| ==> Labelled(path, batches[i], i + 1)
  {
    var groups := GroupNodes(nodes, NodeGroupKey);
    GroupsAreFine(nodes);
    var units := MakeUnits(groups, limit);
    batches := Pack(path, units, limit);
    GroupsPartition(nodes, NodeGroupKey);
    UnitsKeepGroups(batches, units, nodes, limit);
    TitlesLabel(path, units, batches, limit);
  }

  // ----- All files -----

  ghost predicate FileLocal(b: Batch) {
    forall x, y :: x in b.selectors && y in b.selectors ==> NodeFilePath(x) == NodeFilePath(y)
  }

  ghost predicate LabelledSomewhere(b: Batch) {
    b.selectors != [] && exists number: nat :: Labelled(NodeFilePath(b.selectors[0]), b, number)
  }

  function Target(count: nat, jobs: nat): (t: nat)
    requires jobs > 0
    ensures 1 <= t <= MAX_BATCH_NODEIDS
    ensures t < MAX_BATCH_NODEIDS ==> t * jobs >= count
    ensures t > 1 ==> (t - 1) * jobs < count
  {
    var even := CeilDiv(count, jobs);
    var atLeastOne := if even > 1 then even else 1;
    if atLeastOne < MAX_BATCH_NODEIDS then atLeastOne else MAX_BATCH_NODEIDS
  }

  /** What holds of the batches of the first `n` files. */
  ghost predicate Covers(bs: seq<Batch>, nodes: seq<string>, n: nat, limit: nat)
    requires n <= |FirstKeys(nodes, NodeFilePath)|
  {
    && multiset(Flat(bs)) == multiset(FlatGroups(Groups(nodes, NodeFilePath)[..n]))
    && (forall b :: b in bs ==> Fine(b, limit) && FileLocal(b) && LabelledSomewhere(b))
    && forall i :: 0 <= i < n ==> KeepsGroups(bs, Groups(nodes, NodeFilePath)[i].members, limit)
  }

  lemma KeepsGroupsLater(bs: seq<Batch>, more: seq<Batch>, nodes: seq<string>, limit: nat)
    requires KeepsGroups(more, nodes, limit)
    ensures KeepsGroups(bs + more, nodes, limit)
  {
    forall k | Keepable(nodes, k, limit)
      ensures Together(bs + more, Members(nodes, NodeGroupKey, k))
    {
      TogetherLater(bs, more, Members(nodes, NodeGroupKey, k));
    }
  }

  lemma KeepsGroupsGrows(bs: seq<Batch>, more: seq<Batch>, nodes: seq<string>, limit: nat)
    requires KeepsGroups(bs, nodes, limit)
    ensures KeepsGroups(bs + more, nodes, limit)
  {
    forall k | Keepable(nodes, k, limit)
      ensures Together(bs + more, Members(nodes, NodeGroupKey, k))
    {
      TogetherGrows(bs, more, Members(nodes, NodeGroupKey, k));
    }
  }

  lemma OneFileIsLocal(made: seq<Batch>, nodes: seq<string>, path: string, b: Batch)
    requires multiset(Flat(made)) == multiset(Members(nodes, NodeFilePath, path)) && b in made
    ensures FileLocal(b) && forall x :: x in b.selectors ==> NodeFilePath(x) == path
  {
    forall x | x in b.selectors ensures NodeFilePath(x) == path {
      var i :| 0 <= i < |made| && made[i] == b;
      FlatMember(made, i, x);
      assert x in multiset(Flat(made));
      MembersOf(nodes, NodeFilePath, path, x);
    }
  }

  lemma CoversNext(bs: seq<Batch>, made: seq<Batch>, nodes: seq<string>, n: nat, limit: nat)
    requires n < |FirstKeys(nodes, NodeFilePath)| && Covers(bs, nodes, n, limit)
    requires var members := Groups(nodes, NodeFilePath)[n].members;
             multiset(Flat(made)) == multiset(members) && AllFine(made, limit) && KeepsGroups(made, members, limit)
    requires forall i :: 0 <= i < |made| ==> Labelled(Groups(nodes, NodeFilePath)[n].key, made[i], i + 1)
    ensures Covers(bs + made, nodes, n + 1, limit)
  {
    var gs := Groups(nodes, NodeFilePath);
    FlatConcat(bs, made);
    assert gs[..n + 1][..n] == gs[..n];
    forall b | b in bs + made ensures Fine(b, limit) && FileLocal(b) && LabelledSomewhere(b) {
      if b in made {
        OneFileIsLocal(made, nodes, gs[n].key, b);
        var i :| 0 <= i < |made| && made[i] == b;
        assert Labelled(gs[n].key, b, i + 1) && b.selectors[0] in b.selectors;
      }
    }
    forall i | 0 <= i < n + 1 ensures KeepsGroups(bs + made, gs[i].members, limit) {
      if i < n {
        KeepsGroupsGrows(bs, made, gs[i].members, limit);
      } else {
        KeepsGroupsLater(bs, made, gs[i].members, limit);
      }
    }
  }

  lemma SortKeepsTogether(bs: seq<Batch>, part: seq<string>)
    requires Together(bs, part)
    ensures Together(SortBy(bs, SizeKey), part)
  {
    var i :| 0 <= i < |bs| && Contiguous(bs[i].selectors, part);
    SortByMembers(bs, SizeKey);
    assert bs[i] in multiset(SortBy(bs, SizeKey));
    var j :| 0 <= j < |bs| && SortBy(bs, SizeKey)[j] == bs[i];
    TogetherWithin(SortBy(bs, SizeKey), j, part);
  }

  lemma SortKeepsGroups(bs: seq<Batch>, nodes: seq<string>, limit: nat)
    requires KeepsGroups(bs, nodes, limit)
    ensures KeepsGroups(SortBy(bs, SizeKey), nodes, limit)
  {
    forall k | Keepable(nodes, k, limit)
      ensures Together(SortBy(bs, SizeKey), Members(nodes, NodeGroupKey, k))
    {
      SortKeepsTogether(bs, Members(nodes, NodeGroupKey, k));
    }
  }

  lemma SortCovers(bs: seq<Batch>, nodes: seq<string>, limit: nat)
    requires Covers(bs, nodes, |FirstKeys(nodes, NodeFilePath)|, limit)
    ensures Covers(SortBy(bs, SizeKey), nodes, |FirstKeys(nodes, NodeFilePath)|, limit)
  {
    FlatSorted(bs);
    SortByMembers(bs, SizeKey);
    forall b | b in SortBy(bs, SizeKey) ensures Fine(b, limit) && FileLocal(b) && LabelledSomewhere(b) {
      assert b in multiset(SortBy(bs, SizeKey));
      assert b in bs;
    }
    var gs := Groups(nodes, NodeFilePath);
    forall i | 0 <= i < |gs| ensures KeepsGroups(SortBy(bs, SizeKey), gs[i].members, limit) {
      SortKeepsGroups(bs, gs[i].members, limit);
    }
  }

  method MakeNodeidBatches(nodes: seq<string>, jobs: nat) returns (batches: seq<Batch>)
    requires jobs > 0
    ensures multiset(Flat(batches)) == multiset(nodes)
    ensures forall b :: b in batches ==> Fine(b, Target(|nodes|, jobs)) && FileLocal(b) && LabelledSomewhere(b)
    ensures forall f :: f in FirstKeys(nodes, NodeFilePath) ==>
      KeepsGroups(batches, Members(nodes, NodeFilePath, f), Target(|nodes|, jobs))
    ensures forall i, j :: 0 <= i < j < |batches| ==> |batches[i].selectors| >= |batches[j].selectors|
  {
    var limit := Target(|nodes|, jobs);
    var files := GroupNodes(nodes, NodeFilePath);
    var made: seq<Batch> := [];
    for i := 0 to |files|
      invariant Covers(made, nodes, i, limit)
    {
      var more := MakeFileBatches(files[i].key, files[i].members, limit);
      CoversNext(made, more, nodes, i, limit);
      made := made + more;
    }
    SortCovers(made, nodes, limit);
    SortBySorted(made, SizeKey);
    batches := SortBy(made, SizeKey);
    assert files[..|files|] == files;
    GroupsPartition(nodes, NodeFilePath);
    forall f | f in FirstKeys(nodes, NodeFilePath)
      ensures KeepsGroups(batches, Members(nodes, NodeFilePath, f), limit)
    {
      var i :| 0 <= i < |files| && FirstKeys(nodes, NodeFilePath)[i] == f;
      assert files[i].members == Members(nodes, NodeFilePath, f);
    }
    forall i, j | 0 <= i < j < |batches| ensures |batches[i].selectors| >= |batches[j].selectors| {
      assert !Less(SizeKey(batches[j]), SizeKey(batches[i]));
    }
  }
}
