/**
  The N-Queens search of the benchmark slices, built on the permutation generator: the filtering
  generator, the counting loop, and the filter/map pipeline.
 */
module Queens {
  import opened Collections
  import opened Permutations
  import Types

  /** A placement: one queen per column `i`, in row `p[i]`, no two of them attacking each other. */
  ghost predicate Peaceful(n: nat, p: seq<int>) {
    && |p| == n
    && (forall i :: 0 <= i < n ==> 0 <= p[i] < n)
    && (forall i, j :: 0 <= i < j < n ==> p[i] != p[j] && p[i] - p[j] != j - i && p[j] - p[i] != j - i)
  }

  function Elements(s: seq<int>): set<int> {
    set x | x in s
  }

  lemma ElementsLast(s: seq<int>, x: int)
    ensures Elements(s + [x]) == Elements(s) + {x}
  {
  }

  lemma DistinctLast(s: seq<int>, x: int)
    ensures Distinct(s + [x]) <==> Distinct(s) && x !in s
  {
    var t := s + [x];
    if Distinct(t) {
      forall i, j | 0 <= i < j < |s| ensures s[i] != s[j] {
        assert t[i] != t[j];
      }
      forall i | 0 <= i < |s| ensures s[i] != x {
        assert t[i] != t[|s|];
      }
    }
  }

  /** `len(set(...)) == len(...)` is how the source asks for distinct values. */
  lemma {:induction false} SizeMeansDistinct(s: seq<int>)
    ensures |Elements(s)| <= |s|
    ensures |Elements(s)| == |s| <==> Distinct(s)
  {
    if s == [] {
      assert Elements(s) == {};
    } else {
      var last, front := s[|s| - 1], s[..|s| - 1];
      SizeMeansDistinct(front);
      assert s == front + [last];
      ElementsLast(front, last);
      DistinctLast(front, last);
      assert last in Elements(front) <==> last in front;
      if last in front {
        assert Elements(front) + {last} == Elements(front);
      }
    }
  }

  function Sums(n: nat, vec: seq<int>): (s: seq<int>)
    requires |vec| == n
    ensures |s| == n && forall i :: 0 <= i < n ==> s[i] == vec[i] + i
  {
    seq(n, i requires 0 <= i < n => vec[i] + i)
  }

  function Differences(n: nat, vec: seq<int>): (s: seq<int>)
    requires |vec| == n
    ensures |s| == n && forall i :: 0 <= i < n ==> s[i] == vec[i] - i
  {
    seq(n, i requires 0 <= i < n => vec[i] - i)
  }

  /** The test applied to every permutation. */
  predicate Accepts(n: nat, vec: seq<int>)
    requires |vec| == n
  {
    n == |Elements(Sums(n, vec))| == |Elements(Differences(n, vec))|
  }

  /** On an arrangement of all rows the two diagonal sets decide peacefulness. */
  lemma AcceptsMeansPeaceful(n: nat, vec: seq<int>)
    ensures Arrangement(Range(n), n, vec) && Accepts(n, vec) <==> Peaceful(n, vec)
  {
    if |vec| == n {
      SizeMeansDistinct(Sums(n, vec));
      SizeMeansDistinct(Differences(n, vec));
      assert forall x :: x in Range(n) <==> 0 <= x < n by {
        forall x: int | 0 <= x < n ensures x in Range(n) { assert Range(n)[x] == x; }
      }
      if Peaceful(n, vec) {
        assert forall i, j :: 0 <= i < j < n ==> Sums(n, vec)[i] != Sums(n, vec)[j];
        assert forall i, j :: 0 <= i < j < n ==> Differences(n, vec)[i] != Differences(n, vec)[j];
      }
      if Arrangement(Range(n), n, vec) && Accepts(n, vec) {
        forall i, j | 0 <= i < j < n
          ensures vec[i] != vec[j] && vec[i] - vec[j] != j - i && vec[j] - vec[i] != j - i
        {
          assert Sums(n, vec)[i] != Sums(n, vec)[j];
          assert Differences(n, vec)[i] != Differences(n, vec)[j];
        }
      }
    }
  }

  /** The test that decides which permutations are kept. */
  function Valid(n: nat): seq<int> -> bool {
    vec => |vec| == n && Accepts(n, vec)
  }

  /** Filtering keeps exactly the accepted ones, and their order. */
  lemma AcceptedKeepsOrder(n: nat, vecs: seq<seq<int>>)
    requires forall k :: 0 <= k < |vecs| ==> |vecs[k]| == n
    requires LexAscending(vecs)
    ensures forall p :: p in Filter(Valid(n), vecs) <==> p in vecs && Accepts(n, p)
    ensures LexAscending(Filter(Valid(n), vecs))
  {
    forall p ensures p in Filter(Valid(n), vecs) <==> p in vecs && Accepts(n, p) {
      FilterIn(Valid(n), vecs, p);
    }
    FilterPairwise(Valid(n), LexLess, vecs);
  }

  lemma AllHaveLength(n: nat)
    ensures forall k :: 0 <= k < |All(Range(n), n)| ==> |All(Range(n), n)[k]| == n
  {
    forall k | 0 <= k < |All(Range(n), n)| ensures |All(Range(n), n)[k]| == n {
      AllMembers(Range(n), n, All(Range(n), n)[k]);
    }
  }

  function Solutions(n: nat): seq<seq<int>> {
    Filter(Valid(n), All(Range(n), n))
  }

  /** The solutions are exactly the peaceful placements, each once, in lexicographic order. */
  lemma SolutionsArePeaceful(n: nat)
    ensures forall p :: p in Solutions(n) <==> Peaceful(n, p)
    ensures LexAscending(Solutions(n))
  {
    var all := All(Range(n), n);
    AllHaveLength(n);
    AllAscending(Range(n), n);
    AcceptedKeepsOrder(n, all);
    forall p ensures p in Solutions(n) <==> Peaceful(n, p) {
      AllMembers(Range(n), n, p);
      AcceptsMeansPeaceful(n, p);
    }
  }

  lemma PicksFromRange(n: nat, chosen: seq<seq<int>>, yielded: seq<seq<int>>)
    requires Picks(Range(n), chosen, yielded)
    ensures yielded == chosen
  {
    forall k | 0 <= k < |chosen| ensures yielded[k] == chosen[k] {
      assert yielded[k] == Pick(Range(n), chosen[k]);
    }
  }

  /** The permutations of `range(n)`, as the search consumes them. */
  method Columns(n: nat) returns (vecs: seq<seq<int>>)
    ensures vecs == All(Range(n), n)
    ensures forall k :: 0 <= k < |vecs| ==> |vecs[k]| == n
  {
    var raised;
    vecs, raised := Generate(Range(n), Types.Option.None);
    PicksFromRange(n, All(Range(n), n), vecs);
    AllHaveLength(n);
  }

  /** The filtering generator, run to exhaustion. */
  method NQueens(n: nat) returns (found: seq<seq<int>>)
    ensures found == Solutions(n)
  {
    var vecs := Columns(n);
    found := [];
    for k := 0 to |vecs|
      invariant found == Filter(Valid(n), vecs[..k])
    {
      assert vecs[..k + 1][..k] == vecs[..k];
      if n == |Elements(Sums(n, vecs[k]))| == |Elements(Differences(n, vecs[k]))| {
        found := found + [vecs[k]];
      }
    }
    assert vecs[..|vecs|] == vecs;
  }

  method ListConsumer(n: nat) returns (count: nat)
    ensures count == |Solutions(n)|
  {
    var found := NQueens(n);
    count := |found|;
  }

  /** The counting loop never builds the list, yet counts it. */
  method ComposedConsumers(n: nat) returns (accepted: nat)
    ensures accepted == |Solutions(n)|
  {
    var vecs := Columns(n);
    accepted := 0;
    for k := 0 to |vecs|
      invariant accepted == |Filter(Valid(n), vecs[..k])|
    {
      assert vecs[..k + 1][..k] == vecs[..k];
      if n == |Elements(Sums(n, vecs[k]))| == |Elements(Differences(n, vecs[k]))| {
        accepted := accepted + 1;
      }
    }
    assert vecs[..|vecs|] == vecs;
  }

  function Mapped<A, B>(f: A -> B, xs: seq<A>): seq<B> {
    if xs == [] then [] else [f(xs[0])] + Mapped(f, xs[1..])
  }

  lemma {:induction false} MappedIdentity<A>(f: A -> A, xs: seq<A>)
    requires forall x :: x in xs ==> f(x) == x
    ensures Mapped(f, xs) == xs
  {
    if xs == [] {
    } else {
      MappedIdentity(f, xs[1..]);
    }
  }

  /** `list(filter(valid, map(tuple, source)))` delivers the very list the generator yields. */
  method OrderedClosedPipeline(n: nat) returns (result: seq<seq<int>>)
    ensures result == Solutions(n)
  {
    var vecs := Columns(n);
    MappedIdentity((v: seq<int>) => v, vecs);
    result := Filter(Valid(n), Mapped((v: seq<int>) => v, vecs));
  }

  /** The tuple consumer counts the factorial that `expected_result` multiplies up. */
  method TupleConsumer(n: nat) returns (count: nat)
    ensures count == Factorial(n)
  {
    var vecs := Columns(n);
    AllCount(Range(n), n);
    FallingTimesFactorial(n, n);
    count := |vecs|;
  }

  method ExpectedPermutations(n: nat) returns (expected: nat)
    ensures expected == Factorial(n)
  {
    expected := 1;
    var value := 2;
    assert Factorial(1) == 1;
    while value <= n
      invariant 2 <= value && (value == 2 || value <= n + 1)
      invariant expected == Factorial(value - 1)
    {
      expected := expected * value;
      value := value + 1;
    }
  }

  lemma PeacefulOne(p: seq<int>)
    ensures Peaceful(1, p) <==> p == [0]
  {
  }

  lemma PeacefulFour(p: seq<int>)
    ensures Peaceful(4, p) <==> p == [1, 3, 0, 2] || p == [2, 0, 3, 1]
  {
    if Peaceful(4, p) {
      assert p == [p[0], p[1], p[2], p[3]];
      assert forall i, j :: 0 <= i < j < 4 ==> p[i] != p[j] && p[i] - p[j] != j - i && p[j] - p[i] != j - i;
    }
  }

  lemma Determined(n: nat, expected: seq<seq<int>>)
    requires LexAscending(expected) && forall p :: p in expected <==> Peaceful(n, p)
    ensures Solutions(n) == expected
  {
    SolutionsArePeaceful(n);
    SameMembersSameList(Solutions(n), expected);
  }

  /** The expected results that the source writes out, for boards of one and of four columns. */
  lemma ExpectedSmallBoards(n: nat)
    ensures n == 1 ==> Solutions(n) == [[0]]
    ensures n == 4 ==> Solutions(n) == [[1, 3, 0, 2], [2, 0, 3, 1]]
  {
    if n == 1 {
      var one := [[0]];
      forall p ensures p in one <==> Peaceful(n, p) { PeacefulOne(p); }
      Determined(n, one);
    } else if n == 4 {
      var two := [[1, 3, 0, 2], [2, 0, 3, 1]];
      forall p ensures p in two <==> Peaceful(n, p) { PeacefulFour(p); }
      assert LexLess(two[0], two[1]);
      Determined(n, two);
    }
  }

  /** The two sets of diagonals, filled queen by queen. */
  method Diagonals(n: nat, vec: seq<int>) returns (positive: set<int>, negative: set<int>)
    requires |vec| == n
    ensures positive == Elements(Sums(n, vec)) && negative == Elements(Differences(n, vec))
  {
    positive, negative := {}, {};
    for i := 0 to n
      invariant positive == Elements(Sums(n, vec)[..i]) && negative == Elements(Differences(n, vec)[..i])
    {
      var sums, differences := Sums(n, vec), Differences(n, vec);
      assert sums[..i + 1] == sums[..i] + [sums[i]] && differences[..i + 1] == differences[..i] + [differences[i]];
      positive, negative := positive + {vec[i] + i}, negative + {vec[i] - i};
    }
    assert Sums(n, vec)[..n] == Sums(n, vec) && Differences(n, vec)[..n] == Differences(n, vec);
  }

  /**
    The expected result of the pipeline: written out for one and four columns, computed with set-filling
    loops over the library's permutations for eight, and otherwise none. It is what the pipeline returns.
   */
  method ExpectedPipeline(n: nat) returns (expected: Types.Option<seq<seq<int>>>)
    ensures expected.Some? <==> n == 1 || n == 4 || n == 8
    ensures expected.Some? ==> expected.value == Solutions(n)
  {
    ExpectedSmallBoards(n);
    if n == 1 {
      return Types.Option.Some([[0]]);
    }
    if n == 4 {
      return Types.Option.Some([[1, 3, 0, 2], [2, 0, 3, 1]]);
    }
    if n != 8 {
      return Types.Option.None;
    }
    var result := PeacefulByDiagonals(n);
    expected := Types.Option.Some(result);
  }

  method PeacefulByDiagonals(n: nat) returns (result: seq<seq<int>>)
    ensures result == Solutions(n)
  {
    var vecs := All(Range(n), n);
    AllHaveLength(n);
    result := [];
    for k := 0 to |vecs|
      invariant result == Filter(Valid(n), vecs[..k])
    {
      assert vecs[..k + 1][..k] == vecs[..k];
      var positive, negative := Diagonals(n, vecs[k]);
      if n == |positive| && n == |negative| {
        result := result + [vecs[k]];
      }
    }
    assert vecs[..|vecs|] == vecs;
  }

  lemma LexLessIrreflexive(a: seq<int>)
    ensures !LexLess(a, a)
  {
  }

  lemma LexLessTransitive(a: seq<int>, b: seq<int>, c: seq<int>)
    requires LexLess(a, b) && LexLess(b, c)
    ensures LexLess(a, c)
  {
  }

  lemma SomeMember(s: seq<seq<int>>)
    requires s != []
    ensures exists p :: p in s
  {
    assert s[0] in s;
  }

  /** A strictly ascending list is determined by its members. */
  lemma {:induction false} SameMembersSameList(s: seq<seq<int>>, t: seq<seq<int>>)
    requires LexAscending(s) && LexAscending(t) && forall p :: p in s <==> p in t
    ensures s == t
  {
    if s == [] {
      if t != [] {
        SomeMember(t);
        assert false;
      }
    } else {
      assert s[0] in t;
      assert t[0] in t && t[0] in s;
      var i :| 0 <= i < |t| && t[i] == s[0];
      var j :| 0 <= j < |s| && s[j] == t[0];
      if i != 0 && j != 0 {
        LexLessTransitive(t[0], t[i], s[j]);
        LexLessIrreflexive(s[j]);
      }
      assert s[0] == t[0];
      forall p ensures p in s[1..] <==> p in t[1..] {
        LexLessIrreflexive(s[0]);
        assert p in s <==> p == s[0] || p in s[1..];
        assert p in t <==> p == t[0] || p in t[1..];
        if p == s[0] {
          assert p !in s[1..] && p !in t[1..];
        }
      }
      SameMembersSameList(s[1..], t[1..]);
    }
  }
}
