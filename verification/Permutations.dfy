/**
  The permutation generator of the N-Queens benchmark slices.

  The generator keeps two lists, `indices` and `cycles`, and edits both in place between yields.
  `All` is the reference enumeration it is measured against; `Layout` says what `indices` must be
  for a given `cycles`, and `Rest` says what is still to be yielded.
 */
module Permutations {
  import Types

  function Range(n: nat): (s: seq<int>)
    ensures |s| == n && forall i :: 0 <= i < n ==> s[i] == i
  {
    seq(n, i => i)
  }

  function Without(s: seq<int>, k: nat): (r: seq<int>)
    requires k < |s|
    ensures |r| == |s| - 1 && forall i :: 0 <= i < |r| ==> r[i] == s[if i < k then i else i + 1]
  {
    seq(|s| - 1, i requires 0 <= i < |s| - 1 => s[if i < k then i else i + 1])
  }

  function Prefixed(x: int, tails: seq<seq<int>>): seq<seq<int>> {
    seq(|tails|, i requires 0 <= i < |tails| => [x] + tails[i])
  }

  lemma PrefixedCons(x: int, tail: seq<int>, tails: seq<seq<int>>)
    ensures Prefixed(x, [tail] + tails) == [[x] + tail] + Prefixed(x, tails)
  {
  }

  lemma ConsTake(x: int, s: seq<int>, r: nat)
    requires 0 < r <= |s| + 1
    ensures ([x] + s)[..r] == [x] + s[..r - 1]
  {
  }

  lemma WithoutFirst(s: seq<int>)
    requires s != []
    ensures Without(s, 0) == s[1..] && s == [s[0]] + s[1..]
  {
  }

  // ----- The reference enumeration -----

  /** Every length-`r` arrangement of `avail`, grouped by first element in the order of `avail`. */
  function All(avail: seq<int>, r: nat): seq<seq<int>>
    requires r <= |avail|
    decreases r, |avail| + 1
  {
    if r == 0 then [[]] else From(avail, 0, r)
  }

  /** The part of `All(avail, r)` whose first element stands at position `k` of `avail` or later. */
  function From(avail: seq<int>, k: nat, r: nat): seq<seq<int>>
    requires 0 < r <= |avail| && k <= |avail|
    decreases r, |avail| - k
  {
    if k == |avail| then []
    else Prefixed(avail[k], All(Without(avail, k), r - 1)) + From(avail, k + 1, r)
  }

  ghost predicate Distinct(s: seq<int>) {
    forall i, j :: 0 <= i < j < |s| ==> s[i] != s[j]
  }

  ghost predicate Arrangement(avail: seq<int>, r: nat, a: seq<int>) {
    |a| == r && Distinct(a) && forall i :: 0 <= i < r ==> a[i] in avail
  }

  ghost predicate Ascending(s: seq<int>) {
    forall i, j :: 0 <= i < j < |s| ==> s[i] < s[j]
  }

  predicate LexLess(a: seq<int>, b: seq<int>) {
    if a == [] || b == [] then a == [] && b != []
    else a[0] < b[0] || (a[0] == b[0] && LexLess(a[1..], b[1..]))
  }

  ghost predicate LexAscending(s: seq<seq<int>>) {
    forall i, j :: 0 <= i < j < |s| ==> LexLess(s[i], s[j])
  }

  function Falling(n: nat, r: nat): nat
    requires r <= n
  {
    if r == 0 then 1 else n * Falling(n - 1, r - 1)
  }

  function Factorial(n: nat): nat {
    if n == 0 then 1 else n * Factorial(n - 1)
  }

  lemma TimesAssociate(a: nat, b: nat, c: nat)
    ensures (a * b) * c == a * (b * c)
  {
  }

  lemma {:induction false} FallingTimesFactorial(n: nat, r: nat)
    requires r <= n
    ensures Falling(n, r) * Factorial(n - r) == Factorial(n)
  {
    if r == 0 {
    } else {
      FallingTimesFactorial(n - 1, r - 1);
      TimesAssociate(n, Falling(n - 1, r - 1), Factorial(n - r));
    }
  }

  /** Multiplication as repeated addition, which keeps the counting below linear. */
  function Times(a: nat, b: nat): nat {
    if a == 0 then 0 else b + Times(a - 1, b)
  }

  lemma {:induction false} TimesIsProduct(a: nat, b: nat)
    ensures Times(a, b) == a * b
  {
    if a == 0 {
    } else {
      TimesIsProduct(a - 1, b);
    }
  }

  lemma {:induction false} AllCount(avail: seq<int>, r: nat)
    requires r <= |avail|
    ensures |All(avail, r)| == Falling(|avail|, r)
    decreases r, |avail| + 1
  {
    if r == 0 {
    } else {
      FromCount(avail, 0, r);
      TimesIsProduct(|avail|, Falling(|avail| - 1, r - 1));
    }
  }

  lemma {:induction false} FromCount(avail: seq<int>, k: nat, r: nat)
    requires 0 < r <= |avail| && k <= |avail|
    ensures |From(avail, k, r)| == Times(|avail| - k, Falling(|avail| - 1, r - 1))
    decreases r, |avail| - k
  {
    if k == |avail| {
    } else {
      AllCount(Without(avail, k), r - 1);
      FromCount(avail, k + 1, r);
    }
  }

  lemma {:induction false} AllMembers(avail: seq<int>, r: nat, a: seq<int>)
    requires r <= |avail| && Distinct(avail)
    ensures a in All(avail, r) <==> Arrangement(avail, r, a)
    decreases r, |avail| + 1
  {
    if r == 0 {
      assert All(avail, r) == [[]];
    } else {
      FromMembers(avail, 0, r, a);
      if Arrangement(avail, r, a) {
        assert a[0] in avail;
      }
    }
  }

  lemma PrefixedMembers(x: int, tails: seq<seq<int>>, a: seq<int>)
    ensures a in Prefixed(x, tails) <==> a != [] && a[0] == x && a[1..] in tails
  {
    if a in Prefixed(x, tails) {
      var i :| 0 <= i < |tails| && Prefixed(x, tails)[i] == a;
      assert a[1..] == tails[i];
    }
    if a != [] && a[0] == x && a[1..] in tails {
      var i :| 0 <= i < |tails| && tails[i] == a[1..];
      assert Prefixed(x, tails)[i] == [x] + a[1..] == a;
    }
  }

  /** The arrangements that start with the element at position `k`. */
  lemma HeadMembers(avail: seq<int>, k: nat, r: nat, tails: seq<seq<int>>, a: seq<int>)
    requires 0 < r <= |avail| && k < |avail| && Distinct(avail)
    requires a != [] ==> (a[1..] in tails <==> Arrangement(Without(avail, k), r - 1, a[1..]))
    ensures a in Prefixed(avail[k], tails) <==> Arrangement(avail, r, a) && a[0] == avail[k]
  {
    PrefixedMembers(avail[k], tails, a);
    if a != [] && a[0] == avail[k] {
      ConsArrangement(avail, k, a);
    }
  }

  lemma {:induction false} FromMembers(avail: seq<int>, k: nat, r: nat, a: seq<int>)
    requires 0 < r <= |avail| && k <= |avail| && Distinct(avail)
    ensures a in From(avail, k, r) <==> Arrangement(avail, r, a) && a[0] in avail[k..]
    decreases r, |avail| - k
  {
    if k == |avail| {
    } else {
      var tails := All(Without(avail, k), r - 1);
      WithoutMembers(avail, k);
      if a != [] {
        AllMembers(Without(avail, k), r - 1, a[1..]);
      }
      HeadMembers(avail, k, r, tails, a);
      FromMembers(avail, k + 1, r, a);
      assert avail[k..] == [avail[k]] + avail[k + 1..];
    }
  }

  lemma WithoutMembers(s: seq<int>, k: nat)
    requires k < |s| && Distinct(s)
    ensures Distinct(Without(s, k))
    ensures forall x :: x in Without(s, k) <==> x in s && x != s[k]
  {
    forall x | x in s && x != s[k]
      ensures x in Without(s, k)
    {
      var i :| 0 <= i < |s| && s[i] == x;
      assert Without(s, k)[if i < k then i else i - 1] == x;
    }
  }

  lemma ConsArrangement(avail: seq<int>, k: nat, a: seq<int>)
    requires k < |avail| && Distinct(avail) && |a| > 0 && a[0] == avail[k]
    ensures Arrangement(avail, |a|, a) <==> Arrangement(Without(avail, k), |a| - 1, a[1..])
  {
    WithoutMembers(avail, k);
    var rest := Without(avail, k);
    if Arrangement(avail, |a|, a) {
      forall i | 0 <= i < |a| - 1 ensures a[1..][i] in rest {
        assert a[i + 1] in avail && a[i + 1] != a[0];
      }
    }
    if Arrangement(rest, |a| - 1, a[1..]) {
      forall i | 0 <= i < |a| ensures a[i] in avail && (i > 0 ==> a[i] != a[0]) {
        if i > 0 { assert a[i] == a[1..][i - 1]; }
      }
      forall i, j | 0 <= i < j < |a| ensures a[i] != a[j] {
        if i > 0 { assert a[i] == a[1..][i - 1] && a[j] == a[1..][j - 1]; }
      }
    }
  }

  lemma {:induction false} AllAscending(avail: seq<int>, r: nat)
    requires r <= |avail| && Ascending(avail)
    ensures LexAscending(All(avail, r))
    decreases r, |avail| + 1
  {
    if r == 0 {
    } else {
      FromAscending(avail, 0, r);
    }
  }

  lemma PrefixedAscending(x: int, tails: seq<seq<int>>)
    requires LexAscending(tails)
    ensures LexAscending(Prefixed(x, tails))
  {
    var heads := Prefixed(x, tails);
    forall i, j | 0 <= i < j < |heads| ensures LexLess(heads[i], heads[j]) {
      assert heads[i][1..] == tails[i] && heads[j][1..] == tails[j];
    }
  }

  lemma AscendingJoin(a: seq<seq<int>>, b: seq<seq<int>>)
    requires LexAscending(a) && LexAscending(b)
    requires forall i, j :: 0 <= i < |a| && 0 <= j < |b| ==> LexLess(a[i], b[j])
    ensures LexAscending(a + b)
  {
  }

  lemma {:induction false} FromAscending(avail: seq<int>, k: nat, r: nat)
    requires 0 < r <= |avail| && k <= |avail| && Ascending(avail)
    ensures LexAscending(From(avail, k, r))
    decreases r, |avail| - k
  {
    if k == |avail| {
    } else {
      var tails := All(Without(avail, k), r - 1);
      var heads, later := Prefixed(avail[k], tails), From(avail, k + 1, r);
      AllAscending(Without(avail, k), r - 1);
      FromAscending(avail, k + 1, r);
      PrefixedAscending(avail[k], tails);
      forall i, j | 0 <= i < |heads| && 0 <= j < |later| ensures LexLess(heads[i], later[j]) {
        FromMembers(avail, k + 1, r, later[j]);
        assert later[j] in later;
        assert later[j][0] in avail[k + 1..];
      }
      AscendingJoin(heads, later);
    }
  }

  // ----- The generator's state -----

  /** `cycles[t]` counts down from `n - t` to 1 while position `t` runs through its choices. */
  predicate ValidCycles(n: nat, cycles: seq<nat>) {
    |cycles| <= n && forall t :: 0 <= t < |cycles| ==> 1 <= cycles[t] <= n - t
  }

  /** The positions from `t` on have not moved yet. */
  predicate FreshSince(n: nat, cycles: seq<nat>, t: nat) {
    |cycles| <= n && forall s :: t <= s < |cycles| ==> cycles[s] == n - s
  }

  /** The positions from `t` on have run through all their choices. */
  predicate SpentSince(cycles: seq<nat>, t: nat) {
    forall s :: t <= s < |cycles| ==> cycles[s] == 1
  }

  /** The tail of `indices` from position `t` on: each counter picks one of the elements left, in order. */
  function Layout(n: nat, avail: seq<int>, cycles: seq<nat>, t: nat): (s: seq<int>)
    requires ValidCycles(n, cycles) && n == |avail| + t && t <= |cycles|
    ensures |s| == |avail|
    decreases |cycles| - t
  {
    if t == |cycles| then avail
    else
      var k := |avail| - cycles[t];
      [avail[k]] + Layout(n, Without(avail, k), cycles, t + 1)
  }

  /** The arrangements of positions `t` on that are still to come before position `t - 1` moves. */
  function Rest(n: nat, avail: seq<int>, cycles: seq<nat>, t: nat): seq<seq<int>>
    requires ValidCycles(n, cycles) && n == |avail| + t && t <= |cycles|
    decreases |cycles| - t
  {
    if t == |cycles| then []
    else
      var k := |avail| - cycles[t];
      Prefixed(avail[k], Rest(n, Without(avail, k), cycles, t + 1)) + From(avail, k + 1, |cycles| - t)
  }

  /** The mixed-radix number written by the counters from position `t` on. */
  function Radix(n: nat, cycles: seq<nat>, t: nat): nat
    requires ValidCycles(n, cycles) && t <= |cycles|
    decreases |cycles| - t
  {
    if t == |cycles| then 0
    else Times(cycles[t] - 1, Falling(n - t - 1, |cycles| - t - 1)) + Radix(n, cycles, t + 1)
  }

  lemma RestCons(n: nat, avail: seq<int>, cycles: seq<nat>, t: nat)
    requires ValidCycles(n, cycles) && n == |avail| + t && t < |cycles|
    ensures var k := |avail| - cycles[t];
            Rest(n, avail, cycles, t) ==
            Prefixed(avail[k], Rest(n, Without(avail, k), cycles, t + 1)) + From(avail, k + 1, |cycles| - t)
  {
  }

  lemma RestStarts(n: nat, avail: seq<int>, cycles: seq<nat>, t: nat, k: nat, r: nat, inner: seq<seq<int>>)
    requires ValidCycles(n, cycles) && n == |avail| + t && t + r == |cycles| && r > 0
    requires k < |avail| && k + cycles[t] == |avail| && inner == Rest(n, Without(avail, k), cycles, t + 1)
    ensures Rest(n, avail, cycles, t) == Prefixed(avail[k], inner) + From(avail, k + 1, r)
  {
    RestCons(n, avail, cycles, t);
  }

  lemma LaterCount(avail: seq<int>, c: nat, r: nat)
    requires 0 < r <= |avail| && 0 < c <= |avail|
    ensures |From(avail, |avail| - c + 1, r)| == Times(c - 1, Falling(|avail| - 1, r - 1))
  {
    FromCount(avail, |avail| - c + 1, r);
  }

  lemma RestCount(n: nat, avail: seq<int>, cycles: seq<nat>, t: nat, inner: nat)
    requires ValidCycles(n, cycles) && n == |avail| + t && t < |cycles|
    requires |Rest(n, Without(avail, |avail| - cycles[t]), cycles, t + 1)| == inner
    ensures |Rest(n, avail, cycles, t)| == Times(cycles[t] - 1, Falling(n - t - 1, |cycles| - t - 1)) + inner
  {
    RestCons(n, avail, cycles, t);
    LaterCount(avail, cycles[t], |cycles| - t);
  }

  /** The mixed-radix number counts exactly the yields still to come. */
  lemma {:induction false} RestIsRadix(n: nat, avail: seq<int>, cycles: seq<nat>, t: nat)
    requires ValidCycles(n, cycles) && n == |avail| + t && t <= |cycles|
    ensures |Rest(n, avail, cycles, t)| == Radix(n, cycles, t)
    decreases |cycles| - t
  {
    if t == |cycles| {
    } else {
      RestIsRadix(n, Without(avail, |avail| - cycles[t]), cycles, t + 1);
      RestCount(n, avail, cycles, t, Radix(n, cycles, t + 1));
    }
  }

  lemma LayoutCons(n: nat, avail: seq<int>, cycles: seq<nat>, t: nat)
    requires ValidCycles(n, cycles) && n == |avail| + t && t < |cycles|
    ensures var k := |avail| - cycles[t];
            Layout(n, avail, cycles, t) == [avail[k]] + Layout(n, Without(avail, k), cycles, t + 1)
  {
  }

  lemma FreshCons(n: nat, avail: seq<int>, cycles: seq<nat>, t: nat)
    requires ValidCycles(n, cycles) && n == |avail| + t && t < |cycles| && cycles[t] == n - t
    requires Layout(n, avail[1..], cycles, t + 1) == avail[1..]
    ensures Layout(n, avail, cycles, t) == avail
  {
    LayoutCons(n, avail, cycles, t);
    WithoutFirst(avail);
  }

  lemma {:induction false} FreshLayout(n: nat, avail: seq<int>, cycles: seq<nat>, t: nat)
    requires ValidCycles(n, cycles) && n == |avail| + t && t <= |cycles| && FreshSince(n, cycles, t)
    ensures Layout(n, avail, cycles, t) == avail
    decreases |cycles| - t
  {
    if t == |cycles| {
    } else {
      FreshLayout(n, avail[1..], cycles, t + 1);
      FreshCons(n, avail, cycles, t);
    }
  }

  /** With fresh counters everything but the first arrangement is still to come. */
  lemma {:induction false} FreshRest(n: nat, avail: seq<int>, cycles: seq<nat>, t: nat, r: nat)
    requires ValidCycles(n, cycles) && n == |avail| + t && t + r == |cycles| && FreshSince(n, cycles, t)
    ensures All(avail, r) == [avail[..r]] + Rest(n, avail, cycles, t)
    decreases r, 1
  {
    if r == 0 {
      assert avail[..0] == [];
    } else {
      ChosenRest(n, avail, cycles, t, 0, r);
      FreshLayout(n, avail, cycles, t);
    }
  }

  /** The same once position `t` has chosen and only the positions after it are fresh. */
  lemma {:induction false} ChosenRest(n: nat, avail: seq<int>, cycles: seq<nat>, t: nat, k: nat, r: nat)
    requires ValidCycles(n, cycles) && n == |avail| + t && t + r == |cycles| && r > 0 && FreshSince(n, cycles, t + 1)
    requires k < |avail| && k + cycles[t] == |avail|
    ensures From(avail, k, r) == [Layout(n, avail, cycles, t)[..r]] + Rest(n, avail, cycles, t)
    decreases r, 0
  {
    var rest := Without(avail, k);
    var inner := Rest(n, rest, cycles, t + 1);
    FreshRest(n, rest, cycles, t + 1, r - 1);
    ChosenLayout(n, avail, cycles, t, k);
    RestStarts(n, avail, cycles, t, k, r, inner);
    ChoosesFirst(avail[k], rest, r, All(rest, r - 1), inner, From(avail, k + 1, r));
  }

  lemma ChoosesFirst(x: int, rest: seq<int>, r: nat, all: seq<seq<int>>, others: seq<seq<int>>, later: seq<seq<int>>)
    requires 0 < r <= |rest| + 1 && all == [rest[..r - 1]] + others
    ensures Prefixed(x, all) + later == [([x] + rest)[..r]] + (Prefixed(x, others) + later)
  {
    ConsTake(x, rest, r);
    PrefixedFirst(x, rest[..r - 1], others, later);
  }

  lemma PrefixedFirst(x: int, first: seq<int>, others: seq<seq<int>>, later: seq<seq<int>>)
    ensures Prefixed(x, [first] + others) + later == [[x] + first] + (Prefixed(x, others) + later)
  {
    PrefixedCons(x, first, others);
  }

  lemma {:induction false} SpentRest(n: nat, avail: seq<int>, cycles: seq<nat>, t: nat)
    requires ValidCycles(n, cycles) && n == |avail| + t && t <= |cycles| && SpentSince(cycles, t)
    ensures Rest(n, avail, cycles, t) == []
    decreases |cycles| - t
  {
    if t == |cycles| {
    } else {
      SpentRest(n, Without(avail, |avail| - 1), cycles, t + 1);
    }
  }

  lemma SpentBelow(n: nat, avail: seq<int>, cycles: seq<nat>, t: nat, k: nat, r: nat)
    requires ValidCycles(n, cycles) && n == |avail| + t && t + r == |cycles| && r > 0 && SpentSince(cycles, t + 1)
    requires k < |avail| && k + cycles[t] == |avail|
    ensures Rest(n, avail, cycles, t) == From(avail, k + 1, r)
  {
    SpentRest(n, Without(avail, k), cycles, t + 1);
    RestStarts(n, avail, cycles, t, k, r, []);
  }

  function RotateFrom(s: seq<int>, i: nat): seq<int>
    requires i < |s|
  {
    s[..i] + (s[i + 1..] + s[i..i + 1])
  }

  function Swap(s: seq<int>, i: nat, j: nat): seq<int>
    requires i < |s| && j < |s|
  {
    s[i := s[j]][j := s[i]]
  }

  lemma RotateLast(s: seq<int>)
    requires s != []
    ensures RotateFrom([s[|s| - 1]] + Without(s, |s| - 1), 0) == s
  {
  }

  lemma SwapFirst(s: seq<int>, k: nat)
    requires k + 1 < |s|
    ensures Swap([s[k]] + Without(s, k), 0, k + 1) == [s[k + 1]] + Without(s, k + 1)
  {
  }

  // ----- A state seen from one position -----

  /** What the positions from `t` up to `i` have chosen. */
  function Chosen(n: nat, avail: seq<int>, cycles: seq<nat>, t: nat, i: nat): (s: seq<int>)
    requires ValidCycles(n, cycles) && n == |avail| + t && t <= i <= |cycles|
    ensures |s| == i - t
    decreases i - t
  {
    if t == i then []
    else
      var k := |avail| - cycles[t];
      [avail[k]] + Chosen(n, Without(avail, k), cycles, t + 1, i)
  }

  /** What they leave to position `i`. */
  function Left(n: nat, avail: seq<int>, cycles: seq<nat>, t: nat, i: nat): (s: seq<int>)
    requires ValidCycles(n, cycles) && n == |avail| + t && t <= i <= |cycles|
    ensures |s| + i == n
    decreases i - t
  {
    if t == i then avail else Left(n, Without(avail, |avail| - cycles[t]), cycles, t + 1, i)
  }

  lemma {:induction false} LayoutSplits(n: nat, avail: seq<int>, cycles: seq<nat>, t: nat, i: nat)
    requires ValidCycles(n, cycles) && n == |avail| + t && t <= i <= |cycles|
    ensures Layout(n, avail, cycles, t) ==
            Chosen(n, avail, cycles, t, i) + Layout(n, Left(n, avail, cycles, t, i), cycles, i)
    decreases i - t
  {
    if t == i {
    } else {
      var k := |avail| - cycles[t];
      LayoutSplits(n, Without(avail, k), cycles, t + 1, i);
      LayoutCons(n, avail, cycles, t);
    }
  }

  /** `next` agrees with `cycles` from position `t` up to `i`. */
  ghost predicate AgreeUpTo(n: nat, cycles: seq<nat>, next: seq<nat>, t: nat, i: nat) {
    && ValidCycles(n, cycles) && ValidCycles(n, next) && t <= i <= |cycles| == |next|
    && forall s :: t <= s < i ==> cycles[s] == next[s]
  }

  lemma SplitStarts(n: nat, avail: seq<int>, cycles: seq<nat>, t: nat, i: nat, k: nat)
    requires ValidCycles(n, cycles) && n == |avail| + t && t < i <= |cycles|
    requires k < |avail| && k + cycles[t] == |avail|
    ensures Chosen(n, avail, cycles, t, i) == [avail[k]] + Chosen(n, Without(avail, k), cycles, t + 1, i)
    ensures Left(n, avail, cycles, t, i) == Left(n, Without(avail, k), cycles, t + 1, i)
  {
  }

  /** All of this depends only on the counters before `i`. */
  lemma {:induction false} ChosenSame(n: nat, avail: seq<int>, cycles: seq<nat>, next: seq<nat>, t: nat, i: nat)
    requires AgreeUpTo(n, cycles, next, t, i) && n == |avail| + t
    ensures Chosen(n, avail, cycles, t, i) == Chosen(n, avail, next, t, i)
    decreases i - t
  {
    if t == i {
    } else {
      var k := |avail| - cycles[t];
      ChosenSame(n, Without(avail, k), cycles, next, t + 1, i);
      SplitStarts(n, avail, cycles, t, i, k);
      SplitStarts(n, avail, next, t, i, k);
    }
  }

  lemma {:induction false} LeftSame(n: nat, avail: seq<int>, cycles: seq<nat>, next: seq<nat>, t: nat, i: nat)
    requires AgreeUpTo(n, cycles, next, t, i) && n == |avail| + t
    ensures Left(n, avail, cycles, t, i) == Left(n, avail, next, t, i)
    decreases i - t
  {
    if t == i {
    } else {
      var k := |avail| - cycles[t];
      LeftSame(n, Without(avail, k), cycles, next, t + 1, i);
      SplitStarts(n, avail, cycles, t, i, k);
      SplitStarts(n, avail, next, t, i, k);
    }
  }

  /** The arrangements still to come with another choice at position `t`, `t + 1`, and so on up to `i`. */
  function Laters(n: nat, avail: seq<int>, cycles: seq<nat>, t: nat, i: nat): (s: seq<seq<seq<int>>>)
    requires ValidCycles(n, cycles) && n == |avail| + t && t <= i <= |cycles|
    ensures |s| == i - t
    decreases i - t
  {
    if t == i then []
    else
      var k := |avail| - cycles[t];
      [From(avail, k + 1, |cycles| - t)] + Laters(n, Without(avail, k), cycles, t + 1, i)
  }

  lemma {:induction false} LatersSame(n: nat, avail: seq<int>, cycles: seq<nat>, next: seq<nat>, t: nat, i: nat)
    requires AgreeUpTo(n, cycles, next, t, i) && n == |avail| + t
    ensures Laters(n, avail, cycles, t, i) == Laters(n, avail, next, t, i)
    decreases i - t
  {
    if t == i {
    } else {
      var k, r := |avail| - cycles[t], |cycles| - t;
      LatersSame(n, Without(avail, k), cycles, next, t + 1, i);
      LatersStart(n, avail, cycles, t, i, k, r);
      LatersStart(n, avail, next, t, i, k, r);
    }
  }

  lemma LatersStart(n: nat, avail: seq<int>, cycles: seq<nat>, t: nat, i: nat, k: nat, r: nat)
    requires ValidCycles(n, cycles) && n == |avail| + t && t < i <= |cycles|
    requires k < |avail| && k + cycles[t] == |avail| && t + r == |cycles|
    ensures Laters(n, avail, cycles, t, i) == [From(avail, k + 1, r)] + Laters(n, Without(avail, k), cycles, t + 1, i)
  {
  }

  /** `inner` behind the chosen elements, each time followed by what comes with another choice there. */
  function Nested(chosen: seq<int>, laters: seq<seq<seq<int>>>, inner: seq<seq<int>>): seq<seq<int>>
    requires |chosen| == |laters|
  {
    if chosen == [] then inner else Prefixed(chosen[0], Nested(chosen[1..], laters[1..], inner)) + laters[0]
  }

  lemma NestedCons(x: int, chosen: seq<int>, later: seq<seq<int>>, laters: seq<seq<seq<int>>>, inner: seq<seq<int>>)
    requires |chosen| == |laters|
    ensures Nested([x] + chosen, [later] + laters, inner) == Prefixed(x, Nested(chosen, laters, inner)) + later
  {
    assert ([x] + chosen)[1..] == chosen && ([later] + laters)[1..] == laters;
  }

  /** The first inner arrangement comes first of all, behind everything chosen. */
  lemma {:induction false} NestedFirst(
    chosen: seq<int>, laters: seq<seq<seq<int>>>, first: seq<int>, others: seq<seq<int>>)
    requires |chosen| == |laters|
    ensures Nested(chosen, laters, [first] + others) == [chosen + first] + Nested(chosen, laters, others)
  {
    if chosen == [] {
      assert chosen + first == first;
    } else {
      var rest := chosen[1..];
      NestedFirst(rest, laters[1..], first, others);
      PrefixedFirst(chosen[0], rest + first, Nested(rest, laters[1..], others), laters[0]);
      assert [chosen[0]] + (rest + first) == chosen + first;
    }
  }

  lemma {:induction false} RestSplits(n: nat, avail: seq<int>, cycles: seq<nat>, t: nat, i: nat, inner: seq<seq<int>>)
    requires ValidCycles(n, cycles) && n == |avail| + t && t <= i <= |cycles|
    requires inner == Rest(n, Left(n, avail, cycles, t, i), cycles, i)
    ensures Rest(n, avail, cycles, t) ==
            Nested(Chosen(n, avail, cycles, t, i), Laters(n, avail, cycles, t, i), inner)
    decreases i - t
  {
    if t == i {
    } else {
      var k := |avail| - cycles[t];
      var rest := Without(avail, k);
      RestSplits(n, rest, cycles, t + 1, i, inner);
      RestCons(n, avail, cycles, t);
      NestedCons(avail[k], Chosen(n, rest, cycles, t + 1, i), From(avail, k + 1, |cycles| - t),
                 Laters(n, rest, cycles, t + 1, i), inner);
    }
  }

  lemma RotateBehind(front: seq<int>, s: seq<int>, i: nat)
    requires i == |front| && s != []
    ensures RotateFrom(front + s, i) == front + RotateFrom(s, 0)
  {
  }

  lemma SwapBehind(front: seq<int>, s: seq<int>, i: nat, j: nat)
    requires i == |front| && j < |s| && s != []
    ensures Swap(front + s, i, i + j) == front + Swap(s, 0, j)
  {
  }

  /** With only fresh positions behind it, a position takes its choice to the front of what is left. */
  lemma ChosenLayout(n: nat, avail: seq<int>, cycles: seq<nat>, t: nat, k: nat)
    requires ValidCycles(n, cycles) && n == |avail| + t && t < |cycles| && FreshSince(n, cycles, t + 1)
    requires k < |avail| && k + cycles[t] == |avail|
    ensures Layout(n, avail, cycles, t) == [avail[k]] + Without(avail, k)
  {
    LayoutCons(n, avail, cycles, t);
    FreshLayout(n, Without(avail, k), cycles, t + 1);
  }

  lemma RotateHere(n: nat, avail: seq<int>, cycles: seq<nat>, next: seq<nat>, t: nat)
    requires ValidCycles(n, cycles) && ValidCycles(n, next) && n == |avail| + t && t < |cycles|
    requires cycles[t] == 1 && next == cycles[t := n - t] && FreshSince(n, cycles, t + 1)
    ensures RotateFrom(Layout(n, avail, cycles, t), 0) == Layout(n, avail, next, t)
  {
    ChosenLayout(n, avail, cycles, t, |avail| - 1);
    FreshLayout(n, avail, next, t);
    RotateLast(avail);
  }

  lemma SwapHere(n: nat, avail: seq<int>, cycles: seq<nat>, next: seq<nat>, t: nat, k: nat)
    requires ValidCycles(n, cycles) && ValidCycles(n, next) && n == |avail| + t && t < |cycles|
    requires cycles[t] > 1 && next == cycles[t := cycles[t] - 1] && FreshSince(n, cycles, t + 1)
    requires k + cycles[t] == |avail|
    ensures Swap(Layout(n, avail, cycles, t), 0, k + 1) == Layout(n, avail, next, t)
  {
    ChosenLayout(n, avail, cycles, t, k);
    ChosenLayout(n, avail, next, t, k + 1);
    SwapFirst(avail, k);
  }

  ghost predicate LayoutAt(n: nat, avail: seq<int>, cycles: seq<nat>, i: nat, chosen: seq<int>, left: seq<int>)
    requires ValidCycles(n, cycles) && n == |avail| && i <= |cycles| && |left| + i == n
  {
    Layout(n, avail, cycles, 0) == chosen + Layout(n, left, cycles, i)
  }

  ghost predicate RestAt(
    n: nat, avail: seq<int>, cycles: seq<nat>, i: nat, chosen: seq<int>, left: seq<int>, laters: seq<seq<seq<int>>>)
    requires ValidCycles(n, cycles) && n == |avail| && i <= |cycles| && |left| + i == n && |chosen| == |laters|
  {
    Rest(n, avail, cycles, 0) == Nested(chosen, laters, Rest(n, left, cycles, i))
  }

  /** Every state that agrees before position `i` looks the same from there. */
  lemma SplitAt(n: nat, avail: seq<int>, cycles: seq<nat>, i: nat)
    returns (chosen: seq<int>, left: seq<int>, laters: seq<seq<seq<int>>>)
    requires ValidCycles(n, cycles) && n == |avail| && i <= |cycles|
    ensures |chosen| == |laters| == i && |left| + i == n
    ensures forall next :: AgreeUpTo(n, cycles, next, 0, i) ==> LayoutAt(n, avail, next, i, chosen, left)
    ensures forall next :: AgreeUpTo(n, cycles, next, 0, i) ==> RestAt(n, avail, next, i, chosen, left, laters)
  {
    chosen, left := Chosen(n, avail, cycles, 0, i), Left(n, avail, cycles, 0, i);
    laters := Laters(n, avail, cycles, 0, i);
    forall next | AgreeUpTo(n, cycles, next, 0, i) ensures LayoutAt(n, avail, next, i, chosen, left) {
      LayoutSplits(n, avail, next, 0, i);
      ChosenSame(n, avail, cycles, next, 0, i);
      LeftSame(n, avail, cycles, next, 0, i);
    }
    forall next | AgreeUpTo(n, cycles, next, 0, i) ensures RestAt(n, avail, next, i, chosen, left, laters) {
      ChosenSame(n, avail, cycles, next, 0, i);
      LeftSame(n, avail, cycles, next, 0, i);
      LatersSame(n, avail, cycles, next, 0, i);
      RestSplits(n, avail, next, 0, i, Rest(n, left, next, i));
    }
  }

  /** Rotating the tail at a spent position puts that tail back in order. */
  lemma RotationResets(n: nat, avail: seq<int>, cycles: seq<nat>, next: seq<nat>, i: nat)
    requires ValidCycles(n, cycles) && ValidCycles(n, next) && n == |avail| && i < |cycles|
    requires cycles[i] == 1 && next == cycles[i := n - i] && FreshSince(n, cycles, i + 1)
    ensures RotateFrom(Layout(n, avail, cycles, 0), i) == Layout(n, avail, next, 0)
  {
    hide Layout;
    var chosen, left, _ := SplitAt(n, avail, cycles, i);
    assert LayoutAt(n, avail, cycles, i, chosen, left) && LayoutAt(n, avail, next, i, chosen, left);
    RotateBehind(chosen, Layout(n, left, cycles, i), i);
    RotateHere(n, left, cycles, next, i);
  }

  /** Swapping position `i` with the element that its next counter counts from the end moves it to its next choice. */
  lemma SwapAdvances(n: nat, avail: seq<int>, cycles: seq<nat>, next: seq<nat>, i: nat, k: nat)
    requires ValidCycles(n, cycles) && ValidCycles(n, next) && n == |avail| && i < |cycles|
    requires cycles[i] > 1 && next == cycles[i := cycles[i] - 1] && FreshSince(n, cycles, i + 1)
    requires i + k + cycles[i] == n
    ensures Swap(Layout(n, avail, cycles, 0), i, i + (k + 1)) == Layout(n, avail, next, 0)
  {
    hide Layout;
    var chosen, left, _ := SplitAt(n, avail, cycles, i);
    assert LayoutAt(n, avail, cycles, i, chosen, left) && LayoutAt(n, avail, next, i, chosen, left);
    SwapBehind(chosen, Layout(n, left, cycles, i), i, k + 1);
    SwapHere(n, left, cycles, next, i, k);
  }

  /** `next` is the state that follows `cycles` when position `i` moves on and all after it start afresh. */
  predicate Follows(n: nat, cycles: seq<nat>, next: seq<nat>, i: nat) {
    && |next| == |cycles| && i < |cycles|
    && (forall s :: 0 <= s < i ==> next[s] == cycles[s])
    && next[i] + 1 == cycles[i] && SpentSince(cycles, i + 1) && FreshSince(n, next, i + 1)
  }

  lemma FollowingHere(n: nat, avail: seq<int>, cycles: seq<nat>, next: seq<nat>, t: nat, k: nat, r: nat)
    requires ValidCycles(n, cycles) && ValidCycles(n, next) && n == |avail| + t && t + r == |cycles| == |next|
    requires r > 0 && k < |avail| && k + cycles[t] == |avail| && next[t] + 1 == cycles[t]
    requires SpentSince(cycles, t + 1) && FreshSince(n, next, t + 1)
    ensures Rest(n, avail, cycles, t) == [Layout(n, avail, next, t)[..r]] + Rest(n, avail, next, t)
  {
    hide Layout, Rest, From, All;
    var later := From(avail, k + 1, r);
    assert Rest(n, avail, cycles, t) == later by { SpentBelow(n, avail, cycles, t, k, r); }
    assert later == [Layout(n, avail, next, t)[..r]] + Rest(n, avail, next, t) by {
      ChosenRest(n, avail, next, t, k + 1, r);
    }
  }

  lemma TakeBehind(front: seq<int>, s: seq<int>, i: nat, r: nat)
    requires i == |front| && r <= |s|
    ensures (front + s)[..i + r] == front + s[..r]
  {
  }

  /** The following state is the first of what was still to come, and leaves the rest. */
  lemma FollowingYields(n: nat, avail: seq<int>, cycles: seq<nat>, next: seq<nat>, i: nat, r: nat)
    requires ValidCycles(n, cycles) && ValidCycles(n, next) && n == |avail| && i + r == |cycles|
    requires Follows(n, cycles, next, i)
    ensures Rest(n, avail, cycles, 0) == [Layout(n, avail, next, 0)[..|cycles|]] + Rest(n, avail, next, 0)
  {
    hide Layout, Rest, Nested;
    var chosen, left, laters := SplitAt(n, avail, cycles, i);
    assert RestAt(n, avail, cycles, i, chosen, left, laters) && RestAt(n, avail, next, i, chosen, left, laters);
    assert LayoutAt(n, avail, next, i, chosen, left);
    FollowingAt(n, avail, cycles, next, i, r, chosen, left, laters);
  }

  lemma FollowingAt(
    n: nat, avail: seq<int>, cycles: seq<nat>, next: seq<nat>, i: nat, r: nat,
    chosen: seq<int>, left: seq<int>, laters: seq<seq<seq<int>>>)
    requires ValidCycles(n, cycles) && ValidCycles(n, next) && n == |avail| && i + r == |cycles|
    requires Follows(n, cycles, next, i) && |chosen| == |laters| == i && |left| + i == n
    requires RestAt(n, avail, cycles, i, chosen, left, laters) && RestAt(n, avail, next, i, chosen, left, laters)
    requires LayoutAt(n, avail, next, i, chosen, left)
    ensures Rest(n, avail, cycles, 0) == [Layout(n, avail, next, 0)[..|cycles|]] + Rest(n, avail, next, 0)
  {
    hide Layout, Rest, From, All, Nested;
    var first, others := Layout(n, left, next, i), Rest(n, left, next, i);
    FollowingHere(n, left, cycles, next, i, n - i - cycles[i], r);
    NestedFirst(chosen, laters, first[..r], others);
    TakeBehind(chosen, first, i, r);
  }

  /** Each yield takes exactly one off the mixed-radix number. */
  lemma RadixDrops(n: nat, cycles: seq<nat>, next: seq<nat>, i: nat)
    requires ValidCycles(n, cycles) && ValidCycles(n, next) && Follows(n, cycles, next, i)
    ensures Radix(n, cycles, 0) == Radix(n, next, 0) + 1
  {
    RestIsRadix(n, Range(n), cycles, 0);
    RestIsRadix(n, Range(n), next, 0);
    FollowingYields(n, Range(n), cycles, next, i, |cycles| - i);
  }

  /** Once the counters from `i` on are fresh, the list from `i` on is sorted. */
  lemma {:induction false} FreshTailAscends(n: nat, avail: seq<int>, cycles: seq<nat>, t: nat, i: nat)
    requires ValidCycles(n, cycles) && n == |avail| + t && t <= i <= |cycles|
    requires FreshSince(n, cycles, i) && Ascending(avail)
    ensures Ascending(Layout(n, avail, cycles, t)[i - t..])
    decreases i - t
  {
    if i == t {
      FreshLayout(n, avail, cycles, t);
      assert avail[0..] == avail;
    } else {
      var k := |avail| - cycles[t];
      var rest := Without(avail, k);
      FreshTailAscends(n, rest, cycles, t + 1, i);
      assert ([avail[k]] + Layout(n, rest, cycles, t + 1))[i - t..] == Layout(n, rest, cycles, t + 1)[i - t - 1..];
    }
  }

  // ----- The generator -----

  /** `tuple(pool[i] for i in chosen)` */
  function Pick<T>(pool: seq<T>, chosen: seq<int>): (t: seq<T>)
    requires forall i :: 0 <= i < |chosen| ==> 0 <= chosen[i] < |pool|
    ensures |t| == |chosen| && forall i :: 0 <= i < |t| ==> t[i] == pool[chosen[i]]
  {
    seq(|chosen|, i requires 0 <= i < |chosen| => pool[chosen[i]])
  }

  ghost predicate Picks<T>(pool: seq<T>, chosen: seq<seq<int>>, yielded: seq<seq<T>>) {
    |yielded| == |chosen| && forall k :: 0 <= k < |chosen| ==>
      (forall i :: 0 <= i < |chosen[k]| ==> 0 <= chosen[k][i] < |pool|) && yielded[k] == Pick(pool, chosen[k])
  }

  lemma PicksAppend<T>(pool: seq<T>, chosen: seq<seq<int>>, yielded: seq<seq<T>>, c: seq<int>)
    requires Picks(pool, chosen, yielded) && forall i :: 0 <= i < |c| ==> 0 <= c[i] < |pool|
    ensures Picks(pool, chosen + [c], yielded + [Pick(pool, c)])
  {
  }

  lemma {:induction false} LayoutInRange(n: nat, avail: seq<int>, cycles: seq<nat>, t: nat)
    requires ValidCycles(n, cycles) && n == |avail| + t && t <= |cycles|
    requires forall i :: 0 <= i < |avail| ==> 0 <= avail[i] < n
    ensures forall i :: 0 <= i < |avail| ==> 0 <= Layout(n, avail, cycles, t)[i] < n
    decreases |cycles| - t
  {
    if t == |cycles| {
    } else {
      LayoutInRange(n, Without(avail, |avail| - cycles[t]), cycles, t + 1);
    }
  }

  /** `indices` and `cycles` describe the same state over the positions `0 .. n`. */
  predicate Tracks(n: nat, cycles: seq<nat>, indices: seq<int>) {
    ValidCycles(n, cycles) && indices == Layout(n, Range(n), cycles, 0)
  }

  function ToCome(n: nat, cycles: seq<nat>): seq<seq<int>>
    requires ValidCycles(n, cycles)
  {
    Rest(n, Range(n), cycles, 0)
  }

  lemma ResetStep(n: nat, cycles: seq<nat>, indices: seq<int>, i: nat)
    requires Tracks(n, cycles, indices) && i < |cycles| && cycles[i] == 1 && FreshSince(n, cycles, i + 1)
    ensures Tracks(n, cycles[i := n - i], indices[..i] + (indices[i + 1..] + indices[i..i + 1]))
  {
    RotationResets(n, Range(n), cycles, cycles[i := n - i], i);
  }

  lemma MoveTracks(n: nat, cycles: seq<nat>, indices: seq<int>, i: nat)
    requires Tracks(n, cycles, indices) && i < |cycles| && cycles[i] > 1 && FreshSince(n, cycles, i + 1)
    ensures Tracks(n, cycles[i := cycles[i] - 1], Swap(indices, i, n - (cycles[i] - 1)))
  {
    SwapAdvances(n, Range(n), cycles, cycles[i := cycles[i] - 1], i, n - i - cycles[i]);
  }

  lemma MoveYields(n: nat, start: seq<nat>, next: seq<nat>, moved: seq<int>, i: nat)
    requires ValidCycles(n, start) && Tracks(n, next, moved) && Follows(n, start, next, i)
    ensures ToCome(n, start) == [moved[..|start|]] + ToCome(n, next)
  {
    FollowingYields(n, Range(n), start, next, i, |start| - i);
  }

  lemma MoveStep(n: nat, start: seq<nat>, cycles: seq<nat>, indices: seq<int>, i: nat)
    requires ValidCycles(n, start) && Tracks(n, cycles, indices) && |start| == |cycles|
    requires i < |cycles| && cycles[i] > 1 && FreshSince(n, cycles, i + 1) && SpentSince(start, i + 1)
    requires forall s :: 0 <= s <= i ==> cycles[s] == start[s]
    ensures var next, j := cycles[i := cycles[i] - 1], |indices| - (cycles[i] - 1);
            var moved := indices[i := indices[j]][j := indices[i]];
            && Tracks(n, next, moved)
            && ToCome(n, start) == [moved[..|cycles|]] + ToCome(n, next)
  {
    var next, j := cycles[i := cycles[i] - 1], n - (cycles[i] - 1);
    MoveTracks(n, cycles, indices, i);
    MoveYields(n, start, next, Swap(indices, i, j), i);
  }

  /**
    One pass of the `for`/`else` over the positions, from the last to the first.
    Without a `break` every counter ran out, and nothing is left to yield.
   */
  method Advance(n: nat, cycles: seq<nat>, indices: seq<int>)
    returns (cycles': seq<nat>, indices': seq<int>, advanced: bool)
    requires Tracks(n, cycles, indices)
    ensures Tracks(n, cycles', indices') && |cycles'| == |cycles|
    ensures advanced ==> ToCome(n, cycles) == [indices'[..|cycles|]] + ToCome(n, cycles')
    ensures !advanced ==> ToCome(n, cycles) == []
  {
    cycles', indices', advanced := cycles, indices, false;
    var i := |cycles|;
    while i > 0
      invariant 0 <= i <= |cycles| == |cycles'| && SpentSince(cycles, i) && !advanced
      invariant Tracks(n, cycles', indices') && FreshSince(n, cycles', i)
      invariant forall s :: 0 <= s < i ==> cycles'[s] == cycles[s]
    {
      i := i - 1;
      ghost var before := cycles';
      cycles' := cycles'[i := cycles'[i] - 1];
      if cycles'[i] == 0 {
        ResetStep(n, before, indices', i);
        indices' := indices'[..i] + (indices'[i + 1..] + indices'[i..i + 1]);
        cycles' := cycles'[i := n - i];
        assert cycles' == before[i := n - i];
      } else {
        MoveStep(n, cycles, before, indices', i);
        var j := cycles'[i];
        indices' := indices'[i := indices'[|indices'| - j]][|indices'| - j := indices'[i]];
        advanced := true;
        return;
      }
    }
    SpentRest(n, Range(n), cycles, 0);
  }

  /** What has been yielded and what is still to come make up the whole enumeration. */
  ghost predicate Progress<T>(pool: seq<T>, r: nat, cycles: seq<nat>, indices: seq<int>,
                              choices: seq<seq<int>>, yielded: seq<seq<T>>)
    requires r <= |pool|
  {
    && |cycles| == r && Tracks(|pool|, cycles, indices)
    && choices + ToCome(|pool|, cycles) == All(Range(|pool|), r)
    && Picks(pool, choices, yielded)
  }

  lemma FirstYield<T>(pool: seq<T>, cycles: seq<nat>)
    requires ValidCycles(|pool|, cycles) && FreshSince(|pool|, cycles, 0)
    ensures var first := Range(|pool|)[..|cycles|];
            Progress(pool, |cycles|, cycles, Range(|pool|), [first], [Pick(pool, first)])
  {
    FreshLayout(|pool|, Range(|pool|), cycles, 0);
    FreshRest(|pool|, Range(|pool|), cycles, 0, |cycles|);
    PicksAppend(pool, [], [], Range(|pool|)[..|cycles|]);
  }

  lemma NextYield<T>(pool: seq<T>, r: nat, cycles: seq<nat>, indices: seq<int>,
                     choices: seq<seq<int>>, yielded: seq<seq<T>>, cycles': seq<nat>, indices': seq<int>)
    requires r <= |pool| && Progress(pool, r, cycles, indices, choices, yielded)
    requires |cycles'| == r && Tracks(|pool|, cycles', indices')
    requires ToCome(|pool|, cycles) == [indices'[..r]] + ToCome(|pool|, cycles')
    ensures forall i :: 0 <= i < r ==> 0 <= indices'[i] < |pool|
    ensures var c := indices'[..r]; Progress(pool, r, cycles', indices', choices + [c], yielded + [Pick(pool, c)])
  {
    LayoutInRange(|pool|, Range(|pool|), cycles', 0);
    var c, later := indices'[..r], ToCome(|pool|, cycles');
    PicksAppend(pool, choices, yielded, c);
    assert (choices + [c]) + later == choices + ([c] + later);
  }

  /** Where a subscript may point: negative ones count from the end. */
  predicate InList(s: seq<int>, k: int) {
    -|s| <= k < |s|
  }

  /**
    The first pass when more is asked for than the pool has. The counter of the last position is already
    below one, so the pass goes straight to the swap, and that position lies past the end of `indices`.
   */
  method PassBeyond(n: nat, r: nat, indices: seq<int>) returns (raised: bool)
    requires n < r && |indices| == n
    ensures raised
  {
    var cycles := seq(r, t requires 0 <= t < r => n - t);
    var i := r - 1;
    cycles := cycles[i := cycles[i] - 1];
    var j := cycles[i];
    raised := j != 0 && !(InList(indices, -j) && InList(indices, i));
  }

  /** Where a slice up to `r` ends: past the end it stops there, and a negative bound counts from the end. */
  function SliceEnd(n: nat, r: int): (end: nat)
    ensures end <= n && (0 <= r <= n ==> end == r)
  {
    if r > n then n else if r >= 0 then r else if n + r >= 0 then n + r else 0
  }

  function Requested(n: nat, count: Types.Option<int>): int {
    if count.None? then n else count.value
  }

  /** For a length that the pool has: the reference enumeration of the positions, each looked up in the pool. */
  method Enumerate<T>(pool: seq<T>, r: nat) returns (yielded: seq<seq<T>>)
    requires r <= |pool|
    ensures Picks(pool, All(Range(|pool|), r), yielded)
  {
    var n := |pool|;
    var indices := Range(n);
    var cycles: seq<nat> := seq(r, t requires 0 <= t < r => n - t);
    FirstYield(pool, cycles);
    yielded := [Pick(pool, indices[..r])];
    ghost var choices := [indices[..r]];
    while n != 0
      invariant Progress(pool, r, cycles, indices, choices, yielded)
      decreases |ToCome(n, cycles)|
    {
      var cycles', indices', advanced := Advance(n, cycles, indices);
      if !advanced {
        return;
      }
      NextYield(pool, r, cycles, indices, choices, yielded, cycles', indices');
      cycles, indices := cycles', indices';
      yielded := yielded + [Pick(pool, indices[..r])];
      choices := choices + [indices[..r]];
    }
  }

  /**
    The generator run to exhaustion; `yielded` collects its yields in order. For a length that the pool does
    not have it yields one slice of the pool: all of it for a greater length, after which it raises unless
    the pool is empty, and a shortened one for a negative length, after which the pass over no positions ends it.
   */
  method Generate<T>(pool: seq<T>, count: Types.Option<int>) returns (yielded: seq<seq<T>>, raised: bool)
    ensures var r := Requested(|pool|, count);
            && (raised <==> r > |pool| > 0)
            && (0 <= r <= |pool| ==> Picks(pool, All(Range(|pool|), r), yielded))
            && (!(0 <= r <= |pool|) ==> yielded == [pool[..SliceEnd(|pool|, r)]])
  {
    var n := |pool|;
    var r := if count.None? then n else count.value;
    raised := false;
    if 0 <= r <= n {
      yielded := Enumerate(pool, r);
      return;
    }
    var indices := Range(n);
    var first := Pick(pool, indices[..SliceEnd(n, r)]);
    assert first == pool[..SliceEnd(n, r)];
    yielded := [first];
    if n != 0 && r > 0 {
      raised := PassBeyond(n, r, indices);
    }
  }

  /** What the generator promises: every arrangement of the positions once, in lexicographic order. */
  method Permute<T>(pool: seq<T>, count: Types.Option<int>) returns (yielded: seq<seq<T>>, raised: bool)
    ensures var r := Requested(|pool|, count);
            && (raised <==> r > |pool| > 0)
            && (!(0 <= r <= |pool|) ==> yielded == [pool[..SliceEnd(|pool|, r)]])
    ensures var r := Requested(|pool|, count);
            0 <= r <= |pool| ==>
              var choices := All(Range(|pool|), r);
              && Picks(pool, choices, yielded)
              && (forall a :: a in choices <==> Arrangement(Range(|pool|), r, a))
              && LexAscending(choices)
              && |yielded| == Falling(|pool|, r)
              && |yielded| * Factorial(|pool| - r) == Factorial(|pool|)
  {
    var n := |pool|;
    ghost var r := Requested(n, count);
    yielded, raised := Generate(pool, count);
    if 0 <= r <= n {
      AllAscending(Range(n), r);
      AllCount(Range(n), r);
      FallingTimesFactorial(n, r);
      forall a ensures a in All(Range(n), r) <==> Arrangement(Range(n), r, a) {
        AllMembers(Range(n), r, a);
      }
    }
  }
}
