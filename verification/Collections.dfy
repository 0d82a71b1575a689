/** Filtering lists, and the sizes of sets. */
module Collections {

  /** The elements that a test keeps, in their order. */
  function Filter<T>(keep: T -> bool, s: seq<T>): seq<T> {
    if s == [] then []
    else
      var last := s[|s| - 1];
      Filter(keep, s[..|s| - 1]) + if keep(last) then [last] else []
  }

  lemma FilterLast<T>(keep: T -> bool, s: seq<T>, x: T)
    ensures Filter(keep, s + [x]) == Filter(keep, s) + if keep(x) then [x] else []
  {
    assert (s + [x])[..|s|] == s;
  }

  lemma {:induction false} FilterCons<T>(keep: T -> bool, x: T, s: seq<T>)
    ensures Filter(keep, [x] + s) == if keep(x) then [x] + Filter(keep, s) else Filter(keep, s)
  {
    if s == [] {
      FilterLast(keep, [], x);
      assert [x] + s == [] + [x];
    } else {
      var front, last := s[..|s| - 1], s[|s| - 1];
      FilterCons(keep, x, front);
      FilterLast(keep, [x] + front, last);
      assert [x] + s == ([x] + front) + [last];
    }
  }

  lemma {:induction false} FilterMembers<T>(keep: T -> bool, s: seq<T>, x: T)
    ensures multiset(Filter(keep, s))[x] == if keep(x) then multiset(s)[x] else 0
  {
    if s == [] {
    } else {
      var front, last := s[..|s| - 1], s[|s| - 1];
      FilterMembers(keep, front, x);
      assert s == front + [last];
    }
  }

  lemma FilterIn<T>(keep: T -> bool, s: seq<T>, x: T)
    ensures x in Filter(keep, s) <==> x in s && keep(x)
  {
    FilterMembers(keep, s, x);
    assert x in s <==> x in multiset(s);
    assert x in Filter(keep, s) <==> x in multiset(Filter(keep, s));
  }

  lemma {:induction false} FilterAll<T>(keep: T -> bool, s: seq<T>)
    requires forall i :: 0 <= i < |s| ==> keep(s[i])
    ensures Filter(keep, s) == s
  {
    if s == [] {
    } else {
      FilterAll(keep, s[..|s| - 1]);
    }
  }

  /** A stricter test does not need the other one first. */
  lemma {:induction false} FilterAbsorbs<T>(keep: T -> bool, strict: T -> bool, s: seq<T>)
    requires forall i :: 0 <= i < |s| && strict(s[i]) ==> keep(s[i])
    ensures Filter(strict, Filter(keep, s)) == Filter(strict, s)
  {
    if s == [] {
    } else {
      var front, last := s[..|s| - 1], s[|s| - 1];
      FilterAbsorbs(keep, strict, front);
      var kept := Filter(keep, front);
      if keep(last) {
        assert Filter(keep, s) == kept + [last];
        FilterLast(strict, kept, last);
      } else {
        assert Filter(keep, s) == kept && !strict(s[|s| - 1]);
      }
    }
  }

  ghost predicate Pairwise<T>(before: (T, T) -> bool, s: seq<T>) {
    forall i, j :: 0 <= i < j < |s| ==> before(s[i], s[j])
  }

  /** What holds of every pair in order still holds. */
  lemma {:induction false} FilterPairwise<T>(keep: T -> bool, before: (T, T) -> bool, s: seq<T>)
    requires Pairwise(before, s)
    ensures Pairwise(before, Filter(keep, s))
  {
    if s == [] {
    } else {
      var front, last := s[..|s| - 1], s[|s| - 1];
      FilterPairwise(keep, before, front);
      var kept := Filter(keep, front);
      forall i | 0 <= i < |kept| ensures before(kept[i], last) {
        FilterIn(keep, front, kept[i]);
        var k :| 0 <= k < |front| && front[k] == kept[i];
        assert s[k] == kept[i];
      }
    }
  }

  lemma {:induction false} SubsetSize<T>(a: set<T>, b: set<T>)
    requires a <= b
    ensures |a| <= |b|
    decreases b
  {
    if x :| x in a {
      SubsetSize(a - {x}, b - {x});
    }
  }
}
