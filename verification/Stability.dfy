/**
  What a stable sort preserves. It commutes with filtering, so the elements with one key keep their order,
  and nothing else of the order it started from is left.
 */
module Stability {
  import opened Collections
  import opened Ordering

  // ----- Filtering a sorted list -----

  lemma InsertPast<T>(x: T, y: T, s: seq<T>, key: T -> Key)
    requires Less(key(y), key(x))
    ensures Insert(x, [y] + s, key) == [y] + Insert(x, s, key)
  {
    assert ([y] + s)[1..] == s;
  }

  lemma NoneBelow<T>(s: seq<T>, x: T, key: T -> Key, y: T)
    requires SortedBy(s, key) && s != [] && !Less(key(s[0]), key(x)) && y in s
    ensures !Less(key(y), key(x))
  {
    var i :| 0 <= i < |s| && s[i] == y;
    if i > 0 && Less(key(y), key(x)) {
      LessTotal(key(s[0]), key(y));
      if Less(key(s[0]), key(y)) {
        LessTransitive(key(s[0]), key(y), key(x));
      }
    }
  }

  lemma InsertFirst<T>(keep: T -> bool, x: T, s: seq<T>, key: T -> Key)
    requires SortedBy(s, key) && (s == [] || !Less(key(s[0]), key(x)))
    ensures Insert(x, Filter(keep, s), key) == [x] + Filter(keep, s)
  {
    var kept := Filter(keep, s);
    if kept != [] {
      assert kept[0] in kept;
      FilterIn(keep, s, kept[0]);
      NoneBelow(s, x, key, kept[0]);
    }
  }

  ghost predicate InsertionKept<T>(keep: T -> bool, x: T, s: seq<T>, key: T -> Key) {
    Filter(keep, Insert(x, s, key)) == if keep(x) then Insert(x, Filter(keep, s), key) else Filter(keep, s)
  }

  lemma FilterInsertPast<T>(keep: T -> bool, x: T, y: T, s: seq<T>, key: T -> Key)
    requires Less(key(y), key(x)) && InsertionKept(keep, x, s, key)
    ensures InsertionKept(keep, x, [y] + s, key)
  {
    InsertPast(x, y, s, key);
    FilterCons(keep, y, Insert(x, s, key));
    FilterCons(keep, y, s);
    InsertPast(x, y, Filter(keep, s), key);
  }

  lemma {:induction false} FilterInsert<T>(keep: T -> bool, x: T, s: seq<T>, key: T -> Key)
    requires SortedBy(s, key)
    ensures InsertionKept(keep, x, s, key)
  {
    if s != [] && Less(key(s[0]), key(x)) {
      FilterInsert(keep, x, s[1..], key);
      FilterInsertPast(keep, x, s[0], s[1..], key);
      assert s == [s[0]] + s[1..];
    } else {
      FilterCons(keep, x, s);
      InsertFirst(keep, x, s, key);
    }
  }

  /** Filtering commutes with stable sorting. */
  lemma {:induction false} FilterSort<T>(keep: T -> bool, s: seq<T>, key: T -> Key)
    ensures Filter(keep, SortBy(s, key)) == SortBy(Filter(keep, s), key)
  {
    if s == [] {
    } else {
      var rest := s[1..];
      FilterSort(keep, rest, key);
      SortBySorted(rest, key);
      FilterInsert(keep, s[0], SortBy(rest, key), key);
      FilterCons(keep, s[0], rest);
      assert s == [s[0]] + rest;
      assert ([s[0]] + Filter(keep, rest))[1..] == Filter(keep, rest);
    }
  }

  lemma FilterSorted<T>(keep: T -> bool, s: seq<T>, key: T -> Key)
    requires SortedBy(s, key)
    ensures SortedBy(Filter(keep, s), key)
  {
    var before := (x: T, y: T) => !Less(key(y), key(x));
    assert Pairwise(before, s);
    FilterPairwise(keep, before, s);
    assert forall i, j :: 0 <= i < j < |Filter(keep, s)| ==> before(Filter(keep, s)[i], Filter(keep, s)[j]);
  }

  // ----- What a stable sort forgets -----

  function WithKey<T>(key: T -> Key, k: Key): T -> bool { x => key(x) == k }

  /** The same elements, and those with one key in the same order. */
  ghost predicate SameGroups<T>(s: seq<T>, t: seq<T>, key: T -> Key) {
    forall k :: Filter(WithKey(key, k), s) == Filter(WithKey(key, k), t)
  }

  lemma OneKeySorted<T>(s: seq<T>, key: T -> Key, k: Key)
    requires forall i :: 0 <= i < |s| ==> key(s[i]) == k
    ensures SortBy(s, key) == s
  {
    LessIrreflexive(k);
    SortByFixed(s, key);
  }

  /** Sorting keeps the order within each group. */
  lemma SortKeepsGroup<T>(s: seq<T>, key: T -> Key, k: Key)
    ensures Filter(WithKey(key, k), SortBy(s, key)) == Filter(WithKey(key, k), s)
  {
    var group := Filter(WithKey(key, k), s);
    FilterSort(WithKey(key, k), s, key);
    forall i | 0 <= i < |group| ensures key(group[i]) == k {
      FilterIn(WithKey(key, k), s, group[i]);
    }
    OneKeySorted(group, key, k);
  }

  /** The first key of one sorted list is in the other, which therefore does not start later. */
  lemma FirstNotLater<T>(s: seq<T>, t: seq<T>, key: T -> Key)
    requires SortedBy(t, key) && SameGroups(s, t, key) && s != []
    ensures t != [] && !Less(key(s[0]), key(t[0]))
  {
    var k := key(s[0]);
    FilterIn(WithKey(key, k), s, s[0]);
    assert s[0] in Filter(WithKey(key, k), t);
    FilterIn(WithKey(key, k), t, s[0]);
    var i :| 0 <= i < |t| && t[i] == s[0];
    LessIrreflexive(k);
    assert i == 0 || !Less(key(t[i]), key(t[0]));
  }

  lemma GroupTail<T>(s: seq<T>, t: seq<T>, key: T -> Key, k: Key)
    requires s != [] && t != [] && key(s[0]) == key(t[0])
    requires Filter(WithKey(key, k), s) == Filter(WithKey(key, k), t)
    ensures Filter(WithKey(key, k), s[1..]) == Filter(WithKey(key, k), t[1..])
    ensures k == key(s[0]) ==> s[0] == t[0]
  {
    FilterCons(WithKey(key, k), s[0], s[1..]);
    FilterCons(WithKey(key, k), t[0], t[1..]);
    assert s == [s[0]] + s[1..] && t == [t[0]] + t[1..];
    if k == key(s[0]) {
      var a, b := Filter(WithKey(key, k), s[1..]), Filter(WithKey(key, k), t[1..]);
      assert ([s[0]] + a)[0] == ([t[0]] + b)[0];
      assert ([s[0]] + a)[1..] == ([t[0]] + b)[1..];
    }
  }

  lemma {:induction false} SortedGroupsUnique<T>(s: seq<T>, t: seq<T>, key: T -> Key)
    requires SortedBy(s, key) && SortedBy(t, key) && SameGroups(s, t, key)
    ensures s == t
  {
    if s == [] {
      if t != [] {
        FirstNotLater(t, s, key);
      }
    } else {
      FirstNotLater(s, t, key);
      FirstNotLater(t, s, key);
      LessTotal(key(s[0]), key(t[0]));
      forall k ensures Filter(WithKey(key, k), s[1..]) == Filter(WithKey(key, k), t[1..]) {
        GroupTail(s, t, key, k);
      }
      GroupTail(s, t, key, key(s[0]));
      SortedGroupsUnique(s[1..], t[1..], key);
      assert s == [s[0]] + s[1..] && t == [t[0]] + t[1..];
    }
  }

  /** Two lists sort alike exactly if they have the same elements and agree within each group of equal keys. */
  lemma SortsAlike<T>(s: seq<T>, t: seq<T>, key: T -> Key)
    ensures SortBy(s, key) == SortBy(t, key) <==> SameGroups(s, t, key)
  {
    forall k
      ensures Filter(WithKey(key, k), SortBy(s, key)) == Filter(WithKey(key, k), s)
      ensures Filter(WithKey(key, k), SortBy(t, key)) == Filter(WithKey(key, k), t)
    {
      SortKeepsGroup(s, key, k);
      SortKeepsGroup(t, key, k);
    }
    if SameGroups(s, t, key) {
      SortBySorted(s, key);
      SortBySorted(t, key);
      SortedGroupsUnique(SortBy(s, key), SortBy(t, key), key);
    }
  }

  /** If entries with the same key are the same, and in particular if no key repeats, any reordering will do. */
  lemma ReorderedGroups<T>(s: seq<T>, t: seq<T>, key: T -> Key)
    requires multiset(s) == multiset(t) && DeterminedBy(s, key)
    ensures SameGroups(s, t, key)
  {
    var a, b := SortBy(s, key), SortBy(t, key);
    SortByMembers(s, key);
    SortByMembers(t, key);
    SortBySorted(s, key);
    SortBySorted(t, key);
    assert DeterminedBy(a, key) by {
      forall i, j | 0 <= i < |a| && 0 <= j < |a| && key(a[i]) == key(a[j]) ensures a[i] == a[j] {
        assert a[i] in multiset(s) && a[j] in multiset(s);
      }
    }
    SortedUnique(a, b, key);
    SortsAlike(s, t, key);
  }
}
