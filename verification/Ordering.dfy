/**
  The total order that Rust derives for enums, structs, vectors, strings, options and sets, stated
  once on a tree of keys, together with the sorting and deduplication built on it.

  A value is ordered through its key: an enum value is the node of its variant index and its
  fields, a struct the node of its fields, a vector or string the node of its elements, a set the
  node of its members in ascending order.
 */
module Ordering {

  datatype Key = Atom(n: int) | Node(items: seq<Key>)

  predicate Less(a: Key, b: Key)
    decreases a
  {
    match a
    case Atom(m) => b.Node? || m < b.n
    case Node(xs) => b.Node? && LessItems(xs, b.items)
  }

  /** Lexicographic: the first difference decides, and a proper prefix is smaller. */
  predicate LessItems(xs: seq<Key>, ys: seq<Key>)
    decreases xs
  {
    ys != [] && (xs == [] || Less(xs[0], ys[0]) || (xs[0] == ys[0] && LessItems(xs[1..], ys[1..])))
  }

  lemma {:induction false} LessTotal(a: Key, b: Key)
    ensures Less(a, b) || a == b || Less(b, a)
    decreases a
  {
    if a.Node? && b.Node? {
      LessItemsTotal(a.items, b.items);
    }
  }

  lemma {:induction false} LessItemsTotal(xs: seq<Key>, ys: seq<Key>)
    ensures LessItems(xs, ys) || xs == ys || LessItems(ys, xs)
    decreases xs
  {
    if xs != [] && ys != [] {
      LessTotal(xs[0], ys[0]);
      LessItemsTotal(xs[1..], ys[1..]);
      assert xs == [xs[0]] + xs[1..] && ys == [ys[0]] + ys[1..];
    }
  }

  lemma {:induction false} LessTransitive(a: Key, b: Key, c: Key)
    requires Less(a, b) && Less(b, c)
    ensures Less(a, c)
    decreases a
  {
    if a.Node? && b.Node? && c.Node? {
      LessItemsTransitive(a.items, b.items, c.items);
    }
  }

  lemma {:induction false} LessItemsTransitive(xs: seq<Key>, ys: seq<Key>, zs: seq<Key>)
    requires LessItems(xs, ys) && LessItems(ys, zs)
    ensures LessItems(xs, zs)
    decreases xs
  {
    if xs == [] {
    } else {
      if Less(xs[0], ys[0]) && Less(ys[0], zs[0]) {
        LessTransitive(xs[0], ys[0], zs[0]);
      } else if xs[0] == ys[0] && ys[0] == zs[0] && LessItems(xs[1..], ys[1..]) && LessItems(ys[1..], zs[1..]) {
        LessItemsTransitive(xs[1..], ys[1..], zs[1..]);
      }
    }
  }

  lemma {:induction false} LessIrreflexive(a: Key)
    ensures !Less(a, a)
    decreases a
  {
    if a.Node? {
      LessItemsIrreflexive(a.items);
    }
  }

  lemma {:induction false} LessItemsIrreflexive(xs: seq<Key>)
    ensures !LessItems(xs, xs)
    decreases xs
  {
    if xs == [] {
    } else {
      LessIrreflexive(xs[0]);
      LessItemsIrreflexive(xs[1..]);
    }
  }

  // ----- Stable sorting by a key -----

  ghost predicate SortedBy<T>(s: seq<T>, key: T -> Key) {
    forall i, j :: 0 <= i < j < |s| ==> !Less(key(s[j]), key(s[i]))
  }

  ghost predicate DistinctBy<T>(s: seq<T>, key: T -> Key) {
    forall i, j :: 0 <= i < j < |s| ==> key(s[i]) != key(s[j])
  }

  /** `x` goes before every element that is not smaller, so equal keys keep their order. */
  function Insert<T>(x: T, s: seq<T>, key: T -> Key): seq<T> {
    if s != [] && Less(key(s[0]), key(x)) then [s[0]] + Insert(x, s[1..], key) else [x] + s
  }

  function SortBy<T>(s: seq<T>, key: T -> Key): seq<T> {
    if s == [] then [] else Insert(s[0], SortBy(s[1..], key), key)
  }

  lemma {:induction false} InsertMembers<T>(x: T, s: seq<T>, key: T -> Key)
    ensures multiset(Insert(x, s, key)) == multiset([x]) + multiset(s)
    ensures |Insert(x, s, key)| == |s| + 1
  {
    if s != [] && Less(key(s[0]), key(x)) {
      InsertMembers(x, s[1..], key);
      assert s == [s[0]] + s[1..];
    }
  }

  lemma {:induction false} InsertSorted<T>(x: T, s: seq<T>, key: T -> Key)
    requires SortedBy(s, key)
    ensures SortedBy(Insert(x, s, key), key)
  {
    var r := Insert(x, s, key);
    if s != [] && Less(key(s[0]), key(x)) {
      InsertSorted(x, s[1..], key);
      InsertMembers(x, s[1..], key);
      var rest := Insert(x, s[1..], key);
      forall j | 0 <= j < |rest| ensures !Less(key(rest[j]), key(s[0])) {
        assert rest[j] in multiset(rest);
        if rest[j] == x {
          if Less(key(x), key(s[0])) {
            LessTransitive(key(x), key(s[0]), key(x));
            LessIrreflexive(key(x));
          }
        } else {
          assert rest[j] in s[1..];
        }
      }
    } else {
      forall j | 0 <= j < |s| ensures !Less(key(s[j]), key(x)) {
        if j > 0 && Less(key(s[j]), key(x)) {
          LessTotal(key(s[0]), key(s[j]));
          if Less(key(s[0]), key(s[j])) {
            LessTransitive(key(s[0]), key(s[j]), key(x));
          }
        }
      }
    }
  }

  lemma {:induction false} SortByMembers<T>(s: seq<T>, key: T -> Key)
    ensures multiset(SortBy(s, key)) == multiset(s) && |SortBy(s, key)| == |s|
  {
    if s == [] {
    } else {
      SortByMembers(s[1..], key);
      InsertMembers(s[0], SortBy(s[1..], key), key);
      assert s == [s[0]] + s[1..];
    }
  }

  lemma {:induction false} SortBySorted<T>(s: seq<T>, key: T -> Key)
    ensures SortedBy(SortBy(s, key), key)
  {
    if s == [] {
    } else {
      SortBySorted(s[1..], key);
      InsertSorted(s[0], SortBy(s[1..], key), key);
    }
  }

  /** A sorted list is left alone. */
  lemma {:induction false} SortByFixed<T>(s: seq<T>, key: T -> Key)
    requires SortedBy(s, key)
    ensures SortBy(s, key) == s
  {
    if s == [] {
    } else {
      SortByFixed(s[1..], key);
      if |s| > 1 {
        assert s[1..][0] == s[1];
      }
      assert s == [s[0]] + s[1..];
    }
  }

  ghost predicate DeterminedBy<T>(s: seq<T>, key: T -> Key) {
    forall i, j :: 0 <= i < |s| && 0 <= j < |s| && key(s[i]) == key(s[j]) ==> s[i] == s[j]
  }

  lemma DistinctDetermines<T>(s: seq<T>, key: T -> Key)
    requires DistinctBy(s, key)
    ensures DeterminedBy(s, key)
  {
  }

  /** If keys tell the elements apart there is only one sorted arrangement. */
  lemma {:induction false} SortedUnique<T>(s: seq<T>, t: seq<T>, key: T -> Key)
    requires SortedBy(s, key) && SortedBy(t, key) && multiset(s) == multiset(t) && DeterminedBy(s, key)
    ensures s == t
  {
    assert |s| == |t| by { assert |multiset(s)| == |multiset(t)|; }
    if s != [] {
      SortedFirst(s, t, key);
      MultisetTail(s);
      MultisetTail(t);
      SortedUnique(s[1..], t[1..], key);
      assert s == [s[0]] + s[1..] && t == [t[0]] + t[1..];
    }
  }

  lemma SortedFirst<T>(s: seq<T>, t: seq<T>, key: T -> Key)
    requires SortedBy(s, key) && SortedBy(t, key) && multiset(s) == multiset(t) && DeterminedBy(s, key)
    requires s != [] && t != []
    ensures s[0] == t[0]
  {
    assert t[0] in multiset(s) && s[0] in multiset(t);
    var i :| 0 <= i < |s| && s[i] == t[0];
    var j :| 0 <= j < |t| && t[j] == s[0];
    LessTotal(key(s[0]), key(s[i]));
  }

  lemma MultisetTail<T>(s: seq<T>)
    requires s != []
    ensures multiset(s[1..]) == multiset(s) - multiset([s[0]])
  {
    assert s == [s[0]] + s[1..];
  }

  lemma SortByPermutation<T>(s: seq<T>, t: seq<T>, key: T -> Key)
    requires multiset(s) == multiset(t) && DistinctBy(s, key)
    ensures SortBy(s, key) == SortBy(t, key)
  {
    SortByMembers(s, key);
    SortByMembers(t, key);
    SortBySorted(s, key);
    SortBySorted(t, key);
    DistinctPermuted(s, SortBy(s, key), key);
    DistinctDetermines(SortBy(s, key), key);
    SortedUnique(SortBy(s, key), SortBy(t, key), key);
  }

  lemma {:induction false} DistinctPermuted<T>(s: seq<T>, t: seq<T>, key: T -> Key)
    requires multiset(s) == multiset(t) && DistinctBy(s, key)
    ensures DistinctBy(t, key)
  {
    forall i, j | 0 <= i < j < |t| ensures key(t[i]) != key(t[j]) {
      if key(t[i]) == key(t[j]) {
        assert t[i] in multiset(s) && t[j] in multiset(s);
        var i' :| 0 <= i' < |s| && s[i'] == t[i];
        var j' :| 0 <= j' < |s| && s[j'] == t[j];
        if i' == j' {
          RepeatedCount(t, i, j);
          SingleCount(s, i', key);
        }
      }
    }
  }

  lemma RepeatedCount<T>(t: seq<T>, i: nat, j: nat)
    requires i < j < |t| && t[i] == t[j]
    ensures multiset(t)[t[i]] >= 2
  {
    assert t == t[..i] + [t[i]] + t[i + 1..j] + [t[j]] + t[j + 1..];
  }

  lemma SingleCount<T>(s: seq<T>, i: nat, key: T -> Key)
    requires i < |s| && DistinctBy(s, key)
    ensures multiset(s)[s[i]] == 1
  {
    assert s == s[..i] + [s[i]] + s[i + 1..];
    assert s[i] !in s[..i] && s[i] !in s[i + 1..];
  }

  // ----- Sorted sets -----

  /** Strictly ascending: the iteration order of a `BTreeSet`. */
  ghost predicate Strict<T>(s: seq<T>, key: T -> Key) {
    forall i, j :: 0 <= i < j < |s| ==> Less(key(s[i]), key(s[j]))
  }

  /** `BTreeSet::insert`: an element that compares equal to one already there changes nothing. */
  function Include<T>(x: T, s: seq<T>, key: T -> Key): seq<T> {
    if s == [] then [x]
    else if Less(key(s[0]), key(x)) then [s[0]] + Include(x, s[1..], key)
    else if key(s[0]) == key(x) then s
    else [x] + s
  }

  function IncludeAll<T>(xs: seq<T>, s: seq<T>, key: T -> Key): seq<T> {
    if xs == [] then s else IncludeAll(xs[1..], Include(xs[0], s, key), key)
  }

  ghost predicate Injective<T(!new)>(key: T -> Key) {
    forall x, y :: key(x) == key(y) ==> x == y
  }

  lemma {:induction false} IncludeFacts<T(!new)>(x: T, s: seq<T>, key: T -> Key)
    requires Strict(s, key) && Injective(key)
    ensures Strict(Include(x, s, key), key)
    ensures forall y :: y in Include(x, s, key) <==> y == x || y in s
  {
    if s == [] {
    } else {
      assert s == [s[0]] + s[1..];
      if Less(key(s[0]), key(x)) {
        IncludeFacts(x, s[1..], key);
        var rest := Include(x, s[1..], key);
        forall j | 0 <= j < |rest| ensures Less(key(s[0]), key(rest[j])) {
          assert rest[j] in rest;
        }
      } else if key(s[0]) != key(x) {
        LessTotal(key(s[0]), key(x));
        forall j | 0 <= j < |s| ensures Less(key(x), key(s[j])) {
          if j > 0 {
            LessTransitive(key(x), key(s[0]), key(s[j]));
          }
        }
      }
    }
  }

  lemma {:induction false} IncludeAllFacts<T(!new)>(xs: seq<T>, s: seq<T>, key: T -> Key)
    requires Strict(s, key) && Injective(key)
    ensures Strict(IncludeAll(xs, s, key), key)
    ensures forall y :: y in IncludeAll(xs, s, key) <==> y in xs || y in s
  {
    if xs == [] {
    } else {
      IncludeFacts(xs[0], s, key);
      IncludeAllFacts(xs[1..], Include(xs[0], s, key), key);
      assert forall y :: y in xs <==> y == xs[0] || y in xs[1..];
    }
  }

  /** A sorted set is determined by its members. */
  lemma {:induction false} StrictUnique<T>(s: seq<T>, t: seq<T>, key: T -> Key)
    requires Strict(s, key) && Strict(t, key) && forall y :: y in s <==> y in t
    ensures s == t
  {
    if s != [] && t != [] {
      assert s[0] in t && t[0] in s by { assert s[0] in s && t[0] in t; }
      var i :| 0 <= i < |t| && t[i] == s[0];
      var j :| 0 <= j < |s| && s[j] == t[0];
      if i != 0 && j != 0 {
        LessTransitive(key(t[0]), key(t[i]), key(s[j]));
        LessIrreflexive(key(t[0]));
      }
      assert s[0] == t[0];
      forall y ensures y in s[1..] <==> y in t[1..] {
        StrictTail(s, y, key);
        StrictTail(t, y, key);
      }
      StrictUnique(s[1..], t[1..], key);
    } else if s != [] {
      Nonempty(s);
    } else if t != [] {
      Nonempty(t);
    }
  }

  lemma Nonempty<T>(s: seq<T>)
    requires s != []
    ensures exists y :: y in s
  {
    assert s[0] in s;
  }

  lemma StrictTail<T>(s: seq<T>, y: T, key: T -> Key)
    requires Strict(s, key) && s != []
    ensures y in s[1..] <==> y in s && y != s[0]
  {
    if y in s[1..] {
      LessIrreflexive(key(y));
    }
  }

  // ----- `Vec::dedup` -----

  /** Removes every element that equals the one just before it. */
  function Dedup<T(==)>(s: seq<T>): seq<T> {
    if |s| <= 1 then s
    else if s[0] == s[1] then Dedup(s[1..])
    else [s[0]] + Dedup(s[1..])
  }

  lemma {:induction false} DedupFacts<T>(s: seq<T>)
    ensures s != [] ==> Dedup(s) != [] && Dedup(s)[0] == s[0]
    ensures forall y :: y in Dedup(s) <==> y in s
  {
    if |s| <= 1 {
    } else {
      DedupFacts(s[1..]);
      assert forall y :: y in s <==> y == s[0] || y in s[1..];
    }
  }

  /** Sorting and then removing repetitions gives the sorted set. */
  lemma {:induction false} DedupStrict<T(!new)>(s: seq<T>, key: T -> Key)
    requires SortedBy(s, key) && Injective(key)
    ensures Strict(Dedup(s), key)
  {
    if |s| <= 1 {
    } else {
      DedupStrict(s[1..], key);
      DedupFacts(s[1..]);
      var rest := Dedup(s[1..]);
      if s[0] != s[1] {
        forall j | 0 <= j < |rest| ensures Less(key(s[0]), key(rest[j])) {
          LessTotal(key(s[0]), key(s[1]));
          if j > 0 {
            LessTransitive(key(s[0]), key(rest[0]), key(rest[j]));
          }
        }
      }
    }
  }

  lemma {:induction false} DedupFixed<T>(s: seq<T>, key: T -> Key)
    requires Strict(s, key)
    ensures Dedup(s) == s
  {
    if |s| <= 1 {
    } else {
      LessIrreflexive(key(s[0]));
      DedupFixed(s[1..], key);
      assert s == [s[0]] + s[1..];
    }
  }

  lemma StrictSorted<T>(s: seq<T>, key: T -> Key)
    requires Strict(s, key)
    ensures SortedBy(s, key)
  {
    forall i, j | 0 <= i < j < |s| ensures !Less(key(s[j]), key(s[i])) {
      if Less(key(s[j]), key(s[i])) {
        LessTransitive(key(s[i]), key(s[j]), key(s[i]));
        LessIrreflexive(key(s[i]));
      }
    }
  }

  function SortedSet<T(==)>(s: seq<T>, key: T -> Key): seq<T> {
    Dedup(SortBy(s, key))
  }

  lemma SortedSetFacts<T(!new)>(s: seq<T>, key: T -> Key)
    requires Injective(key)
    ensures Strict(SortedSet(s, key), key)
    ensures forall y :: y in SortedSet(s, key) <==> y in s
  {
    SortBySorted(s, key);
    SortByMembers(s, key);
    DedupStrict(SortBy(s, key), key);
    DedupFacts(SortBy(s, key));
    forall y ensures y in SortBy(s, key) <==> y in s {
      assert y in multiset(s) <==> y in multiset(SortBy(s, key));
    }
  }

  lemma SortedSetFixed<T>(s: seq<T>, key: T -> Key)
    requires Strict(s, key)
    ensures SortedSet(s, key) == s
  {
    StrictSorted(s, key);
    SortByFixed(s, key);
    DedupFixed(s, key);
  }

  lemma DedupMember<T>(s: seq<T>, y: T)
    requires y in Dedup(s)
    ensures exists i :: 0 <= i < |s| && s[i] == y
  {
    DedupFacts(s);
  }

  lemma {:induction false} DedupSorted<T>(s: seq<T>, key: T -> Key)
    requires SortedBy(s, key)
    ensures SortedBy(Dedup(s), key)
  {
    if |s| <= 1 {
    } else {
      DedupSorted(s[1..], key);
      var rest := Dedup(s[1..]);
      forall j | 0 <= j < |rest| ensures !Less(key(rest[j]), key(s[0])) {
        DedupMember(s[1..], rest[j]);
        var i :| 0 <= i < |s[1..]| && s[1..][i] == rest[j];
        assert s[i + 1] == rest[j];
      }
    }
  }

  lemma {:induction false} DedupTwice<T>(s: seq<T>)
    ensures Dedup(Dedup(s)) == Dedup(s)
  {
    if |s| <= 1 {
    } else {
      DedupTwice(s[1..]);
      DedupFacts(s[1..]);
      var rest := Dedup(s[1..]);
      assert ([s[0]] + rest)[1..] == rest;
    }
  }

  lemma SortedSetTwice<T>(s: seq<T>, key: T -> Key)
    ensures SortedSet(SortedSet(s, key), key) == SortedSet(s, key)
  {
    SortBySorted(s, key);
    DedupSorted(SortBy(s, key), key);
    SortByFixed(SortedSet(s, key), key);
    DedupTwice(SortBy(s, key));
  }

  // ----- Keys of the building blocks -----

  function BoolKey(b: bool): Key { Atom(if b then 1 else 0) }

  function StringKey(s: string): Key { Node(seq(|s|, i requires 0 <= i < |s| => Atom(s[i] as int))) }

  function NatsKey(s: seq<nat>): Key { Node(seq(|s|, i requires 0 <= i < |s| => Atom(s[i]))) }

  lemma StringKeyInjective(a: string, b: string)
    requires StringKey(a) == StringKey(b)
    ensures a == b
  {
    var x, y := StringKey(a).items, StringKey(b).items;
    assert |x| == |a| && |y| == |b|;
    forall i | 0 <= i < |a| ensures a[i] == b[i] {
      assert x[i] == Atom(a[i] as int) && y[i] == Atom(b[i] as int);
    }
  }

  lemma NatsKeyInjective(a: seq<nat>, b: seq<nat>)
    requires NatsKey(a) == NatsKey(b)
    ensures a == b
  {
    var x, y := NatsKey(a).items, NatsKey(b).items;
    assert |x| == |a| && |y| == |b|;
    forall i | 0 <= i < |a| ensures a[i] == b[i] {
      assert x[i] == Atom(a[i]) && y[i] == Atom(b[i]);
    }
  }

  lemma {:induction false} LargestExists(s: set<nat>)
    requires s != {}
    ensures exists m :: m in s && forall x :: x in s ==> x <= m
    decreases |s|
  {
    var m :| m in s;
    if s - {m} != {} {
      LargestExists(s - {m});
      var k :| k in s - {m} && forall x :: x in s - {m} ==> x <= k;
      var top := if m < k then k else m;
      assert forall x :: x in s ==> x == m || x in s - {m};
      assert top in s && forall x :: x in s ==> x <= top;
    } else {
      assert s == {m};
    }
  }

  /** The members of a set in ascending order. */
  function Ascending(s: set<nat>): seq<nat>
    decreases |s|
  {
    if s == {} then []
    else
      LargestExists(s);
      var m :| m in s && forall x :: x in s ==> x <= m;
      Ascending(s - {m}) + [m]
  }

  lemma {:induction false} AscendingMembers(s: set<nat>)
    ensures forall x :: x in Ascending(s) <==> x in s
    decreases |s|
  {
    if s != {} {
      LargestExists(s);
      var m :| m in s && forall x :: x in s ==> x <= m;
      AscendingMembers(s - {m});
      assert Ascending(s) == Ascending(s - {m}) + [m];
    }
  }

  function SetKey(s: set<nat>): Key { NatsKey(Ascending(s)) }

  lemma SetKeyInjective(a: set<nat>, b: set<nat>)
    requires SetKey(a) == SetKey(b)
    ensures a == b
  {
    NatsKeyInjective(Ascending(a), Ascending(b));
    AscendingMembers(a);
    AscendingMembers(b);
  }
}
