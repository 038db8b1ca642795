/** `[...xs].sort((a, b) => key(a) - key(b))`: JavaScript's sort is stable
    (ECMAScript 2019), so with a numeric comparator its result is the unique
    stable ascending arrangement. It is modelled by a stable insertion sort. */
module Sorting {

  predicate SortedBy<T>(s: seq<T>, key: T -> int) {
    forall i, j :: 0 <= i < j < |s| ==> key(s[i]) <= key(s[j])
  }

  /** Inserts x in front of the first element whose key is not smaller. */
  function Insert<T>(x: T, s: seq<T>, key: T -> int): (r: seq<T>)
    ensures |r| == |s| + 1
    ensures multiset(r) == multiset(s) + multiset{x}
  {
    if s == [] || key(x) <= key(s[0]) then [x] + s
    else
      assert s == [s[0]] + s[1..];
      [s[0]] + Insert(x, s[1..], key)
  }

  /** Insertion keeps a sorted sequence sorted. */
  lemma {:induction false} InsertSorted<T>(x: T, s: seq<T>, key: T -> int)
    requires SortedBy(s, key)
    ensures SortedBy(Insert(x, s, key), key)
  {
    if s != [] && key(x) > key(s[0]) {
      var t := s[1..];
      var rest := Insert(x, t, key);
      assert SortedBy(t, key);
      InsertSorted(x, t, key);
      forall k | 0 <= k < |rest| ensures key(s[0]) <= key(rest[k]) {
        AtLeastHead(x, s, rest, k, key);
      }
      assert Insert(x, s, key) == [s[0]] + rest;
    }
  }

  /** Every element of the inserted tail keys at least as high as the head. */
  lemma AtLeastHead<T>(x: T, s: seq<T>, rest: seq<T>, k: nat, key: T -> int)
    requires s != [] && key(x) > key(s[0]) && SortedBy(s, key)
    requires multiset(rest) == multiset(s[1..]) + multiset{x}
    requires k < |rest|
    ensures key(s[0]) <= key(rest[k])
  {
    assert rest[k] in multiset(rest);
    if rest[k] != x {
      assert rest[k] in multiset(s[1..]);
      var j :| 0 <= j < |s[1..]| && s[1..][j] == rest[k];
      assert s[j + 1] == rest[k];
    }
  }

  function SortBy<T>(s: seq<T>, key: T -> int): (r: seq<T>)
    ensures |r| == |s|
    ensures multiset(r) == multiset(s)
    ensures SortedBy(r, key)
  {
    if s == [] then []
    else
      assert s == [s[0]] + s[1..];
      var tail := SortBy(s[1..], key);
      InsertSorted(s[0], tail, key);
      Insert(s[0], tail, key)
  }

  /** The elements whose key is k, in their order. */
  function WithKey<T>(s: seq<T>, key: T -> int, k: int): seq<T> {
    if s == [] then [] else (if key(s[0]) == k then [s[0]] else []) + WithKey(s[1..], key, k)
  }

  lemma {:induction false} InsertWithKey<T>(x: T, s: seq<T>, key: T -> int, k: int)
    ensures WithKey(Insert(x, s, key), key, k)
         == (if key(x) == k then [x] else []) + WithKey(s, key, k)
    decreases |s|
  {
    if s == [] || key(x) <= key(s[0]) {
      assert ([x] + s)[1..] == s;
    } else {
      var r := Insert(x, s, key);
      assert r[1..] == Insert(x, s[1..], key);
      InsertWithKey(x, s[1..], key, k);
    }
  }

  /** Stability: among elements with equal keys, the input order is kept. */
  lemma {:induction false} SortByStable<T>(s: seq<T>, key: T -> int, k: int)
    ensures WithKey(SortBy(s, key), key, k) == WithKey(s, key, k)
  {
    if s != [] {
      SortByStable(s[1..], key, k);
      InsertWithKey(s[0], SortBy(s[1..], key), key, k);
    }
  }

  /** An already ordered sequence is left as it is. */
  lemma {:induction false} SortBySortedIsIdentity<T>(s: seq<T>, key: T -> int)
    requires SortedBy(s, key)
    ensures SortBy(s, key) == s
  {
    if s != [] {
      assert SortedBy(s[1..], key);
      SortBySortedIsIdentity(s[1..], key);
      assert s == [s[0]] + s[1..];
    }
  }
}
