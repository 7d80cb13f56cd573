/** Python's stable `list.sort(key=...)`, as insertion sort on sequences. */
module Sorting {
  ghost predicate SortedBy<T>(s: seq<T>, key: T -> int) {
    forall i, j :: 0 <= i < j < |s| ==> key(s[i]) <= key(s[j])
  }

  function Insert<T>(x: T, s: seq<T>, le: (T, T) -> bool): seq<T> {
    if s == [] || le(x, s[0]) then [x] + s else [s[0]] + Insert(x, s[1..], le)
  }

  function Sort<T>(s: seq<T>, le: (T, T) -> bool): seq<T> {
    if s == [] then [] else Insert(s[0], Sort(s[1..], le), le)
  }

  function ByKey<T>(key: T -> int): (T, T) -> bool {
    (a, b) => key(a) <= key(b)
  }

  function SortBy<T>(s: seq<T>, key: T -> int): seq<T> {
    Sort(s, ByKey(key))
  }

  /** The elements with one key, in order. */
  ghost function WithKey<T>(s: seq<T>, key: T -> int, k: int): seq<T> {
    if s == [] then [] else (if key(s[0]) == k then [s[0]] else []) + WithKey(s[1..], key, k)
  }

  lemma {:induction false} InsertMembers<T>(x: T, s: seq<T>, le: (T, T) -> bool)
    ensures var r := Insert(x, s, le);
      && multiset(r) == multiset{x} + multiset(s) && |r| == |s| + 1
      && forall y :: y in r ==> y == x || y in s
  {
    if !(s == [] || le(x, s[0])) {
      InsertMembers(x, s[1..], le);
      assert s == [s[0]] + s[1..];
    }
  }

  /** Whatever the comparison, sorting permutes. */
  lemma {:induction false} SortPermutes<T>(s: seq<T>, le: (T, T) -> bool)
    ensures multiset(Sort(s, le)) == multiset(s)
  {
    if s != [] {
      SortPermutes(s[1..], le);
      InsertMembers(s[0], Sort(s[1..], le), le);
      assert s == [s[0]] + s[1..];
    }
  }

  lemma {:induction false} InsertOrdered<T>(x: T, s: seq<T>, key: T -> int)
    requires SortedBy(s, key)
    ensures SortedBy(Insert(x, s, ByKey(key)), key)
  {
    if !(s == [] || key(x) <= key(s[0])) {
      InsertOrdered(x, s[1..], key);
      InsertMembers(x, s[1..], ByKey(key));
      var rest := Insert(x, s[1..], ByKey(key));
      assert forall y :: y in s[1..] ==> key(s[0]) <= key(y);
      forall y | y in rest
        ensures key(s[0]) <= key(y)
      {
        assert y in rest;
        assert y == x || y in s[1..];
      }
      assert forall i :: 0 <= i < |rest| ==> rest[i] in rest;
    }
  }

  lemma {:induction false} InsertStable<T>(x: T, s: seq<T>, key: T -> int, k: int)
    requires SortedBy(s, key)
    ensures WithKey(Insert(x, s, ByKey(key)), key, k) == WithKey([x] + s, key, k)
  {
    hide WithKey;
    if s == [] || key(x) <= key(s[0]) {
      assert Insert(x, s, ByKey(key)) == [x] + s;
    } else {
      var rest := Insert(x, s[1..], ByKey(key));
      InsertStable(x, s[1..], key, k);
      WithKeyCons(s[0], rest, key, k);
      WithKeyCons(x, s[1..], key, k);
      WithKeyCons(x, s, key, k);
      assert s == [s[0]] + s[1..];
      WithKeyCons(s[0], s[1..], key, k);
    }
  }

  lemma WithKeyCons<T>(x: T, s: seq<T>, key: T -> int, k: int)
    ensures WithKey([x] + s, key, k) == (if key(x) == k then [x] else []) + WithKey(s, key, k)
  {
    assert ([x] + s)[1..] == s;
  }

  lemma {:induction false} SortOrders<T>(s: seq<T>, key: T -> int)
    ensures SortedBy(SortBy(s, key), key)
  {
    if s != [] {
      SortOrders(s[1..], key);
      InsertOrdered(s[0], SortBy(s[1..], key), key);
    }
  }

  lemma {:induction false} SortStable<T>(s: seq<T>, key: T -> int, k: int)
    ensures WithKey(SortBy(s, key), key, k) == WithKey(s, key, k)
  {
    if s != [] {
      var t := SortBy(s[1..], key);
      SortStable(s[1..], key, k);
      SortOrders(s[1..], key);
      InsertStable(s[0], t, key, k);
      WithKeyCons(s[0], t, key, k);
    }
  }

  lemma SameMembers<T>(s: seq<T>, t: seq<T>)
    requires multiset(s) == multiset(t)
    ensures |s| == |t| && forall y :: y in s <==> y in t
  {
    assert |multiset(s)| == |s| && |multiset(t)| == |t|;
    forall y
      ensures y in s <==> y in t
    {
      assert y in s <==> y in multiset(s);
    }
  }

  /** Sorting orders, permutes, and is stable. */
  lemma SortByCorrect<T>(s: seq<T>, key: T -> int)
    ensures var r := SortBy(s, key);
      && SortedBy(r, key) && multiset(r) == multiset(s) && |r| == |s|
      && (forall y :: y in r <==> y in s)
      && forall k :: WithKey(r, key, k) == WithKey(s, key, k)
  {
    hide Sort, WithKey;
    SortPermutes(s, ByKey(key));
    SortOrders(s, key);
    SameMembers(SortBy(s, key), s);
    forall k
      ensures WithKey(SortBy(s, key), key, k) == WithKey(s, key, k)
    {
      SortStable(s, key, k);
    }
  }
}
