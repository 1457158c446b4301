/** Sorting by a key, elements of one key staying in the order they were in. */
module Sorting {
  /** No key comes after a greater one. */
  ghost predicate Ordered<T>(s: seq<T>, key: T -> int) {
    forall i, j :: 0 <= i < j < |s| ==> key(s[i]) <= key(s[j])
  }

  /** The elements with this key, in their order. */
  ghost function Having<T>(s: seq<T>, key: T -> int, k: int): seq<T> {
    if s == [] then []
    else Having(s[..|s| - 1], key, k) + if key(s[|s| - 1]) == k then [s[|s| - 1]] else []
  }

  /** `t` is `s` in order of key, with ties as they were. */
  ghost predicate IsSorted<T>(s: seq<T>, t: seq<T>, key: T -> int) {
    Ordered(t, key) && multiset(t) == multiset(s) && forall k :: Having(t, key, k) == Having(s, key, k)
  }

  function Insert<T>(s: seq<T>, x: T, key: T -> int): seq<T> {
    if s == [] || key(s[|s| - 1]) <= key(x) then s + [x]
    else Insert(s[..|s| - 1], x, key) + [s[|s| - 1]]
  }

  function Sorted<T>(s: seq<T>, key: T -> int): seq<T> {
    if s == [] then [] else Insert(Sorted(s[..|s| - 1], key), s[|s| - 1], key)
  }

  lemma OneAfter<T>(s: seq<T>, x: T, key: T -> int)
    requires Ordered(s, key) && forall y :: y in multiset(s) ==> key(y) <= key(x)
    ensures Ordered(s + [x], key)
  {
    forall i, j | 0 <= i < j < |s + [x]| ensures key((s + [x])[i]) <= key((s + [x])[j]) {
      assert (s + [x])[i] in multiset(s);
    }
  }

  lemma {:induction false} InsertKeeps<T>(s: seq<T>, x: T, key: T -> int)
    ensures multiset(Insert(s, x, key)) == multiset(s) + multiset{x}
    decreases |s|
  {
    if s != [] && key(s[|s| - 1]) > key(x) {
      assert s == s[..|s| - 1] + [s[|s| - 1]];
      InsertKeeps(s[..|s| - 1], x, key);
    }
  }

  lemma {:induction false} InsertSorts<T>(s: seq<T>, x: T, key: T -> int)
    requires Ordered(s, key)
    ensures Ordered(Insert(s, x, key), key)
    decreases |s|
  {
    if s == [] || key(s[|s| - 1]) <= key(x) {
      forall y | y in multiset(s) ensures key(y) <= key(x) {
        assert y in s;
      }
      OneAfter(s, x, key);
    } else {
      var init, last := s[..|s| - 1], s[|s| - 1];
      InsertSorts(init, x, key);
      InsertKeeps(init, x, key);
      forall y | y in multiset(Insert(init, x, key)) ensures key(y) <= key(last) {
        assert y in multiset(init) || y == x;
      }
      OneAfter(Insert(init, x, key), last, key);
    }
  }

  lemma HavingOneMore<T>(s: seq<T>, x: T, key: T -> int, k: int)
    ensures Having(s + [x], key, k) == Having(s, key, k) + if key(x) == k then [x] else []
  {
    assert (s + [x])[..|s|] == s;
  }

  lemma {:induction false} InsertIsStable<T>(s: seq<T>, x: T, key: T -> int, k: int)
    requires Ordered(s, key)
    ensures Having(Insert(s, x, key), key, k) == Having(s, key, k) + if key(x) == k then [x] else []
    decreases |s|
  {
    if s == [] || key(s[|s| - 1]) <= key(x) {
      HavingOneMore(s, x, key, k);
    } else {
      var init, last := s[..|s| - 1], s[|s| - 1];
      InsertIsStable(init, x, key, k);
      HavingOneMore(Insert(init, x, key), last, key, k);
    }
  }

  lemma {:induction false} SortedIs<T>(s: seq<T>, key: T -> int)
    ensures IsSorted(s, Sorted(s, key), key)
    decreases |s|
  {
    if s != [] {
      var init, last := s[..|s| - 1], s[|s| - 1];
      assert s == init + [last];
      SortedIs(init, key);
      InsertKeeps(Sorted(init, key), last, key);
      InsertSorts(Sorted(init, key), last, key);
      forall k ensures Having(Sorted(s, key), key, k) == Having(s, key, k) {
        InsertIsStable(Sorted(init, key), last, key, k);
      }
    }
  }
}
