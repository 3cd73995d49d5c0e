/**
  The two library sorts the sources call, as one function: a stable sort by an
  integer key.  Callers of the unstable std::sort rely only on SortBy's being
  an ordered permutation.
 */
module Sorting {

  ghost predicate SortedBy<T>(key: T -> int, s: seq<T>) {
    forall i, j | 0 <= i < j < |s| :: key(s[i]) <= key(s[j])
  }

  /** Puts x behind every element whose key is not greater. */
  function InsertBy<T>(key: T -> int, s: seq<T>, x: T): (r: seq<T>)
    ensures |r| == |s| + 1
  {
    if s == [] || key(s[|s| - 1]) <= key(x) then s + [x]
    else InsertBy(key, s[..|s| - 1], x) + [s[|s| - 1]]
  }

  function SortBy<T>(key: T -> int, s: seq<T>): (r: seq<T>)
    ensures |r| == |s|
  {
    if s == [] then [] else InsertBy(key, SortBy(key, s[..|s| - 1]), s[|s| - 1])
  }

  /** The elements with key k, in order. */
  ghost function WithKey<T>(key: T -> int, s: seq<T>, k: int): (r: seq<T>)
    ensures forall x | x in r :: key(x) == k
  {
    if s == [] then []
    else WithKey(key, s[..|s| - 1], k) + if key(s[|s| - 1]) == k then [s[|s| - 1]] else []
  }

  lemma SplitLast<T>(s: seq<T>)
    requires s != []
    ensures s == s[..|s| - 1] + [s[|s| - 1]]
    ensures multiset(s) == multiset(s[..|s| - 1]) + multiset{s[|s| - 1]}
  {
    assert s == s[..|s| - 1] + [s[|s| - 1]];
  }

  lemma {:induction false} InsertByKeeps<T>(key: T -> int, s: seq<T>, x: T)
    ensures multiset(InsertBy(key, s, x)) == multiset(s) + multiset{x}
  {
    if s != [] && key(s[|s| - 1]) > key(x) {
      InsertByKeeps(key, s[..|s| - 1], x);
      SplitLast(s);
    }
  }

  lemma {:induction false} InsertByOrdered<T>(key: T -> int, s: seq<T>, x: T)
    requires SortedBy(key, s)
    ensures SortedBy(key, InsertBy(key, s, x))
  {
    if s != [] && key(s[|s| - 1]) > key(x) {
      var head, last := s[..|s| - 1], s[|s| - 1];
      var inner := InsertBy(key, head, x);
      InsertByOrdered(key, head, x);
      InsertByKeeps(key, head, x);
      forall i | 0 <= i < |inner|
        ensures key(inner[i]) <= key(last)
      {
        assert inner[i] in multiset(inner);
        assert inner[i] in head || inner[i] == x;
      }
    }
  }

  lemma {:induction false} InsertByStable<T>(key: T -> int, s: seq<T>, x: T, k: int)
    requires SortedBy(key, s)
    ensures WithKey(key, InsertBy(key, s, x), k) == WithKey(key, s, k) + if key(x) == k then [x] else []
  {
    var r := InsertBy(key, s, x);
    if s == [] || key(s[|s| - 1]) <= key(x) {
      assert r[..|r| - 1] == s;
    } else {
      var head, last := s[..|s| - 1], s[|s| - 1];
      InsertByStable(key, head, x, k);
      assert r[..|r| - 1] == InsertBy(key, head, x);
      if key(x) == k {
        assert WithKey(key, s, k) == WithKey(key, head, k);
      }
    }
  }

  /** Ordered, the same elements, and elements of equal key still in their old order. */
  lemma {:induction false} SortByIsStableSort<T>(key: T -> int, s: seq<T>)
    ensures SortedBy(key, SortBy(key, s))
    ensures multiset(SortBy(key, s)) == multiset(s)
    ensures forall k :: WithKey(key, SortBy(key, s), k) == WithKey(key, s, k)
  {
    if s != [] {
      SortByIsStableSort(key, s[..|s| - 1]);
      var head := SortBy(key, s[..|s| - 1]);
      InsertByKeeps(key, head, s[|s| - 1]);
      InsertByOrdered(key, head, s[|s| - 1]);
      forall k
        ensures WithKey(key, SortBy(key, s), k) == WithKey(key, s, k)
      {
        InsertByStable(key, head, s[|s| - 1], k);
      }
      SplitLast(s);
    }
  }

  /** Nothing else is ordered and stable: the result is determined. */
  lemma {:induction false} StableSortIsUnique<T>(key: T -> int, r: seq<T>, s: seq<T>)
    requires SortedBy(key, r) && SortedBy(key, s)
    requires forall k :: WithKey(key, r, k) == WithKey(key, s, k)
    ensures r == s
    decreases |r|
  {
    if r == [] || s == [] {
      LastIsWithKey(key, r);
      LastIsWithKey(key, s);
    } else {
      var x, y := r[|r| - 1], s[|s| - 1];
      if key(y) < key(x) {
        SmallKeysOnly(key, s, key(x));
      } else if key(x) < key(y) {
        SmallKeysOnly(key, r, key(y));
      }
      assert WithKey(key, r, key(x))[|WithKey(key, r, key(x))| - 1] == x;
      assert WithKey(key, s, key(y))[|WithKey(key, s, key(y))| - 1] == y;
      assert key(x) == key(y);
      var r', s' := r[..|r| - 1], s[..|s| - 1];
      forall k
        ensures WithKey(key, r', k) == WithKey(key, s', k)
      {
        var a, b := WithKey(key, r, k), WithKey(key, s, k);
        if k == key(x) {
          assert WithKey(key, r', k) == a[..|a| - 1] && WithKey(key, s', k) == b[..|b| - 1];
        } else {
          assert WithKey(key, r', k) == a && WithKey(key, s', k) == b;
        }
      }
      StableSortIsUnique(key, r', s');
      SplitLast(r);
      SplitLast(s);
    }
  }

  lemma LastIsWithKey<T>(key: T -> int, s: seq<T>)
    ensures s != [] ==> WithKey(key, s, key(s[|s| - 1])) != []
  {}

  lemma {:induction false} SmallKeysOnly<T>(key: T -> int, s: seq<T>, k: int)
    requires SortedBy(key, s) && s != [] && key(s[|s| - 1]) < k
    ensures WithKey(key, s, k) == []
  {
    if |s| > 1 {
      SmallKeysOnly(key, s[..|s| - 1], k);
    }
  }
}
