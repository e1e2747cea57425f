/**
 * Python's `list.sort(key=..., reverse=True)` and `sorted(..., reverse=True)`:
 * a stable sort into descending key order. Elements with equal keys keep
 * their relative order, which makes the result unique; it is written here
 * as an insertion sort.
 */
module StableSort {

  predicate SortedDesc<T>(s: seq<T>, key: T -> real) {
    forall i, j :: 0 <= i < j < |s| ==> key(s[i]) >= key(s[j])
  }

  /** The elements of `s` whose key is `k`, in order. */
  function WithKey<T>(s: seq<T>, key: T -> real, k: real): seq<T> {
    if s == [] then [] else (if key(s[0]) == k then [s[0]] else []) + WithKey(s[1..], key, k)
  }

  /** Insert `x` before the first element whose key is not larger. */
  function Insert<T>(x: T, s: seq<T>, key: T -> real): (r: seq<T>)
    ensures multiset(r) == multiset(s) + multiset{x} && |r| == |s| + 1
  {
    if s == [] || key(x) >= key(s[0]) then [x] + s
    else
      assert s == [s[0]] + s[1..];
      [s[0]] + Insert(x, s[1..], key)
  }

  /** An upper bound on every key survives an insertion that respects it. */
  lemma {:induction false} InsertBounded<T>(x: T, s: seq<T>, key: T -> real, b: real)
    requires key(x) <= b && forall i :: 0 <= i < |s| ==> key(s[i]) <= b
    ensures forall i :: 0 <= i < |Insert(x, s, key)| ==> key(Insert(x, s, key)[i]) <= b
    decreases |s|
  {
    if s != [] && key(x) < key(s[0]) {
      InsertBounded(x, s[1..], key, b);
    }
  }

  /** Inserting into a sorted sequence keeps it sorted. */
  lemma {:induction false} InsertSorted<T>(x: T, s: seq<T>, key: T -> real)
    requires SortedDesc(s, key)
    ensures SortedDesc(Insert(x, s, key), key)
    decreases |s|
  {
    if s != [] && key(x) < key(s[0]) {
      var rest := s[1..];
      assert SortedDesc(rest, key) by {
        forall i, j | 0 <= i < j < |rest|
          ensures key(rest[i]) >= key(rest[j])
        {
          assert rest[i] == s[i + 1] && rest[j] == s[j + 1];
        }
      }
      InsertSorted(x, rest, key);
      assert forall i :: 0 <= i < |rest| ==> key(rest[i]) <= key(s[0]) by {
        forall i | 0 <= i < |rest|
          ensures key(rest[i]) <= key(s[0])
        {
          assert rest[i] == s[i + 1];
        }
      }
      InsertBounded(x, rest, key, key(s[0]));
    }
  }

  /** The sorted sequence, descending by key, equal keys in input order. */
  function SortDesc<T>(s: seq<T>, key: T -> real): (r: seq<T>)
    ensures SortedDesc(r, key)
    ensures multiset(r) == multiset(s) && |r| == |s|
  {
    if s == [] then []
    else
      assert s == [s[0]] + s[1..];
      var t := SortDesc(s[1..], key);
      InsertSorted(s[0], t, key);
      Insert(s[0], t, key)
  }

  lemma {:induction false} InsertWithKey<T>(x: T, s: seq<T>, key: T -> real, k: real)
    ensures WithKey(Insert(x, s, key), key, k) == (if key(x) == k then [x] else []) + WithKey(s, key, k)
    decreases |s|
  {
    if s == [] || key(x) >= key(s[0]) {
      var r := [x] + s;
      assert r[0] == x && r[1..] == s;
    } else {
      var t := Insert(x, s[1..], key);
      InsertWithKey(x, s[1..], key, k);
      var r := [s[0]] + t;
      assert r[0] == s[0] && r[1..] == t;
      var head := if key(s[0]) == k then [s[0]] else [];
      var mid := if key(x) == k then [x] else [];
      assert WithKey(r, key, k) == head + (mid + WithKey(s[1..], key, k));
      assert WithKey(s, key, k) == head + WithKey(s[1..], key, k);
    }
  }

  /** Stability: among elements with one key, the sort keeps the input order. */
  lemma {:induction false} SortDescStable<T>(s: seq<T>, key: T -> real, k: real)
    ensures WithKey(SortDesc(s, key), key, k) == WithKey(s, key, k)
    decreases |s|
  {
    if s != [] {
      SortDescStable(s[1..], key, k);
      InsertWithKey(s[0], SortDesc(s[1..], key), key, k);
    }
  }

  /** Sorting a sequence that is already in descending order changes nothing. */
  lemma {:induction false} SortDescSorted<T>(s: seq<T>, key: T -> real)
    requires SortedDesc(s, key)
    ensures SortDesc(s, key) == s
    decreases |s|
  {
    if s != [] {
      assert SortedDesc(s[1..], key) by {
        forall i, j | 0 <= i < j < |s[1..]|
          ensures key(s[1..][i]) >= key(s[1..][j])
        {
          assert s[1..][i] == s[i + 1] && s[1..][j] == s[j + 1];
        }
      }
      SortDescSorted(s[1..], key);
      if |s| > 1 {
        assert key(s[0]) >= key(s[1]);
      }
      assert [s[0]] + s[1..] == s;
    }
  }
}
