/**
 * `Array.prototype.sort` with a consistent comparator. Section 23.1.3.30 of
 * ECMA-262 requires the sort to be stable. Every comparator of the workspace
 * compares one numeric key per value, `compare(a, b) == key(a) - key(b)`, so the
 * sort is specified by that key: the result is ordered by it, and values with
 * the same key keep their input order.
 */
module StableSort {

  /** Keys never decrease from left to right. */
  predicate SortedBy<T>(s: seq<T>, key: T -> real) {
    forall i, j :: 0 <= i < j < |s| ==> key(s[i]) <= key(s[j])
  }

  /** The values whose key is `v`, in their order in `s`. */
  function WithKey<T>(s: seq<T>, key: T -> real, v: real): seq<T> {
    if s == [] then []
    else WithKey(s[..|s| - 1], key, v) + if key(s[|s| - 1]) == v then [s[|s| - 1]] else []
  }

  lemma {:induction false} WithKeyAppend<T>(a: seq<T>, b: seq<T>, key: T -> real, v: real)
    ensures WithKey(a + b, key, v) == WithKey(a, key, v) + WithKey(b, key, v)
    decreases |b|
  {
    if b != [] {
      var b' := b[..|b| - 1];
      assert (a + b)[..|a + b| - 1] == a + b';
      WithKeyAppend(a, b', key, v);
    } else {
      assert a + b == a;
    }
  }

  /** No value of `s` has the key `v` when all keys exceed it. */
  lemma {:induction false} WithKeyAbove<T>(s: seq<T>, key: T -> real, v: real)
    requires forall i :: 0 <= i < |s| ==> v < key(s[i])
    ensures WithKey(s, key, v) == []
  {
    if s != [] {
      WithKeyAbove(s[..|s| - 1], key, v);
    }
  }

  /** Puts `x` after every value of the sorted `s` whose key is not greater than its own. */
  function Insert<T>(s: seq<T>, x: T, key: T -> real): (r: seq<T>)
    ensures |r| == |s| + 1
    ensures forall i :: 0 <= i < |r| ==> r[i] == x || r[i] in s
  {
    if s == [] then [x]
    else if key(x) < key(s[0]) then [x] + s
    else [s[0]] + Insert(s[1..], x, key)
  }

  lemma {:induction false} InsertKeepsSorted<T>(s: seq<T>, x: T, key: T -> real)
    requires SortedBy(s, key)
    ensures SortedBy(Insert(s, x, key), key)
  {
    if s != [] && key(x) >= key(s[0]) {
      InsertKeepsSorted(s[1..], x, key);
      var r := Insert(s, x, key);
      var rest := Insert(s[1..], x, key);
      assert r == [s[0]] + rest;
      forall i, j | 0 <= i < j < |r| ensures key(r[i]) <= key(r[j]) {
        if i > 0 {
          assert r[i] == rest[i - 1] && r[j] == rest[j - 1];
        } else {
          assert r[j] == rest[j - 1];
          assert rest[j - 1] == x || rest[j - 1] in s[1..];
        }
      }
    }
  }

  lemma {:induction false} InsertPermutes<T>(s: seq<T>, x: T, key: T -> real)
    ensures multiset(Insert(s, x, key)) == multiset(s) + multiset{x}
  {
    if s != [] && key(x) >= key(s[0]) {
      InsertPermutes(s[1..], x, key);
      assert s == [s[0]] + s[1..];
    }
  }

  /** Inserting `x` into a sorted sequence places it after every value with the same key. */
  lemma {:induction false} InsertIsStable<T>(s: seq<T>, x: T, key: T -> real, v: real)
    requires SortedBy(s, key)
    ensures WithKey(Insert(s, x, key), key, v) == WithKey(s, key, v) + WithKey([x], key, v)
  {
    if s == [] {
      assert [x] == [] + [x];
    } else if key(x) < key(s[0]) {
      InsertInFrontIsStable(s, x, key, v);
    } else {
      InsertIsStable(s[1..], x, key, v);
      InsertBehindIsStable(s, x, key, v);
    }
  }

  /** Stability carries over from the tail when `x` goes behind the first value. */
  lemma InsertBehindIsStable<T>(s: seq<T>, x: T, key: T -> real, v: real)
    requires s != [] && key(x) >= key(s[0])
    requires WithKey(Insert(s[1..], x, key), key, v) == WithKey(s[1..], key, v) + WithKey([x], key, v)
    ensures WithKey(Insert(s, x, key), key, v) == WithKey(s, key, v) + WithKey([x], key, v)
  {
    var rest := Insert(s[1..], x, key);
    assert Insert(s, x, key) == [s[0]] + rest;
    WithKeyAppend([s[0]], rest, key, v);
    WithKeyAppend([s[0]], s[1..], key, v);
    assert [s[0]] + s[1..] == s;
  }

  /** A value whose key is below every key of a sorted sequence may go in front of it or behind it. */
  lemma InsertInFrontIsStable<T>(s: seq<T>, x: T, key: T -> real, v: real)
    requires SortedBy(s, key) && s != [] && key(x) < key(s[0])
    ensures WithKey([x] + s, key, v) == WithKey(s, key, v) + WithKey([x], key, v)
  {
    WithKeyAppend([x], s, key, v);
    if key(x) == v {
      WithKeyAbove(s, key, v);
    } else {
      assert WithKey([x], key, v) == WithKey([], key, v) + [];
    }
  }

  /** Insertion sort by `key`; stable because each value goes after the equal keys already placed. */
  function Sort<T>(s: seq<T>, key: T -> real): (r: seq<T>)
    ensures |r| == |s|
    ensures multiset(r) == multiset(s)
    ensures SortedBy(r, key)
    ensures forall v :: WithKey(r, key, v) == WithKey(s, key, v)
  {
    if s == [] then []
    else
      var init := s[..|s| - 1];
      var sorted := Sort(init, key);
      InsertKeepsSorted(sorted, s[|s| - 1], key);
      InsertPermutes(sorted, s[|s| - 1], key);
      assert s == init + [s[|s| - 1]];
      var r := Insert(sorted, s[|s| - 1], key);
      assert forall v :: WithKey(r, key, v) == WithKey(s, key, v) by {
        forall v ensures WithKey(r, key, v) == WithKey(s, key, v) {
          InsertIsStable(sorted, s[|s| - 1], key, v);
          WithKeyAppend(init, [s[|s| - 1]], key, v);
        }
      }
      r
  }
}
