/**
 * The behaviour of the ECMAScript Array built-ins the workspace relies on:
 * `includes`, `indexOf` followed by `splice(i, 1)`, `filter`, a `Set` filled
 * in order and read back with `Array.from`, and `forEach` over an array that
 * its own callback shrinks.
 */
module JsArray {

  /** No value occurs twice. */
  predicate NoDuplicates<T(==)>(s: seq<T>) {
    forall i, j :: 0 <= i < j < |s| ==> s[i] != s[j]
  }

  /** `Array.prototype.indexOf`: the first position holding `x`, or -1. */
  function IndexOf<T(==)>(s: seq<T>, x: T): (r: int)
    ensures -1 <= r < |s|
    ensures r == -1 <==> x !in s
    ensures 0 <= r ==> s[r] == x
    ensures forall j :: 0 <= j < r ==> s[j] != x
  {
    if |s| == 0 then -1
    else if s[0] == x then 0
    else
      var k := IndexOf(s[1..], x);
      if k == -1 then -1 else k + 1
  }

  /** `const i = s.indexOf(x); if (i > -1) s.splice(i, 1);` on a copy of `s`. */
  function RemoveFirst<T(==)>(s: seq<T>, x: T): (r: seq<T>)
    ensures x !in s ==> r == s
    ensures x in s ==> |r| == |s| - 1
  {
    var i := IndexOf(s, x);
    if i < 0 then s else s[..i] + s[i + 1..]
  }

  /**
   * `RemoveFirst` takes out the first occurrence of `x` and keeps every other
   * value in its order.
   */
  lemma RemoveFirstDropsFirstOccurrence<T>(s: seq<T>, x: T)
    requires x in s
    ensures exists i :: 0 <= i < |s| && s[i] == x && (forall j :: 0 <= j < i ==> s[j] != x) &&
                        RemoveFirst(s, x) == s[..i] + s[i + 1..]
  {
    var i := IndexOf(s, x);
    assert s[i] == x && RemoveFirst(s, x) == s[..i] + s[i + 1..];
  }

  /** Removing one value from a duplicate-free sequence leaves it duplicate-free and without that value. */
  lemma RemoveFirstFromDistinct<T>(s: seq<T>, x: T)
    requires NoDuplicates(s)
    ensures x !in RemoveFirst(s, x)
    ensures NoDuplicates(RemoveFirst(s, x))
  {
    if x in s {
      var i := IndexOf(s, x);
      assert RemoveFirst(s, x) == s[..i] + s[i + 1..];
      RemoveAtKeepsDistinct(s, i);
    }
  }

  /** Cutting out position `i` of a duplicate-free sequence leaves it duplicate-free and without `s[i]`. */
  lemma RemoveAtKeepsDistinct<T>(s: seq<T>, i: nat)
    requires NoDuplicates(s) && i < |s|
    ensures s[i] !in s[..i] + s[i + 1..]
    ensures NoDuplicates(s[..i] + s[i + 1..])
  {
    var r := s[..i] + s[i + 1..];
    forall a | 0 <= a < |r| ensures r[a] == s[if a < i then a else a + 1] {
    }
  }

  /** Exactly one occurrence of `x` goes, when there is one. */
  lemma RemoveFirstCounts<T>(s: seq<T>, x: T)
    ensures multiset(RemoveFirst(s, x)) == multiset(s) - multiset{x}
  {
    var i := IndexOf(s, x);
    if i >= 0 {
      Cut(s, i);
      MultisetCut(s[..i], x, s[i + 1..]);
    }
  }

  /** A sequence is its part before `i`, its value at `i` and its part after `i`. */
  lemma Cut<T>(s: seq<T>, i: nat)
    requires i < |s|
    ensures s == s[..i] + [s[i]] + s[i + 1..]
  {
  }

  lemma MultisetCut<T>(a: seq<T>, x: T, b: seq<T>)
    ensures multiset(a + [x] + b) - multiset{x} == multiset(a + b)
  {
    calc {
      multiset(a + [x] + b) - multiset{x};
      (multiset(a) + multiset{x} + multiset(b)) - multiset{x};
      multiset(a) + multiset(b);
    }
  }

  /** Every value other than `x` is kept. */
  lemma RemoveFirstKeepsOthers<T>(s: seq<T>, x: T, y: T)
    requires y != x
    ensures y in RemoveFirst(s, x) <==> y in s
  {
    RemoveFirstCounts(s, x);
    assert multiset(RemoveFirst(s, x))[y] == multiset(s)[y];
  }

  /** `RemoveFirst` applied once for each value of `xs`, in order. */
  function RemoveEach<T(==)>(s: seq<T>, xs: seq<T>): (r: seq<T>)
    ensures |r| <= |s|
  {
    if xs == [] then s else RemoveFirst(RemoveEach(s, xs[..|xs| - 1]), xs[|xs| - 1])
  }

  /** Removing values one after the other from a duplicate-free sequence leaves it duplicate-free. */
  lemma {:induction false} RemoveEachKeepsDistinct<T>(s: seq<T>, xs: seq<T>)
    requires NoDuplicates(s)
    ensures NoDuplicates(RemoveEach(s, xs))
  {
    if xs != [] {
      RemoveEachKeepsDistinct(s, xs[..|xs| - 1]);
      RemoveFirstFromDistinct(RemoveEach(s, xs[..|xs| - 1]), xs[|xs| - 1]);
    }
  }

  /** Removing the values of `xs` and then `x` is removing the values of `xs + [x]`. */
  lemma RemoveEachSnoc<T>(s: seq<T>, xs: seq<T>, x: T)
    ensures RemoveEach(s, xs + [x]) == RemoveFirst(RemoveEach(s, xs), x)
  {
    assert (xs + [x])[..|xs|] == xs;
  }

  /** `Array.prototype.filter`: the values satisfying `keep`, in their order. */
  function Select<T>(s: seq<T>, keep: T -> bool): (r: seq<T>)
    ensures |r| <= |s|
    ensures forall i :: 0 <= i < |r| ==> r[i] in s && keep(r[i])
    ensures forall i :: 0 <= i < |s| && keep(s[i]) ==> s[i] in r
  {
    if s == [] then []
    else
      var init := s[..|s| - 1];
      assert s == init + [s[|s| - 1]];
      Select(init, keep) + if keep(s[|s| - 1]) then [s[|s| - 1]] else []
  }

  /** Membership in a filtered array, stated for one value. */
  lemma SelectMembership<T>(s: seq<T>, keep: T -> bool, x: T)
    ensures x in Select(s, keep) <==> x in s && keep(x)
  {
    var r := Select(s, keep);
    if x in r {
      var i :| 0 <= i < |r| && r[i] == x;
    }
    if x in s && keep(x) {
      var i :| 0 <= i < |s| && s[i] == x;
    }
  }

  /** Two callbacks that agree on every value of the array filter it alike. */
  lemma {:induction false} SelectAgree<T>(s: seq<T>, p: T -> bool, q: T -> bool)
    requires forall i :: 0 <= i < |s| ==> p(s[i]) == q(s[i])
    ensures Select(s, p) == Select(s, q)
  {
    if s != [] {
      SelectAgree(s[..|s| - 1], p, q);
    }
  }

  /** Filtering by `p` and then by `q` is filtering once by their conjunction `pq`. */
  lemma {:induction false} SelectSelect<T>(s: seq<T>, p: T -> bool, q: T -> bool, pq: T -> bool)
    requires forall x :: pq(x) == (p(x) && q(x))
    ensures Select(Select(s, p), q) == Select(s, pq)
  {
    if s != [] {
      var init, last := s[..|s| - 1], s[|s| - 1];
      SelectSelect(init, p, q, pq);
      assert Select(s, pq) == Select(init, pq) + if pq(last) then [last] else [];
      if p(last) {
        var a := Select(init, p) + [last];
        assert Select(s, p) == a;
        assert a[..|a| - 1] == Select(init, p);
        assert Select(a, q) == Select(Select(init, p), q) + if q(last) then [last] else [];
      } else {
        assert Select(s, p) == Select(init, p);
      }
    }
  }

  /** Filtering with a callback that keeps every value returns the array unchanged. */
  lemma {:induction false} SelectKeepsAll<T>(s: seq<T>, keep: T -> bool)
    requires forall i :: 0 <= i < |s| ==> keep(s[i])
    ensures Select(s, keep) == s
  {
    if s != [] {
      SelectKeepsAll(s[..|s| - 1], keep);
      assert s == s[..|s| - 1] + [s[|s| - 1]];
    }
  }

  /** The number of values satisfying `p`. */
  function CountWhere<T>(s: seq<T>, p: T -> bool): nat {
    if s == [] then 0 else CountWhere(s[..|s| - 1], p) + if p(s[|s| - 1]) then 1 else 0
  }

  /**
   * A `Set` to which the values of `s` are added in order, read back with
   * `Array.from`: each value once, in the order of its first occurrence.
   */
  function Distinct<T(==)>(s: seq<T>): (r: seq<T>)
    ensures NoDuplicates(r)
    ensures forall i :: 0 <= i < |r| ==> r[i] in s
    ensures forall i :: 0 <= i < |s| ==> s[i] in r
  {
    if s == [] then []
    else
      var d := Distinct(s[..|s| - 1]);
      assert s == s[..|s| - 1] + [s[|s| - 1]];
      if s[|s| - 1] in d then d else d + [s[|s| - 1]]
  }

  /** The first occurrence of a value in `s` comes before the first occurrence of any value after it in `Distinct(s)`. */
  lemma {:induction false} DistinctKeepsFirstSeenOrder<T>(s: seq<T>, a: nat, b: nat)
    requires a < b < |Distinct(s)|
    ensures IndexOf(s, Distinct(s)[a]) < IndexOf(s, Distinct(s)[b])
  {
    var init := s[..|s| - 1];
    var d := Distinct(init);
    assert s == init + [s[|s| - 1]];
    IndexOfPrefix(init, s[|s| - 1]);
    if b < |d| {
      DistinctKeepsFirstSeenOrder(init, a, b);
      IndexOfPrefix(init, d[a]);
      IndexOfPrefix(init, d[b]);
    } else {
      // Distinct(s)[b] is the last value of s, seen for the first time there.
      assert Distinct(s)[b] == s[|s| - 1] && s[|s| - 1] !in init;
      assert d[a] in init;
      IndexOfPrefix(init, d[a]);
    }
  }

  /** `indexOf` in an extended array finds what it found before, or the new last position. */
  lemma IndexOfPrefix<T>(s: seq<T>, y: T)
    ensures forall x :: x in s ==> IndexOf(s + [y], x) == IndexOf(s, x)
    ensures y !in s ==> IndexOf(s + [y], y) == |s|
  {
    forall x | x in s ensures IndexOf(s + [y], x) == IndexOf(s, x) {
      var i := IndexOf(s, x);
      assert (s + [y])[i] == x;
    }
  }

  /**
   * The values `Array.prototype.forEach(f)` visits from index `k` on when each
   * call `f(v)` removes the first occurrence of `v` from the array itself.
   * Section 23.1.3.15 of ECMA-262: the loop runs to the length read at the start,
   * and an index at or past the current length is a hole and is skipped, so the
   * walk ends once `k` reaches the shrinking length.
   */
  function ForEachRemovingVisited<T(==)>(s: seq<T>, k: nat): seq<T>
    decreases |s| - k
  {
    if k < |s| then [s[k]] + ForEachRemovingVisited(RemoveFirst(s, s[k]), k + 1) else []
  }

  /** The prefix of a sequence as long as the sequence is the sequence. */
  lemma WholePrefix<T>(s: seq<T>, n: nat)
    requires n == |s|
    ensures s[..n] == s
  {
  }

  /** A prefix one longer is the prefix with the next element appended. */
  lemma PrefixGrows<T>(s: seq<T>, j: nat)
    requires j < |s|
    ensures s[..j + 1] == s[..j] + [s[j]]
  {
  }

  /** Growing a prefix of `b` by one element, behind `a`. */
  lemma PrefixStep<T>(a: seq<T>, b: seq<T>, j: nat)
    requires j < |b|
    ensures a + b[..j + 1] == (a + b[..j]) + [b[j]]
  {
    assert b[..j + 1] == b[..j] + [b[j]];
  }

  /** One visit of that walk, with the values already visited in front. */
  lemma ForEachRemovingStep<T>(visited: seq<T>, s: seq<T>, k: nat)
    requires k < |s|
    ensures visited + ForEachRemovingVisited(s, k) == (visited + [s[k]]) + ForEachRemovingVisited(RemoveFirst(s, s[k]), k + 1)
  {
  }

  /** The values at positions 0, 2, 4, ... */
  function EvenPositions<T>(s: seq<T>): (r: seq<T>)
    ensures |r| == (|s| + 1) / 2
    ensures forall i :: 0 <= i < |r| ==> r[i] == s[2 * i]
  {
    seq((|s| + 1) / 2, i requires 0 <= i < (|s| + 1) / 2 => s[2 * i])
  }

  /**
   * On a duplicate-free array, a `forEach` whose callback removes the visited
   * value visits exactly the values at the even positions of the original.
   */
  lemma {:induction false} ForEachRemovingVisitsEvenPositions<T>(s: seq<T>)
    requires NoDuplicates(s)
    ensures ForEachRemovingVisited(s, 0) == EvenPositions(s)
  {
    ForEachRemovingFrom(s, 0);
    assert s[0..] == s;
  }

  lemma {:induction false} ForEachRemovingFrom<T>(s: seq<T>, k: nat)
    requires NoDuplicates(s)
    ensures ForEachRemovingVisited(s, k) == if k < |s| then EvenPositions(s[k..]) else []
    decreases |s| - k
  {
    if k < |s| {
      RemoveAtInDistinct(s, k);
      var s' := s[..k] + s[k + 1..];
      ForEachRemovingFrom(s', k + 1);
      EvenPositionsUnfold(s[k..]);
      if k + 1 < |s'| {
        assert s'[k + 1..] == s[k..][2..];
      }
    }
  }

  lemma RemoveAtInDistinct<T>(s: seq<T>, k: nat)
    requires NoDuplicates(s) && k < |s|
    ensures RemoveFirst(s, s[k]) == s[..k] + s[k + 1..]
    ensures NoDuplicates(s[..k] + s[k + 1..])
  {
    assert IndexOf(s, s[k]) == k;
    RemoveAtKeepsDistinct(s, k);
  }

  lemma EvenPositionsUnfold<T>(t: seq<T>)
    requires |t| > 0
    ensures EvenPositions(t) == [t[0]] + if |t| > 2 then EvenPositions(t[2..]) else []
  {
    var tail := if |t| > 2 then EvenPositions(t[2..]) else [];
    assert |EvenPositions(t)| == |[t[0]] + tail|;
  }

  /** A value at an odd position of a duplicate-free array is never visited by that walk. */
  lemma OddPositionNotVisited<T>(s: seq<T>, i: nat)
    requires NoDuplicates(s)
    requires i < |s| && i % 2 == 1
    ensures s[i] !in ForEachRemovingVisited(s, 0)
  {
    ForEachRemovingVisitsEvenPositions(s);
    NotAtEvenPosition(s, i);
  }

  lemma NotAtEvenPosition<T>(s: seq<T>, i: nat)
    requires NoDuplicates(s)
    requires i < |s| && i % 2 == 1
    ensures s[i] !in EvenPositions(s)
  {
    var e := EvenPositions(s);
    forall j | 0 <= j < |e| ensures e[j] != s[i] {
      assert e[j] == s[2 * j] && 2 * j != i;
    }
  }
}
