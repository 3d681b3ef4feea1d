/** Strictly ascending lists of numbers, and what a bounded one must look like. */
module Ordering {

  ghost predicate Ascending(a: seq<nat>) {
    forall i, j :: 0 <= i < j < |a| ==> a[i] < a[j]
  }

  /** Pigeonhole: an ascending list of n numbers drawn from [lo, lo + n) is lo, lo+1, ..., lo+n-1. */
  lemma {:induction false} AscendingIsRange(a: seq<nat>, lo: nat)
    requires Ascending(a)
    requires forall i :: 0 <= i < |a| ==> lo <= a[i] < lo + |a|
    ensures forall i :: 0 <= i < |a| ==> a[i] == lo + i
  {
    if a == [] {
    } else {
      forall i | 0 <= i < |a| ensures a[i] == lo + i {
        AtLeast(a, lo, i);
        AtMost(a, lo + |a|, i);
      }
    }
  }

  lemma {:induction false} AtLeast(a: seq<nat>, lo: nat, i: nat)
    requires Ascending(a) && i < |a| && lo <= a[0]
    ensures lo + i <= a[i]
  {
    if i == 0 {
    } else {
      AtLeast(a, lo, i - 1);
      assert a[i - 1] < a[i];
    }
  }

  lemma {:induction false} AtMost(a: seq<nat>, hi: nat, i: nat)
    requires Ascending(a) && i < |a| && a[|a| - 1] < hi
    ensures a[i] + (|a| - i) <= hi
    decreases |a| - i
  {
    if i == |a| - 1 {
    } else {
      AtMost(a, hi, i + 1);
      assert a[i] < a[i + 1];
    }
  }

  // ---------------------------------------------------------------------------------------------
  // Counting

  ghost predicate Distinct<T>(s: seq<T>) {
    forall i, j :: 0 <= i < j < |s| ==> s[i] != s[j]
  }

  ghost function Elements<T>(s: seq<T>): set<T> {
    set x | x in s
  }

  lemma {:induction false} DistinctCount<T>(s: seq<T>)
    requires Distinct(s)
    ensures |Elements(s)| == |s|
  {
    if s == [] {
      assert Elements(s) == {};
    } else {
      var last := |s| - 1;
      DistinctCount(s[..last]);
      assert s == s[..last] + [s[last]];
      assert Elements(s) == Elements(s[..last]) + {s[last]};
    }
  }

  ghost function Below(n: nat): (s: set<nat>)
    ensures forall x: nat :: x in s <==> x < n
    ensures |s| == n
  {
    if n == 0 then {} else Below(n - 1) + {n - 1}
  }

  lemma {:induction false} SubsetCount<T>(a: set<T>, b: set<T>)
    requires a <= b
    ensures |a| <= |b|
    ensures |a| == |b| ==> a == b
  {
    assert b == a + (b - a);
    assert |b| == |a| + |b - a|;
  }

  /** Pigeonhole: n distinct numbers below n are all the numbers below n. */
  lemma {:induction false} DistinctCovers(s: seq<nat>, n: nat)
    requires Distinct(s) && forall i :: 0 <= i < |s| ==> s[i] < n
    ensures |s| <= n
    ensures |s| == n ==> forall x: nat :: x < n ==> x in s
  {
    DistinctCount(s);
    SubsetCount(Elements(s), Below(n));
    if |s| == n {
      forall x: nat | x < n ensures x in s {
        assert x in Below(n);
        assert x in Elements(s);
      }
    }
  }

  /** A list that holds every number below n has at least n entries. */
  lemma {:induction false} CoversIsLong(s: seq<nat>, n: nat)
    requires Distinct(s) && forall x: nat :: x < n ==> x in s
    ensures |s| >= n
  {
    DistinctCount(s);
    SubsetCount(Below(n), Elements(s));
  }

  lemma {:induction false} AscendingSingleton(a: seq<nat>, x: nat)
    requires Ascending(a) && x in a && forall y :: y in a ==> y == x
    ensures a == [x]
  {
    DistinctCount(a);
    assert Elements(a) == {x};
  }

  /** An ascending list is determined by its elements. */
  lemma {:induction false} AscendingUnique(a: seq<nat>, b: seq<nat>)
    requires Ascending(a) && Ascending(b) && forall x: nat :: x in a <==> x in b
    ensures a == b
  {
    DistinctCount(a);
    DistinctCount(b);
    assert Elements(a) == Elements(b);
    if a != [] {
      assert a[0] in b && b[0] in a;
      assert a[0] == b[0];
      forall x: nat ensures x in a[1..] <==> x in b[1..] {
        assert x in a[1..] <==> x in a && x != a[0];
        assert x in b[1..] <==> x in b && x != b[0];
      }
      AscendingUnique(a[1..], b[1..]);
    }
  }
}
