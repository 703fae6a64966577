/** The median fragment length of one bin (`calcMedian`): the lengths are
    sorted on a private copy, then the middle element (odd count) or the
    mean of the two middle elements (even count) is taken; an empty list
    has median 0. The C result is a `double`; here it is a `real`. */
module Median {
  import opened SamRecord

  predicate Sorted(s: seq<nat>) {
    forall i, j :: 0 <= i < j < |s| ==> s[i] <= s[j]
  }

  /** The lengths are small enough that the `uint64_t` sum of the two
      middle elements does not wrap. */
  predicate LengthsFit(s: seq<nat>) {
    forall i :: 0 <= i < |s| ==> s[i] < U64 / 2
  }

  function Insert(x: nat, s: seq<nat>): (r: seq<nat>)
    requires Sorted(s)
    ensures Sorted(r) && multiset(r) == multiset(s) + multiset{x}
    ensures |r| == |s| + 1 && (r[0] == x || (s != [] && r[0] == s[0]))
  {
    if s == [] then [x]
    else if x <= s[0] then
      SortedCons(x, s);
      [x] + s
    else
      var t := Insert(x, s[1..]);
      InsertBehindHead(x, s, t);
      [s[0]] + t
  }

  /** The recursive case of `Insert`: the head stays in front of the
      insertion into the tail. */
  lemma InsertBehindHead(x: nat, s: seq<nat>, t: seq<nat>)
    requires Sorted(s) && s != [] && s[0] < x
    requires Sorted(t) && multiset(t) == multiset(s[1..]) + multiset{x}
    requires |t| == |s| && (t[0] == x || (s[1..] != [] && t[0] == s[1..][0]))
    ensures Sorted([s[0]] + t) && multiset([s[0]] + t) == multiset(s) + multiset{x}
  {
    assert s == [s[0]] + s[1..];
    SortedCons(s[0], t);
  }

  lemma SortedCons(a: nat, t: seq<nat>)
    requires Sorted(t) && (t != [] ==> a <= t[0])
    ensures Sorted([a] + t)
  {
    var r := [a] + t;
    forall i, j | 0 <= i < j < |r|
      ensures r[i] <= r[j]
    {
      if i == 0 {
        assert r[j] == t[j - 1] && t[0] <= t[j - 1];
      }
    }
  }

  /** Sorting in ascending order, as `std::sort` does to the copy. */
  function SortAscending(s: seq<nat>): (r: seq<nat>)
    ensures Sorted(r) && multiset(r) == multiset(s) && |r| == |s|
  {
    if s == [] then []
    else
      assert s == [s[0]] + s[1..];
      Insert(s[0], SortAscending(s[1..]))
  }

  /** Two sorted sequences holding the same elements are equal. */
  lemma {:induction false} SortedUnique(a: seq<nat>, b: seq<nat>)
    requires Sorted(a) && Sorted(b) && multiset(a) == multiset(b)
    ensures a == b
    decreases |a|
  {
    assert |a| == |multiset(a)| == |multiset(b)| == |b|;
    if a != [] {
      SortedHeadsEqual(a, b);
      assert multiset(a) == multiset{a[0]} + multiset(a[1..]) by { assert a == [a[0]] + a[1..]; }
      assert multiset(b) == multiset{b[0]} + multiset(b[1..]) by { assert b == [b[0]] + b[1..]; }
      assert multiset(a[1..]) == multiset(a) - multiset{a[0]};
      assert multiset(b[1..]) == multiset(b) - multiset{b[0]};
      SortedUnique(a[1..], b[1..]);
      assert a == [a[0]] + a[1..] && b == [b[0]] + b[1..];
    }
  }

  lemma SortedHeadsEqual(a: seq<nat>, b: seq<nat>)
    requires Sorted(a) && Sorted(b) && multiset(a) == multiset(b) && a != [] && b != []
    ensures a[0] == b[0]
  {
    assert a[0] in multiset(b) && b[0] in multiset(a);
    var i :| 0 <= i < |b| && b[i] == a[0];
    var j :| 0 <= j < |a| && a[j] == b[0];
    assert a[0] <= a[j];
    assert b[0] <= b[i];
  }

  lemma SortOfSorted(s: seq<nat>)
    requires Sorted(s)
    ensures SortAscending(s) == s
  {
    SortedUnique(SortAscending(s), s);
  }

  /** The middle of a list in order: the middle element for an odd count,
      the mean of the two middle elements for an even count. */
  function Middle(sorted: seq<nat>): real {
    var medianIndex := |sorted| / 2;
    if |sorted| == 0 then 0.0
    else if |sorted| % 2 == 0 then (sorted[medianIndex] + sorted[medianIndex - 1]) as real / 2.0
    else sorted[medianIndex] as real
  }

  function CalcMedian(lengths: seq<nat>): (m: real)
    requires LengthsFit(lengths)
    ensures |lengths| == 0 ==> m == 0.0
    ensures 0.0 <= m
  {
    Middle(SortAscending(lengths))
  }

  /** The median does not depend on the order of the lengths. */
  lemma MedianOrderIndependent(a: seq<nat>, b: seq<nat>)
    requires LengthsFit(a) && LengthsFit(b) && multiset(a) == multiset(b)
    ensures CalcMedian(a) == CalcMedian(b)
  {
    SortedUnique(SortAscending(a), SortAscending(b));
  }

  /** On lengths already in order: the middle element, or the mean of the
      two middle elements. */
  lemma MedianOfSorted(s: seq<nat>)
    requires LengthsFit(s) && Sorted(s) && |s| > 0
    ensures |s| % 2 == 1 ==> CalcMedian(s) == s[|s| / 2] as real
    ensures |s| % 2 == 0 ==> CalcMedian(s) == (s[|s| / 2 - 1] + s[|s| / 2]) as real / 2.0
  {
    SortOfSorted(s);
  }

  /** The median lies between two of the lengths: it is at least some
      length and at most some length. */
  lemma MedianBetweenLengths(lengths: seq<nat>)
    requires LengthsFit(lengths) && |lengths| > 0
    ensures exists i :: 0 <= i < |lengths| && lengths[i] as real <= CalcMedian(lengths)
    ensures exists j :: 0 <= j < |lengths| && CalcMedian(lengths) <= lengths[j] as real
  {
    var sorted := SortAscending(lengths);
    var n := |lengths|;
    var lo, hi := sorted[(n - 1) / 2], sorted[n / 2];
    MedianBetweenMiddle(lengths);
    assert lo in multiset(lengths) && hi in multiset(lengths);
    var i :| 0 <= i < n && lengths[i] == lo;
    var j :| 0 <= j < n && lengths[j] == hi;
  }

  lemma MedianBetweenMiddle(lengths: seq<nat>)
    requires LengthsFit(lengths) && |lengths| > 0
    ensures |SortAscending(lengths)| == |lengths|
    ensures SortAscending(lengths)[(|lengths| - 1) / 2] as real <= CalcMedian(lengths)
    ensures CalcMedian(lengths) <= SortAscending(lengths)[|lengths| / 2] as real
  {
    MiddleBetween(SortAscending(lengths));
  }

  lemma MiddleBetween(sorted: seq<nat>)
    requires Sorted(sorted) && |sorted| > 0
    ensures sorted[(|sorted| - 1) / 2] as real <= Middle(sorted) <= sorted[|sorted| / 2] as real
  {
    var n := |sorted|;
    var a, b := sorted[(n - 1) / 2], sorted[n / 2];
    assert a <= b;
    if n % 2 == 0 {
      assert Middle(sorted) == (b + a) as real / 2.0;
    } else {
      assert Middle(sorted) == b as real;
    }
  }

  /** A single length is its own median. */
  lemma MedianOfSingle()
    ensures CalcMedian([7]) == 7.0
  {
    var single: seq<nat> := [7];
    assert Sorted(single);
    MedianOfSorted(single);
  }

  /** Four lengths given out of order: the mean of the two middle ones
      after sorting. The lengths are a parameter: with the literal in the
      contract the solver evaluates the sort on it. */
  lemma MedianOfUnorderedFour(unordered: seq<nat>)
    requires unordered == [2, 8, 4, 6]
    ensures CalcMedian(unordered) == 5.0
  {
    var sorted: seq<nat> := [2, 4, 6, 8];
    assert multiset(unordered) == multiset{2, 8, 4, 6};
    assert multiset(sorted) == multiset{2, 4, 6, 8};
    assert Sorted(sorted);
    MedianOrderIndependent(unordered, sorted);
    MedianOfSorted(sorted);
  }
}
