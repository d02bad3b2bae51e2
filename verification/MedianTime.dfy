/**
 The median of the last eleven block times (CBlockIndex::GetMedianTimePast in src/main.h) and the rule
 that a block is later than its parent's median (AcceptBlock in src/main.cpp).

 A chain is the list of its block times, genesis first.
 */
module MedianTime {

  const nMedianTimeSpan := 11

  function Min(a: int, b: int): int { if a < b then a else b }

  /** The times the median is taken of: the last eleven, or all of a shorter chain. */
  function Window(c: seq<int>): (w: seq<int>)
    ensures |w| == Min(nMedianTimeSpan, |c|)
  {
    c[|c| - Min(nMedianTimeSpan, |c|)..]
  }

  function CountLess(w: seq<int>, x: int): (n: nat)
    ensures n <= |w|
  {
    if w == [] then 0 else CountLess(w[..|w|-1], x) + if w[|w|-1] < x then 1 else 0
  }

  function CountAtMost(w: seq<int>, x: int): (n: nat)
    ensures n <= |w|
  {
    if w == [] then 0 else CountAtMost(w[..|w|-1], x) + if w[|w|-1] <= x then 1 else 0
  }

  /** The element in the middle, the upper one of two: at most half are smaller, and more than half
      are not larger. */
  predicate IsMedian(w: seq<int>, m: int) {
    m in w && CountLess(w, m) <= |w| / 2 < CountAtMost(w, m)
  }

  lemma {:induction false} CountsGrow(w: seq<int>, x: int, y: int)
    requires x < y
    ensures CountAtMost(w, x) <= CountLess(w, y)
    decreases |w|
  {
    if w != [] { CountsGrow(w[..|w|-1], x, y); }
  }

  lemma MedianUnique(w: seq<int>, m: int, m': int)
    requires IsMedian(w, m) && IsMedian(w, m')
    ensures m == m'
  {
    if m < m' { CountsGrow(w, m, m'); }
    if m' < m { CountsGrow(w, m', m); }
  }

  // ----- computing it -------------------------------------------------------------------------------------------

  predicate Sorted(s: seq<int>) { forall i, j :: 0 <= i < j < |s| ==> s[i] <= s[j] }

  /** Same elements, as far as counting goes. */
  ghost predicate SameCounts(s: seq<int>, t: seq<int>) {
    |s| == |t| && (forall x :: CountLess(s, x) == CountLess(t, x) && CountAtMost(s, x) == CountAtMost(t, x)) && forall x :: x in s <==> x in t
  }

  lemma {:induction false} CountSplit(a: seq<int>, b: seq<int>, x: int)
    ensures CountLess(a + b, x) == CountLess(a, x) + CountLess(b, x)
    ensures CountAtMost(a + b, x) == CountAtMost(a, x) + CountAtMost(b, x)
    decreases |b|
  {
    if b == [] {
      assert a + b == a;
    } else {
      assert (a + b)[..|a + b|-1] == a + b[..|b|-1];
      CountSplit(a, b[..|b|-1], x);
    }
  }

  lemma CountOne(v: int, x: int)
    ensures CountLess([v], x) == (if v < x then 1 else 0) && CountAtMost([v], x) == if v <= x then 1 else 0
  {
    assert [v][..0] == [];
  }

  /** Put an element into its place. */
  method Insert(s: seq<int>, v: int) returns (t: seq<int>)
    requires Sorted(s)
    ensures Sorted(t) && SameCounts(t, [v] + s)
  {
    hide CountLess, CountAtMost;
    var i := 0;
    while i < |s| && s[i] < v
      invariant 0 <= i <= |s| && forall k :: 0 <= k < i ==> s[k] < v
    {
      i := i + 1;
    }
    t := s[..i] + [v] + s[i..];
    InsertedCounts(s, v, i);
  }

  /** In a sorted list the middle element is the median. */
  lemma SortedMiddle(s: seq<int>, k: nat)
    requires Sorted(s) && k < |s|
    ensures CountLess(s, s[k]) <= k < CountAtMost(s, s[k])
  {
    hide CountLess, CountAtMost;
    var x := s[k];
    assert s == s[..k] + s[k..] && s == s[..k + 1] + s[k + 1..];
    CountSplit(s[..k], s[k..], x);
    CountSplit(s[..k + 1], s[k + 1..], x);
    NoneLess(s[k..], x);
    AllAtMost(s[..k + 1], x);
  }

  lemma {:induction false} NoneLess(s: seq<int>, x: int)
    requires forall i :: 0 <= i < |s| ==> s[i] >= x
    ensures CountLess(s, x) == 0
    decreases |s|
  {
    if s != [] { NoneLess(s[..|s|-1], x); }
  }

  lemma {:induction false} AllAtMost(s: seq<int>, x: int)
    requires forall i :: 0 <= i < |s| ==> s[i] <= x
    ensures CountAtMost(s, x) == |s|
    decreases |s|
  {
    if s != [] { AllAtMost(s[..|s|-1], x); }
  }

  method GetMedianTimePast(c: seq<int>) returns (m: int)
    requires c != []
    ensures IsMedian(Window(c), m)
  {
    hide CountLess, CountAtMost, SameCounts, Sorted, IsMedian, Window;
    var sorted: seq<int> := [];
    var n := Min(nMedianTimeSpan, |c|);
    NothingSorted();
    WindowGrows(c, 0);
    for i := 0 to n
      invariant Sorted(sorted) && SameCounts(sorted, c[|c| - i..])
    {
      var pindex := |c| - 1 - i;
      var t := Insert(sorted, c[pindex]);
      SameInsert(t, sorted, c[pindex], c[|c| - i..]);
      WindowGrows(c, i);
      sorted := t;
    }
    WindowGrows(c, 0);
    MiddleIsMedian(sorted, Window(c));
    m := sorted[|sorted| / 2];
  }

  lemma WindowGrows(c: seq<int>, i: nat)
    requires i < |c|
    ensures [c[|c| - 1 - i]] + c[|c| - i..] == c[|c| - (i + 1)..]
    ensures c[|c| - 0..] == [] && Window(c) == c[|c| - Min(nMedianTimeSpan, |c|)..] && Window(c) != []
  {
  }

  lemma MiddleIsMedian(s: seq<int>, w: seq<int>)
    requires Sorted(s) && SameCounts(s, w) && w != []
    ensures |s| == |w| && IsMedian(w, s[|s| / 2])
  {
    hide CountLess, CountAtMost, Sorted;
    SortedMiddle(s, |s| / 2);
    assert s[|s| / 2] in s;
  }

  lemma NothingSorted()
    ensures Sorted([]) && SameCounts([], [])
  {
  }

  lemma SameInsert(t: seq<int>, s: seq<int>, v: int, w: seq<int>)
    requires SameCounts(t, [v] + s) && SameCounts(s, w)
    ensures SameCounts(t, [v] + w)
  {
    hide CountLess, CountAtMost;
    forall x
      ensures CountLess(t, x) == CountLess([v] + w, x) && CountAtMost(t, x) == CountAtMost([v] + w, x)
      ensures x in t <==> x in [v] + w
    {
      CountSplit([v], s, x);
      CountSplit([v], w, x);
      assert x in t <==> x in [v] + s;
    }
  }

  // ----- it never decreases -------------------------------------------------------------------------------------

  /** Every block after genesis is later than its parent's median. */
  ghost predicate Accepted(c: seq<int>) {
    forall k :: 1 <= k < |c| ==> forall m :: IsMedian(Window(c[..k]), m) ==> c[k] > m
  }

  /** One block more: the median moves on or stays, also while the window still fills up. */
  lemma MedianStep(c: seq<int>, t: int, m: int, m': int)
    requires c != [] && IsMedian(Window(c), m) && t > m && IsMedian(Window(c + [t]), m')
    ensures m <= m'
  {
    hide CountLess, CountAtMost;
    var w, w' := Window(c), Window(c + [t]);
    CountOne(t, m);
    if |c| < nMedianTimeSpan {
      assert w == c && w' == c + [t];
      CountSplit(c, [t], m);
    } else {
      assert w == [w[0]] + w[1..] && w' == w[1..] + [t];
      CountSplit([w[0]], w[1..], m);
      CountSplit(w[1..], [t], m);
    }
    if m' < m { CountsGrow(w', m', m); }
  }

  lemma {:induction false} MedianNeverDecreases(c: seq<int>, i: nat, j: nat, m: int, m': int)
    requires Accepted(c) && 1 <= i <= j <= |c|
    requires IsMedian(Window(c[..i]), m) && IsMedian(Window(c[..j]), m')
    ensures m <= m'
    decreases j
  {
    hide IsMedian;
    if i == j {
      MedianUnique(Window(c[..i]), m, m');
    } else {
      var k := j - 1;
      var mk := MedianExists(c[..k]);
      assert c[..j] == c[..k] + [c[k]];
      MedianNeverDecreases(c, i, k, m, mk);
      MedianStep(c[..k], c[k], mk, m');
    }
  }

  /** There is a median. */
  lemma MedianExists(c: seq<int>) returns (m: int)
    requires c != []
    ensures IsMedian(Window(c), m)
  {
    hide CountLess, CountAtMost, SameCounts, Sorted, IsMedian;
    var s := SortedCopy(Window(c));
    MiddleIsMedian(s, Window(c));
    m := s[|s| / 2];
  }

  lemma {:induction false} SortedCopy(w: seq<int>) returns (s: seq<int>)
    ensures Sorted(s) && SameCounts(s, w)
    decreases |w|
  {
    hide CountLess, CountAtMost, SameCounts;
    if w == [] {
      s := [];
      NothingSorted();
    } else {
      var r := SortedCopy(w[1..]);
      var i := 0;
      while i < |r| && r[i] < w[0]
        invariant 0 <= i <= |r| && forall k :: 0 <= k < i ==> r[k] < w[0]
      {
        i := i + 1;
      }
      s := r[..i] + [w[0]] + r[i..];
      InsertedCounts(r, w[0], i);
      SameInsert(s, r, w[0], w[1..]);
      assert [w[0]] + w[1..] == w;
    }
  }

  lemma InsertedCounts(s: seq<int>, v: int, i: nat)
    requires i <= |s|
    ensures SameCounts(s[..i] + [v] + s[i..], [v] + s)
  {
    hide CountLess, CountAtMost;
    var t := s[..i] + [v] + s[i..];
    assert s == s[..i] + s[i..];
    forall x
      ensures CountLess(t, x) == CountLess([v] + s, x) && CountAtMost(t, x) == CountAtMost([v] + s, x)
      ensures x in t <==> x in [v] + s
    {
      CountSplit(s[..i] + [v], s[i..], x);
      CountSplit(s[..i], [v], x);
      CountSplit([v], s, x);
      CountSplit(s[..i], s[i..], x);
      assert x in s <==> x in s[..i] || x in s[i..];
    }
  }
}
