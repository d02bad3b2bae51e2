/**
 The block locator (CBlockLocator in src/main.h): hashes of one's chain, dense at the tip and then at
 doubling distances, from which another node finds a common block.

 A chain is the list of its block hashes, genesis first; the tip is the last.
 */
module Locator {

  type Hash256 = nat

  function Pow2(k: nat): (p: nat)
    ensures p >= 1
  {
    if k == 0 then 1 else 2 * Pow2(k - 1)
  }

  /** The distance of the `k`th hash from the tip: 0, 1, ..., 10, then 9 plus powers of two. */
  function Distance(k: nat): nat { if k <= 10 then k else 9 + Pow2(k - 10) }

  lemma DistanceNext(k: nat)
    ensures Distance(k) < Distance(k + 1)
    ensures k <= 10 ==> Distance(k + 1) == Distance(k) + 1
    ensures k >= 11 ==> Distance(k + 1) == Distance(k) + Pow2(k - 10)
  {
    if k >= 11 { assert Pow2(k + 1 - 10) == 2 * Pow2(k - 10); }
  }

  /** The step taken after the `k`th hash. */
  function Step(k: nat): nat { if k <= 10 then 1 else Pow2(k - 10) }

  /** The first `n` hashes of the locator of a chain. */
  function Have(chain: seq<Hash256>, n: nat): (v: seq<Hash256>)
    requires n > 0 ==> Distance(n - 1) < |chain|
    ensures |v| == n
  {
    if n == 0 then []
    else
      DistanceNext(if n >= 2 then n - 2 else 0);
      Have(chain, n - 1) + [chain[|chain| - 1 - Distance(n - 1)]]
  }

  /** How many distances lie within the chain. */
  predicate Fits(chain: seq<Hash256>, n: nat) {
    (n > 0 ==> Distance(n - 1) < |chain|) && Distance(n) >= |chain|
  }

  method Set(chain: seq<Hash256>, hashGenesisBlock: Hash256) returns (vHave: seq<Hash256>)
    requires chain != []
    ensures |vHave| >= 2 && Fits(chain, |vHave| - 1)
    ensures vHave == Have(chain, |vHave| - 1) + [hashGenesisBlock]
  {
    vHave := [];
    var nStep := 1;
    var pindex := |chain| - 1;
    while pindex >= 0
      invariant -1 <= pindex < |chain|
      invariant |vHave| > 0 ==> Distance(|vHave| - 1) < |chain|
      invariant vHave == Have(chain, |vHave|) && nStep == Step(|vHave|)
      invariant pindex >= 0 ==> pindex == |chain| - 1 - Distance(|vHave|)
      invariant pindex < 0 ==> |vHave| > 0 && Distance(|vHave|) >= |chain|
      decreases pindex
    {
      vHave := vHave + [chain[pindex]];
      DistanceNext(|vHave| - 1);
      var i := 0;
      ghost var start := pindex;
      while pindex >= 0 && i < nStep
        invariant 0 <= i <= nStep && -1 <= pindex <= start
        invariant pindex == if start - i >= 0 then start - i else -1
        decreases nStep - i
      {
        pindex := pindex - 1;
        i := i + 1;
      }
      if |vHave| > 10 { nStep := nStep * 2; }
    }
    vHave := vHave + [hashGenesisBlock];
    assert vHave[..|vHave| - 1] == Have(chain, |vHave| - 1);
  }

  // ----- how long it is -------------------------------------------------------------------------------------------

  /** At most twelve hashes more than the height has binary digits after the first. */
  lemma LocatorShort(chain: seq<Hash256>, n: nat, log: nat)
    requires Fits(chain, n) && |chain| >= 2 && |chain| - 1 < Pow2(log + 1)
    ensures n + 1 <= 12 + log
  {
    assert Distance(11 + log) == 9 + Pow2(log + 1);
    if n > 11 + log { DistancesGrow(11 + log, n - 1); }
  }

  lemma {:induction false} DistancesGrow(j: nat, k: nat)
    requires j <= k
    ensures Distance(j) <= Distance(k)
    decreases k
  {
    if j < k {
      DistancesGrow(j, k - 1);
      DistanceNext(k - 1);
    }
  }

  // ----- what the other node finds --------------------------------------------------------------------------------

  datatype Found = Genesis | Block(hash: Hash256)

  /** GetBlockIndex: the first hash that is in the receiver's main chain. */
  method GetBlockIndex(vHave: seq<Hash256>, mainChain: set<Hash256>) returns (r: Found)
    ensures r == FirstShared(vHave, mainChain)
  {
    for i := 0 to |vHave|
      invariant FirstShared(vHave, mainChain) == FirstShared(vHave[i..], mainChain)
    {
      assert vHave[i..][1..] == vHave[i + 1..];
      if vHave[i] in mainChain { return Block(vHave[i]); }
    }
    return Genesis;
  }

  function FirstShared(vHave: seq<Hash256>, mainChain: set<Hash256>): Found {
    if vHave == [] then Genesis
    else if vHave[0] in mainChain then Block(vHave[0])
    else FirstShared(vHave[1..], mainChain)
  }

  /** The receiver shares exactly the blocks at distance `f` or more from the sender's tip. */
  predicate SharesFrom(chain: seq<Hash256>, mainChain: set<Hash256>, f: nat) {
    forall i :: 0 <= i < |chain| ==> (chain[i] in mainChain <==> |chain| - 1 - i >= f)
  }

  lemma {:induction false} HaveAt(chain: seq<Hash256>, n: nat, k: nat)
    requires k < n && Distance(n - 1) < |chain|
    ensures Distance(k) < |chain| && Have(chain, n)[k] == chain[|chain| - 1 - Distance(k)]
    decreases n
  {
    DistancesGrow(k, n - 1);
    if k < n - 1 { HaveAt(chain, n - 1, k); }
  }

  lemma {:induction false} FirstSharedAt(v: seq<Hash256>, mainChain: set<Hash256>, k: nat)
    requires k < |v| && v[k] in mainChain && forall i :: 0 <= i < k ==> v[i] !in mainChain
    ensures FirstShared(v, mainChain) == Block(v[k])
  {
    if k > 0 { FirstSharedAt(v[1..], mainChain, k - 1); }
  }

  /** Twice the distance is far enough: the next hash of the locator is no further. */
  lemma NextWithinTwice(k: nat, f: nat)
    requires Distance(k) < f
    ensures Distance(k + 1) <= 2 * f
  {
    DistanceNext(k);
    if k >= 11 { assert Pow2(k + 1 - 10) == 2 * Pow2(k - 10); }
  }

  /** A block the receiver finds is shared and at most twice as far from the tip as the fork. */
  lemma LocatorFindsFork(chain: seq<Hash256>, n: nat, mainChain: set<Hash256>, f: nat) returns (d: nat)
    requires chain != [] && Fits(chain, n) && f < |chain| && SharesFrom(chain, mainChain, f)
    ensures d < |chain| && FirstShared(Have(chain, n) + [chain[0]], mainChain) == Block(chain[|chain| - 1 - d])
    ensures f <= d <= 2 * f
  {
    hide Have, Distance, FirstShared;
    var k := FirstBeyond(n, f);
    var v := Have(chain, n) + [chain[0]];
    EarlierUnshared(chain, n, mainChain, f, k);
    if k < n {
      HaveAt(chain, n, k);
      d := Distance(k);
    } else {
      d := |chain| - 1;
    }
    FirstSharedAt(v, mainChain, k);
    if k > 0 { NextWithinTwice(k - 1, f); } else { DistanceZero(); }
  }

  lemma DistanceZero()
    ensures Distance(0) == 0
  {
  }

  lemma EarlierUnshared(chain: seq<Hash256>, n: nat, mainChain: set<Hash256>, f: nat, k: nat)
    requires chain != [] && Fits(chain, n) && SharesFrom(chain, mainChain, f) && k <= n && (k > 0 ==> Distance(k - 1) < f)
    ensures n > 0 ==> Distance(n - 1) < |chain|
    ensures forall i :: 0 <= i < k ==> Have(chain, n)[i] !in mainChain
  {
    hide Have, Distance;
    forall i | 0 <= i < k ensures Have(chain, n)[i] !in mainChain {
      HaveAt(chain, n, i);
      DistancesGrow(i, k - 1);
    }
  }

  /** The first of the distances that reaches `f`, or `n` if none of the first `n` does. */
  lemma {:induction false} FirstBeyond(n: nat, f: nat) returns (k: nat)
    ensures k <= n && (k < n ==> Distance(k) >= f) && (k > 0 ==> Distance(k - 1) < f)
    ensures k == 0 && n > 0 ==> f == 0
    decreases n
  {
    if n == 0 {
      k := 0;
    } else {
      k := FirstBeyond(n - 1, f);
      if k == n - 1 && Distance(k) < f { k := n; }
    }
  }
}
