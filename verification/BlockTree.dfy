/**
 The tree of block index nodes (src/main.h CBlockIndex). Everything about a node's place in the
 tree is fixed when it is created, so ancestry does not depend on the heap; only the forward
 link and the supply figures change.
 */
module BlockTree {
  import opened Transactions
  import opened Ledger

  class CBlockIndex {
    const hash: Hash256
    const pprev: CBlockIndex?
    const nHeight: nat
    const nFile: nat
    const nBlockPos: nat
    const bnChainTrust: nat
    /** The block stored at (nFile, nBlockPos). */
    const block: CBlock
    var pnext: CBlockIndex?
    var nMint: int
    var nMoneySupply: int

    /** AddToBlockIndex: height and trust continue the parent's. */
    constructor (P: Consensus, pprev: CBlockIndex?, nFile: nat, nBlockPos: nat, nBlockTrust: nat, block: CBlock)
      ensures this.pprev == pprev && this.block == block && this.hash == P.blockHash(block)
      ensures nHeight == (if pprev == null then 0 else pprev.nHeight + 1)
      ensures bnChainTrust == (if pprev == null then 0 else pprev.bnChainTrust) + nBlockTrust
      ensures this.nFile == nFile && this.nBlockPos == nBlockPos
      ensures pnext == null && nMint == 0 && nMoneySupply == 0
    {
      this.pprev, this.block, this.hash := pprev, block, P.blockHash(block);
      nHeight := if pprev == null then 0 else pprev.nHeight + 1;
      bnChainTrust := (if pprev == null then 0 else pprev.bnChainTrust) + nBlockTrust;
      this.nFile, this.nBlockPos := nFile, nBlockPos;
      pnext, nMint, nMoneySupply := null, 0, 0;
    }
  }

  /** Heights count the steps to the root, and trust never falls along the way down. */
  ghost predicate WellLinked(p: CBlockIndex)
    decreases p.nHeight
  {
    if p.pprev == null then p.nHeight == 0
    else p.nHeight == p.pprev.nHeight + 1 && p.pprev.bnChainTrust <= p.bnChainTrust && WellLinked(p.pprev)
  }

  /** The ancestor-or-self of `p` at height `h`. */
  ghost function At(p: CBlockIndex, h: nat): (a: CBlockIndex)
    requires WellLinked(p) && h <= p.nHeight
    ensures WellLinked(a) && a.nHeight == h
    ensures a.bnChainTrust <= p.bnChainTrust
    decreases p.nHeight
  {
    if h == p.nHeight then p else At(p.pprev, h)
  }

  /** `a` is an ancestor of `p` or `p` itself. */
  ghost predicate OnChain(a: CBlockIndex, p: CBlockIndex)
    requires WellLinked(p)
  {
    a.nHeight <= p.nHeight && At(p, a.nHeight) == a
  }

  lemma {:induction false} AtAt(p: CBlockIndex, h: nat, k: nat)
    requires WellLinked(p) && k <= h <= p.nHeight
    ensures At(At(p, h), k) == At(p, k)
    decreases p.nHeight
  {
    if h < p.nHeight { AtAt(p.pprev, h, k); }
  }

  lemma OnChainTrans(a: CBlockIndex, b: CBlockIndex, c: CBlockIndex)
    requires WellLinked(c) && OnChain(b, c) && WellLinked(b) && OnChain(a, b)
    ensures OnChain(a, c)
  {
    AtAt(c, b.nHeight, a.nHeight);
  }

  lemma OnChainTotal(a: CBlockIndex, b: CBlockIndex, c: CBlockIndex)
    requires WellLinked(c) && OnChain(a, c) && OnChain(b, c) && a.nHeight <= b.nHeight
    ensures WellLinked(b) && OnChain(a, b)
  {
    AtAt(c, b.nHeight, a.nHeight);
  }

  lemma ParentOnChain(p: CBlockIndex, c: CBlockIndex)
    requires WellLinked(c) && OnChain(p, c) && p.pprev != null
    ensures WellLinked(p) && WellLinked(p.pprev) && OnChain(p.pprev, c) && OnChain(p.pprev, p)
  {
    AtAt(c, p.nHeight, p.pprev.nHeight);
  }

  lemma ChildAt(c: CBlockIndex, h: nat)
    requires WellLinked(c) && h < c.nHeight
    ensures At(c, h + 1).pprev == At(c, h)
  {
    AtAt(c, h + 1, h);
  }

  /** The forward link a node should have when the chain to `tip` is the main chain. */
  ghost function NextToward(p: CBlockIndex, tip: CBlockIndex): CBlockIndex?
    requires WellLinked(tip)
  {
    if OnChain(p, tip) && p != tip then At(tip, p.nHeight + 1) else null
  }

  /** The link is the child on the chain: q follows p exactly when q is on the chain and p is its parent. */
  lemma NextTowardChild(p: CBlockIndex, q: CBlockIndex, tip: CBlockIndex)
    requires WellLinked(tip)
    ensures NextToward(p, tip) == q <==> OnChain(q, tip) && q.pprev == p
  {
    if OnChain(p, tip) && p != tip {
      ChildAt(tip, p.nHeight);
      AtAt(tip, p.nHeight + 1, p.nHeight + 1);
    }
    if OnChain(q, tip) && q.pprev == p {
      ParentOnChain(q, tip);
    }
  }

  /** Moving the tip up to its child adds one link; moving it down to its parent removes it. */
  lemma NextTowardExtend(p: CBlockIndex, tip: CBlockIndex)
    requires WellLinked(tip) && tip.pprev != null
    ensures WellLinked(tip.pprev)
    ensures NextToward(p, tip) == if p == tip.pprev then tip else NextToward(p, tip.pprev)
  {
    if p.nHeight < tip.nHeight {
      AtAt(tip, tip.pprev.nHeight, p.nHeight);
      if p.nHeight < tip.pprev.nHeight { AtAt(tip, tip.pprev.nHeight, p.nHeight + 1); }
    }
  }

  /** File positions of `p` and its ancestors, nearest first. */
  ghost function Recent(p: CBlockIndex): seq<(nat, nat)>
    requires WellLinked(p)
    decreases p.nHeight
  {
    [(p.nFile, p.nBlockPos)] + if p.pprev == null then [] else Recent(p.pprev)
  }

  ghost function Context(p: CBlockIndex): BlockContext
    requires WellLinked(p)
  {
    BlockContext(p.nFile, p.nBlockPos, p.nHeight, p.block.nBits, Recent(p))
  }

  lemma {:induction false} RecentAt(p: CBlockIndex, k: nat)
    requires WellLinked(p) && k <= p.nHeight
    ensures |Recent(p)| == p.nHeight + 1
    ensures Recent(p)[k] == (At(p, p.nHeight - k).nFile, At(p, p.nHeight - k).nBlockPos)
    decreases p.nHeight
  {
    if k > 0 {
      RecentAt(p.pprev, k - 1);
    } else if p.pprev != null {
      RecentAt(p.pprev, 0);
    }
  }

  /** Blocks common to both chains sit no higher than `f` and no higher than `l`. */
  ghost predicate ForkBounds(b: CBlockIndex, n: CBlockIndex, f: CBlockIndex, l: CBlockIndex)
    requires WellLinked(b) && WellLinked(n)
  {
    && OnChain(f, b) && OnChain(l, n)
    && forall h :: 0 <= h <= b.nHeight && h <= n.nHeight && At(b, h) == At(n, h) ==> h <= f.nHeight && h <= l.nHeight
  }

  lemma LowerLonger(b: CBlockIndex, n: CBlockIndex, f: CBlockIndex, l: CBlockIndex)
    requires WellLinked(b) && WellLinked(n) && ForkBounds(b, n, f, l) && l.nHeight > f.nHeight
    ensures l.pprev != null && ForkBounds(b, n, f, l.pprev) && l.pprev.nHeight == l.nHeight - 1
  {
    ParentOnChain(l, n);
  }

  lemma LowerFork(b: CBlockIndex, n: CBlockIndex, f: CBlockIndex, l: CBlockIndex)
    requires WellLinked(b) && WellLinked(n) && ForkBounds(b, n, f, l) && l.nHeight <= f.nHeight && f != l
    requires At(b, 0) == At(n, 0)
    ensures f.pprev != null && ForkBounds(b, n, f.pprev, l) && f.pprev.nHeight == f.nHeight - 1
  {
    assert WellLinked(f);
    if f.nHeight > 0 { ParentOnChain(f, b); }
  }

  lemma StartBounds(b: CBlockIndex, n: CBlockIndex)
    requires WellLinked(b) && WellLinked(n)
    ensures ForkBounds(b, n, b, n)
  {
  }

  /** Once the two searches meet, they stand on the highest common block. */
  lemma BoundsMeet(b: CBlockIndex, n: CBlockIndex, f: CBlockIndex)
    requires WellLinked(b) && WellLinked(n) && ForkBounds(b, n, f, f)
    ensures OnChain(f, b) && OnChain(f, n)
    ensures forall h :: f.nHeight < h <= b.nHeight && h <= n.nHeight ==> At(b, h) != At(n, h)
  {
  }
}
