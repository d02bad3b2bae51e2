/**
 What moving between two branches of the block tree does to the transaction index: the fork,
 the way down to it, the way up from it, and how much of it one database transaction carries.
 */
module Branches {
  import opened Transactions
  import opened Ledger
  import opened BlockTree

  /** `f` is the highest block the chains to `a` and `b` share. */
  ghost predicate IsFork(f: CBlockIndex, a: CBlockIndex, b: CBlockIndex) {
    && WellLinked(a) && WellLinked(b) && OnChain(f, a) && OnChain(f, b)
    && forall h :: f.nHeight < h <= a.nHeight && h <= b.nHeight ==> At(a, h) != At(b, h)
  }

  lemma ForkUnique(f: CBlockIndex, g: CBlockIndex, a: CBlockIndex, b: CBlockIndex)
    requires IsFork(f, a, b) && IsFork(g, a, b)
    ensures f == g
  {
    assert At(a, f.nHeight) == At(b, f.nHeight) && At(a, g.nHeight) == At(b, g.nHeight);
  }

  ghost function Fork(a: CBlockIndex, b: CBlockIndex): (f: CBlockIndex)
    requires WellLinked(a) && WellLinked(b) && At(a, 0) == At(b, 0)
    ensures IsFork(f, a, b)
    decreases a.nHeight + b.nHeight
  {
    if a == b then a
    else if a.nHeight >= b.nHeight then Fork(a.pprev, b)
    else Fork(a, b.pprev)
  }

  /** The index after disconnecting the blocks of the chain to `tip` above height `h`, tip first. */
  ghost function Lowered(P: Consensus, db: TxIndexMap, tip: CBlockIndex, h: nat): Option<TxIndexMap>
    requires WellLinked(tip) && h <= tip.nHeight
    decreases tip.nHeight
  {
    if tip.nHeight == h then Some(db)
    else if !BlockDisconnects(P, db, tip.block) then None
    else Lowered(P, DisconnectBlockIndex(P, db, tip.block), tip.pprev, h)
  }

  /** Scripts are checked except below the assumed-valid block. */
  ghost predicate Checked(p: CBlockIndex, assumed: CBlockIndex?) {
    !(assumed != null && WellLinked(assumed) && OnChain(p, assumed))
  }

  /** The index after connecting the blocks of the chain to `tip` above height `h`, lowest first. */
  ghost function Raised(P: Consensus, disk: Disk, db: TxIndexMap, h: nat, tip: CBlockIndex, assumed: CBlockIndex?): Option<TxIndexMap>
    requires WellLinked(tip) && h <= tip.nHeight
    decreases tip.nHeight
  {
    if tip.nHeight == h then Some(db)
    else
      var below := Raised(P, disk, db, h, tip.pprev, assumed);
      if below.Some? && BlockConnects(P, disk, below.value, Context(tip), Checked(tip, assumed), tip.block)
      then Some(ConnectBlockIndex(P, below.value, Context(tip), tip.block))
      else None
  }

  lemma RaisedNext(P: Consensus, disk: Disk, db: TxIndexMap, p: CBlockIndex, assumed: CBlockIndex?, h: nat, d: TxIndexMap)
    requires WellLinked(p) && p.pprev != null && h <= p.pprev.nHeight
    requires Raised(P, disk, db, h, p.pprev, assumed) == Some(d)
    ensures Raised(P, disk, db, h, p, assumed) ==
      if BlockConnects(P, disk, d, Context(p), Checked(p, assumed), p.block)
      then Some(ConnectBlockIndex(P, d, Context(p), p.block)) else None
  {
    hide BlockConnects, Checked, Context, ConnectBlockIndex;
  }

  lemma RaisedNone(P: Consensus, disk: Disk, db: TxIndexMap, p: CBlockIndex, assumed: CBlockIndex?)
    requires WellLinked(p)
    ensures Raised(P, disk, db, p.nHeight, p, assumed) == Some(db)
  {
  }

  /** Once a block fails to connect, nothing above it can be reached. */
  lemma {:induction false} RaisedStops(P: Consensus, disk: Disk, db: TxIndexMap, h: nat, tip: CBlockIndex, assumed: CBlockIndex?, k: nat)
    requires WellLinked(tip) && h <= k <= tip.nHeight && Raised(P, disk, db, h, At(tip, k), assumed).None?
    ensures Raised(P, disk, db, h, tip, assumed).None?
    decreases tip.nHeight
  {
    hide BlockConnects, Checked, Context, ConnectBlockIndex;
    if k < tip.nHeight { RaisedStops(P, disk, db, h, tip.pprev, assumed, k); }
  }

  /** The index after the switch from the chain to `best` to the chain to `target`; none when a
      block of the one cannot be disconnected or a block of the other cannot be connected. */
  ghost function Switched(P: Consensus, disk: Disk, db: TxIndexMap, best: CBlockIndex, target: CBlockIndex, assumed: CBlockIndex?): Option<TxIndexMap>
  {
    if !WellLinked(best) || !WellLinked(target) || At(best, 0) != At(target, 0) then None
    else
      var h := Fork(best, target).nHeight;
      var low := Lowered(P, db, best, h);
      if low.None? then None else Raised(P, disk, low.value, h, target, assumed)
  }

  /** Attaching a child of the best block is the switch with nothing to disconnect. */
  lemma SwitchToChild(P: Consensus, disk: Disk, db: TxIndexMap, p: CBlockIndex, assumed: CBlockIndex?)
    requires WellLinked(p) && p.pprev != null
    ensures Switched(P, disk, db, p.pprev, p, assumed) ==
      if BlockConnects(P, disk, db, Context(p), Checked(p, assumed), p.block)
      then Some(ConnectBlockIndex(P, db, Context(p), p.block)) else None
  {
    hide BlockConnects, Checked, Context, ConnectBlockIndex;
    AtAt(p, p.pprev.nHeight, 0);
    assert IsFork(p.pprev, p.pprev, p);
    ForkUnique(p.pprev, Fork(p.pprev, p), p.pprev, p);
    assert Raised(P, disk, db, p.pprev.nHeight, p.pprev, assumed) == Some(db);
  }

  /** Connecting upwards from `low` in the direction of `top` got as far as `reached`; when nothing
      failed on its own it stops short only below a block that does not connect. */
  ghost predicate Climbed(P: Consensus, disk: Disk, db: TxIndexMap, low: CBlockIndex, reached: CBlockIndex, top: CBlockIndex,
      assumed: CBlockIndex?, db': TxIndexMap, undisturbed: bool)
  {
    && WellLinked(reached) && WellLinked(top) && OnChain(low, reached) && OnChain(reached, top)
    && Raised(P, disk, db, low.nHeight, reached, assumed) == Some(db')
    && (undisturbed && reached != top ==> Raised(P, disk, db, low.nHeight, At(top, reached.nHeight + 1), assumed).None?)
  }

  lemma ClimbStart(P: Consensus, disk: Disk, db: TxIndexMap, low: CBlockIndex, top: CBlockIndex, assumed: CBlockIndex?)
    requires WellLinked(low) && WellLinked(top) && OnChain(low, top)
    ensures Climbed(P, disk, db, low, low, top, assumed, db, low == top)
  {
  }

  lemma ClimbDisturbed(P: Consensus, disk: Disk, db: TxIndexMap, low: CBlockIndex, reached: CBlockIndex, top: CBlockIndex,
      assumed: CBlockIndex?, db': TxIndexMap, undisturbed: bool)
    requires Climbed(P, disk, db, low, reached, top, assumed, db', undisturbed)
    ensures Climbed(P, disk, db, low, reached, top, assumed, db', false)
  {
  }

  /** One more block: the climb goes on, or ends here. */
  lemma ClimbOn(P: Consensus, disk: Disk, db: TxIndexMap, low: CBlockIndex, p: CBlockIndex, child: CBlockIndex, top: CBlockIndex,
      assumed: CBlockIndex?, db': TxIndexMap)
    requires Climbed(P, disk, db, low, p, top, assumed, db', false)
    requires WellLinked(child) && child.pprev == p && OnChain(child, top)
    ensures var next := Switched(P, disk, db', p, child, assumed);
      && (next.Some? ==> Climbed(P, disk, db, low, child, top, assumed, next.value, child == top))
      && (next.None? ==> Climbed(P, disk, db, low, p, top, assumed, db', true))
  {
    hide BlockConnects, Checked, Context, ConnectBlockIndex, Switched;
    SwitchToChild(P, disk, db', child, assumed);
    AtAt(child, p.nHeight, low.nHeight);
  }

  /** The lowest block on the way down from `p` whose parent does not beat the trust `best`:
      the first that makes the branch the best chain. */
  ghost function FirstTarget(p: CBlockIndex, best: nat): (t: CBlockIndex)
    requires WellLinked(p)
    ensures WellLinked(t) && OnChain(t, p)
    ensures t.pprev != null ==> t.pprev.bnChainTrust <= best
    ensures p.bnChainTrust > best ==> t.bnChainTrust > best
    decreases p.nHeight
  {
    if p.pprev != null && p.pprev.bnChainTrust > best
    then
      var t := FirstTarget(p.pprev, best);
      AtAt(p, p.pprev.nHeight, t.nHeight);
      t
    else p
  }

  /** The way up can be cut in two at any height on it. */
  lemma {:induction false} RaisedVia(P: Consensus, disk: Disk, db: TxIndexMap, h: nat, k: nat, tip: CBlockIndex, assumed: CBlockIndex?)
    requires WellLinked(tip) && h <= k <= tip.nHeight
    ensures var half := Raised(P, disk, db, h, At(tip, k), assumed);
      Raised(P, disk, db, h, tip, assumed) == if half.None? then None else Raised(P, disk, half.value, k, tip, assumed)
    decreases tip.nHeight
  {
    hide BlockConnects, Checked, Context, ConnectBlockIndex;
    if k < tip.nHeight { RaisedVia(P, disk, db, h, k, tip.pprev, assumed); }
  }

  /** The first target is no block of the chain it is to replace, unless it is the block asked for. */
  lemma SameFork(best: CBlockIndex, p: CBlockIndex)
    requires WellLinked(best) && WellLinked(p) && At(best, 0) == At(p, 0)
    ensures var t := FirstTarget(p, best.bnChainTrust);
      && t.nHeight <= p.nHeight && At(p, t.nHeight) == t && At(t, 0) == At(p, 0)
      && Fork(best, t) == Fork(best, p)
  {
    var t := FirstTarget(p, best.bnChainTrust);
    AtAt(p, t.nHeight, 0);
    if p.bnChainTrust > best.bnChainTrust {
      var f := Fork(best, p);
      assert f.bnChainTrust <= best.bnChainTrust && At(best, f.nHeight) == f && At(p, f.nHeight) == f;
      if f.nHeight >= t.nHeight {
        AtAt(p, f.nHeight, t.nHeight);
        assert false;
      }
      forall h | f.nHeight <= h <= t.nHeight ensures At(t, h) == At(p, h) { AtAt(p, t.nHeight, h); }
      ForkUnique(f, Fork(best, t), best, t);
    } else {
      TargetIsSelf(p, best.bnChainTrust);
    }
  }

  lemma TargetIsSelf(p: CBlockIndex, best: nat)
    requires WellLinked(p) && p.bnChainTrust <= best
    ensures FirstTarget(p, best) == p
  {
  }

  /** The whole switch goes through the first target. */
  lemma SwitchSplit(P: Consensus, disk: Disk, db: TxIndexMap, best: CBlockIndex, p: CBlockIndex, assumed: CBlockIndex?)
    requires WellLinked(best) && WellLinked(p) && At(best, 0) == At(p, 0)
    ensures var t := FirstTarget(p, best.bnChainTrust); var d := Switched(P, disk, db, best, t, assumed);
      && t.nHeight <= p.nHeight
      && Switched(P, disk, db, best, p, assumed) == if d.None? then None else Raised(P, disk, d.value, t.nHeight, p, assumed)
  {
    hide Lowered, Raised, FirstTarget, OnChain;
    var t := FirstTarget(p, best.bnChainTrust);
    SameFork(best, p);
    ForkLow(best, t);
    var h := Fork(best, t).nHeight;
    var low := Lowered(P, db, best, h);
    if low.Some? { RaisedVia(P, disk, low.value, h, t.nHeight, p, assumed); }
  }

  lemma ForkLow(a: CBlockIndex, b: CBlockIndex)
    requires WellLinked(a) && WellLinked(b) && At(a, 0) == At(b, 0)
    ensures Fork(a, b).nHeight <= a.nHeight && Fork(a, b).nHeight <= b.nHeight
  {
  }

  /** An undisturbed climb arrives exactly when all blocks up to the top connect. */
  lemma TopOfClimb(P: Consensus, disk: Disk, db: TxIndexMap, low: CBlockIndex, reached: CBlockIndex, top: CBlockIndex,
      assumed: CBlockIndex?, db': TxIndexMap)
    requires Climbed(P, disk, db, low, reached, top, assumed, db', true)
    ensures WellLinked(top) && low.nHeight <= top.nHeight
    ensures reached == top <==> Raised(P, disk, db, low.nHeight, top, assumed).Some?
    ensures reached == top ==> Raised(P, disk, db, low.nHeight, top, assumed) == Some(db')
  {
    hide Raised;
    if reached != top { RaisedStops(P, disk, db, low.nHeight, top, assumed, reached.nHeight + 1); }
  }

  /** The climb from the first target arrives exactly when the whole switch can be made. */
  lemma ArrivesIff(P: Consensus, disk: Disk, db: TxIndexMap, best: CBlockIndex, p: CBlockIndex, assumed: CBlockIndex?,
      reached: CBlockIndex, db': TxIndexMap)
    requires WellLinked(best) && WellLinked(p) && At(best, 0) == At(p, 0)
    requires var t := FirstTarget(p, best.bnChainTrust); var d := Switched(P, disk, db, best, t, assumed);
      d.Some? && Climbed(P, disk, d.value, t, reached, p, assumed, db', true)
    ensures reached == p <==> Switched(P, disk, db, best, p, assumed).Some?
    ensures reached == p ==> Switched(P, disk, db, best, p, assumed) == Some(db')
  {
    hide Raised, FirstTarget, Switched, Climbed, WellLinked, At;
    var t := FirstTarget(p, best.bnChainTrust);
    var d := Switched(P, disk, db, best, t, assumed);
    SwitchSplit(P, disk, db, best, p, assumed);
    TopOfClimb(P, disk, d.value, t, reached, p, assumed, db');
  }
}
