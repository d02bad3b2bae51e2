/**
 Synchronised checkpoints (src/checkpoints.cpp) and the acceptance of blocks they govern
 (src/main.cpp AcceptBlock), on the main network with checkpoints enforced.
 */
module Checkpoints {
  import opened Transactions
  import opened Ledger
  import opened BlockTree
  import opened Branches
  import opened TxDb
  import opened ChainState

  // ----- the protocol as a step relation ----------------------------------------------------------

  datatype SyncState = SyncState(tree: set<CBlockIndex>, best: CBlockIndex, sync: CBlockIndex)

  ghost predicate WellFormed(s: SyncState) {
    (forall p :: p in s.tree ==> WellLinked(p)) && s.best in s.tree && s.sync in s.tree
  }

  /** A block descending from the checkpoint joins the tree, and may become the best block. */
  ghost predicate BlockStep(s: SyncState, s': SyncState) {
    WellFormed(s) && WellFormed(s') &&
    exists b :: b in s'.tree && b !in s.tree && s'.tree == s.tree + {b}
      && b.pprev != null && b.pprev in s.tree && OnChain(s.sync, b.pprev)
      && (s'.best == s.best || s'.best == b) && s'.sync == s.sync
  }

  /** A checkpoint strictly above the current one is taken over: its chain becomes the best chain
      unless it is part of it already, and then the checkpoint moves (or the write fails). */
  ghost predicate CheckpointStep(s: SyncState, s': SyncState) {
    WellFormed(s) && WellFormed(s') && s'.tree == s.tree &&
    exists c :: c in s.tree && OnChain(s.sync, c) && c != s.sync
      && (s'.best == c || (s'.best == s.best && OnChain(c, s.best)))
      && (s'.sync == c || s'.sync == s.sync)
  }

  ghost predicate SyncStep(s: SyncState, s': SyncState) {
    (s' == s && WellFormed(s)) || BlockStep(s, s') || CheckpointStep(s, s')
  }

  /** The sync checkpoint is an ancestor of the best block, or the best block itself. */
  ghost predicate Safe(s: SyncState) { WellFormed(s) && OnChain(s.sync, s.best) }

  lemma StepSafe(s: SyncState, s': SyncState)
    requires Safe(s) && SyncStep(s, s')
    ensures Safe(s') && OnChain(s.sync, s'.sync)
  {
    hide WellLinked;
    OnSelf(s.sync);
    if BlockStep(s, s') {
      if s'.best != s.best { OnChild(s.sync, s'.best); }
    } else if CheckpointStep(s, s') {
      OnSelf(s'.sync);
    }
  }

  lemma OnSelf(p: CBlockIndex)
    requires WellLinked(p)
    ensures OnChain(p, p)
  {
  }

  lemma OnChild(a: CBlockIndex, p: CBlockIndex)
    requires WellLinked(p) && p.pprev != null && WellLinked(p.pprev) && OnChain(a, p.pprev)
    ensures OnChain(a, p)
  {
  }

  ghost predicate SyncRun(run: seq<SyncState>) {
    |run| > 0 && Safe(run[0]) && forall i :: 0 <= i < |run| - 1 ==> SyncStep(run[i], run[i + 1])
  }

  /** In every run, at every moment, the checkpoint lies on the best chain; between any two
      moments it stays or moves to a strict descendant of where it was. */
  lemma {:induction false} RunSafe(run: seq<SyncState>, i: nat, j: nat)
    requires SyncRun(run) && i <= j < |run|
    ensures Safe(run[i]) && Safe(run[j])
    ensures OnChain(run[i].sync, run[j].sync)
    ensures run[j].sync == run[i].sync || run[j].sync.nHeight > run[i].sync.nHeight
    decreases j
  {
    hide WellLinked, SyncStep;
    if j == 0 {
      OnSelf(run[0].sync);
    } else if i == j {
      RunSafe(run, i - 1, j - 1);
      assert SyncStep(run[j - 1], run[j - 1 + 1]);
      StepSafe(run[j - 1], run[j]);
      OnSelf(run[j].sync);
    } else {
      RunSafe(run, i, j - 1);
      assert SyncStep(run[j - 1], run[j - 1 + 1]);
      StepSafe(run[j - 1], run[j]);
      OnChainTrans(run[i].sync, run[j - 1].sync, run[j].sync);
    }
    SameHeight(run[i].sync, run[j].sync);
  }

  lemma SameHeight(a: CBlockIndex, p: CBlockIndex)
    requires WellLinked(p) && OnChain(a, p)
    ensures a == p || a.nHeight < p.nHeight
  {
  }

  /** With `best` the best block and `db` the index, the chain to `c` is the best chain already, up to
      blocks above it, or can become it. */
  ghost predicate CanBecome(P: Consensus, disk: Disk, best: CBlockIndex, db: TxIndexMap, assumed: CBlockIndex?, c: CBlockIndex)
    requires WellLinked(c)
  {
    || (WellLinked(best) && OnChain(c, best))
    || Switched(P, disk, db, best, FirstTarget(c, best.bnChainTrust), assumed).Some?
  }

  lemma BestCan(P: Consensus, disk: Disk, best: CBlockIndex, db: TxIndexMap, assumed: CBlockIndex?)
    requires WellLinked(best)
    ensures CanBecome(P, disk, best, db, assumed, best)
  {
    OnSelf(best);
  }

  /** Strictly above the checkpoint. */
  ghost predicate Above(sync: CBlockIndex, c: CBlockIndex) { WellLinked(c) && OnChain(sync, c) && c != sync }

  // ----- the code ---------------------------------------------------------------------------------

  class CCheckpoints {
    const chain: CChainState
    var hashSyncCheckpoint: Hash256
    var hashPendingCheckpoint: Hash256
    var hashInvalidCheckpoint: Hash256

    /** Right after the genesis block: it is the first checkpoint. */
    constructor (chain: CChainState)
      requires chain.Valid()
      ensures this.chain == chain && Valid() && hashPendingCheckpoint == 0
      ensures hashSyncCheckpoint == chain.pindexGenesisBlock.hash
    {
      this.chain := chain;
      hashSyncCheckpoint, hashPendingCheckpoint, hashInvalidCheckpoint := chain.pindexGenesisBlock.hash, 0, 0;
      new;
      GenesisSync();
    }

    lemma GenesisSync()
      requires chain.Valid() && hashSyncCheckpoint == chain.pindexGenesisBlock.hash
      ensures Valid()
    {
      InIndex(chain.pindexGenesisBlock);
      assert chain.GoodNode(chain.Nodes(), chain.pindexBest);
    }

    ghost predicate Valid()
      reads this, chain, chain.txdb, chain.Nodes()
    {
      chain.Valid() && hashSyncCheckpoint in chain.mapBlockIndex && Safe(Abs())
    }

    ghost function Abs(): SyncState
      requires hashSyncCheckpoint in chain.mapBlockIndex
      reads this, chain
    {
      SyncState(chain.Nodes(), chain.pindexBest, chain.mapBlockIndex[hashSyncCheckpoint])
    }

    lemma InIndex(p: CBlockIndex)
      requires chain.Tree() && p in chain.Nodes()
      ensures p.hash in chain.mapBlockIndex && chain.mapBlockIndex[p.hash] == p
    {
      hide CChainState.GoodNode;
      var h :| h in chain.mapBlockIndex && chain.mapBlockIndex[h] == p;
    }

    lemma Known(h: Hash256)
      requires chain.Tree() && h in chain.mapBlockIndex
      ensures chain.mapBlockIndex[h] in chain.Nodes() && chain.mapBlockIndex[h].hash == h && WellLinked(chain.mapBlockIndex[h])
    {
      hide OnDisk, Context;
      assert chain.GoodNode(chain.Nodes(), chain.mapBlockIndex[h]);
    }

    /** Trace back from `from` to height `nHeight`. */
    method TraceBack(from: CBlockIndex, nHeight: nat) returns (p: CBlockIndex)
      requires WellLinked(from)
      ensures p == if from.nHeight <= nHeight then from else At(from, nHeight)
    {
      p := from;
      while p.nHeight > nHeight
        invariant WellLinked(p) && OnChain(p, from) && (p.nHeight >= nHeight || p == from)
        decreases p.nHeight
      {
        ParentOnChain(p, from);
        p := p.pprev;
      }
    }

    /** Accepts exactly the known strict descendants of the current checkpoint; a known block on
        another branch is remembered as invalid. */
    method ValidateSyncCheckpoint(hashCheckpoint: Hash256) returns (ok: bool)
      requires Valid()
      modifies this`hashInvalidCheckpoint
      ensures Valid()
      ensures ok <==>
        hashCheckpoint in chain.mapBlockIndex && Above(Abs().sync, chain.mapBlockIndex[hashCheckpoint])
      ensures hashInvalidCheckpoint ==
        if hashCheckpoint in chain.mapBlockIndex
          && (var c := chain.mapBlockIndex[hashCheckpoint];
              WellLinked(c) && !OnChain(Abs().sync, c) && !OnChain(c, Abs().sync))
        then hashCheckpoint else old(hashInvalidCheckpoint)
    {
      hide WellLinked, CChainState.GoodNode;
      Known(hashSyncCheckpoint);
      if hashCheckpoint !in chain.mapBlockIndex { return false; }
      Known(hashCheckpoint);
      var pindexSyncCheckpoint := chain.mapBlockIndex[hashSyncCheckpoint];
      var pindexCheckpointRecv := chain.mapBlockIndex[hashCheckpoint];
      if pindexCheckpointRecv.nHeight <= pindexSyncCheckpoint.nHeight {
        var pindex := TraceBack(pindexSyncCheckpoint, pindexCheckpointRecv.nHeight);
        AncestorKnown(pindexSyncCheckpoint, pindexCheckpointRecv.nHeight);
        if pindex.hash != hashCheckpoint { hashInvalidCheckpoint := hashCheckpoint; }
        return false;
      }
      var pindex := TraceBack(pindexCheckpointRecv, pindexSyncCheckpoint.nHeight);
      AncestorKnown(pindexCheckpointRecv, pindexSyncCheckpoint.nHeight);
      if pindex.hash != hashSyncCheckpoint {
        hashInvalidCheckpoint := hashCheckpoint;
        return false;
      }
      return true;
    }

    /** Ancestors are identified by their hash. */
    lemma AncestorKnown(p: CBlockIndex, h: nat)
      requires chain.Tree() && p in chain.Nodes() && WellLinked(p) && h <= p.nHeight
      ensures At(p, h).hash in chain.mapBlockIndex && chain.mapBlockIndex[At(p, h).hash] == At(p, h)
      ensures At(p, p.nHeight) == p
    {
      hide OnDisk, Context;
      chain.AncestorInNodes(chain.Nodes(), p, h);
      InIndex(At(p, h));
    }

    /** Commit the new checkpoint before adopting it. */
    method WriteSyncCheckpoint(hashCheckpoint: Hash256) returns (ok: bool)
      requires chain.Valid()
      modifies this`hashSyncCheckpoint, chain.txdb
      ensures chain.Valid() && (old(chain.Healthy()) ==> chain.Healthy())
      ensures hashSyncCheckpoint == if ok then hashCheckpoint else old(hashSyncCheckpoint)
      ensures chain.txdb.failures >= old(chain.txdb.failures) && (ok <==> chain.txdb.failures == old(chain.txdb.failures))
      ensures ok ==> chain.txdb.committed == old(chain.txdb.committed).(hashSyncCheckpoint := hashCheckpoint)
    {
      hide CChainState.GoodNode, CChainState.StateAt, CChainState.LinksSound, CChainState.MainLinks, CChainState.Tree;
      chain.TreeNodes();
      chain.NodeFacts(chain.Nodes(), chain.pindexBest);
      ghost var s, healthy, supply := chain.txdb.committed, chain.Healthy(), CChainState.Supplies(chain.Nodes());
      var _ := chain.txdb.TxnBegin();
      ok := chain.txdb.WriteSyncCheckpoint(hashCheckpoint);
      if ok {
        ok := chain.txdb.TxnCommit();
      } else {
        var _ := chain.txdb.TxnAbort();
      }
      chain.StateHash(supply, s, chain.txdb.committed, chain.pindexBest);
      if ok { hashSyncCheckpoint := hashCheckpoint; }
    }

    method IsInMainChain(p: CBlockIndex) returns (ok: bool)
      requires chain.Valid() && p in chain.Nodes()
      ensures chain.Healthy() ==> (ok <==> WellLinked(chain.pindexBest) && OnChain(p, chain.pindexBest))
      ensures ok ==> WellLinked(chain.pindexBest) && OnChain(p, chain.pindexBest)
    {
      hide WellLinked;
      Known(chain.pindexBest.hash);
      ok := p.pnext != null || p == chain.pindexBest;
      if p == chain.pindexBest {
        OnSelf(p);
      } else if p.pnext != null {
        assert CChainState.Links(chain.Nodes())[p] == p.pnext;
        ParentOnChain(p.pnext, chain.pindexBest);
      }
    }

    ghost predicate Reachable(c: CBlockIndex)
      requires WellLinked(c)
      reads this, chain, chain.txdb
    {
      CanBecome(chain.P, chain.disk, chain.pindexBest, chain.txdb.committed.txindex, chain.AssumedValid(), c)
    }

    /** Unless the block is on the main chain, make its chain the best chain; a block whose chain
        cannot be connected is remembered as invalid. */
    method MakeBest(c: CBlockIndex) returns (ok: bool)
      requires chain.Valid() && c in chain.Nodes() && WellLinked(c)
      modifies this`hashInvalidCheckpoint, chain, chain.txdb, chain.Nodes()
      ensures chain.Valid() && chain.mapBlockIndex == old(chain.mapBlockIndex)
      ensures chain.txdb.failures >= old(chain.txdb.failures)
      ensures ok ==> (chain.pindexBest == c
        || (chain.pindexBest == old(chain.pindexBest) && WellLinked(chain.pindexBest) && OnChain(c, chain.pindexBest)))
      ensures !ok ==> chain.pindexBest == old(chain.pindexBest)
      ensures hashInvalidCheckpoint == old(hashInvalidCheckpoint) || (!ok && hashInvalidCheckpoint == c.hash)
      ensures old(chain.Healthy()) && chain.txdb.failures == old(chain.txdb.failures) ==>
        ((ok <==> old(Reachable(c))) && (!ok ==> hashInvalidCheckpoint == c.hash))
    {
      hide WellLinked, OnChain, Switched, Climbed, FirstTarget, CChainState.GoodNode, CChainState.LinksSound, CChainState.Healthy, CChainState.Tree;
      ok := IsInMainChain(c);
      if !ok {
        ok := chain.txdb.Attempt();  // ReadFromDisk
        if !ok { return; }
        ghost var reached;
        ok, reached := chain.SetBestChain(c);
        if !ok { hashInvalidCheckpoint := c.hash; }
      }
    }

    /** Take over a validated checkpoint: what AcceptPendingSyncCheckpoint and ProcessSyncCheckpoint share. */
    method TakeOver(hashCheckpoint: Hash256) returns (ok: bool)
      requires Valid() && hashCheckpoint in chain.mapBlockIndex
      requires WellLinked(chain.mapBlockIndex[hashCheckpoint])
      requires OnChain(Abs().sync, chain.mapBlockIndex[hashCheckpoint]) && chain.mapBlockIndex[hashCheckpoint] != Abs().sync
      modifies this`hashSyncCheckpoint, this`hashInvalidCheckpoint, chain, chain.txdb, chain.Nodes()
      ensures chain.mapBlockIndex == old(chain.mapBlockIndex)
      ensures Valid() && SyncStep(old(Abs()), Abs())
      ensures chain.txdb.failures >= old(chain.txdb.failures)
      ensures ok ==> hashSyncCheckpoint == hashCheckpoint
      ensures !ok ==> hashSyncCheckpoint == old(hashSyncCheckpoint)
      ensures old(chain.Healthy()) && chain.txdb.failures == old(chain.txdb.failures) ==>
        (ok <==> old(Reachable(chain.mapBlockIndex[hashCheckpoint])))
    {
      hide WellLinked, OnChain, Reachable, CChainState.GoodNode, CChainState.LinksSound, CChainState.Healthy;
      ghost var s := Abs();
      Known(hashCheckpoint);
      OnSelf(chain.mapBlockIndex[hashCheckpoint]);
      ok := MakeBest(chain.mapBlockIndex[hashCheckpoint]);
      if !ok {
        assert Abs() == s;
        return;
      }
      ok := WriteSyncCheckpoint(hashCheckpoint);
      assert CheckpointStep(s, Abs());
      StepSafe(s, Abs());
    }

    /** What it takes for a checkpoint to be taken over when nothing fails on its own: its block is
        a known strict descendant of the current one whose chain is or can become the best chain. */
    ghost predicate TakenOver(hashCheckpoint: Hash256)
      requires hashSyncCheckpoint in chain.mapBlockIndex
      reads this, chain, chain.txdb
    {
      hashCheckpoint in chain.mapBlockIndex &&
      var c := chain.mapBlockIndex[hashCheckpoint];
      Above(Abs().sync, c) && Reachable(c)
    }

    /** Called after every accepted block. While the pending block is not known nothing changes; once it is,
        it stays pending only if it could be the checkpoint but its chain could not be made the best one. */
    method AcceptPendingSyncCheckpoint() returns (ok: bool)
      requires Valid()
      modifies this, chain, chain.txdb, chain.Nodes()
      ensures chain.mapBlockIndex == old(chain.mapBlockIndex)
      ensures Valid() && SyncStep(old(Abs()), Abs())
      ensures chain.txdb.failures >= old(chain.txdb.failures)
      ensures hashPendingCheckpoint == (
        if old(hashPendingCheckpoint) !in old(chain.mapBlockIndex) then old(hashPendingCheckpoint)
        else if ok || !old(Above(Abs().sync, chain.mapBlockIndex[hashPendingCheckpoint])) then 0
        else old(hashPendingCheckpoint))
      ensures old(hashPendingCheckpoint == 0 || hashPendingCheckpoint !in chain.mapBlockIndex) ==>
        !ok && unchanged(this) && unchanged(chain) && unchanged(chain.txdb) && unchanged(old(chain.Nodes()))
      ensures ok ==> hashSyncCheckpoint == old(hashPendingCheckpoint) && hashPendingCheckpoint == 0
      ensures !ok ==> hashSyncCheckpoint == old(hashSyncCheckpoint)
      ensures old(chain.Healthy()) && chain.txdb.failures == old(chain.txdb.failures) ==>
        (ok <==> old(hashPendingCheckpoint != 0 && TakenOver(hashPendingCheckpoint)))
    {
      hide WellLinked, OnChain, CChainState.GoodNode, CChainState.LinksSound, CChainState.Healthy, BlockStep, CheckpointStep;
      if hashPendingCheckpoint == 0 || hashPendingCheckpoint !in chain.mapBlockIndex { return false; }
      ok := ValidateSyncCheckpoint(hashPendingCheckpoint);
      if !ok {
        hashPendingCheckpoint := 0;
        return;
      }
      ok := TakeOver(hashPendingCheckpoint);
      if ok { hashPendingCheckpoint := 0; }
    }

    /** A signed checkpoint message: kept as pending until its block is known. */
    method ProcessSyncCheckpoint(hashCheckpoint: Hash256, fSignatureOk: bool) returns (ok: bool)
      requires Valid()
      modifies this, chain, chain.txdb, chain.Nodes()
      ensures chain.mapBlockIndex == old(chain.mapBlockIndex)
      ensures Valid() && SyncStep(old(Abs()), Abs())
      ensures ok ==> hashSyncCheckpoint == hashCheckpoint && hashPendingCheckpoint == 0
      ensures !fSignatureOk ==> !ok && Abs() == old(Abs()) && hashPendingCheckpoint == old(hashPendingCheckpoint)
      ensures fSignatureOk && hashCheckpoint !in chain.mapBlockIndex ==> !ok && hashPendingCheckpoint == hashCheckpoint
      ensures hashPendingCheckpoint == (
        if ok then 0 else if fSignatureOk && hashCheckpoint !in chain.mapBlockIndex then hashCheckpoint else old(hashPendingCheckpoint))
      ensures !ok ==> hashSyncCheckpoint == old(hashSyncCheckpoint)
      ensures old(chain.Healthy()) && chain.txdb.failures == old(chain.txdb.failures) ==>
        (ok <==> fSignatureOk && old(TakenOver(hashCheckpoint)))
    {
      hide WellLinked, OnChain, CChainState.GoodNode, CChainState.LinksSound, CChainState.Healthy, BlockStep, CheckpointStep;
      if !fSignatureOk { return false; }
      if hashCheckpoint !in chain.mapBlockIndex {
        hashPendingCheckpoint := hashCheckpoint;
        return false;
      }
      ok := ValidateSyncCheckpoint(hashCheckpoint);
      if !ok { return; }
      ok := TakeOver(hashCheckpoint);
      if ok { hashPendingCheckpoint := 0; }
    }

    /** The checkpoint test on a block whose parent is known. For a block not yet in the tree it
        passes exactly the descendants of the checkpoint. */
    method CheckSync(hashBlock: Hash256, pindexPrev: CBlockIndex) returns (ok: bool)
      requires Valid() && pindexPrev in chain.Nodes()
      ensures hashBlock !in chain.mapBlockIndex ==>
        (ok <==> WellLinked(pindexPrev) && OnChain(Abs().sync, pindexPrev))
    {
      hide WellLinked, CChainState.GoodNode, CChainState.LinksSound;
      Known(hashSyncCheckpoint);
      InIndex(pindexPrev);
      Known(pindexPrev.hash);
      var nHeight := pindexPrev.nHeight + 1;
      var pindexSync := chain.mapBlockIndex[hashSyncCheckpoint];
      if nHeight > pindexSync.nHeight {
        var pindex := TraceBack(pindexPrev, pindexSync.nHeight);
        AncestorKnown(pindexPrev, pindexSync.nHeight);
        if pindex.nHeight < pindexSync.nHeight || pindex.hash != hashSyncCheckpoint { return false; }
      }
      if nHeight == pindexSync.nHeight && hashBlock != hashSyncCheckpoint { return false; }
      if nHeight < pindexSync.nHeight && hashBlock !in chain.mapBlockIndex { return false; }
      return true;
    }

    ghost predicate AboveSync(p: CBlockIndex)
      requires hashSyncCheckpoint in chain.mapBlockIndex
      reads this, chain
    {
      WellLinked(p) && OnChain(Abs().sync, p)
    }

    /** AcceptBlock: a new block joins the tree exactly when its parent is known and descends from
        the checkpoint and the other checks pass. `fContext` is the outcome of the other context checks, `fModifier` of the
        stake modifier checks in AddToBlockIndex. The block step and the step of a pending
        checkpoint it completes follow each other; `mid`, `db` and `agreed` are the protocol state, the index
        and whether memory and database agree in between. */
    method AcceptBlock(block: CBlock, nFile: nat, nBlockPos: nat, nBlockTrust: nat, fContext: bool, fModifier: bool)
      returns (ok: bool, ghost mid: SyncState, ghost db: TxIndexMap, ghost agreed: bool)
      requires Valid() && chain.P.blockHash(block) != 0
      requires OnDisk(chain.P, chain.disk, BlockContext(nFile, nBlockPos, 0, 0, []), block)
      modifies this, chain, chain.txdb, chain.Nodes()
      ensures Valid() && SyncStep(old(Abs()), mid) && SyncStep(mid, Abs()) && mid.tree == chain.Nodes()
      ensures mid.sync == old(Abs()).sync
      ensures chain.txdb.failures >= old(chain.txdb.failures)
      ensures ok ==> chain.P.blockHash(block) in chain.mapBlockIndex && chain.P.blockHash(block) !in old(chain.mapBlockIndex)
      ensures chain.P.blockHash(block) !in old(chain.mapBlockIndex) ==>
        (chain.P.blockHash(block) in chain.mapBlockIndex <==>
          fContext && fModifier && block.hashPrevBlock in old(chain.mapBlockIndex)
          && old(AboveSync(chain.mapBlockIndex[block.hashPrevBlock])))
      ensures old(chain.mapBlockIndex).Keys <= chain.mapBlockIndex.Keys <= old(chain.mapBlockIndex).Keys + {chain.P.blockHash(block)}
      ensures ok ==> Above(mid.sync, chain.mapBlockIndex[chain.P.blockHash(block)])
      ensures old(chain.Healthy()) && chain.txdb.failures == old(chain.txdb.failures) ==>
        (agreed <==>
          (mid.best == old(chain.pindexBest)
           || Switched(chain.P, chain.disk, old(chain.txdb.committed).txindex, old(chain.pindexBest), mid.best, chain.AssumedValid()) == Some(db)))
      ensures mid.best == old(chain.pindexBest) ==> db == old(chain.txdb.committed).txindex
      ensures fresh(chain.Nodes() - old(chain.Nodes()))
      ensures !ok || old(hashPendingCheckpoint) == 0 || old(hashPendingCheckpoint) !in chain.mapBlockIndex ==>
        hashPendingCheckpoint == old(hashPendingCheckpoint) && hashSyncCheckpoint == old(hashSyncCheckpoint) && Abs() == mid
      ensures ok && old(hashPendingCheckpoint) != 0 && old(hashPendingCheckpoint) in chain.mapBlockIndex ==>
        var c := chain.mapBlockIndex[old(hashPendingCheckpoint)];
        hashPendingCheckpoint == if Above(mid.sync, c) && hashSyncCheckpoint == old(hashSyncCheckpoint) then old(hashPendingCheckpoint) else 0
      ensures ok && agreed && chain.txdb.failures == old(chain.txdb.failures) ==>
        hashSyncCheckpoint == if TakenFrom(mid, db, old(hashPendingCheckpoint)) then old(hashPendingCheckpoint) else old(hashSyncCheckpoint)
    {
      hide WellLinked, OnChain, CChainState.GoodNode, CChainState.LinksSound, CChainState.Healthy, CheckpointStep, BlockStep, OnDisk,
        Switched, TakenFrom, CChainState.CacheOk, CChainState.Tree, Above, AboveSync;
      mid, db, agreed := Abs(), chain.txdb.committed.txindex, chain.Healthy();
      ok := MayJoin(block, fContext);
      if !ok { return; }
      ok, mid, db, agreed := JoinTree(block, nFile, nBlockPos, nBlockTrust, fModifier);
      if !ok { return; }
      CompletePending(mid, db, agreed);
    }

    /** The last part of AcceptBlock, in terms of the state it starts from. */
    method CompletePending(ghost mid: SyncState, ghost db: TxIndexMap, ghost agreed: bool)
      requires Valid() && mid == Abs() && db == chain.txdb.committed.txindex && agreed == chain.Healthy()
      modifies this, chain, chain.txdb, chain.Nodes()
      ensures Valid() && SyncStep(mid, Abs())
      ensures chain.mapBlockIndex == old(chain.mapBlockIndex) && chain.txdb.failures >= old(chain.txdb.failures)
      ensures old(hashPendingCheckpoint) == 0 || old(hashPendingCheckpoint) !in chain.mapBlockIndex ==>
        hashPendingCheckpoint == old(hashPendingCheckpoint) && hashSyncCheckpoint == old(hashSyncCheckpoint) && Abs() == mid
      ensures old(hashPendingCheckpoint) != 0 && old(hashPendingCheckpoint) in chain.mapBlockIndex ==>
        var c := chain.mapBlockIndex[old(hashPendingCheckpoint)];
        hashPendingCheckpoint == if Above(mid.sync, c) && hashSyncCheckpoint == old(hashSyncCheckpoint) then old(hashPendingCheckpoint) else 0
      ensures agreed && chain.txdb.failures == old(chain.txdb.failures) ==>
        hashSyncCheckpoint == if TakenFrom(mid, db, old(hashPendingCheckpoint)) then old(hashPendingCheckpoint) else old(hashSyncCheckpoint)
    {
      hide WellLinked, OnChain, CChainState.GoodNode, CChainState.LinksSound, CChainState.Healthy, SyncStep, OnDisk,
        Switched, CanBecome, CChainState.CacheOk, CChainState.Tree, Safe;
      var _ := AcceptPendingSyncCheckpoint();
    }

    /** The tests AcceptBlock makes before the block is written to disk. */
    method MayJoin(block: CBlock, fContext: bool) returns (ok: bool)
      requires Valid()
      ensures ok <==>
        && chain.P.blockHash(block) !in chain.mapBlockIndex && fContext && block.hashPrevBlock in chain.mapBlockIndex
        && AboveSync(chain.mapBlockIndex[block.hashPrevBlock])
    {
      hide WellLinked, OnChain, CChainState.GoodNode, CChainState.LinksSound, CChainState.CacheOk;
      var hash := chain.P.blockHash(block);
      if hash in chain.mapBlockIndex { return false; }
      if block.hashPrevBlock !in chain.mapBlockIndex { return false; }
      if !fContext { return false; }
      Known(block.hashPrevBlock);
      ok := CheckSync(hash, chain.mapBlockIndex[block.hashPrevBlock]);
    }

    /** The pending checkpoint is taken over when nothing fails on its own. */
    ghost predicate TakenFrom(s: SyncState, db: TxIndexMap, hash: Hash256)
      reads this, chain
    {
      hash != 0 && hash in chain.mapBlockIndex &&
      var c := chain.mapBlockIndex[hash];
      Above(s.sync, c) && CanBecome(chain.P, chain.disk, s.best, db, chain.AssumedValid(), c)
    }

    /** The part of AcceptBlock in AddToBlockIndex. */
    method JoinTree(block: CBlock, nFile: nat, nBlockPos: nat, nBlockTrust: nat, fModifier: bool)
      returns (ok: bool, ghost mid: SyncState, ghost db: TxIndexMap, ghost agreed: bool)
      requires Valid() && chain.P.blockHash(block) != 0 && chain.P.blockHash(block) !in chain.mapBlockIndex
      requires OnDisk(chain.P, chain.disk, BlockContext(nFile, nBlockPos, 0, 0, []), block)
      requires block.hashPrevBlock in chain.mapBlockIndex && AboveSync(chain.mapBlockIndex[block.hashPrevBlock])
      modifies chain, chain.txdb, chain.Nodes()
      ensures Valid() && mid == Abs() && SyncStep(old(Abs()), mid)
      ensures mid.sync == old(Abs()).sync
      ensures db == chain.txdb.committed.txindex && agreed == chain.Healthy()
      ensures chain.txdb.failures >= old(chain.txdb.failures)
      ensures chain.P.blockHash(block) in chain.mapBlockIndex <==> fModifier
      ensures ok ==> fModifier && Above(mid.sync, chain.mapBlockIndex[chain.P.blockHash(block)])
      ensures old(chain.mapBlockIndex).Keys <= chain.mapBlockIndex.Keys <= old(chain.mapBlockIndex).Keys + {chain.P.blockHash(block)}
      ensures old(chain.Healthy()) && chain.txdb.failures == old(chain.txdb.failures) ==>
        (agreed <==>
          (mid.best == old(chain.pindexBest)
           || Switched(chain.P, chain.disk, old(chain.txdb.committed).txindex, old(chain.pindexBest), mid.best, chain.AssumedValid()) == Some(db)))
      ensures mid.best == old(chain.pindexBest) ==> db == old(chain.txdb.committed).txindex
      ensures fresh(chain.Nodes() - old(chain.Nodes()))
    {
      hide WellLinked, OnChain, CChainState.GoodNode, CChainState.LinksSound, CChainState.Healthy, CheckpointStep, BlockStep, OnDisk,
        Switched, Climbed, FirstTarget, CChainState.CacheOk;
      ghost var s, index0, prev := Abs(), chain.mapBlockIndex, chain.mapBlockIndex[block.hashPrevBlock];
      Known(block.hashPrevBlock);
      ghost var added, reached;
      ok, added, reached := chain.AddToBlockIndex(block, nFile, nBlockPos, nBlockTrust, fModifier);
      mid, db, agreed := Abs(), chain.txdb.committed.txindex, chain.Healthy();
      if added != null {
        BlockAdded(s, index0, added);
        AddedAbove(s, index0, added);
      }
    }

    /** A block that joined on top of a descendant of the checkpoint is strictly above the checkpoint. */
    lemma AddedAbove(s: SyncState, index0: map<Hash256, CBlockIndex>, added: CBlockIndex)
      requires chain.Valid() && added.hash !in index0 && chain.mapBlockIndex == index0[added.hash := added]
      requires hashSyncCheckpoint in index0 && s.sync == index0[hashSyncCheckpoint]
      requires forall h :: h in index0 ==> index0[h].hash == h
      requires added.pprev != null && WellLinked(added.pprev) && OnChain(s.sync, added.pprev)
      ensures Above(s.sync, added) && chain.mapBlockIndex[added.hash] == added
    {
      hide OnChain, CChainState.LinksSound;
      Known(added.hash);
      OnChild(s.sync, added);
    }

    /** The tree grew by a block above the checkpoint. */
    lemma BlockAdded(s: SyncState, index0: map<Hash256, CBlockIndex>, added: CBlockIndex)
      requires chain.Valid() && added.hash !in index0 && chain.mapBlockIndex == index0[added.hash := added]
      requires hashSyncCheckpoint in index0 && s.tree == index0.Values && s.sync == index0[hashSyncCheckpoint]
      requires Safe(s) && added.pprev != null && added.pprev in s.tree && OnChain(s.sync, added.pprev)
      requires chain.pindexBest == added || chain.pindexBest == s.best
      requires forall h :: h in index0 ==> index0[h].hash == h
      ensures BlockStep(s, Abs()) && Safe(Abs())
    {
      hide OnChain, OnDisk, Context, CChainState.LinksSound;
      CChainState.NewValues(index0, added);
      assert added !in index0.Values;
      forall p | p in chain.Nodes() ensures WellLinked(p) { assert chain.GoodNode(chain.Nodes(), p); }
      assert BlockStep(s, Abs());
      StepSafe(s, Abs());
    }

    /** A checkpoint message for a block that is not known yet, any blocks but that one, and at last the
        block itself: when it is accepted, memory and database agree and nothing fails, the
        checkpoint is moved to it exactly when its chain is or can become the best one, so in any case if
        it became the best block; and it moved nowhere before. */
    method AwaitCheckpoint(hashX: Hash256, arrivals: seq<Arrival>, x: Arrival)
      returns (ok: bool, ghost mid: SyncState, ghost db: TxIndexMap, ghost agreed: bool, ghost before: nat)
      requires Valid() && hashX != 0 && hashX !in chain.mapBlockIndex && chain.P.blockHash(x.block) == hashX
      requires forall i :: 0 <= i < |arrivals| ==> chain.P.blockHash(arrivals[i].block) !in {0, hashX}
      requires forall i :: 0 <= i < |arrivals| ==>
        OnDisk(chain.P, chain.disk, BlockContext(arrivals[i].nFile, arrivals[i].nBlockPos, 0, 0, []), arrivals[i].block)
      requires OnDisk(chain.P, chain.disk, BlockContext(x.nFile, x.nBlockPos, 0, 0, []), x.block)
      modifies this, chain, chain.txdb, chain.Nodes()
      ensures Valid() && before <= chain.txdb.failures
      ensures ok ==> hashX in chain.mapBlockIndex && Above(mid.sync, chain.mapBlockIndex[hashX])
      ensures !ok ==> hashSyncCheckpoint == old(hashSyncCheckpoint) && hashPendingCheckpoint == hashX
      ensures mid.sync.hash == old(hashSyncCheckpoint)
      ensures ok && agreed && chain.txdb.failures == before ==>
        var c := chain.mapBlockIndex[hashX];
        && (hashSyncCheckpoint == hashX <==> CanBecome(chain.P, chain.disk, mid.best, db, chain.AssumedValid(), c))
        && (hashSyncCheckpoint == hashX <==> hashPendingCheckpoint == 0)
        && (mid.best == c ==> hashSyncCheckpoint == hashX)
    {
      hide WellLinked, OnChain, CChainState.GoodNode, CChainState.LinksSound, CChainState.Healthy, CheckpointStep, BlockStep, OnDisk,
        CChainState.CacheOk, CanBecome, Switched;
      var _ := ProcessSyncCheckpoint(hashX, true);
      for i := 0 to |arrivals|
        invariant Valid() && hashX !in chain.mapBlockIndex
        invariant hashPendingCheckpoint == hashX && hashSyncCheckpoint == old(hashSyncCheckpoint)
        invariant fresh(chain.Nodes() - old(chain.Nodes()))
      {
        var a := arrivals[i];
        var accepted;
        accepted, mid, db, agreed := AcceptBlock(a.block, a.nFile, a.nBlockPos, a.nBlockTrust, a.fContext, a.fModifier);
      }
      before := chain.txdb.failures;
      Known(hashSyncCheckpoint);
      ok, mid, db, agreed := AcceptBlock(x.block, x.nFile, x.nBlockPos, x.nBlockTrust, x.fContext, x.fModifier);
      if ok { BestCan(chain.P, chain.disk, chain.mapBlockIndex[hashX], db, chain.AssumedValid()); }
    }
  }

  /** A block as AcceptBlock gets it. */
  datatype Arrival = Arrival(block: CBlock, nFile: nat, nBlockPos: nat, nBlockTrust: nat, fContext: bool, fModifier: bool)
}
