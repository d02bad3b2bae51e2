/**
 The best chain and how it moves (src/main.cpp Reorganize, SetBestChainInner, SetBestChain,
 FindBlockByHeight, AddToBlockIndex).
 */
module ChainState {
  import opened Transactions
  import opened Ledger
  import opened LedgerFacts
  import opened LedgerTheorems
  import opened Utxo
  import opened BlockTree
  import opened Branches
  import opened TxDb
  import opened Connect
  import opened Spends

  // ----- the chain ending in a node, as the ledger sees it --------------------------------------

  ghost function NextLink(P: Consensus, disk: Disk, chain: seq<Link>, p: CBlockIndex): Link
    requires WellLinked(p)
  {
    var ctx := Context(p);
    Link(ctx, p.block, Supply(chain) + SupplyChange(P, disk, Replay(P, chain), ctx, p.block))
  }

  /** The blocks from after the genesis block to `p`; each carries the supply a direct replay gives it. */
  ghost function LinksTo(P: Consensus, disk: Disk, p: CBlockIndex): seq<Link>
    requires WellLinked(p)
    decreases p.nHeight
  {
    if p.pprev == null then []
    else
      var before := LinksTo(P, disk, p.pprev);
      before + [NextLink(P, disk, before, p)]
  }

  /** The ledger is at `tip`: the index is what connecting the chain to `tip` gives. */
  ghost predicate LedgerAt(P: Consensus, disk: Disk, s: DbState, tip: CBlockIndex)
    requires WellLinked(tip)
  {
    Inv(P, disk, LedgerState(LinksTo(P, disk, tip), s.txindex))
  }

  /** The blocks from after the genesis block to `p`. */
  ghost function BlocksTo(p: CBlockIndex): seq<CBlock>
    requires WellLinked(p)
    decreases p.nHeight
  {
    if p.pprev == null then [] else BlocksTo(p.pprev) + [p.block]
  }

  lemma {:induction false} LinkedBlocks(P: Consensus, disk: Disk, p: CBlockIndex)
    requires WellLinked(p)
    ensures Blocks(LinksTo(P, disk, p)) == BlocksTo(p)
    decreases p.nHeight
  {
    hide SupplyChange, Supply, Replay, Context;
    if p.pprev != null { LinkedBlocks(P, disk, p.pprev); }
  }

  /** A successful ConnectBlock moves the ledger to the child. */
  lemma LedgerConnect(P: Consensus, disk: Disk, s: DbState, p: CBlockIndex, fs: bool, s': DbState)
    requires WellLinked(p) && p.pprev != null && LedgerAt(P, disk, s, p.pprev)
    requires BlockConnects(P, disk, s.txindex, Context(p), fs, p.block) && OnDisk(P, disk, Context(p), p.block)
    requires s'.txindex == ConnectBlockIndex(P, s.txindex, Context(p), p.block)
    ensures LedgerAt(P, disk, s', p)
    ensures Supply(LinksTo(P, disk, p)) ==
      Supply(LinksTo(P, disk, p.pprev)) + SupplyChange(P, disk, s.txindex, Context(p), p.block)
  {
    hide BlockConnects, OnDisk, Replay, ChainValid, ConnectBlockIndex, Context, BlockTotals;
    var before, after := LinksTo(P, disk, p.pprev), LinksTo(P, disk, p);
    var st, st' := LedgerState(before, s.txindex), LedgerState(after, s'.txindex);
    SameSupplyChange(P, disk, st, Context(p), fs, p.block);
    assert Connects(P, disk, fs, st, st');
    StepKeepsInv(P, disk, st, st');
  }

  lemma SameSupplyChange(P: Consensus, disk: Disk, st: LedgerState, ctx: BlockContext, fs: bool, b: CBlock)
    requires Inv(P, disk, st) && BlockConnects(P, disk, st.db, ctx, fs, b)
    ensures SupplyChange(P, disk, st.db, ctx, b) == SupplyChange(P, disk, Replay(P, st.chain), ctx, b)
  {
    hide BlockConnects, Replay, ChainValid, BlockSpends;
    ConnectsBlockSpends(P, disk, st.db, ctx, fs, b);
    RefinesTotals(P, disk, st.db, Replay(P, st.chain), ctx, b.vtx, |b.vtx|);
  }

  /** A successful DisconnectBlock moves the ledger to the parent. */
  lemma LedgerDisconnect(P: Consensus, disk: Disk, s: DbState, p: CBlockIndex, s': DbState)
    requires WellLinked(p) && p.pprev != null && LedgerAt(P, disk, s, p)
    requires BlockDisconnects(P, s.txindex, p.block) && s'.txindex == DisconnectBlockIndex(P, s.txindex, p.block)
    ensures LedgerAt(P, disk, s', p.pprev)
  {
    hide BlockDisconnects, DisconnectBlockIndex, Replay, ChainValid, Context;
    var st, st' := LedgerState(LinksTo(P, disk, p), s.txindex), LedgerState(LinksTo(P, disk, p.pprev), s'.txindex);
    assert st'.chain == st.chain[..|st.chain| - 1];
    assert Disconnects(P, st, st');
    StepKeepsInv(P, disk, st, st');
  }

  /** The context of a node names the positions of its ancestors as their links have them. */
  lemma RecentLinks(P: Consensus, disk: Disk, p: CBlockIndex)
    requires WellLinked(p) && p.pprev != null
    ensures RecentOf(Context(p), LinksTo(P, disk, p.pprev))
  {
    hide Supply, SupplyChange, Replay, LinksTo, Recent;
    var chain := LinksTo(P, disk, p.pprev);
    LinkCount(P, disk, p.pprev);
    RecentAt(p, 0);
    forall n | 0 <= n < |chain| ensures Recent(p)[|chain| - n] == (chain[n].ctx.nFile, chain[n].ctx.nBlockPos) {
      LinkAt(P, disk, p.pprev, n);
      RecentAt(p, |chain| - n);
    }
  }

  lemma {:induction false} LinkCount(P: Consensus, disk: Disk, p: CBlockIndex)
    requires WellLinked(p)
    ensures |LinksTo(P, disk, p)| == p.nHeight
    decreases p.nHeight
  {
    hide NextLink;
    if p.pprev != null { LinkCount(P, disk, p.pprev); }
  }

  lemma {:induction false} LinkAt(P: Consensus, disk: Disk, p: CBlockIndex, n: nat)
    requires WellLinked(p) && n < p.nHeight
    ensures |LinksTo(P, disk, p)| == p.nHeight && LinksTo(P, disk, p)[n].ctx == Context(At(p, n + 1))
    decreases p.nHeight
  {
    hide Supply, SupplyChange, Replay, Recent;
    LinkCount(P, disk, p);
    LinkCount(P, disk, p.pprev);
    if n < p.nHeight - 1 { LinkAt(P, disk, p.pprev, n); }
  }

  /** What the child of a tip spends is lawful if ConnectBlock accepts it on the tip's index. */
  lemma ChildLawful(P: Consensus, disk: Disk, s: DbState, p: CBlockIndex, fs: bool)
    requires WellLinked(p) && p.pprev != null && LedgerAt(P, disk, s, p.pprev)
    requires BlockConnects(P, disk, s.txindex, Context(p), fs, p.block) && OnDisk(P, disk, Context(p), p.block)
    ensures BlockLawful(P, BlocksTo(p), fs)
  {
    hide BlockConnects, OnDisk, Inv, Context, RecentOf, BlockLawful, Replay, SupplyChange, Supply, LinksTo;
    var chain := LinksTo(P, disk, p.pprev);
    RecentLinks(P, disk, p);
    LinkedBlocks(P, disk, p.pprev);
    ConnectedLawful(P, disk, LedgerState(chain, s.txindex), NextLink(P, disk, chain, p), fs);
  }

  /** Blocks that could be connected one after another spend lawfully; only the assumed-valid block and
      its ancestors may do so without their scripts being verified. */
  lemma {:induction false} RaisedLawful(P: Consensus, disk: Disk, s: DbState, low: CBlockIndex, tip: CBlockIndex, assumed: CBlockIndex?, h: nat)
    requires WellLinked(tip) && OnChain(low, tip) && WellLinked(low) && LedgerAt(P, disk, s, low) && low.nHeight < h <= tip.nHeight
    requires forall k :: low.nHeight < k <= tip.nHeight ==> OnDisk(P, disk, Context(At(tip, k)), At(tip, k).block)
    requires Raised(P, disk, s.txindex, low.nHeight, tip, assumed).Some?
    ensures var p := At(tip, h);
      BlockLawful(P, BlocksTo(p), assumed == null || !WellLinked(assumed) || !OnChain(p, assumed))
    ensures LedgerAt(P, disk, s.(txindex := Raised(P, disk, s.txindex, low.nHeight, tip, assumed).value), tip)
    decreases tip.nHeight
  {
    hide BlockConnects, OnDisk, Context, BlockLawful, LedgerAt, BlocksTo, ConnectBlockIndex;
    var parent := tip.pprev;
    var below := Raised(P, disk, s.txindex, low.nHeight, parent, assumed);
    forall k | low.nHeight < k <= parent.nHeight ensures At(parent, k) == At(tip, k) { }
    if low.nHeight < parent.nHeight {
      RaisedLawful(P, disk, s, low, parent, assumed, if h < tip.nHeight then h else parent.nHeight);
    } else {
      assert low == At(tip, low.nHeight) == At(parent, low.nHeight) == parent;
      SameState(s, below.value);
    }
    assert At(tip, tip.nHeight) == tip;
    var s1 := s.(txindex := below.value);
    ChildLawful(P, disk, s1, tip, Checked(tip, assumed));
    LedgerConnect(P, disk, s1, tip, Checked(tip, assumed), s.(txindex := Raised(P, disk, s.txindex, low.nHeight, tip, assumed).value));
  }

  lemma SameState(s: DbState, db: TxIndexMap)
    requires db == s.txindex
    ensures s.(txindex := db) == s
  {
  }

  type NextMap = map<CBlockIndex, CBlockIndex?>

  type SupplyMap = map<CBlockIndex, int>

  // ----- node state -------------------------------------------------------------------------------

  class CChainState {
    const P: Consensus
    /** All transactions the append-only block files ever hold. */
    const disk: Disk
    const txdb: CTxDB
    const pindexGenesisBlock: CBlockIndex
    const hashAssumeValid: Hash256
    var mapBlockIndex: map<Hash256, CBlockIndex>
    var pindexBest: CBlockIndex
    var hashBestChain: Hash256
    var nBestHeight: int
    var bnBestChainTrust: nat
    var pblockindexFBBHLast: CBlockIndex?

    /** A node that knows the genesis block only, as the genesis branch of SetBestChain leaves it:
        nothing of the genesis block is indexed. */
    constructor (P: Consensus, disk: Disk, genesis: CBlock, nFile: nat, nBlockPos: nat, hashAssumeValid: Hash256)
      requires genesis.hashPrevBlock == 0 && P.blockHash(genesis) != 0
      requires OnDisk(P, disk, BlockContext(nFile, nBlockPos, 0, genesis.nBits, [(nFile, nBlockPos)]), genesis)
      ensures this.P == P && this.disk == disk
      ensures Valid() && Healthy() && pindexBest == pindexGenesisBlock && pindexBest.block == genesis
      ensures pindexBest.hash == P.blockHash(genesis) && pindexBest.pprev == null && bnBestChainTrust == 0
      ensures mapBlockIndex == map[pindexBest.hash := pindexBest]
      ensures pblockindexFBBHLast == null && this.hashAssumeValid == hashAssumeValid
      ensures txdb.failures == 0 && txdb.committed.txindex == map[]
      ensures fresh(this) && fresh(txdb) && fresh(Nodes())
    {
      hide OnDisk, LinksSound, MainLinks, StateAt;
      var root := new CBlockIndex(P, null, nFile, nBlockPos, 0, genesis);
      var db := new CTxDB(DbState(map[], map[root.hash := DiskRecord(root, 0)], root.hash, root.hash));
      this.P, this.disk, this.txdb, this.pindexGenesisBlock, this.hashAssumeValid := P, disk, db, root, hashAssumeValid;
      mapBlockIndex, pindexBest, hashBestChain := map[root.hash := root], root, root.hash;
      nBestHeight, bnBestChainTrust, pblockindexFBBHLast := 0, 0, null;
      new;
      assert mapBlockIndex[root.hash] == root;
      assert mapBlockIndex.Values == {root};
      GenesisGood(root);
      GenesisState(root, txdb.committed);
      assert Links(Nodes()) == map[root := null] && Supplies(Nodes()) == map[root := 0];
    }

    lemma GenesisGood(root: CBlockIndex)
      requires root.pprev == null && root.nHeight == 0 && root == pindexGenesisBlock
      requires root.hash != 0 && root.block.hashPrevBlock == 0
      requires OnDisk(P, disk, BlockContext(root.nFile, root.nBlockPos, 0, root.block.nBits, [(root.nFile, root.nBlockPos)]), root.block)
      ensures GoodNode({root}, root)
    {
      hide OnDisk;
      assert Context(root) == BlockContext(root.nFile, root.nBlockPos, 0, root.block.nBits, [(root.nFile, root.nBlockPos)]);
    }

    lemma GenesisState(root: CBlockIndex, s: DbState)
      requires root.pprev == null && root.nHeight == 0
      requires s.txindex == map[] && s.blockindex.Keys == {root.hash}
      requires s.blockindex[root.hash].hashNext == 0 && s.blockindex[root.hash].nMoneySupply == 0
      ensures WellLinked(root)
      ensures LinksSound(map[root := null], root) && MainLinks(map[root := null], root)
      ensures StateAt(map[root := 0], s, root)
    {
      assert LinksTo(P, disk, root) == [];
      assert LedgerAt(P, disk, s, root);
      assert root.hash in Hashes({root});
    }

    ghost function Nodes(): set<CBlockIndex>
      reads this
    {
      mapBlockIndex.Values
    }

    /** One node of the tree is in order. */
    ghost predicate GoodNode(nodes: set<CBlockIndex>, p: CBlockIndex) {
      && WellLinked(p) && At(p, 0) == pindexGenesisBlock
      && (p.pprev != null ==> p.pprev in nodes && p.block.hashPrevBlock == p.pprev.hash)
      && (p.pprev == null ==> p.block.hashPrevBlock == 0)
      && OnDisk(P, disk, Context(p), p.block) && p.hash != 0
    }

    /** The block tree and the figures copied from its best node. */
    ghost predicate Tree()
      reads this
    {
      && pindexBest in Nodes() && pindexGenesisBlock in Nodes()
      && (forall h :: h in mapBlockIndex ==> mapBlockIndex[h].hash == h)
      && (forall p :: p in Nodes() ==> GoodNode(Nodes(), p))
      && hashBestChain == pindexBest.hash
      && nBestHeight == pindexBest.nHeight && bnBestChainTrust == pindexBest.bnChainTrust
    }

    /** The forward links, and the supplies, as values. */
    static ghost function Links(nodes: set<CBlockIndex>): (next: NextMap)
      reads nodes
      ensures next.Keys == nodes
    {
      map p | p in nodes :: p.pnext
    }

    static ghost function Supplies(nodes: set<CBlockIndex>): (supply: SupplyMap)
      reads nodes
      ensures supply.Keys == nodes
    {
      map p | p in nodes :: p.nMoneySupply
    }

    /** Forward links stay on the chain to `tip`. */
    static ghost predicate LinksSound(next: NextMap, tip: CBlockIndex)
      requires WellLinked(tip)
    {
      forall p :: p in next && next[p] != null ==> next[p] in next && next[p].pprev == p && OnChain(next[p], tip)
    }

    /** Forward links are exactly the chain to `tip`. */
    static ghost predicate MainLinks(next: NextMap, tip: CBlockIndex)
      requires WellLinked(tip)
    {
      forall p :: p in next ==> next[p] == NextToward(p, tip)
    }

    /** The nodes on the chain carry the supply a direct replay gives. */
    ghost predicate SuppliesAt(supply: SupplyMap, tip: CBlockIndex)
      requires WellLinked(tip)
    {
      forall p :: p in supply && OnChain(p, tip) ==> WellLinked(p) && supply[p] == Supply(LinksTo(P, disk, p))
    }

    static ghost function HashOf(p: CBlockIndex?): Hash256 { if p == null then 0 else p.hash }

    static ghost function Hashes(nodes: set<CBlockIndex>): set<Hash256> { set p | p in nodes :: p.hash }

    /** The block index records name the successors of the chain to `tip` and its supplies. */
    static ghost predicate RecordsAt(supply: SupplyMap, s: DbState, tip: CBlockIndex)
      requires WellLinked(tip)
    {
      && s.blockindex.Keys <= Hashes(supply.Keys)
      && (forall p :: p in supply && p.hash in s.blockindex ==>
            s.blockindex[p.hash].hashNext == HashOf(NextToward(p, tip)))
      && (forall p :: p in supply && OnChain(p, tip) ==>
            p.hash in s.blockindex && s.blockindex[p.hash].nMoneySupply == supply[p])
    }

    /** The block is the assumed-valid one or an ancestor of it. */
    ghost predicate Exempt(nodes: set<CBlockIndex>, p: CBlockIndex) {
      hashAssumeValid != 0 && exists a :: a in nodes && a.hash == hashAssumeValid && WellLinked(a) && OnChain(p, a)
    }

    /** Every block of the chain to `tip` spends lawfully, scripts included unless it is exempt. */
    ghost predicate LawfulTo(nodes: set<CBlockIndex>, tip: CBlockIndex)
      requires WellLinked(tip)
    {
      forall h :: 1 <= h <= tip.nHeight ==> BlockLawful(P, BlocksTo(At(tip, h)), !Exempt(nodes, At(tip, h)))
    }

    /** Index, records and supplies are those of the chain to `tip`, and that chain spends lawfully. */
    ghost predicate StateAt(supply: SupplyMap, s: DbState, tip: CBlockIndex)
      requires WellLinked(tip)
    {
      LedgerAt(P, disk, s, tip) && SuppliesAt(supply, tip) && RecordsAt(supply, s, tip) && LawfulTo(supply.Keys, tip)
    }

    lemma LawfulConnect(nodes: set<CBlockIndex>, s: DbState, p: CBlockIndex, fs: bool)
      requires WellLinked(p) && p.pprev != null && LedgerAt(P, disk, s, p.pprev) && LawfulTo(nodes, p.pprev)
      requires BlockConnects(P, disk, s.txindex, Context(p), fs, p.block) && OnDisk(P, disk, Context(p), p.block)
      requires !fs ==> Exempt(nodes, p)
      ensures LawfulTo(nodes, p)
    {
      hide BlockConnects, OnDisk, Context, BlockLawful, LedgerAt, BlocksTo, Exempt;
      ChildLawful(P, disk, s, p, fs);
      if fs { LessChecked(P, BlocksTo(p), !Exempt(nodes, p)); }
      forall h | 1 <= h <= p.nHeight ensures BlockLawful(P, BlocksTo(At(p, h)), !Exempt(nodes, At(p, h))) {
        if h < p.nHeight { assert At(p, h) == At(p.pprev, h); }
      }
    }

    lemma LawfulDisconnect(nodes: set<CBlockIndex>, p: CBlockIndex)
      requires WellLinked(p) && p.pprev != null && LawfulTo(nodes, p)
      ensures LawfulTo(nodes, p.pprev)
    {
      hide BlockLawful, BlocksTo, Exempt;
      forall h | 1 <= h <= p.pprev.nHeight ensures BlockLawful(P, BlocksTo(At(p.pprev, h)), !Exempt(nodes, At(p.pprev, h))) {
        assert At(p, h) == At(p.pprev, h);
      }
    }

    /** A node that joins can only make more blocks exempt. */
    lemma LawfulJoin(nodes: set<CBlockIndex>, nodes': set<CBlockIndex>, tip: CBlockIndex)
      requires WellLinked(tip) && LawfulTo(nodes, tip) && nodes <= nodes'
      ensures LawfulTo(nodes', tip)
    {
      hide BlockLawful, BlocksTo, OnChain;
      forall h | 1 <= h <= tip.nHeight ensures BlockLawful(P, BlocksTo(At(tip, h)), !Exempt(nodes', At(tip, h))) {
        if !Exempt(nodes, At(tip, h)) { LessChecked(P, BlocksTo(At(tip, h)), !Exempt(nodes', At(tip, h))); }
      }
    }

    /** The block FindBlockByHeight found last is on the main chain. */
    ghost predicate CacheOk()
      reads this
    {
      pblockindexFBBHLast != null ==>
        pblockindexFBBHLast in Nodes() && WellLinked(pindexBest) && OnChain(pblockindexFBBHLast, pindexBest)
    }

    /** What holds in every state between operations, even after a partial switch. */
    ghost predicate Valid()
      reads this, txdb, Nodes()
    {
      Tree() && CacheOk() && txdb.activeTxn.None? && LinksSound(Links(Nodes()), pindexBest)
    }

    /** Memory, database and tip agree. */
    ghost predicate Healthy()
      requires Tree()
      reads this, txdb, Nodes()
    {
      && txdb.activeTxn.None? && MainLinks(Links(Nodes()), pindexBest)
      && StateAt(Supplies(Nodes()), txdb.committed, pindexBest) && txdb.committed.hashBestChain == pindexBest.hash
    }

    /** Transaction positions depend on the block's own position only. */
    static lemma {:induction false} SameOffset(P: Consensus, ctx: BlockContext, ctx': BlockContext, vtx: seq<CTransaction>, i: nat)
      requires i <= |vtx| && ctx.nFile == ctx'.nFile && ctx.nBlockPos == ctx'.nBlockPos
      ensures TxPos(P, ctx, vtx, i) == TxPos(P, ctx', vtx, i)
    {
      if i > 0 { SameOffset(P, ctx, ctx', vtx, i - 1); }
    }

    static lemma SameOnDisk(P: Consensus, disk: Disk, ctx: BlockContext, ctx': BlockContext, b: CBlock)
      requires OnDisk(P, disk, ctx, b) && ctx.nFile == ctx'.nFile && ctx.nBlockPos == ctx'.nBlockPos
      ensures OnDisk(P, disk, ctx', b)
    {
      forall i | 0 <= i < |b.vtx| ensures TxPos(P, ctx', b.vtx, i) in disk && disk[TxPos(P, ctx', b.vtx, i)] == b.vtx[i] {
        SameOffset(P, ctx, ctx', b.vtx, i);
      }
    }

    lemma {:induction false} AncestorInNodes(nodes: set<CBlockIndex>, p: CBlockIndex, h: nat)
      requires p in nodes && forall q :: q in nodes ==> GoodNode(nodes, q)
      requires WellLinked(p) && h <= p.nHeight
      ensures At(p, h) in nodes
      decreases p.nHeight
    {
      if h < p.nHeight { AncestorInNodes(nodes, p.pprev, h); }
    }

    /** The fork search of Reorganize: the highest block both chains share. */
    method FindFork(pindexNew: CBlockIndex) returns (pfork: CBlockIndex)
      requires Tree() && pindexNew in Nodes()
      ensures IsFork(pfork, pindexBest, pindexNew) && pfork in Nodes()
    {
      hide OnDisk, Context, OnChain, ForkBounds, WellLinked;
      pfork := pindexBest;
      var plonger := pindexNew;
      assert GoodNode(Nodes(), pindexBest) && GoodNode(Nodes(), pindexNew);
      StartBounds(pindexBest, pindexNew);
      while pfork != plonger
        invariant pfork in Nodes() && plonger in Nodes()
        invariant ForkBounds(pindexBest, pindexNew, pfork, plonger)
        decreases pfork.nHeight + plonger.nHeight
      {
        ghost var before := plonger.nHeight;
        while plonger.nHeight > pfork.nHeight
          invariant plonger in Nodes() && plonger.nHeight <= before
          invariant ForkBounds(pindexBest, pindexNew, pfork, plonger)
          decreases plonger.nHeight
        {
          assert GoodNode(Nodes(), plonger);
          LowerLonger(pindexBest, pindexNew, pfork, plonger);
          plonger := plonger.pprev;
        }
        if pfork == plonger { break; }
        assert GoodNode(Nodes(), pfork);
        LowerFork(pindexBest, pindexNew, pfork, plonger);
        pfork := pfork.pprev;
      }
      BoundsMeet(pindexBest, pindexNew, pfork);
    }

    /** The assumed-valid block, if its hash is set and known. */
    function AssumedValid(): CBlockIndex?
      reads this
    {
      if hashAssumeValid != 0 && hashAssumeValid in mapBlockIndex then mapBlockIndex[hashAssumeValid] else null
    }

    /** Whether scripts are checked: not below the assumed-valid block. */
    method ScriptChecks(pindex: CBlockIndex) returns (fScriptChecks: bool)
      requires Tree()
      ensures fScriptChecks == Checked(pindex, AssumedValid())
    {
      hide OnDisk, Context;
      if hashAssumeValid == 0 || hashAssumeValid !in mapBlockIndex { return true; }
      var start := mapBlockIndex[hashAssumeValid];
      assert GoodNode(Nodes(), start);
      var p: CBlockIndex? := start;
      while p != null
        invariant p != null ==> p in Nodes() && OnChain(p, start)
        invariant forall h :: (if p == null then 0 else p.nHeight + 1) <= h <= start.nHeight ==> At(start, h) != pindex
        decreases if p == null then 0 else p.nHeight + 1
      {
        if p == pindex { return false; }
        assert GoodNode(Nodes(), p);
        if p.pprev != null { ParentOnChain(p, start); }
        p := p.pprev;
      }
      return true;
    }

    /** The blocks from `from` down to just above `pfork`. */
    static method BranchDown(from: CBlockIndex, pfork: CBlockIndex) returns (branch: seq<CBlockIndex>)
      requires WellLinked(from) && OnChain(pfork, from)
      ensures |branch| == from.nHeight - pfork.nHeight
      ensures forall i :: 0 <= i < |branch| ==> branch[i] == At(from, from.nHeight - i)
    {
      branch := [];
      var pindex: CBlockIndex := from;
      while pindex != pfork
        invariant WellLinked(pindex) && OnChain(pindex, from) && pindex.nHeight >= pfork.nHeight
        invariant |branch| == from.nHeight - pindex.nHeight
        invariant forall i :: 0 <= i < |branch| ==> branch[i] == At(from, from.nHeight - i)
        decreases pindex.nHeight
      {
        branch := branch + [pindex];
        OnChainTotal(pfork, pindex, from);
        ParentOnChain(pindex, from);
        pindex := pindex.pprev;
      }
    }

    static function Reversed(s: seq<CBlockIndex>): (r: seq<CBlockIndex>)
      ensures |r| == |s| && forall i :: 0 <= i < |s| ==> r[i] == s[|s| - 1 - i]
    {
      if s == [] then [] else Reversed(s[1..]) + [s[0]]
    }

    ghost predicate GoodTree(nodes: set<CBlockIndex>) {
      && (forall q :: q in nodes ==> GoodNode(nodes, q))
      && (forall p, q :: p in nodes && q in nodes && p.hash == q.hash ==> p == q)
    }

    lemma TreeNodes()
      requires Tree()
      ensures GoodTree(Nodes()) && pindexBest in Nodes() && pindexGenesisBlock in Nodes()
    {
      hide GoodNode;
    }

    lemma NodeFacts(nodes: set<CBlockIndex>, p: CBlockIndex)
      requires GoodTree(nodes) && p in nodes
      ensures GoodNode(nodes, p) && WellLinked(p)
    {
      hide OnDisk, Context;
    }

    lemma DifferentHash(nodes: set<CBlockIndex>, p: CBlockIndex, q: CBlockIndex)
      requires GoodTree(nodes) && p in nodes && q in nodes && p != q
      ensures p.hash != q.hash
    {
      hide GoodNode;
    }

    static lemma NextOfTip(p: CBlockIndex)
      requires WellLinked(p)
      ensures NextToward(p, p) == null && OnChain(p, p) && At(p, p.nHeight) == p
    {
    }

    static lemma OnParentChain(q: CBlockIndex, p: CBlockIndex)
      requires WellLinked(p) && p.pprev != null && WellLinked(p.pprev)
      ensures OnChain(q, p) <==> q == p || OnChain(q, p.pprev)
    {
      if q.nHeight < p.nHeight { AtAt(p, p.pprev.nHeight, q.nHeight); }
    }

    static lemma OnChainMeans(a: CBlockIndex, p: CBlockIndex)
      requires WellLinked(p) && OnChain(a, p)
      ensures a.nHeight <= p.nHeight && At(p, a.nHeight) == a && WellLinked(a)
    {
    }

    /** The parent's record no longer names a successor. */
    static ghost predicate RecordsUnlinked(records: map<Hash256, CDiskBlockIndex>, records': map<Hash256, CDiskBlockIndex>, p: CBlockIndex, supply: SupplyMap)
      requires p.pprev != null && p.pprev in supply
    {
      var h := p.pprev.hash;
      && h in records' && records'[h].hashNext == 0 && records'[h].nMoneySupply == supply[p.pprev]
      && records' == records[h := records'[h]]
    }

    /** The block has a record without successor, and its parent's record names it. */
    static ghost predicate RecordsLinked(records: map<Hash256, CDiskBlockIndex>, records': map<Hash256, CDiskBlockIndex>, p: CBlockIndex, supply: SupplyMap)
      requires p.pprev != null && p.pprev in supply && p in supply
    {
      var h, g := p.hash, p.pprev.hash;
      && h in records' && records'[h].hashNext == 0 && records'[h].nMoneySupply == supply[p]
      && g in records' && records'[g].hashNext == h && records'[g].nMoneySupply == supply[p.pprev]
      && records' == records[h := records'[h]][g := records'[g]]
    }

    /** Disconnecting the tip, seen by the ledger and the block index records. */
    lemma StateDisconnect(supply: SupplyMap, s: DbState, p: CBlockIndex, s': DbState)
      requires GoodTree(supply.Keys) && p in supply && WellLinked(p) && p.pprev != null && p.pprev in supply
      requires StateAt(supply, s, p)
      requires BlockDisconnects(P, s.txindex, p.block) && s'.txindex == DisconnectBlockIndex(P, s.txindex, p.block)
      requires RecordsUnlinked(s.blockindex, s'.blockindex, p, supply)
      ensures StateAt(supply, s', p.pprev)
    {
      hide GoodTree, OnDisk, Context, LedgerAt, BlockDisconnects, LinksTo, DisconnectBlockIndex, OnChain, NextToward, LawfulTo;
      LawfulDisconnect(supply.Keys, p);
      LedgerDisconnect(P, disk, s, p, s');
      forall q | q in supply && OnChain(q, p.pprev) ensures OnChain(q, p) { OnParentChain(q, p); }
      forall q | q in supply && q.hash in s'.blockindex
        ensures s'.blockindex[q.hash].hashNext == HashOf(NextToward(q, p.pprev))
      {
        NextTowardExtend(q, p);
        NextOfTip(p.pprev);
        if q != p.pprev { DifferentHash(supply.Keys, q, p.pprev); }
      }
      forall q | q in supply && OnChain(q, p.pprev)
        ensures q.hash in s'.blockindex && s'.blockindex[q.hash].nMoneySupply == supply[q]
      {
        OnParentChain(q, p);
        if q != p.pprev { DifferentHash(supply.Keys, q, p.pprev); }
      }
    }

    /** Connecting the child `p` of the tip, seen by the ledger and the block index records. */
    lemma StateConnect(supply: SupplyMap, s: DbState, p: CBlockIndex, fs: bool, nSupply: int, s': DbState)
      requires GoodTree(supply.Keys) && p in supply && WellLinked(p) && p.pprev != null && p.pprev in supply
      requires StateAt(supply, s, p.pprev)
      requires BlockConnects(P, disk, s.txindex, Context(p), fs, p.block)
      requires !fs ==> Exempt(supply.Keys, p)
      requires s'.txindex == ConnectBlockIndex(P, s.txindex, Context(p), p.block)
      requires nSupply == supply[p.pprev] + SupplyChange(P, disk, s.txindex, Context(p), p.block)
      requires RecordsLinked(s.blockindex, s'.blockindex, p, supply[p := nSupply])
      ensures StateAt(supply[p := nSupply], s', p)
    {
      hide GoodTree, OnDisk, Context, LedgerAt, BlockConnects, LinksTo, ConnectBlockIndex, OnChain, NextToward, SupplyChange, Supply, LawfulTo, Exempt;
      NodeFacts(supply.Keys, p);
      LawfulConnect(supply.Keys, s, p, fs);
      LedgerConnect(P, disk, s, p, fs, s');
      NextOfTip(p);
      NextOfTip(p.pprev);
      var supply' := supply[p := nSupply];
      assert supply'.Keys == supply.Keys;
      forall q | q in supply' && OnChain(q, p)
        ensures WellLinked(q) && supply'[q] == Supply(LinksTo(P, disk, q))
      {
        OnParentChain(q, p);
      }
      forall q | q in supply' && q.hash in s'.blockindex
        ensures s'.blockindex[q.hash].hashNext == HashOf(NextToward(q, p))
      {
        NextTowardExtend(q, p);
        if q != p { DifferentHash(supply.Keys, q, p); }
        if q != p.pprev { DifferentHash(supply.Keys, q, p.pprev); }
      }
      forall q | q in supply' && OnChain(q, p)
        ensures q.hash in s'.blockindex && s'.blockindex[q.hash].nMoneySupply == supply'[q]
      {
        OnParentChain(q, p);
        if q != p { DifferentHash(supply.Keys, q, p); }
        if q != p.pprev { DifferentHash(supply.Keys, q, p.pprev); }
      }
    }

    /** Clearing the link to the tip, and setting it. */
    static lemma UnlinkStep(next: NextMap, p: CBlockIndex)
      requires WellLinked(p) && p.pprev != null && p.pprev in next && WellLinked(p.pprev) && LinksSound(next, p)
      ensures LinksSound(next[p.pprev := null], p.pprev)
      ensures MainLinks(next, p) ==> MainLinks(next[p.pprev := null], p.pprev)
    {
      hide OnChain, NextToward, WellLinked;
      forall q | q in next && next[q] != null ensures OnChain(next[q], p) <==> next[q] == p || OnChain(next[q], p.pprev) {
        OnParentChain(next[q], p);
      }
      forall q | q in next ensures NextToward(q, p) == if q == p.pprev then p else NextToward(q, p.pprev) {
        NextTowardExtend(q, p);
      }
      NextOfTip(p.pprev);
    }

    static lemma LinkStep(next: NextMap, p: CBlockIndex)
      requires WellLinked(p) && p in next && p.pprev != null && p.pprev in next && WellLinked(p.pprev) && LinksSound(next, p.pprev)
      ensures LinksSound(next[p.pprev := p], p)
      ensures MainLinks(next, p.pprev) ==> MainLinks(next[p.pprev := p], p)
    {
      hide OnChain, NextToward, WellLinked;
      forall q | q in next && next[q] != null ensures OnChain(next[q], p) <==> next[q] == p || OnChain(next[q], p.pprev) {
        OnParentChain(next[q], p);
      }
      forall q | q in next ensures NextToward(q, p) == if q == p.pprev then p else NextToward(q, p.pprev) {
        NextTowardExtend(q, p);
      }
      NextOfTip(p);
    }

    lemma ConnectedRecordsLinked(nodes: set<CBlockIndex>, records: map<Hash256, CDiskBlockIndex>, p: CBlockIndex)
      requires GoodTree(nodes) && p in nodes && p.pprev != null && p.pprev in nodes && WellLinked(p) && p.pnext == null
      ensures RecordsLinked(records, ConnectedRecords(records, p), p, Supplies(nodes))
    {
      hide GoodTree;
      if p.hash == p.pprev.hash { DifferentHash(nodes, p, p.pprev); }
    }

    lemma BranchNode(nodes: set<CBlockIndex>, tip: CBlockIndex, h: nat)
      requires GoodTree(nodes) && tip in nodes && WellLinked(tip) && 0 < h <= tip.nHeight
      ensures var p := At(tip, h);
        && p in nodes && WellLinked(p)
        && p.pprev != null && p.pprev in nodes && WellLinked(p.pprev) && p.pprev == At(tip, h - 1)
    {
      hide OnDisk, Context;
      AncestorInNodes(nodes, tip, h);
      ChildAt(tip, h - 1);
    }

    /** Reorganize's disconnect loop: the state moves down to the fork. */
    method DisconnectBranch(pfork: CBlockIndex, vDisconnect: seq<CBlockIndex>) returns (ok: bool)
      requires Tree() && txdb.activeTxn.Some?
      requires WellLinked(pindexBest) && OnChain(pfork, pindexBest) && WellLinked(pfork)
      requires |vDisconnect| == pindexBest.nHeight - pfork.nHeight
      requires forall i :: 0 <= i < |vDisconnect| ==> vDisconnect[i] == At(pindexBest, pindexBest.nHeight - i)
      modifies txdb
      ensures txdb.committed == old(txdb.committed) && txdb.activeTxn.Some?
      ensures txdb.failures >= old(txdb.failures)
      ensures pfork.nHeight <= pindexBest.nHeight
      ensures var low := Lowered(P, old(txdb.activeTxn.value).txindex, pindexBest, pfork.nHeight);
        && (ok <==> txdb.failures == old(txdb.failures) && low.Some?)
        && (ok ==> txdb.activeTxn.value.txindex == low.value)
      ensures ok && old(StateAt(Supplies(Nodes()), txdb.activeTxn.value, pindexBest)) ==>
        StateAt(Supplies(Nodes()), txdb.activeTxn.value, pfork)
    {
      hide StateAt, OnChain, GoodNode, BlockDisconnects, DisconnectBlockIndex, GoodTree, WellLinked, At, Tree;
      ghost var nodes, supply := Nodes(), Supplies(Nodes());
      ghost var low := Lowered(P, txdb.activeTxn.value.txindex, pindexBest, pfork.nHeight);
      TreeNodes();
      ghost var tracked := StateAt(supply, txdb.activeTxn.value, pindexBest);
      OnChainMeans(pfork, pindexBest);
      NextOfTip(pindexBest);
      for i := 0 to |vDisconnect|
        invariant txdb.committed == old(txdb.committed) && txdb.activeTxn.Some?
        invariant txdb.failures == old(txdb.failures)
        invariant low == Lowered(P, txdb.activeTxn.value.txindex, At(pindexBest, pindexBest.nHeight - i), pfork.nHeight)
        invariant tracked ==> StateAt(supply, txdb.activeTxn.value, At(pindexBest, pindexBest.nHeight - i))
      {
        var pindex := vDisconnect[i];
        BranchNode(nodes, pindexBest, pindexBest.nHeight - i);
        ok := txdb.Attempt();  // ReadFromDisk
        if !ok { return; }
        ghost var s := txdb.activeTxn.value;
        ok := DisconnectBlock(P, txdb, pindex);
        if !ok { return; }
        assert Supplies(nodes) == supply;
        if tracked { StateDisconnect(supply, s, pindex, txdb.activeTxn.value); }
      }
      ok := true;
    }

    lemma UncheckedExempt(p: CBlockIndex)
      requires Tree() && !Checked(p, AssumedValid())
      ensures Exempt(Nodes(), p)
    {
      hide GoodNode, OnChain, WellLinked;
      assert mapBlockIndex[hashAssumeValid] in Nodes();
    }

    /** Connect one block above the tip inside the open transaction. */
    method ConnectNext(p: CBlockIndex) returns (ok: bool)
      requires Tree() && txdb.activeTxn.Some? && p in Nodes() && p.pprev != null && WellLinked(p)
      modifies txdb, p`nMint, p`nMoneySupply
      ensures txdb.committed == old(txdb.committed) && txdb.activeTxn.Some?
      ensures txdb.failures >= old(txdb.failures)
      ensures var db := old(txdb.activeTxn.value).txindex;
        && (ok <==> (txdb.failures == old(txdb.failures)
                     && BlockConnects(P, disk, db, Context(p), Checked(p, AssumedValid()), p.block)))
        && (ok ==> txdb.activeTxn.value.txindex == ConnectBlockIndex(P, db, Context(p), p.block))
      ensures ok && p.pnext == null && old(StateAt(Supplies(Nodes()), txdb.activeTxn.value, p.pprev)) ==>
        StateAt(Supplies(Nodes()), txdb.activeTxn.value, p)
    {
      hide StateAt, OnDisk, Context, BlockConnects, ConnectBlockIndex, ConnectedRecords, BlockTotals, GoodTree, WellLinked, Tree;
      ghost var nodes, supply := Nodes(), Supplies(Nodes());
      TreeNodes();
      NodeFacts(nodes, p);
      NodeFacts(nodes, p.pprev);
      var fScriptChecks := ScriptChecks(p);
      ghost var s, tracked := txdb.activeTxn.value, StateAt(supply, txdb.activeTxn.value, p.pprev);
      ok := ConnectBlock(P, disk, txdb, p, fScriptChecks);
      if ok && p.pnext == null && tracked {
        assert Supplies(nodes) == supply[p := p.nMoneySupply];
        ConnectedRecordsLinked(nodes, s.blockindex, p);
        if !fScriptChecks { UncheckedExempt(p); }
        StateConnect(supply, s, p, fScriptChecks, p.nMoneySupply, txdb.activeTxn.value);
      }
    }

    /** Reorganize's connect loop: the state moves up to the new tip. */
    method ConnectBranch(pfork: CBlockIndex, vConnect: seq<CBlockIndex>, pindexNew: CBlockIndex) returns (ok: bool)
      requires Tree() && txdb.activeTxn.Some? && pindexNew in Nodes()
      requires WellLinked(pindexNew) && OnChain(pfork, pindexNew) && WellLinked(pfork)
      requires |vConnect| == pindexNew.nHeight - pfork.nHeight
      requires forall i :: 0 <= i < |vConnect| ==> vConnect[i] == At(pindexNew, pfork.nHeight + 1 + i)
      modifies txdb, vConnect`nMint, vConnect`nMoneySupply
      ensures txdb.committed == old(txdb.committed) && txdb.activeTxn.Some?
      ensures txdb.failures >= old(txdb.failures)
      ensures pfork.nHeight <= pindexNew.nHeight
      ensures var up := Raised(P, disk, old(txdb.activeTxn.value).txindex, pfork.nHeight, pindexNew, AssumedValid());
        && (ok <==> txdb.failures == old(txdb.failures) && up.Some?)
        && (ok ==> txdb.activeTxn.value.txindex == up.value)
      ensures ok && (forall p :: p in vConnect ==> p.pnext == null) && old(StateAt(Supplies(Nodes()), txdb.activeTxn.value, pfork))
        ==> StateAt(Supplies(Nodes()), txdb.activeTxn.value, pindexNew)
    {
      hide StateAt, OnChain, GoodNode, GoodTree, WellLinked, At, Tree, BlockConnects, ConnectBlockIndex, Context, Checked, Raised;
      ghost var nodes, db := Nodes(), txdb.activeTxn.value.txindex;
      TreeNodes();
      OnChainMeans(pfork, pindexNew);
      NextOfTip(pindexNew);
      RaisedNone(P, disk, db, pfork, AssumedValid());
      ghost var tracked := (forall p :: p in vConnect ==> p.pnext == null)
        && StateAt(Supplies(nodes), txdb.activeTxn.value, pfork);
      for i := 0 to |vConnect|
        invariant txdb.committed == old(txdb.committed) && txdb.activeTxn.Some?
        invariant txdb.failures == old(txdb.failures)
        invariant Raised(P, disk, db, pfork.nHeight, At(pindexNew, pfork.nHeight + i), AssumedValid())
          == Some(txdb.activeTxn.value.txindex)
        invariant tracked ==> StateAt(Supplies(nodes), txdb.activeTxn.value, At(pindexNew, pfork.nHeight + i))
      {
        var pindex := vConnect[i];
        BranchNode(nodes, pindexNew, pfork.nHeight + 1 + i);
        ok := txdb.Attempt();  // ReadFromDisk
        if !ok { return; }
        assert pindex in vConnect;
        RaisedNext(P, disk, db, pindex, AssumedValid(), pfork.nHeight, txdb.activeTxn.value.txindex);
        ok := ConnectNext(pindex);
        if !ok {
          if txdb.failures == old(txdb.failures) {
            RaisedStops(P, disk, db, pfork.nHeight, pindexNew, AssumedValid(), pfork.nHeight + 1 + i);
          }
          return;
        }
      }
      ok := true;
    }

    /** Clear the links into the old branch. */
    method Unlink(pfork: CBlockIndex, vDisconnect: seq<CBlockIndex>)
      requires Tree() && WellLinked(pindexBest) && OnChain(pfork, pindexBest) && WellLinked(pfork)
      requires LinksSound(Links(Nodes()), pindexBest)
      requires |vDisconnect| == pindexBest.nHeight - pfork.nHeight
      requires forall i :: 0 <= i < |vDisconnect| ==> vDisconnect[i] == At(pindexBest, pindexBest.nHeight - i)
      modifies Nodes()`pnext
      ensures LinksSound(Links(Nodes()), pfork)
      ensures old(MainLinks(Links(Nodes()), pindexBest)) ==> MainLinks(Links(Nodes()), pfork)
    {
      hide OnChain, GoodNode, LinksSound, MainLinks, GoodTree, WellLinked, At, Tree;
      ghost var nodes, tracked := Nodes(), MainLinks(Links(Nodes()), pindexBest);
      TreeNodes();
      OnChainMeans(pfork, pindexBest);
      NextOfTip(pindexBest);
      for i := 0 to |vDisconnect|
        invariant LinksSound(Links(nodes), At(pindexBest, pindexBest.nHeight - i))
        invariant tracked ==> MainLinks(Links(nodes), At(pindexBest, pindexBest.nHeight - i))
      {
        var pindex := vDisconnect[i];
        BranchNode(nodes, pindexBest, pindexBest.nHeight - i);
        if pindex.pprev != null {
          ghost var next := Links(nodes);
          pindex.pprev.pnext := null;
          assert Links(nodes) == next[pindex.pprev := null];
          UnlinkStep(next, pindex);
        }
      }
    }

    /** Set the links of the new branch. */
    method LinkUp(pfork: CBlockIndex, vConnect: seq<CBlockIndex>, pindexNew: CBlockIndex)
      requires Tree() && pindexNew in Nodes() && WellLinked(pfork) && LinksSound(Links(Nodes()), pfork)
      requires WellLinked(pindexNew) && OnChain(pfork, pindexNew)
      requires |vConnect| == pindexNew.nHeight - pfork.nHeight
      requires forall i :: 0 <= i < |vConnect| ==> vConnect[i] == At(pindexNew, pfork.nHeight + 1 + i)
      modifies Nodes()`pnext
      ensures LinksSound(Links(Nodes()), pindexNew)
      ensures old(MainLinks(Links(Nodes()), pfork)) ==> MainLinks(Links(Nodes()), pindexNew)
    {
      hide OnChain, GoodNode, LinksSound, MainLinks, GoodTree, WellLinked, At, Tree;
      ghost var nodes, tracked := Nodes(), MainLinks(Links(Nodes()), pfork);
      TreeNodes();
      OnChainMeans(pfork, pindexNew);
      NextOfTip(pindexNew);
      for i := 0 to |vConnect|
        invariant LinksSound(Links(nodes), At(pindexNew, pfork.nHeight + i))
        invariant tracked ==> MainLinks(Links(nodes), At(pindexNew, pfork.nHeight + i))
      {
        var pindex := vConnect[i];
        BranchNode(nodes, pindexNew, pfork.nHeight + 1 + i);
        if pindex.pprev != null {
          ghost var next := Links(nodes);
          pindex.pprev.pnext := pindex;
          assert Links(nodes) == next[pindex.pprev := pindex];
          LinkStep(next, pindex);
        }
      }
    }

    /** The figures of the nodes on the chain to `tip` are the same in both. */
    static ghost predicate SameOnChain(supply: SupplyMap, supply': SupplyMap, tip: CBlockIndex)
      requires WellLinked(tip)
    {
      supply.Keys == supply'.Keys && forall p :: p in supply && OnChain(p, tip) ==> supply'[p] == supply[p]
    }

    lemma StateFrame(supply: SupplyMap, supply': SupplyMap, s: DbState, tip: CBlockIndex)
      requires WellLinked(tip) && StateAt(supply, s, tip) && SameOnChain(supply, supply', tip)
      ensures StateAt(supply', s, tip)
    {
      hide LedgerAt, LinksTo, OnChain, NextToward, LawfulTo;
    }

    /** Blocks of the new branch above the fork are not on the old chain. */
    static lemma OffChain(best: CBlockIndex, pindexNew: CBlockIndex, pfork: CBlockIndex, h: nat)
      requires IsFork(pfork, best, pindexNew)
      requires pfork.nHeight < h <= pindexNew.nHeight
      ensures !OnChain(At(pindexNew, h), best) && NextToward(At(pindexNew, h), best) == null
    {
    }

    /** Reorganize's preparation: the fork, what to disconnect and what to connect. */
    method PlanSwitch(pindexNew: CBlockIndex)
      returns (pfork: CBlockIndex, vDisconnect: seq<CBlockIndex>, vConnect: seq<CBlockIndex>)
      requires Tree() && pindexNew in Nodes() && WellLinked(pindexNew) && WellLinked(pindexBest)
      ensures WellLinked(pfork) && IsFork(pfork, pindexBest, pindexNew)
      ensures |vDisconnect| == pindexBest.nHeight - pfork.nHeight
      ensures forall i :: 0 <= i < |vDisconnect| ==> vDisconnect[i] == At(pindexBest, pindexBest.nHeight - i)
      ensures |vConnect| == pindexNew.nHeight - pfork.nHeight
      ensures forall i :: 0 <= i < |vConnect| ==> vConnect[i] == At(pindexNew, pfork.nHeight + 1 + i)
      ensures forall p :: p in vConnect ==> p in Nodes() && !OnChain(p, pindexBest) && NextToward(p, pindexBest) == null
    {
      hide OnChain, GoodNode, WellLinked, At, GoodTree, NextToward, Tree;
      TreeNodes();
      pfork := FindFork(pindexNew);
      OnChainMeans(pfork, pindexBest);
      vDisconnect := BranchDown(pindexBest, pfork);
      vConnect := BranchDown(pindexNew, pfork);
      vConnect := Reversed(vConnect);
      forall i | 0 <= i < |vConnect|
        ensures vConnect[i] in Nodes() && !OnChain(vConnect[i], pindexBest) && NextToward(vConnect[i], pindexBest) == null
      {
        BranchNode(Nodes(), pindexNew, pfork.nHeight + 1 + i);
        OffChain(pindexBest, pindexNew, pfork, pfork.nHeight + 1 + i);
      }
    }

    lemma ForkOnChains(pfork: CBlockIndex, pindexNew: CBlockIndex)
      requires IsFork(pfork, pindexBest, pindexNew)
      ensures OnChain(pfork, pindexBest) && OnChain(pfork, pindexNew)
      ensures pfork.nHeight <= pindexBest.nHeight && pfork.nHeight <= pindexNew.nHeight
    {
    }

    /** The switch goes through the fork Reorganize found. */
    lemma SwitchedVia(db: TxIndexMap, pfork: CBlockIndex, pindexNew: CBlockIndex)
      requires Tree() && pindexNew in Nodes() && IsFork(pfork, pindexBest, pindexNew)
      ensures pfork.nHeight <= pindexBest.nHeight && pfork.nHeight <= pindexNew.nHeight
      ensures var low := Lowered(P, db, pindexBest, pfork.nHeight);
        Switched(P, disk, db, pindexBest, pindexNew, AssumedValid()) ==
          if low.None? then None else Raised(P, disk, low.value, pfork.nHeight, pindexNew, AssumedValid())
    {
      hide OnDisk, Context, Lowered, Raised;
      assert GoodNode(Nodes(), pindexBest) && GoodNode(Nodes(), pindexNew);
      ForkUnique(pfork, Fork(pindexBest, pindexNew), pindexBest, pindexNew);
    }

    /** The database half of Reorganize: disconnect, connect, name the new tip, commit. */
    method SwitchDatabase(pfork: CBlockIndex, vDisconnect: seq<CBlockIndex>, vConnect: seq<CBlockIndex>, pindexNew: CBlockIndex)
      returns (ok: bool)
      requires Tree() && txdb.activeTxn.Some? && pindexNew in Nodes() && WellLinked(pindexNew) && WellLinked(pindexBest)
      requires WellLinked(pfork) && IsFork(pfork, pindexBest, pindexNew)
      requires |vDisconnect| == pindexBest.nHeight - pfork.nHeight
      requires forall i :: 0 <= i < |vDisconnect| ==> vDisconnect[i] == At(pindexBest, pindexBest.nHeight - i)
      requires |vConnect| == pindexNew.nHeight - pfork.nHeight
      requires forall i :: 0 <= i < |vConnect| ==> vConnect[i] == At(pindexNew, pfork.nHeight + 1 + i)
      modifies txdb, vConnect`nMint, vConnect`nMoneySupply
      ensures !ok ==> txdb.committed == old(txdb.committed)
      ensures ok ==> txdb.activeTxn.None?
      ensures txdb.failures >= old(txdb.failures)
      ensures var db := Switched(P, disk, old(txdb.activeTxn.value).txindex, pindexBest, pindexNew, AssumedValid());
        && (ok <==> txdb.failures == old(txdb.failures) && db.Some?)
        && (ok ==> txdb.committed.txindex == db.value)
      ensures ok && (forall p :: p in vConnect ==> p.pnext == null) && old(StateAt(Supplies(Nodes()), txdb.activeTxn.value, pindexBest))
        ==> StateAt(Supplies(Nodes()), txdb.committed, pindexNew) && txdb.committed.hashBestChain == pindexNew.hash
    {
      hide StateAt, OnChain, GoodNode, WellLinked, At, GoodTree, Tree, Lowered, Raised, Switched;
      ForkOnChains(pfork, pindexNew);
      SwitchedVia(txdb.activeTxn.value.txindex, pfork, pindexNew);
      ok := DisconnectBranch(pfork, vDisconnect);
      if !ok { return; }
      ok := ConnectBranch(pfork, vConnect, pindexNew);
      if !ok { return; }
      ghost var s := txdb.activeTxn.value;
      ok := txdb.WriteHashBestChain(pindexNew.hash);
      if !ok { return; }
      ok := txdb.TxnCommit();
      if !ok { return; }
      StateHash(Supplies(Nodes()), s, txdb.committed, pindexNew);
    }

    static lemma BranchFrame(supply: SupplyMap, supply': SupplyMap, branch: seq<CBlockIndex>, tip: CBlockIndex)
      requires WellLinked(tip) && supply.Keys == supply'.Keys
      requires forall p :: p in branch ==> !OnChain(p, tip)
      requires forall p :: p in supply && p !in branch ==> supply'[p] == supply[p]
      ensures SameOnChain(supply, supply', tip)
    {
      hide OnChain;
    }

    static lemma BranchUnlinked(next: NextMap, branch: seq<CBlockIndex>, tip: CBlockIndex)
      requires WellLinked(tip) && MainLinks(next, tip)
      requires forall p :: p in branch ==> p in next && NextToward(p, tip) == null
      ensures forall p :: p in branch ==> next[p] == null
    {
      hide NextToward;
    }

    /** Everything Reorganize does before it touches the links. */
    method SwitchLedger(pindexNew: CBlockIndex)
      returns (ok: bool, pfork: CBlockIndex, vDisconnect: seq<CBlockIndex>, vConnect: seq<CBlockIndex>)
      requires Tree() && txdb.activeTxn.Some? && pindexNew in Nodes() && WellLinked(pindexNew) && WellLinked(pindexBest)
      modifies txdb, Nodes()`nMint, Nodes()`nMoneySupply
      ensures WellLinked(pfork) && IsFork(pfork, pindexBest, pindexNew)
      ensures |vDisconnect| == pindexBest.nHeight - pfork.nHeight
      ensures forall i :: 0 <= i < |vDisconnect| ==> vDisconnect[i] == At(pindexBest, pindexBest.nHeight - i)
      ensures |vConnect| == pindexNew.nHeight - pfork.nHeight
      ensures forall i :: 0 <= i < |vConnect| ==> vConnect[i] == At(pindexNew, pfork.nHeight + 1 + i)
      ensures !ok ==> txdb.committed == old(txdb.committed)
      ensures txdb.failures >= old(txdb.failures)
      ensures var db := Switched(P, disk, old(txdb.activeTxn.value).txindex, pindexBest, pindexNew, AssumedValid());
        && (ok <==> txdb.failures == old(txdb.failures) && db.Some?)
        && (ok ==> txdb.committed.txindex == db.value)
      ensures SameOnChain(old(Supplies(Nodes())), Supplies(Nodes()), pindexBest)
      ensures ok ==> txdb.activeTxn.None?
      ensures ok && old(MainLinks(Links(Nodes()), pindexBest) && StateAt(Supplies(Nodes()), txdb.activeTxn.value, pindexBest))
        ==> StateAt(Supplies(Nodes()), txdb.committed, pindexNew) && txdb.committed.hashBestChain == pindexNew.hash
    {
      hide StateAt, OnChain, GoodNode, MainLinks, WellLinked, At, NextToward, SameOnChain, Tree, IsFork, Switched;
      ghost var nodes, supply0, next0 := Nodes(), Supplies(Nodes()), Links(Nodes());
      pfork, vDisconnect, vConnect := PlanSwitch(pindexNew);
      assert forall i :: 0 <= i < |vConnect| ==> vConnect[i] in vConnect && vConnect[i] in nodes;
      if MainLinks(next0, pindexBest) { BranchUnlinked(next0, vConnect, pindexBest); }
      ok := SwitchDatabase(pfork, vDisconnect, vConnect, pindexNew);
      BranchFrame(supply0, Supplies(nodes), vConnect, pindexBest);
    }

    /** Switch to the chain ending in `pindexNew`, in the open database transaction: down to the
        fork and up again, all of it or nothing. */
    method Reorganize(pindexNew: CBlockIndex) returns (ok: bool)
      requires Tree() && LinksSound(Links(Nodes()), pindexBest) && txdb.activeTxn.Some?
      requires pindexNew in Nodes() && WellLinked(pindexNew)
      modifies txdb, Nodes()
      ensures txdb.failures >= old(txdb.failures)
      ensures var db := Switched(P, disk, old(txdb.activeTxn.value).txindex, pindexBest, pindexNew, AssumedValid());
        && (ok <==> txdb.failures == old(txdb.failures) && db.Some?)
        && (ok ==> txdb.committed.txindex == db.value)
      ensures !ok ==> txdb.committed == old(txdb.committed) && Links(Nodes()) == old(Links(Nodes()))
      ensures !ok ==> SameOnChain(old(Supplies(Nodes())), Supplies(Nodes()), pindexBest)
      ensures ok ==> txdb.activeTxn.None? && LinksSound(Links(Nodes()), pindexNew)
      ensures ok && old(MainLinks(Links(Nodes()), pindexBest)) ==> MainLinks(Links(Nodes()), pindexNew)
      ensures ok && old(MainLinks(Links(Nodes()), pindexBest) && StateAt(Supplies(Nodes()), txdb.activeTxn.value, pindexBest))
        ==> StateAt(Supplies(Nodes()), txdb.committed, pindexNew) && txdb.committed.hashBestChain == pindexNew.hash
    {
      hide StateAt, OnChain, GoodNode, LinksSound, MainLinks, WellLinked, At, GoodTree, NextToward, SameOnChain, Tree, IsFork, Switched;
      ghost var nodes, next0 := Nodes(), Links(Nodes());
      TreeNodes();
      NodeFacts(nodes, pindexBest);
      var pfork, vDisconnect, vConnect;
      ok, pfork, vDisconnect, vConnect := SwitchLedger(pindexNew);
      ForkOnChains(pfork, pindexNew);
      assert Links(nodes) == next0;
      if !ok { return; }
      ghost var supply := Supplies(nodes);
      Unlink(pfork, vDisconnect);
      LinkUp(pfork, vConnect, pindexNew);
      assert Supplies(nodes) == supply;
    }

    /** The recorded tip hash is not part of the ledger state. */
    lemma StateHash(supply: SupplyMap, s: DbState, s': DbState, tip: CBlockIndex)
      requires WellLinked(tip) && s'.txindex == s.txindex && s'.blockindex == s.blockindex
      ensures StateAt(supply, s, tip) == StateAt(supply, s', tip)
    {
      hide LinksTo, OnChain, NextToward;
    }

    /** The database half of SetBestChainInner. */
    method AttachDatabase(pindexNew: CBlockIndex) returns (ok: bool)
      requires Tree() && txdb.activeTxn == Some(txdb.committed)
      requires pindexNew in Nodes() && WellLinked(pindexNew) && pindexNew.pprev != null && WellLinked(pindexNew.pprev)
      modifies txdb, pindexNew`nMint, pindexNew`nMoneySupply
      ensures txdb.activeTxn.None? && (!ok ==> txdb.committed == old(txdb.committed))
      ensures txdb.failures >= old(txdb.failures)
      ensures var db := Switched(P, disk, old(txdb.committed).txindex, pindexNew.pprev, pindexNew, AssumedValid());
        && (ok <==> txdb.failures == old(txdb.failures) && db.Some?)
        && (ok ==> txdb.committed.txindex == db.value)
      ensures ok && pindexNew.pnext == null && old(StateAt(Supplies(Nodes()), txdb.committed, pindexNew.pprev))
        ==> StateAt(Supplies(Nodes()), txdb.committed, pindexNew) && txdb.committed.hashBestChain == pindexNew.hash
    {
      hide StateAt, OnChain, GoodNode, WellLinked, At, GoodTree, Tree, Switched, BlockConnects, Checked, Context, ConnectBlockIndex;
      SwitchToChild(P, disk, txdb.committed.txindex, pindexNew, AssumedValid());
      ok := ConnectNext(pindexNew);
      ghost var s := txdb.activeTxn.value;
      if ok { ok := txdb.WriteHashBestChain(pindexNew.hash); }
      if !ok {
        var _ := txdb.TxnAbort();
        return false;
      }
      ok := txdb.TxnCommit();
      if !ok { return; }
      StateHash(Supplies(Nodes()), s, txdb.committed, pindexNew);
    }

    /** Attach a block to the tip, in a transaction just begun. */
    method SetBestChainInner(pindexNew: CBlockIndex) returns (ok: bool)
      requires Tree() && txdb.activeTxn == Some(txdb.committed)
      requires pindexNew in Nodes() && WellLinked(pindexNew) && pindexNew.pprev != null && WellLinked(pindexNew.pprev)
      requires LinksSound(Links(Nodes()), pindexNew.pprev)
      modifies txdb, Nodes()
      ensures txdb.activeTxn.None? && txdb.failures >= old(txdb.failures)
      ensures var db := Switched(P, disk, old(txdb.committed).txindex, pindexNew.pprev, pindexNew, AssumedValid());
        && (ok <==> txdb.failures == old(txdb.failures) && db.Some?)
        && (ok ==> txdb.committed.txindex == db.value)
      ensures !ok ==> txdb.committed == old(txdb.committed) && Links(Nodes()) == old(Links(Nodes()))
      ensures !ok ==> SameOnChain(old(Supplies(Nodes())), Supplies(Nodes()), pindexNew.pprev)
      ensures ok ==> LinksSound(Links(Nodes()), pindexNew)
      ensures ok && old(MainLinks(Links(Nodes()), pindexNew.pprev)) ==> MainLinks(Links(Nodes()), pindexNew)
      ensures ok && old(MainLinks(Links(Nodes()), pindexNew.pprev) && StateAt(Supplies(Nodes()), txdb.committed, pindexNew.pprev))
        ==> StateAt(Supplies(Nodes()), txdb.committed, pindexNew) && txdb.committed.hashBestChain == pindexNew.hash
    {
      hide StateAt, OnChain, GoodNode, LinksSound, MainLinks, WellLinked, At, GoodTree, NextToward, SameOnChain, Tree, Switched;
      ghost var nodes, prev := Nodes(), pindexNew.pprev;
      TreeNodes();
      ghost var supply0, next0 := Supplies(nodes), Links(nodes);
      BranchTop(nodes, pindexNew);
      if MainLinks(next0, prev) { BranchUnlinked(next0, [pindexNew], prev); }
      ok := AttachDatabase(pindexNew);
      assert Links(nodes) == next0;
      BranchFrame(supply0, Supplies(nodes), [pindexNew], prev);
      if ok { LinkTip(pindexNew); }
    }

    /** The forward link of a newly attached tip. */
    method LinkTip(pindexNew: CBlockIndex)
      requires Tree() && pindexNew in Nodes() && pindexNew.pprev != null && pindexNew.pprev in Nodes()
      requires WellLinked(pindexNew) && WellLinked(pindexNew.pprev) && LinksSound(Links(Nodes()), pindexNew.pprev)
      modifies pindexNew.pprev`pnext
      ensures LinksSound(Links(Nodes()), pindexNew) && Supplies(Nodes()) == old(Supplies(Nodes()))
      ensures old(MainLinks(Links(Nodes()), pindexNew.pprev)) ==> MainLinks(Links(Nodes()), pindexNew)
    {
      hide LinksSound, MainLinks, WellLinked, GoodNode;
      ghost var next0 := Links(Nodes());
      pindexNew.pprev.pnext := pindexNew;
      assert Links(Nodes()) == next0[pindexNew.pprev := pindexNew];
      LinkStep(next0, pindexNew);
    }

    lemma BranchTop(nodes: set<CBlockIndex>, p: CBlockIndex)
      requires GoodTree(nodes) && p in nodes && p.pprev != null && WellLinked(p) && WellLinked(p.pprev)
      ensures p.pprev in nodes && !OnChain(p, p.pprev) && NextToward(p, p.pprev) == null
    {
      hide OnDisk, Context;
      NodeFacts(nodes, p);
    }

    static lemma SoundHigher(next: NextMap, a: CBlockIndex, b: CBlockIndex)
      requires WellLinked(a) && WellLinked(b) && OnChain(a, b) && LinksSound(next, a)
      ensures LinksSound(next, b)
    {
      hide OnChain, WellLinked;
      forall p | p in next && next[p] != null ensures OnChain(next[p], b) {
        OnChainMeans(next[p], a);
        OnChainTrans(next[p], a, b);
      }
    }

    /** Everything agrees on `tip`, whether or not it is the best block yet. */
    ghost predicate StandsAt(tip: CBlockIndex)
      requires WellLinked(tip)
      reads this, txdb, Nodes()
    {
      && MainLinks(Links(Nodes()), tip) && StateAt(Supplies(Nodes()), txdb.committed, tip)
      && txdb.committed.hashBestChain == tip.hash
    }

    /** One postponed block: read it, begin a transaction and attach the block; after a failure
        everything still stands at its parent. */
    method ConnectPostponed(pindex: CBlockIndex) returns (ok: bool)
      requires Tree() && txdb.activeTxn.None?
      requires pindex in Nodes() && WellLinked(pindex) && pindex.pprev != null && WellLinked(pindex.pprev)
      requires LinksSound(Links(Nodes()), pindex.pprev)
      modifies txdb, Nodes()
      ensures txdb.activeTxn.None? && txdb.failures >= old(txdb.failures)
      ensures var db := Switched(P, disk, old(txdb.committed).txindex, pindex.pprev, pindex, AssumedValid());
        && (ok <==> txdb.failures == old(txdb.failures) && db.Some?)
        && (ok ==> txdb.committed.txindex == db.value)
      ensures !ok ==> txdb.committed.txindex == old(txdb.committed).txindex
      ensures LinksSound(Links(Nodes()), if ok then pindex else pindex.pprev)
      ensures old(StandsAt(pindex.pprev)) ==> StandsAt(if ok then pindex else pindex.pprev)
    {
      hide StateAt, OnChain, GoodNode, LinksSound, MainLinks, WellLinked, At, GoodTree, Tree, Switched, SameOnChain;
      ghost var supply, tracked := Supplies(Nodes()), StandsAt(pindex.pprev);
      ok := txdb.Attempt();  // ReadFromDisk
      if !ok { return; }
      ok := txdb.TxnBegin();
      if !ok { return; }
      ok := SetBestChainInner(pindex);
      if !ok && tracked { StateFrame(supply, Supplies(Nodes()), txdb.committed, pindex.pprev); }
    }

    /** Connect postponed blocks one transaction at a time; stop at the first that fails. */
    method ConnectSecondary(vpindexSecondary: seq<CBlockIndex>, pindexIntermediate: CBlockIndex, pindexNew: CBlockIndex)
      returns (ghost reached: CBlockIndex)
      requires Tree() && txdb.activeTxn.None? && pindexNew in Nodes() && WellLinked(pindexNew)
      requires WellLinked(pindexIntermediate) && OnChain(pindexIntermediate, pindexNew)
      requires |vpindexSecondary| == pindexNew.nHeight - pindexIntermediate.nHeight
      requires forall i :: 0 <= i < |vpindexSecondary| ==> vpindexSecondary[i] == At(pindexNew, pindexNew.nHeight - i)
      requires LinksSound(Links(Nodes()), pindexIntermediate)
      modifies txdb, Nodes()
      ensures txdb.activeTxn.None? && txdb.failures >= old(txdb.failures)
      ensures Climbed(P, disk, old(txdb.committed).txindex, pindexIntermediate, reached, pindexNew, AssumedValid(),
                      txdb.committed.txindex, txdb.failures == old(txdb.failures))
      ensures WellLinked(reached) && OnChain(pindexIntermediate, reached) && OnChain(reached, pindexNew)
      ensures LinksSound(Links(Nodes()), reached)
      ensures old(StandsAt(pindexIntermediate)) ==> StandsAt(reached)
    {
      hide StateAt, OnChain, GoodNode, LinksSound, MainLinks, WellLinked, At, GoodTree, Tree, Climbed, Switched;
      ghost var nodes, db := Nodes(), txdb.committed.txindex;
      TreeNodes();
      reached := pindexIntermediate;
      ClimbStart(P, disk, db, reached, pindexNew, AssumedValid());
      ghost var tracked := StandsAt(pindexIntermediate);
      OnChainMeans(pindexIntermediate, pindexNew);
      NextOfTip(pindexIntermediate);
      NextOfTip(pindexNew);
      var i := |vpindexSecondary|;
      while i > 0
        invariant 0 <= i <= |vpindexSecondary|
        invariant txdb.activeTxn.None? && WellLinked(reached) && reached == At(pindexNew, pindexNew.nHeight - i)
        invariant OnChain(pindexIntermediate, reached) && OnChain(reached, pindexNew)
        invariant LinksSound(Links(nodes), reached) && txdb.failures == old(txdb.failures)
        invariant Climbed(P, disk, db, pindexIntermediate, reached, pindexNew, AssumedValid(), txdb.committed.txindex, i == 0)
        invariant tracked ==> StandsAt(reached)
      {
        i := i - 1;
        var pindex := vpindexSecondary[i];
        BranchNode(nodes, pindexNew, pindexNew.nHeight - i);
        HigherOnChain(pindexIntermediate, reached, pindex, pindexNew);
        ClimbOn(P, disk, db, pindexIntermediate, reached, pindex, pindexNew, AssumedValid(), txdb.committed.txindex);
        var ok := ConnectPostponed(pindex);
        if !ok { break; }
        reached := pindex;
      }
    }

    static lemma HigherOnChain(low: CBlockIndex, p: CBlockIndex, child: CBlockIndex, top: CBlockIndex)
      requires WellLinked(top) && WellLinked(p) && WellLinked(child) && child.pprev == p
      requires OnChain(low, p) && child.nHeight <= top.nHeight && child == At(top, child.nHeight)
      ensures OnChain(low, child) && OnChain(child, top)
    {
      OnParentChain(low, child);
    }

    /** The two ways SetBestChain moves the ledger, in the transaction it has begun. */
    method MoveLedger(pindexNew: CBlockIndex) returns (ok: bool, ghost reached: CBlockIndex)
      requires Tree() && LinksSound(Links(Nodes()), pindexBest) && txdb.activeTxn == Some(txdb.committed)
      requires pindexNew in Nodes() && WellLinked(pindexNew)
      modifies txdb, Nodes()
      ensures txdb.activeTxn.None? && txdb.failures >= old(txdb.failures)
      ensures var target := FirstTarget(pindexNew, pindexBest.bnChainTrust);
        var db := Switched(P, disk, old(txdb.committed).txindex, pindexBest, target, AssumedValid());
        && (ok ==> db.Some? && Climbed(P, disk, db.value, target, reached, pindexNew, AssumedValid(),
                                       txdb.committed.txindex, txdb.failures == old(txdb.failures)))
        && (!ok ==> db.None? || txdb.failures > old(txdb.failures))
      ensures !ok ==> txdb.committed == old(txdb.committed) && Links(Nodes()) == old(Links(Nodes()))
      ensures !ok ==> SameOnChain(old(Supplies(Nodes())), Supplies(Nodes()), pindexBest)
      ensures ok ==> WellLinked(reached) && OnChain(reached, pindexNew) && LinksSound(Links(Nodes()), reached)
      ensures ok && old(StandsAt(pindexBest)) ==> StandsAt(reached)
    {
      hide StateAt, OnChain, GoodNode, LinksSound, MainLinks, WellLinked, At, GoodTree, SameOnChain, Tree, Switched, Climbed, Raised;
      TreeNodes();
      NodeFacts(Nodes(), pindexBest);
      NextOfTip(pindexNew);
      reached := pindexNew;
      if pindexNew.block.hashPrevBlock == hashBestChain {
        ChildOfBest(pindexNew);
        ok := SetBestChainInner(pindexNew);
        ClimbStart(P, disk, txdb.committed.txindex, pindexNew, pindexNew, AssumedValid());
      } else {
        var vpindexSecondary, pindexIntermediate := Postpone(pindexNew);
        ok := Reorganize(pindexIntermediate);
        if ok {
          reached := ConnectSecondary(vpindexSecondary, pindexIntermediate, pindexNew);
        } else {
          var _ := txdb.TxnAbort();
        }
      }
    }

    /** CBlock::SetBestChain. It switches to the lowest block that beats the best chain, and on from
        there. `reached` is the block the ledger and the links really end at: the new best block
        exactly when no postponed connect stopped early. */
    method SetBestChain(pindexNew: CBlockIndex) returns (ok: bool, ghost reached: CBlockIndex)
      requires Valid() && pindexNew in Nodes()
      modifies this, txdb, Nodes()
      ensures mapBlockIndex == old(mapBlockIndex) && Valid()
      ensures txdb.failures >= old(txdb.failures)
      ensures WellLinked(pindexNew)
      ensures var target := FirstTarget(pindexNew, old(pindexBest).bnChainTrust);
        var db := Switched(P, disk, old(txdb.committed).txindex, old(pindexBest), target, AssumedValid());
        && (ok ==> db.Some? && Climbed(P, disk, db.value, target, reached, pindexNew, AssumedValid(),
                                       txdb.committed.txindex, txdb.failures == old(txdb.failures)))
        && (!ok ==> db.None? || txdb.failures > old(txdb.failures))
      ensures !ok ==> pindexBest == old(pindexBest) && pblockindexFBBHLast == old(pblockindexFBBHLast)
      ensures !ok ==> txdb.committed == old(txdb.committed) && Links(Nodes()) == old(Links(Nodes()))
      ensures !ok && old(Healthy()) ==> Healthy()
      ensures ok ==> pindexBest == pindexNew && pblockindexFBBHLast == null
      ensures ok ==> WellLinked(reached) && OnChain(reached, pindexNew)
      ensures ok && old(Healthy()) ==> StandsAt(reached)
      ensures ok && old(Healthy()) ==> (Healthy() <==> reached == pindexNew)
      ensures ok && txdb.failures == old(txdb.failures) ==>
        && (reached == pindexNew <==> Switched(P, disk, old(txdb.committed).txindex, old(pindexBest), pindexNew, AssumedValid()).Some?)
        && (reached == pindexNew ==>
              Switched(P, disk, old(txdb.committed).txindex, old(pindexBest), pindexNew, AssumedValid()) == Some(txdb.committed.txindex))
    {
      hide StateAt, OnChain, GoodNode, LinksSound, MainLinks, WellLinked, At, GoodTree, SameOnChain, Tree, Switched, Climbed, FirstTarget;
      ghost var nodes, healthy, supply := Nodes(), Healthy(), Supplies(Nodes());
      ghost var best, db := pindexBest, txdb.committed.txindex;
      TreeNodes();
      OneRoot(nodes, pindexBest, pindexNew);
      NodeFacts(nodes, pindexNew);
      NodeFacts(nodes, pindexBest);
      NextOfTip(pindexNew);
      reached := pindexNew;
      ok := txdb.TxnBegin();
      if !ok { return; }
      ok, reached := MoveLedger(pindexNew);
      if !ok {
        if healthy { StateFrame(supply, Supplies(nodes), txdb.committed, pindexBest); }
        return;
      }
      SoundHigher(Links(nodes), reached, pindexNew);
      if txdb.failures == old(txdb.failures) {
        ArrivesIff(P, disk, db, best, pindexNew, AssumedValid(), reached, txdb.committed.txindex);
      }
      AdoptBest(pindexNew);
      if healthy && reached != pindexNew { StandsElsewhere(reached); }
    }

    lemma OneRoot(nodes: set<CBlockIndex>, p: CBlockIndex, q: CBlockIndex)
      requires GoodTree(nodes) && p in nodes && q in nodes
      ensures WellLinked(p) && WellLinked(q) && At(p, 0) == At(q, 0)
    {
      hide OnDisk, Context;
      assert GoodNode(nodes, p) && GoodNode(nodes, q);
    }

    /** When ledger and links stand at another block, memory and database do not agree on the best block. */
    lemma StandsElsewhere(reached: CBlockIndex)
      requires Tree() && WellLinked(reached) && OnChain(reached, pindexBest) && reached != pindexBest && StandsAt(reached)
      ensures !Healthy()
    {
      hide GoodNode, StateAt, MainLinks;
      TreeNodes();
      NodeFacts(Nodes(), pindexBest);
      AncestorInNodes(Nodes(), pindexBest, reached.nHeight);
      DifferentHash(Nodes(), reached, pindexBest);
    }

    /** Record the new best block and the figures derived from it. */
    method AdoptBest(pindexNew: CBlockIndex)
      requires Tree() && pindexNew in Nodes()
      modifies this
      ensures Tree() && mapBlockIndex == old(mapBlockIndex) && pindexBest == pindexNew && pblockindexFBBHLast == null
    {
      hide GoodNode;
      hashBestChain := pindexNew.hash;
      pindexBest := pindexNew;
      pblockindexFBBHLast := null;
      nBestHeight := pindexBest.nHeight;
      bnBestChainTrust := pindexNew.bnChainTrust;
    }

    lemma ChildOfBest(pindexNew: CBlockIndex)
      requires Tree() && pindexNew in Nodes() && pindexNew.block.hashPrevBlock == hashBestChain
      ensures pindexNew.pprev == pindexBest
    {
      hide OnDisk, Context, WellLinked;
      assert GoodNode(Nodes(), pindexNew) && GoodNode(Nodes(), pindexBest);
    }

    /** How far the postponing loop goes: the lowest block of the branch whose parent does not
        beat the current best block. */
    method Postpone(pindexNew: CBlockIndex) returns (vpindexSecondary: seq<CBlockIndex>, pindexIntermediate: CBlockIndex)
      requires Tree() && pindexNew in Nodes() && WellLinked(pindexNew)
      ensures pindexIntermediate in Nodes() && WellLinked(pindexIntermediate) && OnChain(pindexIntermediate, pindexNew)
      ensures |vpindexSecondary| == pindexNew.nHeight - pindexIntermediate.nHeight
      ensures forall i :: 0 <= i < |vpindexSecondary| ==> vpindexSecondary[i] == At(pindexNew, pindexNew.nHeight - i)
      ensures pindexIntermediate == FirstTarget(pindexNew, pindexBest.bnChainTrust)
    {
      hide OnDisk, Context;
      vpindexSecondary := [];
      pindexIntermediate := pindexNew;
      while pindexIntermediate.pprev != null && pindexIntermediate.pprev.bnChainTrust > pindexBest.bnChainTrust
        invariant pindexIntermediate in Nodes() && WellLinked(pindexIntermediate) && OnChain(pindexIntermediate, pindexNew)
        invariant FirstTarget(pindexIntermediate, pindexBest.bnChainTrust) == FirstTarget(pindexNew, pindexBest.bnChainTrust)
        invariant |vpindexSecondary| == pindexNew.nHeight - pindexIntermediate.nHeight
        invariant forall i :: 0 <= i < |vpindexSecondary| ==> vpindexSecondary[i] == At(pindexNew, pindexNew.nHeight - i)
        decreases pindexIntermediate.nHeight
      {
        vpindexSecondary := vpindexSecondary + [pindexIntermediate];
        ParentOnChain(pindexIntermediate, pindexNew);
        assert GoodNode(Nodes(), pindexIntermediate);
        pindexIntermediate := pindexIntermediate.pprev;
      }
    }

    /** The block of the main chain at a height, from whichever known block is nearest. */
    method FindBlockByHeight(nHeight: nat) returns (pblockindex: CBlockIndex)
      requires Valid() && Healthy() && nHeight <= pindexBest.nHeight
      modifies this`pblockindexFBBHLast
      ensures Valid() && Healthy()
      ensures pblockindex == At(pindexBest, nHeight)
      ensures pblockindexFBBHLast == pblockindex
    {
      hide StateAt, LinksSound, GoodNode, WellLinked, OnChain, MainLinks;
      TreeNodes();
      NodeFacts(Nodes(), pindexBest);
      GenesisOnChain(pindexBest);
      pblockindex := if nHeight < nBestHeight / 2 then pindexGenesisBlock else pindexBest;
      if pblockindexFBBHLast != null && Abs(nHeight - pblockindex.nHeight) > Abs(nHeight - pblockindexFBBHLast.nHeight) {
        pblockindex := pblockindexFBBHLast;
      }
      pblockindex := WalkDown(pblockindex, nHeight);
      pblockindex := WalkUp(pblockindex, nHeight);
      pblockindexFBBHLast := pblockindex;
      OnChainMeans(pblockindex, pindexBest);
    }

    lemma GenesisOnChain(p: CBlockIndex)
      requires Tree() && p in Nodes() && WellLinked(p)
      ensures OnChain(pindexGenesisBlock, p) && OnChain(p, p) && pindexGenesisBlock.nHeight == 0
    {
      hide OnDisk, Context;
      assert GoodNode(Nodes(), p);
      NextOfTip(p);
    }

    method WalkDown(from: CBlockIndex, nHeight: nat) returns (p: CBlockIndex)
      requires Tree() && WellLinked(pindexBest) && from in Nodes() && OnChain(from, pindexBest)
      ensures p in Nodes() && OnChain(p, pindexBest) && p.nHeight <= nHeight
    {
      hide OnDisk, Context;
      p := from;
      while p.nHeight > nHeight
        invariant p in Nodes() && OnChain(p, pindexBest)
        decreases p.nHeight
      {
        assert GoodNode(Nodes(), p);
        ParentOnChain(p, pindexBest);
        p := p.pprev;
      }
    }

    method WalkUp(from: CBlockIndex, nHeight: nat) returns (p: CBlockIndex)
      requires Tree() && WellLinked(pindexBest) && from in Nodes() && OnChain(from, pindexBest)
      requires MainLinks(Links(Nodes()), pindexBest) && from.nHeight <= nHeight <= pindexBest.nHeight
      ensures p in Nodes() && OnChain(p, pindexBest) && p.nHeight == nHeight
    {
      hide GoodNode, WellLinked, GoodTree;
      ghost var next := Links(Nodes());
      TreeNodes();
      p := from;
      while p.nHeight < nHeight
        invariant p in Nodes() && OnChain(p, pindexBest) && p.nHeight <= nHeight
        decreases nHeight - p.nHeight
      {
        assert next[p] == NextToward(p, pindexBest);
        AncestorInNodes(Nodes(), pindexBest, p.nHeight + 1);
        p := p.pnext;
      }
    }

    static function Abs(x: int): int { if x < 0 then -x else x }

    /** In a healthy state the committed index represents exactly the coins the blocks of the main
        chain leave unspent, and they are worth the money supply of the best block. */
    lemma CommittedCoins()
      requires Valid() && Healthy()
      ensures WellLinked(pindexBest)
      ensures CoinsOf(disk, txdb.committed.txindex) == UtxoOf(P, BlocksTo(pindexBest))
      ensures Total(CoinsOf(disk, txdb.committed.txindex)) == pindexBest.nMoneySupply
    {
      hide GoodNode, RecordsAt, CoinsOf, UtxoOf, Inv, LinksSound, MainLinks;
      TreeNodes();
      NodeFacts(Nodes(), pindexBest);
      NextOfTip(pindexBest);
      Conservation(P, disk, LedgerState(LinksTo(P, disk, pindexBest), txdb.committed.txindex));
      LinkedBlocks(P, disk, pindexBest);
      assert Supplies(Nodes())[pindexBest] == pindexBest.nMoneySupply;
    }

    /** In a healthy state every block of the main chain above the genesis block, unless it is the
        assumed-valid block or an ancestor of it, had the scripts of all its inputs verified against the
        outputs of earlier transactions of that chain; in every block that was done for the coinstake,
        and coins are mature, not newer than their spender, and pay for the fee. */
    lemma MainChainLawful(h: nat)
      requires Valid() && Healthy() && 1 <= h
      ensures WellLinked(pindexBest)
      ensures h <= pindexBest.nHeight ==>
        var p := At(pindexBest, h);
        var fChecked := hashAssumeValid == 0 || forall a :: a in Nodes() && a.hash == hashAssumeValid ==> WellLinked(a) && !OnChain(p, a);
        BlockLawful(P, BlocksTo(p), fChecked)
    {
      hide GoodNode, LinksSound, MainLinks, LedgerAt, SuppliesAt, RecordsAt, BlockLawful, BlocksTo, OnChain;
      TreeNodes();
      NodeFacts(Nodes(), pindexBest);
      if h <= pindexBest.nHeight {
        var p := At(pindexBest, h);
        if Exempt(Nodes(), p) {
          var a :| a in Nodes() && a.hash == hashAssumeValid && WellLinked(a) && OnChain(p, a);
        } else {
          LessChecked(P, BlocksTo(p), hashAssumeValid == 0 || forall a :: a in Nodes() && a.hash == hashAssumeValid ==> WellLinked(a) && !OnChain(p, a));
        }
      }
    }

    /** Main-chain links: p.pnext is q exactly when q is on the main chain and p is its parent. */
    lemma PnextIsChild(p: CBlockIndex, q: CBlockIndex)
      requires Valid() && Healthy() && p in Nodes()
      ensures WellLinked(pindexBest)
      ensures p.pnext == q <==> OnChain(q, pindexBest) && q.pprev == p
    {
      hide GoodNode, StateAt, LinksSound, OnChain;
      TreeNodes();
      NodeFacts(Nodes(), pindexBest);
      NextTowardChild(p, q, pindexBest);
      assert Links(Nodes())[p] == p.pnext;
    }

    /** On disk the successors are the same, so a restart rebuilds the same links. */
    lemma RecordsMirrorLinks(p: CBlockIndex)
      requires Valid() && Healthy() && p in Nodes() && p.hash in txdb.committed.blockindex
      ensures txdb.committed.blockindex[p.hash].hashNext == if p.pnext == null then 0 else p.pnext.hash
    {
      hide GoodNode, LinksSound, LedgerAt, SuppliesAt;
      TreeNodes();
      NodeFacts(Nodes(), pindexBest);
      assert Links(Nodes())[p] == p.pnext;
      assert p in Supplies(Nodes());
    }

    // ----- new blocks -----------------------------------------------------------------------------

    /** A node that may join the tree. */
    ghost predicate Joins(nodes: set<CBlockIndex>, p: CBlockIndex) {
      && p !in nodes && p.hash !in Hashes(nodes) && p.hash != 0
      && p.pprev != null && p.pprev in nodes && p.block.hashPrevBlock == p.pprev.hash
      && p.nHeight == p.pprev.nHeight + 1 && p.pprev.bnChainTrust <= p.bnChainTrust
      && OnDisk(P, disk, BlockContext(p.nFile, p.nBlockPos, 0, 0, []), p.block)
    }

    lemma JoinsGood(nodes: set<CBlockIndex>, p: CBlockIndex)
      requires GoodTree(nodes) && Joins(nodes, p)
      ensures GoodTree(nodes + {p}) && WellLinked(p)
    {
      hide OnDisk;
      NodeFacts(nodes, p.pprev);
      SameOnDisk(P, disk, BlockContext(p.nFile, p.nBlockPos, 0, 0, []), Context(p), p.block);
      forall q | q in nodes + {p} ensures GoodNode(nodes + {p}, q) {
        if q != p { NodeFacts(nodes, q); }
      }
    }

    /** A node that just joined is on no chain of the old ones. */
    lemma JoinsOffChain(nodes: set<CBlockIndex>, p: CBlockIndex, tip: CBlockIndex)
      requires GoodTree(nodes) && Joins(nodes, p) && tip in nodes && WellLinked(tip)
      ensures !OnChain(p, tip) && NextToward(p, tip) == null
    {
      hide OnDisk, Context;
      if OnChain(p, tip) { AncestorInNodes(nodes, tip, p.nHeight); }
    }

    lemma JoinsState(next: NextMap, supply: SupplyMap, s: DbState, tip: CBlockIndex, p: CBlockIndex, n: int)
      requires GoodTree(next.Keys) && supply.Keys == next.Keys && Joins(next.Keys, p) && tip in next && WellLinked(tip)
      ensures LinksSound(next, tip) ==> LinksSound(next[p := null], tip)
      ensures MainLinks(next, tip) ==> MainLinks(next[p := null], tip)
      ensures StateAt(supply, s, tip) ==> StateAt(supply[p := n], s, tip)
    {
      hide GoodTree, LedgerAt, LinksTo, OnDisk, OnChain, NextToward, LawfulTo;
      if LawfulTo(next.Keys, tip) { LawfulJoin(next.Keys, supply[p := n].Keys, tip); }
      JoinsOffChain(next.Keys, p, tip);
    }

    /** Enter a node into mapBlockIndex. */
    method Insert(pindexNew: CBlockIndex)
      requires Valid() && Joins(Nodes(), pindexNew) && pindexNew.pnext == null
      modifies this`mapBlockIndex
      ensures mapBlockIndex == old(mapBlockIndex)[pindexNew.hash := pindexNew]
      ensures Nodes() == old(Nodes()) + {pindexNew} && Valid() && WellLinked(pindexNew)
      ensures old(Healthy()) ==> Healthy()
    {
      hide GoodNode, GoodTree, LinksSound, MainLinks, StateAt, WellLinked;
      ghost var nodes, next, supply := Nodes(), Links(Nodes()), Supplies(Nodes());
      TreeNodes();
      NodeFacts(nodes, pindexBest);
      JoinsGood(nodes, pindexNew);
      JoinsState(next, supply, txdb.committed, pindexBest, pindexNew, pindexNew.nMoneySupply);
      mapBlockIndex := mapBlockIndex[pindexNew.hash := pindexNew];
      NewValues(old(mapBlockIndex), pindexNew);
      assert Links(Nodes()) == next[pindexNew := null];
      assert Supplies(Nodes()) == supply[pindexNew := pindexNew.nMoneySupply];
      assert Tree() by { TreeFrom(nodes + {pindexNew}); }
    }

    static lemma NewValues(m: map<Hash256, CBlockIndex>, p: CBlockIndex)
      requires p.hash !in m
      ensures m[p.hash := p].Values == m.Values + {p}
    {
      var m' := m[p.hash := p];
      assert m'[p.hash] == p;
      forall q | q in m.Values ensures q in m'.Values {
        var h :| h in m && m[h] == q;
        assert m'[h] == q;
      }
    }

    lemma TreeFrom(nodes: set<CBlockIndex>)
      requires nodes == Nodes() && GoodTree(nodes) && pindexBest in nodes && pindexGenesisBlock in nodes
      requires forall h :: h in mapBlockIndex ==> mapBlockIndex[h].hash == h
      requires hashBestChain == pindexBest.hash
      requires nBestHeight == pindexBest.nHeight && bnBestChainTrust == pindexBest.bnChainTrust
      ensures Tree()
    {
      hide GoodNode;
    }

    lemma RecordWritten(supply: SupplyMap, s: DbState, s': DbState, tip: CBlockIndex, p: CBlockIndex)
      requires GoodTree(supply.Keys) && WellLinked(tip) && p in supply && !OnChain(p, tip) && NextToward(p, tip) == null
      requires StateAt(supply, s, tip)
      requires s'.txindex == s.txindex && p.hash in s'.blockindex && s'.blockindex[p.hash].hashNext == 0
      requires s'.blockindex == s.blockindex[p.hash := s'.blockindex[p.hash]]
      ensures StateAt(supply, s', tip)
    {
      hide GoodTree, LinksTo, OnChain, NextToward, Inv, LawfulTo;
      forall q | q in supply && q.hash == p.hash ensures q == p {
        if q != p { DifferentHash(supply.Keys, q, p); }
      }
      assert p.hash in Hashes(supply.Keys);
      assert RecordsAt(supply, s', tip);
    }

    /** Write the record of a new node; a failed put is not noticed, a failed commit is. */
    method WriteNewRecord(pindexNew: CBlockIndex) returns (ok: bool)
      requires Valid() && pindexNew in Nodes() && pindexNew.pnext == null && pindexBest != pindexNew
      requires WellLinked(pindexBest) && !OnChain(pindexNew, pindexBest) && NextToward(pindexNew, pindexBest) == null
      modifies txdb
      ensures Valid() && (old(Healthy()) ==> Healthy())
      ensures txdb.failures >= old(txdb.failures) && (txdb.failures == old(txdb.failures) ==> ok)
      ensures txdb.committed.txindex == old(txdb.committed).txindex
    {
      hide GoodNode, GoodTree, LinksSound, MainLinks, StateAt, WellLinked, OnChain, NextToward, Tree;
      TreeNodes();
      ghost var s, healthy, supply := txdb.committed, Healthy(), Supplies(Nodes());
      ok := txdb.TxnBegin();
      if !ok { return; }
      var written := txdb.WriteBlockIndex(pindexNew.hash, DiskRecord(pindexNew, NextHash(pindexNew)));
      ok := txdb.TxnCommit();
      if healthy && ok && written { RecordWritten(supply, s, txdb.committed, pindexBest, pindexNew); }
    }

    /** AddToBlockIndex. The proof hash lookup and the modifier checkpoint are `fChecks`, and so is the stake
        modifier, which is computed without failure (StakeModifier.IndexBlock). The node stays in the tree
        even when the function then reports failure. */
    method AddToBlockIndex(block: CBlock, nFile: nat, nBlockPos: nat, nBlockTrust: nat, fChecks: bool)
      returns (ok: bool, ghost added: CBlockIndex?, ghost reached: CBlockIndex)
      requires Valid()
      requires block.hashPrevBlock in mapBlockIndex && P.blockHash(block) != 0
      requires OnDisk(P, disk, BlockContext(nFile, nBlockPos, 0, 0, []), block)
      modifies this, txdb, Nodes()
      ensures Valid() && txdb.failures >= old(txdb.failures)
      ensures added == null <==> P.blockHash(block) in old(mapBlockIndex) || !fChecks
      ensures added == null ==> !ok && mapBlockIndex == old(mapBlockIndex) && pindexBest == old(pindexBest)
      ensures added != null ==>
        && fresh(added) && added.block == block && added.hash == P.blockHash(block)
        && added.pprev == old(mapBlockIndex)[block.hashPrevBlock]
        && added.bnChainTrust == added.pprev.bnChainTrust + nBlockTrust
        && mapBlockIndex == old(mapBlockIndex)[added.hash := added]
        && (pindexBest == added || pindexBest == old(pindexBest))
      ensures pindexBest == old(pindexBest) ==> txdb.committed.txindex == old(txdb.committed).txindex
      ensures added != null && added.bnChainTrust <= old(bnBestChainTrust) ==>
        pindexBest == old(pindexBest) && (txdb.failures == old(txdb.failures) ==> ok)
      ensures added != null && added.bnChainTrust > old(bnBestChainTrust) ==>
        (ok <==> pindexBest == added) && WellLinked(added) &&
        var target := FirstTarget(added, old(bnBestChainTrust));
        var db := Switched(P, disk, old(txdb.committed).txindex, old(pindexBest), target, AssumedValid());
        && (ok ==> db.Some? && Climbed(P, disk, db.value, target, reached, added, AssumedValid(),
                                       txdb.committed.txindex, txdb.failures == old(txdb.failures)))
        && (!ok ==> db.None? || txdb.failures > old(txdb.failures))
      ensures old(Healthy()) && pindexBest == old(pindexBest) ==> Healthy()
      ensures old(Healthy()) && pindexBest != old(pindexBest) ==>
        WellLinked(pindexBest) && WellLinked(reached) && OnChain(reached, pindexBest) && StandsAt(reached)
      ensures old(Healthy()) && pindexBest != old(pindexBest) ==> (Healthy() <==> reached == pindexBest)
      ensures pindexBest != old(pindexBest) && txdb.failures == old(txdb.failures) ==>
        && (reached == pindexBest <==> Switched(P, disk, old(txdb.committed).txindex, old(pindexBest), pindexBest, AssumedValid()).Some?)
        && (reached == pindexBest ==>
              Switched(P, disk, old(txdb.committed).txindex, old(pindexBest), pindexBest, AssumedValid()) == Some(txdb.committed.txindex))
    {
      hide StateAt, OnChain, GoodNode, LinksSound, MainLinks, WellLinked, At, GoodTree, Tree, NextToward, OnDisk, FirstTarget, Switched, Climbed, CacheOk;
      TreeNodes();
      BestFigures();
      added, reached, ok := null, pindexBest, false;
      var hash := P.blockHash(block);
      if hash in mapBlockIndex { return; }
      var prev := mapBlockIndex[block.hashPrevBlock];
      var pindexNew := new CBlockIndex(P, prev, nFile, nBlockPos, nBlockTrust, block);
      if !fChecks { return; }
      MayJoin(pindexNew);
      NodeFacts(Nodes(), pindexBest);
      JoinsOffChain(Nodes(), pindexNew, pindexBest);
      Insert(pindexNew);
      added := pindexNew;
      ok, reached := Compete(pindexNew);
    }

    /** The end of AddToBlockIndex: write the record of the new node, and switch to it if it has more trust. */
    method Compete(pindexNew: CBlockIndex) returns (ok: bool, ghost reached: CBlockIndex)
      requires Valid() && pindexNew in Nodes() && pindexNew.pnext == null && pindexBest != pindexNew
      requires WellLinked(pindexBest) && !OnChain(pindexNew, pindexBest) && NextToward(pindexNew, pindexBest) == null
      modifies this, txdb, Nodes()
      ensures Valid() && txdb.failures >= old(txdb.failures) && mapBlockIndex == old(mapBlockIndex)
      ensures pindexBest == pindexNew || pindexBest == old(pindexBest)
      ensures pindexBest == old(pindexBest) ==> txdb.committed.txindex == old(txdb.committed).txindex
      ensures pindexNew.bnChainTrust <= old(bnBestChainTrust) ==>
        pindexBest == old(pindexBest) && (txdb.failures == old(txdb.failures) ==> ok)
      ensures pindexNew.bnChainTrust > old(bnBestChainTrust) ==>
        (ok <==> pindexBest == pindexNew) && WellLinked(pindexNew) &&
        var target := FirstTarget(pindexNew, old(bnBestChainTrust));
        var db := Switched(P, disk, old(txdb.committed).txindex, old(pindexBest), target, AssumedValid());
        && (ok ==> db.Some? && Climbed(P, disk, db.value, target, reached, pindexNew, AssumedValid(),
                                       txdb.committed.txindex, txdb.failures == old(txdb.failures)))
        && (!ok ==> db.None? || txdb.failures > old(txdb.failures))
      ensures old(Healthy()) && pindexBest == old(pindexBest) ==> Healthy()
      ensures old(Healthy()) && pindexBest != old(pindexBest) ==>
        && WellLinked(reached) && WellLinked(pindexBest) && OnChain(reached, pindexBest) && StandsAt(reached)
        && (Healthy() <==> reached == pindexBest)
      ensures pindexBest != old(pindexBest) && txdb.failures == old(txdb.failures) ==>
        && (reached == pindexBest <==> Switched(P, disk, old(txdb.committed).txindex, old(pindexBest), pindexBest, AssumedValid()).Some?)
        && (reached == pindexBest ==>
              Switched(P, disk, old(txdb.committed).txindex, old(pindexBest), pindexBest, AssumedValid()) == Some(txdb.committed.txindex))
    {
      hide StateAt, OnChain, GoodNode, LinksSound, MainLinks, WellLinked, At, GoodTree, Tree, NextToward, FirstTarget, Switched, Climbed, CacheOk, StandsAt;
      BestFigures();
      TreeNodes();
      NodeFacts(Nodes(), pindexNew);
      reached := pindexBest;
      ok := WriteNewRecord(pindexNew);
      if !ok { return; }
      if pindexNew.bnChainTrust > bnBestChainTrust {
        ghost var db := Switched(P, disk, txdb.committed.txindex, pindexBest, FirstTarget(pindexNew, bnBestChainTrust), AssumedValid());
        ghost var failures := txdb.failures;
        ok, reached := SetBestChain(pindexNew);
        if ok {
          ClimbDisturbed(P, disk, db.value, FirstTarget(pindexNew, old(bnBestChainTrust)), reached, pindexNew, AssumedValid(),
                         txdb.committed.txindex, txdb.failures == failures);
        }
      }
    }

    lemma BestFigures()
      requires Tree()
      ensures bnBestChainTrust == pindexBest.bnChainTrust
    {
    }

    lemma MayJoin(p: CBlockIndex)
      requires Tree() && p !in Nodes() && p.hash !in mapBlockIndex && p.hash != 0
      requires p.block.hashPrevBlock in mapBlockIndex && p.pprev == mapBlockIndex[p.block.hashPrevBlock]
      requires p.nHeight == p.pprev.nHeight + 1 && p.pprev.bnChainTrust <= p.bnChainTrust
      requires OnDisk(P, disk, BlockContext(p.nFile, p.nBlockPos, 0, 0, []), p.block)
      ensures Joins(Nodes(), p)
    {
      hide OnDisk, GoodNode;
      forall q | q in Nodes() ensures q.hash in mapBlockIndex {
        var h :| h in mapBlockIndex && mapBlockIndex[h] == q;
      }
    }
  }
}
