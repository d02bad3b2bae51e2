/**
 A node on which success of AddToBlockIndex does not mean that memory and database agree: a sound block
 joined the tree while the store failed, a block above it claims more than its reward, and the postponed
 connect stops below that one while it becomes the best block (src/main.cpp:1927-1958).
 */
module PartialSwitch {
  import opened Transactions
  import opened Ledger
  import opened BlockTree
  import opened Branches
  import opened ChainState

  /** A block is named by its time, a transaction by the length of its other fields. */
  const P := Consensus((tx: CTransaction) => |tx.rest|, (b: CBlock) => b.nTime, (tx: CTransaction) => 0, (tx: CTransaction) => 0,
    (tx: CTransaction, outs: seq<CTxOut>) => 0, (prev: CTransaction, tx: CTransaction, i: nat) => true,
    (tx: CTransaction, db: TxIndexMap) => None, (age: nat, bits: nat, time: nat) => 0, (b: CBlock) => true)

  /** A coinbase starts with the height of its block (src/main.cpp:2293-2295). */
  const COINBASE := CTransaction(0, [CTxIn(COutPoint(0, NULL_N), [0x51, 0])], [CTxOut(MIN_TXOUT_AMOUNT, [])], [0])

  /** It takes one unit more than the subsidy of its block. */
  const GREEDY := CTransaction(0, [CTxIn(COutPoint(0, NULL_N), [0x52, 0])], [CTxOut(13_000_001, [])], [0, 0])

  const FIRST := CTransaction(0, [CTxIn(COutPoint(0, NULL_N), [0, 0])], [CTxOut(0, [])], [0, 0, 0])

  const GENESIS := CBlock(0, 1, 0, [FIRST], [])

  const SOUND := CBlock(1, 2, 0, [COINBASE], [])

  /** It passes every test made before it joins the tree; only ConnectBlock looks at its reward. */
  const BROKEN := CBlock(2, 3, 0, [GREEDY], [])

  const DISK: Disk := map[DiskTxPos(0, 0, 81) := FIRST, DiskTxPos(0, 1000, 1081) := COINBASE, DiskTxPos(0, 2000, 2081) := GREEDY]

  lemma BlocksOnDisk(ctx: BlockContext)
    requires ctx.nFile == 0
    ensures ctx.nBlockPos == 0 ==> OnDisk(P, DISK, ctx, GENESIS)
    ensures ctx.nBlockPos == 1000 ==> OnDisk(P, DISK, ctx, SOUND)
    ensures ctx.nBlockPos == 2000 ==> OnDisk(P, DISK, ctx, BROKEN)
  {
    forall b: CBlock | |b.vtx| == 1 ensures TxOffset(P, ctx, b.vtx, 0) == ctx.nBlockPos + 81 { }
  }

  /** A block with one coinbase passes CheckBlock. */
  lemma OneCoinbase(tx: CTransaction, b: CBlock)
    requires |tx.vin| == 1 && tx.vin[0].prevout.IsNull() && |tx.vin[0].scriptSig| == 2 && |tx.vout| == 1 && b.vtx == [tx]
    requires MIN_TXOUT_AMOUNT <= tx.vout[0].nValue <= MAX_MONEY
    ensures ValueOut(tx) == tx.vout[0].nValue && CheckTransaction(P, tx) && CheckBlock(P, b)
  {
    assert tx.vout[..0] == [] && tx.vout[..1] == tx.vout;
    assert SumOut(tx.vout[..0]) == 0;
    assert b.vtx[..0] == [] && SumLegacySigOps(P, b.vtx) == 0;
  }

  lemma SoundConnects(ctx: BlockContext, fs: bool)
    requires ctx.nHeight == 1
    ensures BlockConnects(P, DISK, map[], ctx, fs, SOUND)
  {
    var vtx := [COINBASE];
    OneCoinbase(COINBASE, SOUND);
    assert ConnectTxs(P, map[], ctx, vtx, 0) == map[];
    assert BlockSigOps(P, DISK, map[], ctx, vtx, 1) == 0;
    assert BlockTotals(P, DISK, map[], ctx, vtx, 1).nFees == 0;
    assert TxsConnect(P, DISK, map[], ctx, fs, vtx, 1);
  }

  lemma SwitchesToSound(root: CBlockIndex, sound: CBlockIndex)
    requires WellLinked(sound) && sound.pprev == root && root.pprev == null && sound.block == SOUND
    requires root.bnChainTrust == 0 && sound.bnChainTrust > 0
    ensures FirstTarget(sound, 0) == sound
    ensures Switched(P, DISK, map[], root, sound, null).Some?
  {
    hide BlockConnects, Context, Switched;
    assert WellLinked(root);
    HeightOf(sound);
    SwitchToChild(P, DISK, map[], sound, null);
    SoundConnects(Context(sound), Checked(sound, null));
  }

  /** Both blocks pass CheckBlock. The switch to the sound one can be made, the one to the broken block
      above it cannot. */
  lemma Switches(root: CBlockIndex, sound: CBlockIndex, broken: CBlockIndex)
    requires WellLinked(broken) && broken.pprev == sound && sound.pprev == root && root.pprev == null
    requires sound.block == SOUND && broken.block == BROKEN
    requires root.bnChainTrust == 0 && sound.bnChainTrust > 0
    ensures CheckBlock(P, SOUND) && CheckBlock(P, BROKEN)
    ensures FirstTarget(broken, 0) == sound
    ensures Switched(P, DISK, map[], root, sound, null).Some?
    ensures Switched(P, DISK, map[], root, broken, null).None?
  {
    hide BlockConnects, Context, Switched;
    assert WellLinked(sound) && WellLinked(root) && At(root, 0) == At(broken, 0);
    HeightOf(broken);
    OneCoinbase(COINBASE, SOUND);
    SwitchesToSound(root, sound);
    SwitchSplit(P, DISK, map[], root, broken, null);
    var db := Switched(P, DISK, map[], root, sound, null).value;
    RaisedNone(P, DISK, db, sound, null);
    BrokenFails(db, Context(broken), Checked(broken, null));
  }

  lemma HeightOf(p: CBlockIndex)
    requires WellLinked(p)
    ensures Context(p).nHeight == p.nHeight
  {
  }

  /** The broken block passes CheckBlock and, whatever is indexed, does not connect at height 2. */
  lemma BrokenFails(db: TxIndexMap, ctx: BlockContext, fs: bool)
    requires ctx.nHeight == 2
    ensures CheckBlock(P, BROKEN) && !BlockConnects(P, DISK, db, ctx, fs, BROKEN)
  {
    var vtx := [GREEDY];
    OneCoinbase(GREEDY, BROKEN);
    assert BlockTotals(P, DISK, db, ctx, vtx, 0).nFees == 0;
    assert BlockTotals(P, DISK, db, ctx, vtx, 1).nFees == 0;
    assert Subsidy(2) == 13_000_000;
  }

  /** The sound block arrives first. The call reports failure only if the store or a read failed, and
      then the block is in the tree of a healthy node that stays at the genesis block. */
  method AddSound() returns (c: CChainState, ok: bool, ghost sound: CBlockIndex)
    ensures c.P == P && c.disk == DISK && c.hashAssumeValid == 0 && c.Valid() && c.mapBlockIndex.Keys == {1, 2}
    ensures fresh(c) && fresh(c.txdb) && fresh(c.Nodes())
    ensures !ok ==>
      && c.txdb.failures > 0 && c.Healthy() && c.txdb.committed.txindex == map[]
      && c.mapBlockIndex[2] == sound && sound.block == SOUND && sound.bnChainTrust == 1 && sound.pprev == c.pindexBest
      && c.pindexBest.pprev == null && c.bnBestChainTrust == 0 && c.pindexBest.bnChainTrust == 0
  {
    hide CChainState.StateAt, CChainState.LinksSound, CChainState.MainLinks, CChainState.CacheOk, CChainState.GoodNode,
      CChainState.Healthy, CChainState.StandsAt, Switched, FirstTarget, OnDisk, Climbed, WellLinked;
    BlocksOnDisk(BlockContext(0, 0, 0, 0, [(0, 0)]));
    BlocksOnDisk(BlockContext(0, 1000, 0, 0, []));
    c := new CChainState(P, DISK, GENESIS, 0, 0, 0);
    ghost var root := c.pindexBest;
    c.BestFigures();
    ghost var added, reached;
    ok, added, reached := c.AddToBlockIndex(SOUND, 0, 1000, 1, true);
    sound := added;
    c.BestFigures();
    if !ok { SwitchesToSound(root, sound); }
  }

  /** Both blocks arrive in order. If the first call reports failure and nothing fails during the second
      one, that succeeds, the broken block is the best block, and ledger and links stand at its parent. */
  method AddBoth() returns (c: CChainState, first: bool, ok: bool, ghost between: nat)
    ensures c.Valid() && (!first ==> between > 0)
    ensures !first && c.txdb.failures == between ==>
      && ok && c.pindexBest.block == BROKEN && !c.Healthy()
      && c.pindexBest.pprev != null && WellLinked(c.pindexBest.pprev) && c.StandsAt(c.pindexBest.pprev)
  {
    hide CChainState.StateAt, CChainState.LinksSound, CChainState.MainLinks, CChainState.Tree, CChainState.CacheOk,
      Switched, FirstTarget, OnDisk, Climbed;
    ghost var sound;
    c, first, sound := AddSound();
    ghost var root := c.pindexBest;
    between := c.txdb.failures;
    BlocksOnDisk(BlockContext(0, 2000, 0, 0, []));
    ghost var added, reached;
    ok, added, reached := c.AddToBlockIndex(BROKEN, 0, 2000, 1, true);
    if !first && c.txdb.failures == between {
      Switches(root, sound, added);
      StopsAtSound(added, sound, reached, Switched(P, DISK, map[], root, sound, null).value, c.txdb.committed.txindex);
    }
  }

  lemma StopsAtSound(broken: CBlockIndex, sound: CBlockIndex, reached: CBlockIndex, db: TxIndexMap, db': TxIndexMap)
    requires Climbed(P, DISK, db, sound, reached, broken, null, db', true)
    requires broken.pprev == sound && reached != broken
    ensures reached == sound
  {
    hide Raised;
  }
}
