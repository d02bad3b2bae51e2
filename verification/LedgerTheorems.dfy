/**
 Whole blocks, whole chains and whole runs: connecting a block is replaying it on the coin
 set, disconnecting undoes it, and in every state any run can reach the index represents
 exactly the coins of the current chain, worth exactly the recorded money supply.
 */
module LedgerTheorems {
  import opened Transactions
  import opened Ledger
  import opened LedgerFacts
  import opened Utxo

  // ----- one block --------------------------------------------------------------------------

  /** What the replay of a block needs of it: every transaction spends coins that are there,
      and no id overwrites a coin. */
  predicate BlockSpends(P: Consensus, disk: Disk, db: TxIndexMap, ctx: BlockContext, vtx: seq<CTransaction>) {
    && (forall i, j :: 0 <= i < j < |vtx| ==> P.hash(vtx[i]) != P.hash(vtx[j]))
    && (forall i :: 0 <= i < |vtx| ==> Overwritable(db, P.hash(vtx[i])))
    && (forall i :: 0 <= i < |vtx| ==> SpendsCoins(disk, ConnectTxs(P, db, ctx, vtx, i), vtx[i]))
  }

  lemma ConnectsBlockSpends(P: Consensus, disk: Disk, db: TxIndexMap, ctx: BlockContext, fs: bool, b: CBlock)
    requires BlockConnects(P, disk, db, ctx, fs, b)
    ensures BlockSpends(P, disk, db, ctx, b.vtx)
  {
    forall i | 0 <= i < |b.vtx| ensures SpendsCoins(disk, ConnectTxs(P, db, ctx, b.vtx, i), b.vtx[i]) {
      ConnectsSpendsCoins(P, disk, db, ConnectTxs(P, db, ctx, b.vtx, i), ctx, fs, b.vtx[i]);
    }
  }

  lemma {:induction false} StillOverwritable(P: Consensus, db: TxIndexMap, ctx: BlockContext, vtx: seq<CTransaction>, k: nat, h: Hash256)
    requires k <= |vtx| && Overwritable(db, h)
    requires forall i :: 0 <= i < k ==> P.hash(vtx[i]) != h
    ensures Overwritable(ConnectTxs(P, db, ctx, vtx, k), h)
    decreases k
  {
    if k > 0 {
      StillOverwritable(P, db, ctx, vtx, k - 1, h);
      MarkedOverwritable(ConnectTxs(P, db, ctx, vtx, k - 1), vtx[k - 1].vin, TxPos(P, ctx, vtx, k - 1), h);
    }
  }

  lemma IdOverwritable(P: Consensus, disk: Disk, db: TxIndexMap, ctx: BlockContext, vtx: seq<CTransaction>, k: nat, i: nat)
    requires BlockSpends(P, disk, db, ctx, vtx) && k <= i < |vtx|
    ensures Overwritable(ConnectTxs(P, db, ctx, vtx, k), P.hash(vtx[i]))
  {
    StillOverwritable(P, db, ctx, vtx, k, P.hash(vtx[i]));
  }

  /** Transaction `k` meets the conditions of the one-transaction lemmas when its turn comes. */
  lemma TxReady(P: Consensus, disk: Disk, db: TxIndexMap, ctx: BlockContext, vtx: seq<CTransaction>, k: nat)
    requires BlockSpends(P, disk, db, ctx, vtx) && k < |vtx|
    ensures SpendsCoins(disk, ConnectTxs(P, db, ctx, vtx, k), vtx[k])
    ensures Overwritable(ConnectTxs(P, db, ctx, vtx, k), P.hash(vtx[k]))
  {
    hide SpendsCoins, Overwritable, ConnectTxs;
    IdOverwritable(P, disk, db, ctx, vtx, k, k);
  }

  lemma {:induction false} BlockCoins(P: Consensus, disk: Disk, db: TxIndexMap, ctx: BlockContext, b: CBlock, k: nat)
    requires BlockSpends(P, disk, db, ctx, b.vtx) && OnDisk(P, disk, ctx, b) && k <= |b.vtx|
    ensures CoinsOf(disk, ConnectTxs(P, db, ctx, b.vtx, k)) == ApplyTxs(P, CoinsOf(disk, db), b.vtx[..k])
    decreases k
  {
    hide BlockSpends, SpendsCoins, Overwritable, ConnectTx, ApplyTx, CoinsOf, TxOffset;
    if k > 0 {
      BlockCoins(P, disk, db, ctx, b, k - 1);
      TxReady(P, disk, db, ctx, b.vtx, k - 1);
      ConnectTxCoins(P, disk, ConnectTxs(P, db, ctx, b.vtx, k - 1), b.vtx[k - 1], TxPos(P, ctx, b.vtx, k - 1));
      assert b.vtx[..k][..k-1] == b.vtx[..k-1];
    }
  }

  lemma {:induction false} BlockTotal(P: Consensus, disk: Disk, db: TxIndexMap, ctx: BlockContext, b: CBlock, k: nat)
    requires BlockSpends(P, disk, db, ctx, b.vtx) && OnDisk(P, disk, ctx, b) && k <= |b.vtx|
    ensures var t := BlockTotals(P, disk, db, ctx, b.vtx, k);
      Total(CoinsOf(disk, ConnectTxs(P, db, ctx, b.vtx, k))) == Total(CoinsOf(disk, db)) + t.nValueOut - t.nValueIn
    decreases k
  {
    hide BlockSpends, SpendsCoins, Overwritable, ConnectTx, CoinsOf, MarkAll, Total, PrevOuts, AllAvailable, ValueOut;
    if k > 0 {
      BlockTotal(P, disk, db, ctx, b, k - 1);
      TxReady(P, disk, db, ctx, b.vtx, k - 1);
      ConnectTxTotal(P, disk, ConnectTxs(P, db, ctx, b.vtx, k - 1), b.vtx[k - 1], TxPos(P, ctx, b.vtx, k - 1));
    }
  }

  /** Conservation across one block: the coins' total moves by what is added to nMoneySupply. */
  lemma BlockConserves(P: Consensus, disk: Disk, db: TxIndexMap, ctx: BlockContext, fs: bool, b: CBlock)
    requires BlockConnects(P, disk, db, ctx, fs, b) && OnDisk(P, disk, ctx, b)
    ensures Total(CoinsOf(disk, ConnectBlockIndex(P, db, ctx, b)))
         == Total(CoinsOf(disk, db)) + SupplyChange(P, disk, db, ctx, b)
  {
    ConnectsBlockSpends(P, disk, db, ctx, fs, b);
    BlockTotal(P, disk, db, ctx, b, |b.vtx|);
  }

  // ----- how much a block may mint ----------------------------------------------------------

  /** What the coinstake of a proof-of-stake block mints. */
  function StakeMint(P: Consensus, disk: Disk, db: TxIndexMap, ctx: BlockContext, b: CBlock): int {
    if b.IsProofOfStake() then ValueOut(b.vtx[1]) - ValueIn(disk, ConnectTxs(P, db, ctx, b.vtx, 1), b.vtx[1]) else 0
  }

  lemma {:induction false} MintedSoFar(P: Consensus, disk: Disk, db: TxIndexMap, ctx: BlockContext, fs: bool, b: CBlock, k: nat)
    requires BlockConnects(P, disk, db, ctx, fs, b) && 1 <= k <= |b.vtx|
    ensures var t := BlockTotals(P, disk, db, ctx, b.vtx, k);
      && t.nFees >= 0
      && t.nValueOut - t.nValueIn + t.nFees == ValueOut(b.vtx[0]) + (if k > 1 then StakeMint(P, disk, db, ctx, b) else 0)
    decreases k
  {
    hide ConnectTxs, CheckTransaction, InputPlausible, InputSpendable, Overwritable, AllAvailable, PrevOuts, BlockSigOps, SumOut;
    assert BlockTotals(P, disk, db, ctx, b.vtx, 0) == Totals(0, 0, 0);
    if k > 1 {
      MintedSoFar(P, disk, db, ctx, fs, b, k - 1);
      var view := ConnectTxs(P, db, ctx, b.vtx, k - 1);
      assert !b.vtx[k - 1].IsCoinBase();
      assert ValueRule(P, disk, db, view, ctx, b.vtx[k - 1]);
      assert MinFee(P, b.vtx[k - 1]) >= 0;
    }
  }

  /** A proof-of-work block raises the total by at most the subsidy of its height, fees
      included; a proof-of-stake block by at most the reward its coinstake is allowed. */
  lemma MintBound(P: Consensus, disk: Disk, db: TxIndexMap, ctx: BlockContext, fs: bool, b: CBlock)
    requires BlockConnects(P, disk, db, ctx, fs, b) && ctx.nHeight > 0
    ensures !b.IsProofOfStake() ==> SupplyChange(P, disk, db, ctx, b) <= Subsidy(ctx.nHeight)
    ensures b.IsProofOfStake() ==>
      && P.coinAge(b.vtx[1], db).Some?
      && SupplyChange(P, disk, db, ctx, b) <=
           P.stakeReward(P.coinAge(b.vtx[1], db).value, ctx.nBits, b.vtx[1].nTime) - MinFee(P, b.vtx[1]) + MIN_TX_FEE
  {
    MintedSoFar(P, disk, db, ctx, fs, b, |b.vtx|);
    if b.IsProofOfStake() {
      assert b.vtx[0].vout == [b.vtx[0].vout[0]];
      assert b.vtx[0].vout[..0] == [];
      assert ValueOut(b.vtx[0]) == 0;
      assert !b.vtx[1].IsCoinBase();
      assert ValueRule(P, disk, db, ConnectTxs(P, db, ctx, b.vtx, 1), ctx, b.vtx[1]);
    }
  }

  /** The subsidy starts at thirteen coins and is halved every 210240 blocks, but never below the least
      unit; only the block after genesis gets another. */
  lemma SubsidyHalves(nHeight: nat)
    ensures Subsidy(1) == 23226285 * COIN
    ensures nHeight < 210240 && nHeight != 1 ==> Subsidy(nHeight) == 13 * COIN
    ensures nHeight != 1 ==> Subsidy(nHeight + 210240) == if Subsidy(nHeight) >= 2 then Subsidy(nHeight) / 2 else 1
  {
  }

  // ----- disconnecting a block --------------------------------------------------------------

  lemma {:induction false} RefinesConnectTxs(P: Consensus, e: TxIndexMap, d: TxIndexMap, ctx: BlockContext, vtx: seq<CTransaction>, k: nat)
    requires Refines(e, d) && k <= |vtx|
    ensures Refines(ConnectTxs(P, e, ctx, vtx, k), ConnectTxs(P, d, ctx, vtx, k))
    decreases k
  {
    if k > 0 {
      RefinesConnectTxs(P, e, d, ctx, vtx, k - 1);
      RefinesConnectTx(P, ConnectTxs(P, e, ctx, vtx, k - 1), ConnectTxs(P, d, ctx, vtx, k - 1),
                       vtx[k - 1], TxPos(P, ctx, vtx, k - 1));
    }
  }

  function Ids(P: Consensus, vtx: seq<CTransaction>): set<Hash256> { set i | 0 <= i < |vtx| :: P.hash(vtx[i]) }

  lemma NoIds(P: Consensus, vtx: seq<CTransaction>)
    requires vtx == []
    ensures Ids(P, vtx) == {}
  {
  }

  lemma IdsCons(P: Consensus, vtx: seq<CTransaction>, k: nat)
    requires k < |vtx|
    ensures Ids(P, vtx[k..]) == {P.hash(vtx[k])} + Ids(P, vtx[k+1..])
  {
    assert vtx[k..] == [vtx[k]] + vtx[k+1..];
  }

  lemma DisconnectStep(P: Consensus, e: TxIndexMap, vtx: seq<CTransaction>, k: nat)
    requires k < |vtx| && TxsDisconnect(P, e, vtx, k)
    ensures TxsDisconnect(P, e, vtx, k + 1) && TxDisconnects(DisconnectTxs(P, e, vtx, k + 1), vtx[k])
  {
    hide TxDisconnects, DisconnectTxs;
  }

  lemma {:induction false} DisconnectTxsRefines(P: Consensus, disk: Disk, e: TxIndexMap, d: TxIndexMap, ctx: BlockContext, vtx: seq<CTransaction>, k: nat)
    requires BlockSpends(P, disk, d, ctx, vtx) && k <= |vtx|
    requires Refines(e, ConnectTxs(P, d, ctx, vtx, |vtx|)) && TxsDisconnect(P, e, vtx, k)
    ensures Refines(DisconnectTxs(P, e, vtx, k), ConnectTxs(P, d, ctx, vtx, k))
    ensures DisconnectTxs(P, e, vtx, k).Keys == e.Keys - Ids(P, vtx[k..])
    decreases |vtx| - k
  {
    hide BlockSpends, Overwritable, ConnectTx, DisconnectTx, MarkAll, Refines, SpendsCoins, TxDisconnects, TxsDisconnect, Ids;
    if k == |vtx| {
      assert Ids(P, vtx[k..]) == {} by { NoIds(P, vtx[k..]); }
    } else {
      DisconnectStep(P, e, vtx, k);
      DisconnectTxsRefines(P, disk, e, d, ctx, vtx, k + 1);
      TxReady(P, disk, d, ctx, vtx, k);
      DisconnectTxRefines(P, disk, DisconnectTxs(P, e, vtx, k + 1), ConnectTxs(P, d, ctx, vtx, k), vtx[k], TxPos(P, ctx, vtx, k));
      IdsCons(P, vtx, k);
    }
  }

  lemma {:induction false} ConnectTxsKeys(P: Consensus, db: TxIndexMap, ctx: BlockContext, vtx: seq<CTransaction>, k: nat)
    requires k <= |vtx|
    ensures ConnectTxs(P, db, ctx, vtx, k).Keys == db.Keys + Ids(P, vtx[..k])
    decreases k
  {
    if k > 0 {
      ConnectTxsKeys(P, db, ctx, vtx, k - 1);
      MarkAllKeys(ConnectTxs(P, db, ctx, vtx, k - 1), vtx[k - 1].vin, TxPos(P, ctx, vtx, k - 1));
      assert vtx[..k] == vtx[..k-1] + [vtx[k - 1]];
      assert Ids(P, vtx[..k]) == Ids(P, vtx[..k-1]) + {P.hash(vtx[k - 1])};
    }
  }

  lemma {:induction false} KeysGrow(P: Consensus, db: TxIndexMap, ctx: BlockContext, vtx: seq<CTransaction>, i: nat, k: nat)
    requires i <= k <= |vtx|
    ensures ConnectTxs(P, db, ctx, vtx, i).Keys <= ConnectTxs(P, db, ctx, vtx, k).Keys
  {
    ConnectTxsKeys(P, db, ctx, vtx, i);
    ConnectTxsKeys(P, db, ctx, vtx, k);
    forall h | h in Ids(P, vtx[..i]) ensures h in Ids(P, vtx[..k]) {
      var j :| 0 <= j < i && P.hash(vtx[..i][j]) == h;
      assert vtx[..k][j] == vtx[..i][j];
    }
  }

  /** Disconnecting a block that was just connected never fails. */
  lemma {:induction false} DisconnectSucceeds(P: Consensus, disk: Disk, db: TxIndexMap, ctx: BlockContext, vtx: seq<CTransaction>, k: nat)
    requires BlockSpends(P, disk, db, ctx, vtx) && k <= |vtx|
    ensures TxsDisconnect(P, ConnectTxs(P, db, ctx, vtx, |vtx|), vtx, k)
    decreases |vtx| - k
  {
    hide BlockSpends, Overwritable, ConnectTx, ConnectTxs, DisconnectTx, DisconnectTxs, MarkAll, Refines, SpendsCoins, HasSlot;
    if k < |vtx| {
      DisconnectSucceeds(P, disk, db, ctx, vtx, k + 1);
      var full := ConnectTxs(P, db, ctx, vtx, |vtx|);
      var view, after := ConnectTxs(P, db, ctx, vtx, k), ConnectTxs(P, db, ctx, vtx, k + 1);
      var e := DisconnectTxs(P, full, vtx, k + 1);
      if !vtx[k].IsCoinBase() {
        forall i | 0 <= i < |vtx[k].vin| ensures HasSlot(e, vtx[k].vin[i].prevout) {
          InputStillThere(P, disk, db, ctx, vtx, k, i);
        }
      }
    }
  }

  lemma InputStillThere(P: Consensus, disk: Disk, db: TxIndexMap, ctx: BlockContext, vtx: seq<CTransaction>, k: nat, i: nat)
    requires BlockSpends(P, disk, db, ctx, vtx) && k < |vtx| && !vtx[k].IsCoinBase() && i < |vtx[k].vin|
    requires TxsDisconnect(P, ConnectTxs(P, db, ctx, vtx, |vtx|), vtx, k + 1)
    ensures HasSlot(DisconnectTxs(P, ConnectTxs(P, db, ctx, vtx, |vtx|), vtx, k + 1), vtx[k].vin[i].prevout)
  {
    hide BlockSpends, DisconnectTxs, MarkAll, TxsDisconnect;
    var full := ConnectTxs(P, db, ctx, vtx, |vtx|);
    var view, after := ConnectTxs(P, db, ctx, vtx, k), ConnectTxs(P, db, ctx, vtx, k + 1);
    var e := DisconnectTxs(P, full, vtx, k + 1);
    var o := vtx[k].vin[i].prevout;
    RefinesSelf(full);
    DisconnectTxsRefines(P, disk, full, db, ctx, vtx, k + 1);
    KeysGrow(P, db, ctx, vtx, k, |vtx|);
    TxReady(P, disk, db, ctx, vtx, k);
    assert Unspent(view, o);
    forall j | k <= j < |vtx| ensures P.hash(vtx[j]) != o.hash {
      IdOverwritable(P, disk, db, ctx, vtx, k, j);
    }
    assert o.hash !in Ids(P, vtx[k+1..]);
    assert o.hash in e;
    MarkAllAt(view, vtx[k].vin, TxPos(P, ctx, vtx, k), o.hash);
    assert after[o.hash] == e[o.hash];
  }

  /** DisconnectBlock after ConnectBlock succeeds and leaves the index as it was, less the
      records of the block's own ids: exactly as it was when the ids are fresh. */
  lemma DisconnectInvertsConnect(P: Consensus, disk: Disk, db: TxIndexMap, ctx: BlockContext, fs: bool, b: CBlock)
    requires BlockConnects(P, disk, db, ctx, fs, b)
    ensures var db' := ConnectBlockIndex(P, db, ctx, b);
      && BlockDisconnects(P, db', b)
      && DisconnectBlockIndex(P, db', b) == db - Ids(P, b.vtx)
      && (DisconnectBlockIndex(P, db', b) == db <==> Ids(P, b.vtx) !! db.Keys)
      && CoinsOf(disk, DisconnectBlockIndex(P, db', b)) == CoinsOf(disk, db)
  {
    hide BlockConnects, BlockSpends, ConnectTx, DisconnectTx, MarkAll, CoinsOf, Overwritable, TxDisconnects, Ids;
    ConnectsBlockSpends(P, disk, db, ctx, fs, b);
    var vtx, db' := b.vtx, ConnectBlockIndex(P, db, ctx, b);
    var back := DisconnectBlockIndex(P, db', b);
    DisconnectSucceeds(P, disk, db, ctx, vtx, 0);
    RefinesSelf(db');
    DisconnectTxsRefines(P, disk, db', db, ctx, vtx, 0);
    ConnectTxsKeys(P, db, ctx, vtx, |vtx|);
    assert vtx[0..] == vtx && vtx[..|vtx|] == vtx;
    assert ConnectTxs(P, db, ctx, vtx, 0) == db;
    assert back.Keys == (db - Ids(P, vtx)).Keys;
    assert back == db - Ids(P, vtx);
    assert Ids(P, vtx) !! db.Keys ==> db - Ids(P, vtx) == db;
    assert back == db ==> db.Keys == db.Keys - Ids(P, vtx);
    RefinesCoins(disk, back, db);
  }

  // ----- chains -----------------------------------------------------------------------------

  /** A connected block as the block index remembers it. */
  datatype Link = Link(ctx: BlockContext, block: CBlock, nMoneySupply: int)

  datatype LedgerState = LedgerState(chain: seq<Link>, db: TxIndexMap)

  function Blocks(chain: seq<Link>): seq<CBlock> { seq(|chain|, i requires 0 <= i < |chain| => chain[i].block) }

  /** nMoneySupply of the tip; the genesis block, whose coinbase is never indexed, has 0. */
  function Supply(chain: seq<Link>): int { if chain == [] then 0 else chain[|chain|-1].nMoneySupply }

  /** The index obtained by connecting the chain's blocks in order, with no detour. */
  function Replay(P: Consensus, chain: seq<Link>): TxIndexMap {
    if chain == [] then map[]
    else ConnectBlockIndex(P, Replay(P, chain[..|chain|-1]), chain[|chain|-1].ctx, chain[|chain|-1].block)
  }

  predicate ChainValid(P: Consensus, disk: Disk, chain: seq<Link>) {
    chain == [] ||
      var before, last := chain[..|chain|-1], chain[|chain|-1];
      && ChainValid(P, disk, before)
      && BlockSpends(P, disk, Replay(P, before), last.ctx, last.block.vtx)
      && OnDisk(P, disk, last.ctx, last.block)
      && last.nMoneySupply == Supply(before) + SupplyChange(P, disk, Replay(P, before), last.ctx, last.block)
  }

  predicate Inv(P: Consensus, disk: Disk, s: LedgerState) {
    ChainValid(P, disk, s.chain) && Refines(s.db, Replay(P, s.chain))
  }

  /** ConnectBlock succeeds on the tip, with or without script checks. */
  predicate Connects(P: Consensus, disk: Disk, fs: bool, s: LedgerState, s': LedgerState) {
    && |s'.chain| == |s.chain| + 1 && s'.chain[..|s.chain|] == s.chain
    && var l := s'.chain[|s.chain|];
       && BlockConnects(P, disk, s.db, l.ctx, fs, l.block) && OnDisk(P, disk, l.ctx, l.block)
       && s'.db == ConnectBlockIndex(P, s.db, l.ctx, l.block)
       && l.nMoneySupply == Supply(s.chain) + SupplyChange(P, disk, s.db, l.ctx, l.block)
  }

  /** DisconnectBlock succeeds on the tip. */
  predicate Disconnects(P: Consensus, s: LedgerState, s': LedgerState) {
    && |s.chain| > 0 && s'.chain == s.chain[..|s.chain|-1]
    && BlockDisconnects(P, s.db, s.chain[|s.chain|-1].block)
    && s'.db == DisconnectBlockIndex(P, s.db, s.chain[|s.chain|-1].block)
  }

  predicate Step(P: Consensus, disk: Disk, s: LedgerState, s': LedgerState) {
    Connects(P, disk, true, s, s') || Connects(P, disk, false, s, s') || Disconnects(P, s, s')
  }

  lemma {:induction false} RefinesTotals(P: Consensus, disk: Disk, e: TxIndexMap, d: TxIndexMap, ctx: BlockContext, vtx: seq<CTransaction>, k: nat)
    requires Refines(e, d) && k <= |vtx|
    requires BlockSpends(P, disk, e, ctx, vtx)
    ensures BlockTotals(P, disk, e, ctx, vtx, k) == BlockTotals(P, disk, d, ctx, vtx, k)
    decreases k
  {
    hide BlockSpends, Overwritable, ConnectTx, MarkAll, Refines, SpendsCoins, ValueIn, ValueOut;
    if k > 0 {
      RefinesTotals(P, disk, e, d, ctx, vtx, k - 1);
      RefinesConnectTxs(P, e, d, ctx, vtx, k - 1);
      TxReady(P, disk, e, ctx, vtx, k - 1);
      RefinesSpends(disk, ConnectTxs(P, e, ctx, vtx, k - 1), ConnectTxs(P, d, ctx, vtx, k - 1), vtx[k - 1]);
    }
  }

  lemma RefinesBlockSpends(P: Consensus, disk: Disk, e: TxIndexMap, d: TxIndexMap, ctx: BlockContext, vtx: seq<CTransaction>)
    requires Refines(e, d) && BlockSpends(P, disk, e, ctx, vtx)
    ensures BlockSpends(P, disk, d, ctx, vtx)
  {
    forall i | 0 <= i < |vtx|
      ensures Overwritable(d, P.hash(vtx[i])) && SpendsCoins(disk, ConnectTxs(P, d, ctx, vtx, i), vtx[i])
    {
      RefinesOverwritable(e, d, P.hash(vtx[i]));
      RefinesConnectTxs(P, e, d, ctx, vtx, i);
      RefinesSpends(disk, ConnectTxs(P, e, ctx, vtx, i), ConnectTxs(P, d, ctx, vtx, i), vtx[i]);
    }
  }

  /** Every step of a run keeps the invariant. */
  lemma StepKeepsInv(P: Consensus, disk: Disk, s: LedgerState, s': LedgerState)
    requires Inv(P, disk, s) && Step(P, disk, s, s')
    ensures Inv(P, disk, s')
  {
    hide BlockConnects, BlockSpends, Refines, BlockTotals, OnDisk, DisconnectTxs, TxsDisconnect;
    if Connects(P, disk, true, s, s') || Connects(P, disk, false, s, s') {
      var fs := Connects(P, disk, true, s, s');
      var l, d := s'.chain[|s.chain|], Replay(P, s.chain);
      ConnectsBlockSpends(P, disk, s.db, l.ctx, fs, l.block);
      RefinesBlockSpends(P, disk, s.db, d, l.ctx, l.block.vtx);
      RefinesTotals(P, disk, s.db, d, l.ctx, l.block.vtx, |l.block.vtx|);
      RefinesConnectTxs(P, s.db, d, l.ctx, l.block.vtx, |l.block.vtx|);
    } else {
      var l, d := s.chain[|s.chain|-1], Replay(P, s'.chain);
      DisconnectTxsRefines(P, disk, s.db, d, l.ctx, l.block.vtx, 0);
    }
  }

  lemma {:induction false} ReplayCoins(P: Consensus, disk: Disk, chain: seq<Link>)
    requires ChainValid(P, disk, chain)
    ensures CoinsOf(disk, Replay(P, chain)) == UtxoOf(P, Blocks(chain))
    ensures Total(CoinsOf(disk, Replay(P, chain))) == Supply(chain)
    decreases |chain|
  {
    hide SpendsCoins, Overwritable, ConnectTx, ApplyTx, CoinsOf, Creates, Consumes, MarkAll, BlockSpends, ConnectTxs, BlockTotals;
    if chain == [] {
      assert CoinsOf(disk, map[]) == map[];
    } else {
      var before, last := chain[..|chain|-1], chain[|chain|-1];
      var d := Replay(P, before);
      ReplayCoins(P, disk, before);
      assert Blocks(chain)[..|chain|-1] == Blocks(before);
      BlockCoins(P, disk, d, last.ctx, last.block, |last.block.vtx|);
      assert last.block.vtx[..|last.block.vtx|] == last.block.vtx;
      ApplyTxsConcat(P, map[], AllTxs(Blocks(before)), last.block.vtx);
      BlockTotal(P, disk, d, last.ctx, last.block, |last.block.vtx|);
    }
  }

  /** The index of a state represents exactly the coins of its chain, whatever detours led to
      it, and they are worth the money supply recorded at the tip. */
  lemma Conservation(P: Consensus, disk: Disk, s: LedgerState)
    requires Inv(P, disk, s)
    ensures CoinsOf(disk, s.db) == UtxoOf(P, Blocks(s.chain))
    ensures Total(CoinsOf(disk, s.db)) == Supply(s.chain)
  {
    RefinesCoins(disk, s.db, Replay(P, s.chain));
    ReplayCoins(P, disk, s.chain);
  }

  ghost predicate Run(P: Consensus, disk: Disk, run: seq<LedgerState>) {
    && |run| > 0 && run[0] == LedgerState([], map[])
    && forall i :: 0 <= i < |run| - 1 ==> Step(P, disk, run[i], run[i + 1])
  }

  lemma {:induction false} RunInv(P: Consensus, disk: Disk, run: seq<LedgerState>, i: nat)
    requires Run(P, disk, run) && i < |run|
    ensures Inv(P, disk, run[i])
    decreases i
  {
    if i > 0 {
      RunInv(P, disk, run, i - 1);
      assert Step(P, disk, run[i - 1], run[i - 1 + 1]);
      StepKeepsInv(P, disk, run[i - 1], run[i]);
    }
  }

  /** In every run of connects and disconnects from the genesis block, at every moment: the
      index represents the coins of the current chain and they total the money supply. */
  lemma RunConserves(P: Consensus, disk: Disk, run: seq<LedgerState>, i: nat)
    requires Run(P, disk, run) && i < |run|
    ensures CoinsOf(disk, run[i].db) == UtxoOf(P, Blocks(run[i].chain))
    ensures Total(CoinsOf(disk, run[i].db)) == Supply(run[i].chain)
  {
    RunInv(P, disk, run, i);
    Conservation(P, disk, run[i]);
  }

  /** Two runs that end on the same blocks agree on every unspent coin, however many
      reorganisations either of them went through. */
  lemma PathIndependence(P: Consensus, disk: Disk, r1: seq<LedgerState>, r2: seq<LedgerState>)
    requires Run(P, disk, r1) && Run(P, disk, r2)
    requires Blocks(r1[|r1|-1].chain) == Blocks(r2[|r2|-1].chain)
    ensures CoinsOf(disk, r1[|r1|-1].db) == CoinsOf(disk, r2[|r2|-1].db)
    ensures Supply(r1[|r1|-1].chain) == Supply(r2[|r2|-1].chain)
  {
    hide Step, Supply, CoinsOf, UtxoOf;
    RunConserves(P, disk, r1, |r1| - 1);
    RunConserves(P, disk, r2, |r2| - 1);
  }

  // ----- no double spend along a chain --------------------------------------------------------

  lemma TxSpendsExist(P: Consensus, disk: Disk, before: seq<Link>, last: Link, i: nat)
    requires ChainValid(P, disk, before) && i < |last.block.vtx|
    requires BlockSpends(P, disk, Replay(P, before), last.ctx, last.block.vtx) && OnDisk(P, disk, last.ctx, last.block)
    ensures Consumes(last.block.vtx[i]) <= ApplyTxs(P, UtxoOf(P, Blocks(before)), last.block.vtx[..i]).Keys
  {
    hide BlockSpends, Overwritable, ChainValid, Replay, UtxoOf, ConnectTxs, ApplyTxs, AllAvailable;
    var d, vtx := Replay(P, before), last.block.vtx;
    ReplayCoins(P, disk, before);
    BlockCoins(P, disk, d, last.ctx, last.block, i);
    TxReady(P, disk, d, last.ctx, vtx, i);
    var view := ConnectTxs(P, d, last.ctx, vtx, i);
    forall o | o in Consumes(vtx[i]) ensures o in CoinsOf(disk, view) {
      assert Unspent(view, o);
    }
  }

  lemma {:induction false} BlockSpendsExist(P: Consensus, disk: Disk, chain: seq<Link>)
    requires ChainValid(P, disk, chain)
    ensures SpendsExist(P, AllTxs(Blocks(chain)))
    decreases |chain|
  {
    hide BlockSpends, OnDisk, Replay, ApplyTxs, Consumes, SupplyChange;
    if chain != [] {
      var before, last := chain[..|chain|-1], chain[|chain|-1];
      var old_, txs := AllTxs(Blocks(before)), AllTxs(Blocks(chain));
      BlockSpendsExist(P, disk, before);
      assert Blocks(chain)[..|chain|-1] == Blocks(before);
      assert txs == old_ + last.block.vtx;
      forall k | 0 <= k < |txs| ensures Consumes(txs[k]) <= ApplyTxs(P, map[], txs[..k]).Keys {
        if k < |old_| {
          assert txs[..k] == old_[..k];
        } else {
          var i := k - |old_|;
          assert txs[..k] == old_ + last.block.vtx[..i];
          ApplyTxsConcat(P, map[], old_, last.block.vtx[..i]);
          TxSpendsExist(P, disk, before, last, i);
        }
      }
    }
  }

  /** Along the chain of any reachable state, an outpoint consumed twice was re-created in
      between by a transaction with the same id; with fresh ids it is consumed at most once. */
  lemma RunNoDoubleSpend(P: Consensus, disk: Disk, run: seq<LedgerState>, m: nat, i: nat, j: nat, o: COutPoint)
    requires Run(P, disk, run) && m < |run|
    requires var txs := AllTxs(Blocks(run[m].chain)); i < j < |txs| && o in Consumes(txs[i]) && o in Consumes(txs[j])
    ensures var txs := AllTxs(Blocks(run[m].chain));
      && (exists k :: i <= k < j && P.hash(txs[k]) == o.hash)
      && (exists a, b :: 0 <= a < b < |txs| && P.hash(txs[a]) == P.hash(txs[b]))
  {
    RunInv(P, disk, run, m);
    BlockSpendsExist(P, disk, run[m].chain);
    var txs := AllTxs(Blocks(run[m].chain));
    NoDoubleSpend(P, txs, i, j, o);
    if forall a, b :: 0 <= a < b < |txs| ==> P.hash(txs[a]) != P.hash(txs[b]) {
      NoDoubleSpendFreshIds(P, txs, i, j, o);
    }
  }
}
