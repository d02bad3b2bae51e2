/**
 The ledger rules as functions of the transaction index: what connecting a block does to
 the index, when it is allowed, and what the index says is unspent.
 */
module Ledger {
  import opened Transactions

  /** What ConnectBlock reads from the block's index node and its ancestors. `recent` holds the
      file positions of the block and its ancestors, nearest first. */
  datatype BlockContext = BlockContext(
    nFile: nat, nBlockPos: nat, nHeight: nat, nBits: nat, recent: seq<(nat, nat)>)

  function CompactSize(n: nat): nat {
    if n < 253 then 1 else if n <= 0xffff then 3 else if n <= 0xffff_ffff then 5 else 9
  }

  /** Offset of transaction `i` of a block stored at `ctx` (src/main.cpp:1635, 1658-1660). */
  function TxOffset(P: Consensus, ctx: BlockContext, vtx: seq<CTransaction>, i: nat): nat
    requires i <= |vtx|
  {
    if i == 0 then ctx.nBlockPos + 80 + CompactSize(|vtx|)
    else TxOffset(P, ctx, vtx, i - 1) + P.size(vtx[i - 1])
  }

  function TxPos(P: Consensus, ctx: BlockContext, vtx: seq<CTransaction>, i: nat): CDiskTxPos
    requires i <= |vtx|
  {
    DiskTxPos(ctx.nFile, ctx.nBlockPos, TxOffset(P, ctx, vtx, i))
  }

  function NewIndex(pos: CDiskTxPos, tx: CTransaction): CTxIndex {
    CTxIndex(pos, seq(|tx.vout|, i => NullPos))
  }

  predicate HasSlot(view: TxIndexMap, o: COutPoint) {
    o.hash in view && o.n < |view[o.hash].vSpent|
  }

  /** Set the spender of one output; an output the index does not know is left alone. */
  function Mark(view: TxIndexMap, o: COutPoint, pos: CDiskTxPos): TxIndexMap {
    if HasSlot(view, o)
    then view[o.hash := CTxIndex(view[o.hash].pos, view[o.hash].vSpent[o.n := pos])]
    else view
  }

  function MarkAll(view: TxIndexMap, vin: seq<CTxIn>, pos: CDiskTxPos): TxIndexMap {
    if vin == [] then view
    else Mark(MarkAll(view, vin[..|vin|-1], pos), vin[|vin|-1].prevout, pos)
  }

  /** The index after transaction `tx`, stored at `pos`, has been connected. */
  function ConnectTx(P: Consensus, view: TxIndexMap, tx: CTransaction, pos: CDiskTxPos): TxIndexMap {
    var spent := if tx.IsCoinBase() then view else MarkAll(view, tx.vin, pos);
    spent[P.hash(tx) := NewIndex(pos, tx)]
  }

  /** The index after the first `k` transactions of a block. */
  function ConnectTxs(P: Consensus, db: TxIndexMap, ctx: BlockContext, vtx: seq<CTransaction>, k: nat): TxIndexMap
    requires k <= |vtx|
  {
    if k == 0 then db
    else ConnectTx(P, ConnectTxs(P, db, ctx, vtx, k - 1), vtx[k - 1], TxPos(P, ctx, vtx, k - 1))
  }

  // ----- when a transaction may be connected ------------------------------------------------

  /** The output exists: what FetchInputs establishes for one input. */
  predicate Available(disk: Disk, view: TxIndexMap, o: COutPoint) {
    && o.hash in view && view[o.hash].pos in disk
    && o.n < |disk[view[o.hash].pos].vout| && o.n < |view[o.hash].vSpent|
  }

  predicate AllAvailable(disk: Disk, view: TxIndexMap, vin: seq<CTxIn>) {
    forall i :: 0 <= i < |vin| ==> Available(disk, view, vin[i].prevout)
  }

  function PrevTx(disk: Disk, view: TxIndexMap, o: COutPoint): CTransaction
    requires Available(disk, view, o)
  {
    disk[view[o.hash].pos]
  }

  function PrevOut(disk: Disk, view: TxIndexMap, o: COutPoint): CTxOut
    requires Available(disk, view, o)
  {
    PrevTx(disk, view, o).vout[o.n]
  }

  function PrevOuts(disk: Disk, view: TxIndexMap, vin: seq<CTxIn>): seq<CTxOut>
    requires AllAvailable(disk, view, vin)
  {
    seq(|vin|, i requires 0 <= i < |vin| => PrevOut(disk, view, vin[i].prevout))
  }

  /** CTransaction::GetValueIn; it is only asked for once the inputs have been fetched. */
  function ValueIn(disk: Disk, view: TxIndexMap, tx: CTransaction): int {
    if tx.IsCoinBase() || !AllAvailable(disk, view, tx.vin) then 0 else SumOut(PrevOuts(disk, view, tx.vin))
  }

  /** Coinbase and coinstake outputs wait until their block is buried. */
  predicate Matured(ctx: BlockContext, prev: CTransaction, pos: CDiskTxPos) {
    prev.IsCoinBase() || prev.IsCoinStake() ==>
      forall k :: 0 <= k < |ctx.recent| && k < COINBASE_MATURITY ==>
        !(pos.DiskTxPos? && ctx.recent[k] == (pos.nFile, pos.nBlockPos))
  }

  /** The first, inexpensive loop of ConnectInputs, for one input. */
  predicate InputPlausible(disk: Disk, view: TxIndexMap, ctx: BlockContext, tx: CTransaction, i: nat)
    requires i < |tx.vin| && AllAvailable(disk, view, tx.vin)
  {
    var o := tx.vin[i].prevout;
    && Matured(ctx, PrevTx(disk, view, o), view[o.hash].pos)
    && PrevTx(disk, view, o).nTime <= tx.nTime
    && MoneyRange(PrevOut(disk, view, o).nValue)
    && MoneyRange(SumOut(PrevOuts(disk, view, tx.vin)[..i + 1]))
  }

  predicate Unspent(view: TxIndexMap, o: COutPoint) {
    HasSlot(view, o) && view[o.hash].vSpent[o.n].NullPos?
  }

  /** VerifySignature: the spent transaction really has the claimed id, and the scripts agree. */
  predicate VerifySignature(P: Consensus, prev: CTransaction, tx: CTransaction, i: nat)
    requires i < |tx.vin|
  {
    && tx.vin[i].prevout.n < |prev.vout|
    && tx.vin[i].prevout.hash == P.hash(prev)
    && P.verifyScript(prev, tx, i)
  }

  /** The second loop of ConnectInputs, for one input. */
  predicate InputSpendable(P: Consensus, disk: Disk, view: TxIndexMap, fScriptChecks: bool, tx: CTransaction, i: nat)
    requires i < |tx.vin| && AllAvailable(disk, view, tx.vin)
  {
    var o := tx.vin[i].prevout;
    && Unspent(view, o)
    && (fScriptChecks || tx.IsCoinStake() ==> VerifySignature(P, PrevTx(disk, view, o), tx, i))
  }

  /** The value rule at the end of ConnectInputs: a coinstake may mint up to the stake reward,
      every other transaction pays at least the minimum fee. */
  predicate ValueRule(P: Consensus, disk: Disk, db: TxIndexMap, view: TxIndexMap, ctx: BlockContext, tx: CTransaction)
    requires !tx.IsCoinBase() && AllAvailable(disk, view, tx.vin)
  {
    var nValueIn := ValueIn(disk, view, tx);
    if tx.IsCoinStake() then
      && P.coinAge(tx, db).Some?
      && ValueOut(tx) - nValueIn <=
           P.stakeReward(P.coinAge(tx, db).value, ctx.nBits, tx.nTime) - MinFee(P, tx) + MIN_TX_FEE
    else
      && nValueIn >= ValueOut(tx)
      && nValueIn - ValueOut(tx) >= MinFee(P, tx)
      && MoneyRange(nValueIn - ValueOut(tx))
  }

  /** ConnectInputs accepts a transaction whose inputs have been fetched. */
  predicate InputsConnect(P: Consensus, disk: Disk, db: TxIndexMap, view: TxIndexMap, ctx: BlockContext, fScriptChecks: bool, tx: CTransaction)
    requires !tx.IsCoinBase() && AllAvailable(disk, view, tx.vin)
  {
    && (forall i :: 0 <= i < |tx.vin| ==> InputPlausible(disk, view, ctx, tx, i))
    && (forall i :: 0 <= i < |tx.vin| ==> InputSpendable(P, disk, view, fScriptChecks, tx, i))
    && DistinctInputs(tx.vin)
    && ValueRule(P, disk, db, view, ctx, tx)
  }

  predicate TxConnects(P: Consensus, disk: Disk, db: TxIndexMap, view: TxIndexMap, ctx: BlockContext, fScriptChecks: bool, tx: CTransaction) {
    tx.IsCoinBase() || (AllAvailable(disk, view, tx.vin) && InputsConnect(P, disk, db, view, ctx, fScriptChecks, tx))
  }

  /** The id is unknown or all its outputs are spent: the block may use it (BIP 30). */
  predicate Overwritable(db: TxIndexMap, h: Hash256) {
    h in db ==> forall k :: 0 <= k < |db[h].vSpent| ==> !db[h].vSpent[k].NullPos?
  }

  function SigOps(P: Consensus, disk: Disk, view: TxIndexMap, tx: CTransaction): nat {
    P.legacySigOps(tx) +
      if !tx.IsCoinBase() && AllAvailable(disk, view, tx.vin) then P.p2shSigOps(tx, PrevOuts(disk, view, tx.vin)) else 0
  }

  function BlockSigOps(P: Consensus, disk: Disk, db: TxIndexMap, ctx: BlockContext, vtx: seq<CTransaction>, k: nat): nat
    requires k <= |vtx|
  {
    if k == 0 then 0
    else BlockSigOps(P, disk, db, ctx, vtx, k - 1) + SigOps(P, disk, ConnectTxs(P, db, ctx, vtx, k - 1), vtx[k - 1])
  }

  /** Transactions 0..k pass, each on the index its predecessors left. */
  predicate TxsConnect(P: Consensus, disk: Disk, db: TxIndexMap, ctx: BlockContext, fScriptChecks: bool, vtx: seq<CTransaction>, k: nat)
    requires k <= |vtx|
  {
    && (forall i :: 0 <= i < k ==> Overwritable(db, P.hash(vtx[i])))
    && (forall i :: 0 <= i < k ==> TxConnects(P, disk, db, ConnectTxs(P, db, ctx, vtx, i), ctx, fScriptChecks, vtx[i]))
    && BlockSigOps(P, disk, db, ctx, vtx, k) <= MAX_BLOCK_SIGOPS
  }

  /** The three running totals of ConnectBlock over the first `k` transactions. */
  datatype Totals = Totals(nFees: int, nValueIn: int, nValueOut: int)

  function AddTx(t: Totals, tx: CTransaction, valueIn: int): Totals {
    if tx.IsCoinBase() then t.(nValueOut := t.nValueOut + ValueOut(tx))
    else Totals(
      if tx.IsCoinStake() then t.nFees else t.nFees + valueIn - ValueOut(tx),
      t.nValueIn + valueIn, t.nValueOut + ValueOut(tx))
  }

  function BlockTotals(P: Consensus, disk: Disk, db: TxIndexMap, ctx: BlockContext, vtx: seq<CTransaction>, k: nat): Totals
    requires k <= |vtx|
  {
    if k == 0 then Totals(0, 0, 0)
    else
      AddTx(BlockTotals(P, disk, db, ctx, vtx, k - 1), vtx[k - 1],
            ValueIn(disk, ConnectTxs(P, db, ctx, vtx, k - 1), vtx[k - 1]))
  }

  /** Block subsidy by height (src/main.cpp:960-1036); each constant times COIN is a whole number. */
  function Subsidy(nHeight: nat): (s: int)
    ensures s >= 1
  {
    if nHeight == 1 then 23226285 * COIN
    else if nHeight < 210240 then 13_000_000
    else if nHeight < 420480 then 6_500_000
    else if nHeight < 630720 then 3_250_000
    else if nHeight < 840960 then 1_625_000
    else if nHeight < 1051200 then 812_500
    else if nHeight < 1261440 then 406_250
    else if nHeight < 1471680 then 203_125
    else if nHeight < 1681920 then 101_562
    else if nHeight < 1892160 then 50_781
    else if nHeight < 2102400 then 25_390
    else if nHeight < 2312640 then 12_695
    else if nHeight < 2522880 then 6_347
    else if nHeight < 2733120 then 3_173
    else if nHeight < 2943360 then 1_586
    else if nHeight < 3153600 then 793
    else if nHeight < 3363840 then 396
    else if nHeight < 3574080 then 198
    else if nHeight < 3784320 then 99
    else if nHeight < 3994560 then 49
    else if nHeight < 4204800 then 24
    else if nHeight < 4415040 then 12
    else if nHeight < 4625280 then 6
    else if nHeight < 4835520 then 3
    else 1
  }

  /** ConnectBlock accepts a block; the reward rule needs a parent. `fScriptChecks` is off for ancestors of the
      assumed-valid block; coinstakes are verified regardless. */
  predicate BlockConnects(P: Consensus, disk: Disk, db: TxIndexMap, ctx: BlockContext, fScriptChecks: bool, b: CBlock) {
    && CheckBlock(P, b)
    && TxsConnect(P, disk, db, ctx, fScriptChecks, b.vtx, |b.vtx|)
    && (ctx.nHeight > 0 ==>
          ValueOut(b.vtx[0]) <= Subsidy(ctx.nHeight) + BlockTotals(P, disk, db, ctx, b.vtx, |b.vtx|).nFees)
  }

  function ConnectBlockIndex(P: Consensus, db: TxIndexMap, ctx: BlockContext, b: CBlock): TxIndexMap {
    ConnectTxs(P, db, ctx, b.vtx, |b.vtx|)
  }

  /** nMoneySupply of the block minus that of its parent. */
  function SupplyChange(P: Consensus, disk: Disk, db: TxIndexMap, ctx: BlockContext, b: CBlock): int {
    var t := BlockTotals(P, disk, db, ctx, b.vtx, |b.vtx|);
    t.nValueOut - t.nValueIn
  }

  // ----- disconnecting ----------------------------------------------------------------------

  function DisconnectTx(P: Consensus, db: TxIndexMap, tx: CTransaction): TxIndexMap {
    (if tx.IsCoinBase() then db else MarkAll(db, tx.vin, NullPos)) - {P.hash(tx)}
  }

  /** DisconnectInputs finds every index record it must rewrite. */
  predicate TxDisconnects(db: TxIndexMap, tx: CTransaction) {
    tx.IsCoinBase() || forall i :: 0 <= i < |tx.vin| ==> HasSlot(db, tx.vin[i].prevout)
  }

  /** The index after transactions k..|vtx| of a block were disconnected, last first. */
  function DisconnectTxs(P: Consensus, db: TxIndexMap, vtx: seq<CTransaction>, k: nat): TxIndexMap
    requires k <= |vtx|
    decreases |vtx| - k
  {
    if k == |vtx| then db else DisconnectTx(P, DisconnectTxs(P, db, vtx, k + 1), vtx[k])
  }

  predicate TxsDisconnect(P: Consensus, db: TxIndexMap, vtx: seq<CTransaction>, k: nat)
    requires k <= |vtx|
  {
    forall i :: k <= i < |vtx| ==> TxDisconnects(DisconnectTxs(P, db, vtx, i + 1), vtx[i])
  }

  predicate BlockDisconnects(P: Consensus, db: TxIndexMap, b: CBlock) { TxsDisconnect(P, db, b.vtx, 0) }

  function DisconnectBlockIndex(P: Consensus, db: TxIndexMap, b: CBlock): TxIndexMap {
    DisconnectTxs(P, db, b.vtx, 0)
  }

  /** The block file holds the block's transactions where the index will say they are. */
  predicate OnDisk(P: Consensus, disk: Disk, ctx: BlockContext, b: CBlock) {
    forall i :: 0 <= i < |b.vtx| ==>
      TxPos(P, ctx, b.vtx, i) in disk && disk[TxPos(P, ctx, b.vtx, i)] == b.vtx[i]
  }
}
