/**
 A proof-of-stake block that the assembly builds and ConnectBlock refuses: the pool holds a
 transaction that spends the very coin the coinstake stakes (src/main.cpp:4162-4182, 4269).
 */
module StakeConflict {
  import opened Transactions
  import opened Utxo
  import opened Ledger
  import opened BlockAssembly
  import opened AssembledBlocks

  /** A transaction is named by the length of its other fields. */
  const P := Consensus((tx: CTransaction) => |tx.rest|, (b: CBlock) => 1, (tx: CTransaction) => 1, (tx: CTransaction) => 0,
    (tx: CTransaction, outs: seq<CTxOut>) => 0, (prev: CTransaction, tx: CTransaction, i: nat) => true,
    (tx: CTransaction, db: TxIndexMap) => Some(0), (age: nat, bits: nat, time: nat) => 0, (b: CBlock) => true)

  const EARLIER := CTransaction(0, [CTxIn(COutPoint(9, 0), [])], [CTxOut(1000, [])], [0])

  const STAKED := COutPoint(1, 0)

  const COINBASE := CTransaction(0, [CTxIn(COutPoint(0, NULL_N), [0, 0])], [CTxOut(0, [])], [0, 0])

  const COINSTAKE := CTransaction(0, [CTxIn(STAKED, [])], [CTxOut(0, []), CTxOut(1000, [])], [0, 0, 0])

  const PAYMENT := CTransaction(0, [CTxIn(STAKED, [])], [CTxOut(900, [])], [0, 0, 0, 0])

  const OPENING := [COINBASE, COINSTAKE]

  const BLOCK := CBlock(0, 0, 0, [COINBASE, COINSTAKE, PAYMENT], [])

  const INDEX: TxIndexMap := map[1 := CTxIndex(DiskTxPos(0, 0, 0), [NullPos])]

  const BEFORE: Disk := map[DiskTxPos(0, 0, 0) := EARLIER]

  const AFTER: Disk := map[DiskTxPos(0, 0, 0) := EARLIER, DiskTxPos(1, 0, 81) := COINBASE,
    DiskTxPos(1, 0, 82) := COINSTAKE, DiskTxPos(1, 0, 83) := PAYMENT]

  const POOL: Pool := map[4 := PAYMENT]

  const SITE := Site(P, BEFORE, AFTER, INDEX, POOL, BlockContext(0, 0, 5, 0, []), BlockContext(1, 0, 6, 0, [(1, 0)]))

  const FINAL := (tx: CTransaction) => true

  lemma Placed()
    ensures OnDisk(P, AFTER, SITE.ctx, BLOCK)
  {
    assert TxOffset(P, SITE.ctx, BLOCK.vtx, 0) == 81;
    assert TxOffset(P, SITE.ctx, BLOCK.vtx, 1) == 82;
    assert TxOffset(P, SITE.ctx, BLOCK.vtx, 2) == 83;
    forall i | 0 <= i < |BLOCK.vtx| ensures TxPos(P, SITE.ctx, BLOCK.vtx, i) in AFTER && AFTER[TxPos(P, SITE.ctx, BLOCK.vtx, i)] == BLOCK.vtx[i] {
      if i == 0 { } else if i == 1 { } else { assert i == 2; }
    }
  }

  /** One output of 1000, spendable by whoever comes first. */
  lemma CoinReady(disk: Disk, view: TxIndexMap, ctx: BlockContext, fs: bool, tx: CTransaction)
    requires DiskTxPos(0, 0, 0) in disk && disk[DiskTxPos(0, 0, 0)] == EARLIER && 1 in view && view[1] == INDEX[1]
    requires tx.vin == [CTxIn(STAKED, [])]
    ensures AllAvailable(disk, view, tx.vin) && PrevOuts(disk, view, tx.vin) == [CTxOut(1000, [])]
    ensures InputPlausible(disk, view, ctx, tx, 0) && InputSpendable(P, disk, view, fs, tx, 0)
    ensures SumOut(PrevOuts(disk, view, tx.vin)) == 1000
  {
    assert Available(disk, view, tx.vin[0].prevout);
    var outs := PrevOuts(disk, view, tx.vin);
    assert outs[0] == CTxOut(1000, []);
    assert outs[..0] == [] && outs[..1] == outs;
    assert SumOut(outs[..0]) == 0;
  }

  lemma PoolReads()
    ensures DiskTxPos(0, 0, 0) in WithPool(BEFORE, POOL) && WithPool(BEFORE, POOL)[DiskTxPos(0, 0, 0)] == EARLIER
  {
  }

  lemma PaymentConnects(disk: Disk, ctx: BlockContext)
    requires DiskTxPos(0, 0, 0) in disk && disk[DiskTxPos(0, 0, 0)] == EARLIER
    ensures TxConnects(P, disk, INDEX, INDEX, ctx, true, PAYMENT)
  {
    hide InputPlausible, InputSpendable, AllAvailable, SumOut, WithPool;
    CoinReady(disk, INDEX, ctx, true, PAYMENT);
    PaymentValue();
    assert ValueIn(disk, INDEX, PAYMENT) == 1000;
  }

  lemma PaymentValue()
    ensures ValueOut(PAYMENT) == 900 && MinFee(P, PAYMENT) == 100
  {
    assert PAYMENT.vout[..0] == [] && SumOut(PAYMENT.vout[..0]) == 0;
  }

  lemma CoinstakeConnects(fs: bool)
    ensures StakeConnects(SITE, OPENING, BLOCK, fs)
  {
    hide TxOffset;
    assert ConnectTxs(P, INDEX, SITE.ctx, BLOCK.vtx, 0) == INDEX;
    var view := ConnectTxs(P, INDEX, SITE.ctx, BLOCK.vtx, 1);
    assert 1 in view && view[1] == INDEX[1];
    CoinReady(AFTER, view, SITE.ctx, fs, COINSTAKE);
    StakeValue();
  }

  lemma StakeValue()
    ensures ValueOut(COINSTAKE) == 1000 && MinFee(P, COINSTAKE) == MIN_TX_FEE
  {
    var v := COINSTAKE.vout;
    assert v[..1][..0] == [] && SumOut(v[..1][..0]) == 0 && SumOut(v[..1]) == 0;
  }

  lemma AllPassChecks()
    ensures AllChecked(SITE, OPENING)
  {
    assert COINBASE.vout[..0] == [] && SumOut(COINBASE.vout[..0]) == 0 && COINBASE.vout[..1] == COINBASE.vout;
    assert PAYMENT.vout[..0] == [] && SumOut(PAYMENT.vout[..0]) == 0 && PAYMENT.vout[..1] == PAYMENT.vout;
    assert COINSTAKE.vout[..0] == [] && SumOut(COINSTAKE.vout[..0]) == 0 && COINSTAKE.vout[..2] == COINSTAKE.vout;
    assert COINSTAKE.vout[..1][..0] == [] && SumOut(COINSTAKE.vout[..1]) == 0;
    StakeValue();
    assert CheckTransaction(P, COINBASE) && CheckTransaction(P, COINSTAKE) && CheckTransaction(P, PAYMENT);
  }

  lemma Assembled()
    ensures Sited(SITE, FINAL, OPENING, [PAYMENT], BLOCK)
  {
    hide OnDisk, TxConnects, WithPool;
    Placed();
    PoolReads();
    PaymentConnects(WithPool(BEFORE, POOL), SITE.prev);
    assert [PAYMENT][..0] == [];
    assert Chosen(P, WithPool(BEFORE, POOL), INDEX, SITE.prev, [PAYMENT]);
    assert Ids(P, [PAYMENT]) == [4];
    assert FromPool(P, POOL, FINAL, [PAYMENT]);
    assert OPENING + [PAYMENT] == BLOCK.vtx;
  }

  /** Everything about the block is in order, but the coin is spent twice in it and ConnectBlock refuses it. */
  lemma PoolConflictsWithStake(fs: bool)
    ensures Sited(SITE, FINAL, OPENING, [PAYMENT], BLOCK) && StakeConnects(SITE, OPENING, BLOCK, fs)
    ensures P.headerOk(BLOCK) && AllChecked(SITE, OPENING)
    ensures STAKED in Consumes(BLOCK.vtx[1]) && STAKED in Consumes(BLOCK.vtx[2])
    ensures !BlockConnects(P, AFTER, INDEX, SITE.ctx, fs, BLOCK)
  {
    hide Arranged, FreshIds, StakeConnects, AllChecked, BlockConnects;
    Assembled();
    CoinstakeConnects(fs);
    AllPassChecks();
    assert COINSTAKE.vin[0].prevout == STAKED && PAYMENT.vin[0].prevout == STAKED;
    assert STAKED in Consumes(COINSTAKE) && STAKED in Consumes(PAYMENT);
    assert !StakeUntouched(OPENING, [PAYMENT]) by { assert [PAYMENT][0] == PAYMENT; }
    AssembledBlockConnects(SITE, FINAL, OPENING, [PAYMENT], BLOCK, fs);
  }
}
