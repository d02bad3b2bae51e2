/**
 ConnectInputs, ConnectBlock and their inverses as the code runs them, proved against the
 index functions of `Ledger` (src/main.cpp:1268-1533 and 1585-1759).
 */
module Connect {
  import opened Transactions
  import opened Ledger
  import opened LedgerFacts
  import opened BlockTree
  import opened TxDb

  type MapPrevTx = map<Hash256, (CTxIndex, CTransaction)>

  /** `inputs` holds, for every input, its index record in `view` and the stored transaction. */
  ghost predicate Fetched(disk: Disk, view: TxIndexMap, tx: CTransaction, inputs: MapPrevTx) {
    && AllAvailable(disk, view, tx.vin)
    && (forall i :: 0 <= i < |tx.vin| ==> tx.vin[i].prevout.hash in inputs)
    && (forall h :: h in inputs ==> h in view && view[h].pos in disk && inputs[h] == (view[h], disk[view[h].pos]))
  }

  /** The previous transaction of every input is indexed and stored. */
  predicate AllKnown(disk: Disk, view: TxIndexMap, vin: seq<CTxIn>) {
    forall i :: 0 <= i < |vin| ==> vin[i].prevout.hash in view && view[vin[i].prevout.hash].pos in disk
  }

  /** FetchInputs: queued changes first, then the database. `fInvalid` tells a transaction that can
      never be valid from one whose inputs are not there yet. */
  method FetchInputs(disk: Disk, txdb: CTxDB, mapTestPool: TxIndexMap, tx: CTransaction)
    returns (ok: bool, inputs: MapPrevTx, fInvalid: bool)
    requires !tx.IsCoinBase()
    modifies txdb`failures
    ensures txdb.failures >= old(txdb.failures)
    ensures var view := txdb.Current().txindex + mapTestPool;
      && (ok <==> txdb.failures == old(txdb.failures) && AllAvailable(disk, view, tx.vin))
      && (fInvalid <==> txdb.failures == old(txdb.failures) && AllKnown(disk, view, tx.vin) && !AllAvailable(disk, view, tx.vin))
      && (ok ==> Fetched(disk, view, tx, inputs))
  {
    hide Available;
    ghost var view := txdb.Current().txindex + mapTestPool;
    inputs, fInvalid := map[], false;
    for i := 0 to |tx.vin|
      invariant txdb.failures == old(txdb.failures)
      invariant forall k :: 0 <= k < i ==> tx.vin[k].prevout.hash in inputs
      invariant forall h :: h in inputs ==> h in view && view[h].pos in disk && inputs[h] == (view[h], disk[view[h].pos])
    {
      var prevout := tx.vin[i].prevout;
      if prevout.hash !in inputs {
        var txindex: CTxIndex;
        if prevout.hash in mapTestPool {
          txindex := mapTestPool[prevout.hash];
        } else if prevout.hash in txdb.Current().txindex {
          txindex := txdb.Current().txindex[prevout.hash];
        } else {
          Unavailable(disk, view, tx, i);
          return false, inputs, false;
        }
        if txindex.pos !in disk {
          Unavailable(disk, view, tx, i);
          return false, inputs, false;
        }
        if !txindex.pos.MemPos? {
          var read := txdb.Attempt();  // ReadFromDisk
          if !read { return false, inputs, false; }
        }
        inputs := inputs[prevout.hash := (txindex, disk[txindex.pos])];
      }
    }
    for i := 0 to |tx.vin|
      invariant txdb.failures == old(txdb.failures)
      invariant forall k :: 0 <= k < i ==> Available(disk, view, tx.vin[k].prevout)
    {
      var prevout := tx.vin[i].prevout;
      var entry := inputs[prevout.hash];
      if prevout.n >= |entry.1.vout| || prevout.n >= |entry.0.vSpent| {
        Unavailable(disk, view, tx, i);
        return false, inputs, true;
      }
      IsAvailable(disk, view, prevout);
    }
    ok := true;
  }

  lemma Unavailable(disk: Disk, view: TxIndexMap, tx: CTransaction, i: nat)
    requires i < |tx.vin|
    requires var o := tx.vin[i].prevout;
      o.hash !in view || view[o.hash].pos !in disk
      || o.n >= |disk[view[o.hash].pos].vout| || o.n >= |view[o.hash].vSpent|
    ensures !AllAvailable(disk, view, tx.vin)
  {
    assert !Available(disk, view, tx.vin[i].prevout);
  }

  lemma IsAvailable(disk: Disk, view: TxIndexMap, o: COutPoint)
    requires o.hash in view && view[o.hash].pos in disk
    requires o.n < |disk[view[o.hash].pos].vout| && o.n < |view[o.hash].vSpent|
    ensures Available(disk, view, o)
  {
  }

  /** The maturity loop: no ancestor closer than COINBASE_MATURITY holds the spent transaction. */
  method IsMatured(pindexBlock: CBlockIndex, prev: CTransaction, pos: CDiskTxPos) returns (ok: bool)
    requires WellLinked(pindexBlock)
    ensures ok == Matured(Context(pindexBlock), prev, pos)
  {
    if !(prev.IsCoinBase() || prev.IsCoinStake()) { return true; }
    var pindex: CBlockIndex? := pindexBlock;
    ghost var k := 0;
    RecentAt(pindexBlock, 0);
    while pindex != null && pindexBlock.nHeight - pindex.nHeight < COINBASE_MATURITY
      invariant k <= |Recent(pindexBlock)| == pindexBlock.nHeight + 1
      invariant pindex == null ==> k == |Recent(pindexBlock)|
      invariant pindex != null ==> k <= pindexBlock.nHeight && pindex == At(pindexBlock, pindexBlock.nHeight - k)
      invariant forall j :: 0 <= j < k ==>
        !(pos.DiskTxPos? && Recent(pindexBlock)[j] == (pos.nFile, pos.nBlockPos))
      decreases |Recent(pindexBlock)| - k
    {
      RecentAt(pindexBlock, k);
      if pos.DiskTxPos? && pindex.nBlockPos == pos.nBlockPos && pindex.nFile == pos.nFile { return false; }
      if pindex.pprev != null { ChildAt(pindexBlock, pindexBlock.nHeight - k - 1); }
      pindex := pindex.pprev;
      k := k + 1;
    }
    return true;
  }

  lemma PrefixSum(outs: seq<CTxOut>, i: nat)
    requires i < |outs|
    ensures SumOut(outs[..i + 1]) == SumOut(outs[..i]) + outs[i].nValue
  {
    assert outs[..i + 1][..i] == outs[..i];
  }

  /** First loop of ConnectInputs: the inexpensive checks. */
  method CheckInputs(disk: Disk, ghost view: TxIndexMap, inputs: MapPrevTx, pindexBlock: CBlockIndex, tx: CTransaction)
    returns (ok: bool, nValueIn: int)
    requires WellLinked(pindexBlock) && Fetched(disk, view, tx, inputs)
    ensures ok == forall i :: 0 <= i < |tx.vin| ==> InputPlausible(disk, view, Context(pindexBlock), tx, i)
    ensures ok ==> nValueIn == SumOut(PrevOuts(disk, view, tx.vin))
  {
    hide Matured, MoneyRange, SumOut, Recent;
    nValueIn := 0;
    ghost var outs := PrevOuts(disk, view, tx.vin);
    assert SumOut(outs[..0]) == 0 by { SumNone(outs); }
    for i := 0 to |tx.vin|
      invariant nValueIn == SumOut(outs[..i])
      invariant forall k :: 0 <= k < i ==> InputPlausible(disk, view, Context(pindexBlock), tx, k)
    {
      var prevout := tx.vin[i].prevout;
      assert Available(disk, view, prevout);
      var txindex, txPrev := inputs[prevout.hash].0, inputs[prevout.hash].1;
      var mature := IsMatured(pindexBlock, txPrev, txindex.pos);
      if !mature {
        assert !InputPlausible(disk, view, Context(pindexBlock), tx, i);
        return false, nValueIn;
      }
      if txPrev.nTime > tx.nTime {
        assert !InputPlausible(disk, view, Context(pindexBlock), tx, i);
        return false, nValueIn;
      }
      PrefixSum(outs, i);
      nValueIn := nValueIn + txPrev.vout[prevout.n].nValue;
      if !MoneyRange(txPrev.vout[prevout.n].nValue) || !MoneyRange(nValueIn) {
        assert !InputPlausible(disk, view, Context(pindexBlock), tx, i);
        return false, nValueIn;
      }
    }
    assert outs[..|tx.vin|] == outs;
    ok := true;
  }

  lemma SumNone(outs: seq<CTxOut>)
    ensures SumOut(outs[..0]) == 0
  {
  }

  /** Whether a slot is still free once the inputs before `i` have been marked. */
  lemma FreeAfterMarks(disk: Disk, view: TxIndexMap, tx: CTransaction, pos: CDiskTxPos, i: nat)
    requires i < |tx.vin| && AllAvailable(disk, view, tx.vin) && !pos.NullPos?
    requires DistinctInputs(tx.vin[..i])
    ensures var o := tx.vin[i].prevout; var m := MarkAll(view, tx.vin[..i], pos);
      && HasSlot(m, o) && m[o.hash].pos == view[o.hash].pos
      && (m[o.hash].vSpent[o.n].NullPos? <==> Unspent(view, o) && DistinctInputs(tx.vin[..i + 1]))
  {
    hide Unspent;
    var o := tx.vin[i].prevout;
    assert Available(disk, view, o);
    MarkAllAt(view, tx.vin[..i], pos, o.hash);
    assert COutPoint(o.hash, o.n) == o;
    if Names(tx.vin[..i], o) {
      var k :| 0 <= k < i && tx.vin[..i][k].prevout == o;
      assert tx.vin[..i + 1][k].prevout == tx.vin[..i + 1][i].prevout;
    } else {
      assert tx.vin[..i + 1] == tx.vin[..i] + [tx.vin[i]];
      assert Unspent(view, o) <==> view[o.hash].vSpent[o.n].NullPos? by { UnspentSlot(view, o); }
    }
  }

  lemma UnspentSlot(view: TxIndexMap, o: COutPoint)
    requires HasSlot(view, o)
    ensures Unspent(view, o) <==> view[o.hash].vSpent[o.n].NullPos?
  {
  }

  lemma MarkLast(view: TxIndexMap, vin: seq<CTxIn>, pos: CDiskTxPos, i: nat)
    requires i < |vin|
    ensures MarkAll(view, vin[..i + 1], pos) == Mark(MarkAll(view, vin[..i], pos), vin[i].prevout, pos)
  {
    assert vin[..i + 1][..i] == vin[..i];
  }

  /** Second loop of ConnectInputs: conflicts, scripts, and the spent flags. */
  method SpendInputs(P: Consensus, disk: Disk, ghost dbv: TxIndexMap, inputs0: MapPrevTx, mapTestPool0: TxIndexMap,
      pos: CDiskTxPos, fScriptChecks: bool, tx: CTransaction)
    returns (ok: bool, mapTestPool: TxIndexMap)
    requires !pos.NullPos? && Fetched(disk, dbv + mapTestPool0, tx, inputs0)
    ensures ok == (DistinctInputs(tx.vin)
      && forall i :: 0 <= i < |tx.vin| ==> InputSpendable(P, disk, dbv + mapTestPool0, fScriptChecks, tx, i))
    ensures ok ==> dbv + mapTestPool == MarkAll(dbv + mapTestPool0, tx.vin, pos)
  {
    hide MarkAll, Unspent, VerifySignature, AllAvailable, Tracks, Mark;
    ghost var view := dbv + mapTestPool0;
    var inputs: MapPrevTx := inputs0;
    mapTestPool := mapTestPool0;
    MarkNone(view, tx.vin[..0], pos);
    TracksStart(disk, view, tx, inputs0);
    for i := 0 to |tx.vin|
      invariant dbv + mapTestPool == MarkAll(view, tx.vin[..i], pos)
      invariant Tracks(inputs, inputs0, MarkAll(view, tx.vin[..i], pos))
      invariant DistinctInputs(tx.vin[..i])
      invariant forall k :: 0 <= k < i ==> InputSpendable(P, disk, view, fScriptChecks, tx, k)
    {
      var prevout := tx.vin[i].prevout;
      TracksAt(inputs, inputs0, MarkAll(view, tx.vin[..i], pos), prevout.hash);
      var txindex, txPrev := inputs[prevout.hash].0, inputs[prevout.hash].1;
      FreeAfterMarks(disk, view, tx, pos, i);
      if !txindex.vSpent[prevout.n].NullPos? {
        assert DistinctInputs(tx.vin) ==> DistinctInputs(tx.vin[..i + 1]);
        assert DistinctInputs(tx.vin) ==> !InputSpendable(P, disk, view, fScriptChecks, tx, i);
        return false, mapTestPool;
      }
      if fScriptChecks || tx.IsCoinStake() {
        if !VerifySignature(P, txPrev, tx, i) {
          assert !InputSpendable(P, disk, view, fScriptChecks, tx, i);
          return false, mapTestPool;
        }
      }
      MarkLast(view, tx.vin, pos, i);
      TracksNext(inputs, inputs0, dbv, mapTestPool, MarkAll(view, tx.vin[..i], pos), prevout, pos);
      txindex := CTxIndex(txindex.pos, txindex.vSpent[prevout.n := pos]);
      inputs := inputs[prevout.hash := (txindex, txPrev)];
      mapTestPool := mapTestPool[prevout.hash := txindex];
    }
    assert tx.vin[..|tx.vin|] == tx.vin;
    ok := true;
  }

  /** The fetched copies follow the index, and keep their transactions. */
  predicate Tracks(inputs: MapPrevTx, inputs0: MapPrevTx, m: TxIndexMap) {
    inputs.Keys == inputs0.Keys
    && forall h :: h in inputs ==> h in m && inputs[h].0 == m[h] && inputs[h].1 == inputs0[h].1
  }

  lemma TracksStart(disk: Disk, view: TxIndexMap, tx: CTransaction, inputs: MapPrevTx)
    requires AllAvailable(disk, view, tx.vin) && Fetched(disk, view, tx, inputs)
    ensures Tracks(inputs, inputs, view)
  {
  }

  lemma TracksAt(inputs: MapPrevTx, inputs0: MapPrevTx, m: TxIndexMap, h: Hash256)
    requires Tracks(inputs, inputs0, m) && h in inputs0
    ensures h in inputs && h in m && inputs[h].0 == m[h] && inputs[h].1 == inputs0[h].1
  {
    assert h in inputs.Keys;
  }

  lemma TracksNext(inputs: MapPrevTx, inputs0: MapPrevTx, dbv: TxIndexMap, mapTestPool: TxIndexMap, m: TxIndexMap,
      o: COutPoint, pos: CDiskTxPos)
    requires Tracks(inputs, inputs0, m) && dbv + mapTestPool == m && o.hash in inputs && HasSlot(m, o)
    ensures var t := CTxIndex(m[o.hash].pos, m[o.hash].vSpent[o.n := pos]);
      && dbv + mapTestPool[o.hash := t] == Mark(m, o, pos)
      && Tracks(inputs[o.hash := (t, inputs[o.hash].1)], inputs0, Mark(m, o, pos))
  {
  }

  lemma MarkNone(view: TxIndexMap, vin: seq<CTxIn>, pos: CDiskTxPos)
    requires vin == []
    ensures MarkAll(view, vin, pos) == view
  {
  }

  /** ConnectInputs for a block being connected. */
  method ConnectInputs(P: Consensus, disk: Disk, txdb: CTxDB, inputs: MapPrevTx, mapTestPool0: TxIndexMap,
      pos: CDiskTxPos, pindexBlock: CBlockIndex, fScriptChecks: bool, tx: CTransaction)
    returns (ok: bool, mapTestPool: TxIndexMap)
    requires WellLinked(pindexBlock) && !tx.IsCoinBase() && !pos.NullPos?
    requires Fetched(disk, txdb.Current().txindex + mapTestPool0, tx, inputs)
    ensures var dbv := txdb.Current().txindex;
      && ok == InputsConnect(P, disk, dbv, dbv + mapTestPool0, Context(pindexBlock), fScriptChecks, tx)
      && (ok ==> dbv + mapTestPool == MarkAll(dbv + mapTestPool0, tx.vin, pos))
  {
    hide MarkAll, InputPlausible, InputSpendable, Recent, SumOut, AllAvailable;
    ghost var view := txdb.Current().txindex + mapTestPool0;
    var nValueIn;
    mapTestPool := mapTestPool0;
    ok, nValueIn := CheckInputs(disk, view, inputs, pindexBlock, tx);
    if !ok { return; }
    ok, mapTestPool := SpendInputs(P, disk, txdb.Current().txindex, inputs, mapTestPool0, pos, fScriptChecks, tx);
    if !ok { return; }
    assert nValueIn == ValueIn(disk, view, tx);
    if tx.IsCoinStake() {
      var nCoinAge := P.coinAge(tx, txdb.Current().txindex);
      if nCoinAge.None? { return false, mapTestPool; }
      var nStakeReward := ValueOut(tx) - nValueIn;
      if nStakeReward > P.stakeReward(nCoinAge.value, pindexBlock.block.nBits, tx.nTime) - MinFee(P, tx) + MIN_TX_FEE {
        return false, mapTestPool;
      }
    } else {
      if nValueIn < ValueOut(tx) { return false, mapTestPool; }
      var nTxFee := nValueIn - ValueOut(tx);
      if nTxFee < MinFee(P, tx) { return false, mapTestPool; }
      if !MoneyRange(nTxFee) { return false, mapTestPool; }
    }
  }

  // ----- whole blocks -------------------------------------------------------------------------

  lemma {:induction false} SigOpsGrow(P: Consensus, disk: Disk, db: TxIndexMap, ctx: BlockContext, vtx: seq<CTransaction>, k: nat, n: nat)
    requires k <= n <= |vtx|
    ensures BlockSigOps(P, disk, db, ctx, vtx, k) <= BlockSigOps(P, disk, db, ctx, vtx, n)
    decreases n
  {
    hide SigOps, ConnectTxs;
    if k < n { SigOpsGrow(P, disk, db, ctx, vtx, k, n - 1); }
  }

  /** A block whose first `k` transactions do not pass is not accepted. */
  lemma PrefixConnects(P: Consensus, disk: Disk, db: TxIndexMap, ctx: BlockContext, fs: bool, vtx: seq<CTransaction>, k: nat)
    requires k <= |vtx| && TxsConnect(P, disk, db, ctx, fs, vtx, |vtx|)
    ensures TxsConnect(P, disk, db, ctx, fs, vtx, k)
  {
    hide TxConnects, Overwritable, ConnectTxs, BlockSigOps;
    SigOpsGrow(P, disk, db, ctx, vtx, k, |vtx|);
  }

  lemma NextTotals(P: Consensus, disk: Disk, db: TxIndexMap, ctx: BlockContext, vtx: seq<CTransaction>, k: nat)
    requires k < |vtx|
    ensures BlockTotals(P, disk, db, ctx, vtx, k + 1)
         == AddTx(BlockTotals(P, disk, db, ctx, vtx, k), vtx[k], ValueIn(disk, ConnectTxs(P, db, ctx, vtx, k), vtx[k]))
    ensures BlockSigOps(P, disk, db, ctx, vtx, k + 1)
         == BlockSigOps(P, disk, db, ctx, vtx, k) + SigOps(P, disk, ConnectTxs(P, db, ctx, vtx, k), vtx[k])
    ensures ConnectTxs(P, db, ctx, vtx, k + 1) == ConnectTx(P, ConnectTxs(P, db, ctx, vtx, k), vtx[k], TxPos(P, ctx, vtx, k))
  {
    hide SigOps, ValueIn, ConnectTx, AddTx;
  }

  lemma NextConnects(P: Consensus, disk: Disk, db: TxIndexMap, ctx: BlockContext, fs: bool, vtx: seq<CTransaction>, k: nat)
    requires k < |vtx| && TxsConnect(P, disk, db, ctx, fs, vtx, k)
    ensures TxsConnect(P, disk, db, ctx, fs, vtx, k + 1) <==>
      && Overwritable(db, P.hash(vtx[k]))
      && TxConnects(P, disk, db, ConnectTxs(P, db, ctx, vtx, k), ctx, fs, vtx[k])
      && BlockSigOps(P, disk, db, ctx, vtx, k + 1) <= MAX_BLOCK_SIGOPS
  {
    hide TxConnects, Overwritable, ConnectTxs, BlockSigOps;
  }

  lemma NoneConnected(P: Consensus, disk: Disk, db: TxIndexMap, ctx: BlockContext, fs: bool, vtx: seq<CTransaction>)
    ensures ConnectTxs(P, db, ctx, vtx, 0) == db && BlockTotals(P, disk, db, ctx, vtx, 0) == Totals(0, 0, 0)
    ensures BlockSigOps(P, disk, db, ctx, vtx, 0) == 0 && TxsConnect(P, disk, db, ctx, fs, vtx, 0)
  {
  }

  /** The duplicate-id rule against the database. */
  method IsOverwritable(txdb: CTxDB, hashTx: Hash256) returns (ok: bool)
    ensures ok == Overwritable(txdb.Current().txindex, hashTx)
  {
    if hashTx in txdb.Current().txindex {
      var vSpent := txdb.Current().txindex[hashTx].vSpent;
      for i := 0 to |vSpent|
        invariant forall k :: 0 <= k < i ==> !vSpent[k].NullPos?
      {
        if vSpent[i].NullPos? { return false; }
      }
    }
    return true;
  }

  /** The part of the loop body for a transaction that spends. */
  method ConnectSpender(P: Consensus, disk: Disk, txdb: CTxDB, mapQueued0: TxIndexMap, pos: CDiskTxPos,
      pindex: CBlockIndex, fScriptChecks: bool, nSigOps0: nat, t0: Totals, tx: CTransaction)
    returns (ok: bool, mapQueued: TxIndexMap, nSigOps: nat, t: Totals)
    requires WellLinked(pindex) && !pos.NullPos? && !tx.IsCoinBase()
    modifies txdb`failures
    ensures txdb.failures >= old(txdb.failures)
    ensures var dbv := txdb.Current().txindex; var view := dbv + mapQueued0;
      && (ok <==> txdb.failures == old(txdb.failures)
                  && TxConnects(P, disk, dbv, view, Context(pindex), fScriptChecks, tx)
                  && nSigOps0 + SigOps(P, disk, view, tx) - P.legacySigOps(tx) <= MAX_BLOCK_SIGOPS)
      && (ok ==> dbv + mapQueued == MarkAll(view, tx.vin, pos)
                 && nSigOps == nSigOps0 + SigOps(P, disk, view, tx) - P.legacySigOps(tx)
                 && t == AddTx(t0, tx, ValueIn(disk, view, tx)))
  {
    hide MarkAll, InputsConnect, AllAvailable, AllKnown, SumOut, Context;
    ghost var view := txdb.Current().txindex + mapQueued0;
    mapQueued, nSigOps, t := mapQueued0, nSigOps0, t0;
    var mapInputs, fInvalid;
    ok, mapInputs, fInvalid := FetchInputs(disk, txdb, mapQueued, tx);
    if !ok { return; }
    var prevouts := InputCoins(disk, view, tx, mapInputs);
    nSigOps := nSigOps + P.p2shSigOps(tx, prevouts);
    if nSigOps > MAX_BLOCK_SIGOPS { ok := false; return; }
    var nTxValueIn, nTxValueOut := SumOut(prevouts), ValueOut(tx);
    t := Totals(if tx.IsCoinStake() then t.nFees else t.nFees + nTxValueIn - nTxValueOut,
                t.nValueIn + nTxValueIn, t.nValueOut + nTxValueOut);
    ok, mapQueued := ConnectInputs(P, disk, txdb, mapInputs, mapQueued, pos, pindex, fScriptChecks, tx);
  }

  /** One turn of ConnectBlock's transaction loop. */
  method ConnectOne(P: Consensus, disk: Disk, txdb: CTxDB, mapQueued0: TxIndexMap, pos: CDiskTxPos,
      pindex: CBlockIndex, fScriptChecks: bool, nSigOps0: nat, t0: Totals, tx: CTransaction)
    returns (ok: bool, mapQueued: TxIndexMap, nSigOps: nat, t: Totals)
    requires WellLinked(pindex) && !pos.NullPos?
    modifies txdb`failures
    ensures txdb.failures >= old(txdb.failures)
    ensures var dbv := txdb.Current().txindex; var view := dbv + mapQueued0;
      && (ok <==> txdb.failures == old(txdb.failures)
                  && Overwritable(dbv, P.hash(tx)) && TxConnects(P, disk, dbv, view, Context(pindex), fScriptChecks, tx)
                  && nSigOps0 + SigOps(P, disk, view, tx) <= MAX_BLOCK_SIGOPS)
      && (ok ==> dbv + mapQueued == ConnectTx(P, view, tx, pos)
                 && nSigOps == nSigOps0 + SigOps(P, disk, view, tx)
                 && t == AddTx(t0, tx, ValueIn(disk, view, tx)))
  {
    hide Overwritable, MarkAll, InputsConnect, AllAvailable, SumOut, Context, ValueIn;
    ghost var view := txdb.Current().txindex + mapQueued0;
    mapQueued, nSigOps, t := mapQueued0, nSigOps0, t0;
    var hashTx := P.hash(tx);
    ok := IsOverwritable(txdb, hashTx);
    if !ok { return; }
    nSigOps := nSigOps + P.legacySigOps(tx);
    if nSigOps > MAX_BLOCK_SIGOPS { ok := false; return; }
    if tx.IsCoinBase() {
      t := t.(nValueOut := t.nValueOut + ValueOut(tx));
    } else {
      ok, mapQueued, nSigOps, t := ConnectSpender(P, disk, txdb, mapQueued, pos, pindex, fScriptChecks, nSigOps, t, tx);
      if !ok { return; }
    }
    mapQueued := mapQueued[hashTx := NewIndex(pos, tx)];
  }

  /** GetOutputFor on every input; its two exceptions cannot occur after FetchInputs. */
  method InputCoins(disk: Disk, ghost view: TxIndexMap, tx: CTransaction, inputs: MapPrevTx) returns (outs: seq<CTxOut>)
    requires Fetched(disk, view, tx, inputs)
    ensures AllAvailable(disk, view, tx.vin) && outs == PrevOuts(disk, view, tx.vin)
  {
    outs := [];
    for i := 0 to |tx.vin|
      invariant outs == PrevOuts(disk, view, tx.vin)[..i]
    {
      assert Available(disk, view, tx.vin[i].prevout);
      outs := outs + [inputs[tx.vin[i].prevout.hash].1.vout[tx.vin[i].prevout.n]];
    }
  }

  /** ConnectBlock's transaction loop. */
  method ConnectTransactions(P: Consensus, disk: Disk, txdb: CTxDB, pindex: CBlockIndex, fScriptChecks: bool)
    returns (ok: bool, mapQueued: TxIndexMap, t: Totals)
    requires WellLinked(pindex)
    modifies txdb`failures
    ensures txdb.failures >= old(txdb.failures)
    ensures var dbv, ctx, vtx := txdb.Current().txindex, Context(pindex), pindex.block.vtx;
      && (ok <==> txdb.failures == old(txdb.failures) && TxsConnect(P, disk, dbv, ctx, fScriptChecks, vtx, |vtx|))
      && (ok ==> dbv + mapQueued == ConnectTxs(P, dbv, ctx, vtx, |vtx|)
                 && t == BlockTotals(P, disk, dbv, ctx, vtx, |vtx|))
  {
    hide TxsConnect, TxConnects, Overwritable, ConnectTx, ConnectTxs, BlockSigOps, BlockTotals, SigOps, AddTx, ValueIn, Recent;
    var vtx := pindex.block.vtx;
    ghost var dbv, ctx := txdb.Current().txindex, Context(pindex);
    var nTxPos := pindex.nBlockPos + 80 + CompactSize(|vtx|);
    var nSigOps := 0;
    mapQueued, t := map[], Totals(0, 0, 0);
    assert dbv + map[] == dbv;
    NoneConnected(P, disk, dbv, ctx, fScriptChecks, vtx);
    for i := 0 to |vtx|
      invariant nTxPos == TxOffset(P, ctx, vtx, i) && txdb.failures == old(txdb.failures)
      invariant dbv + mapQueued == ConnectTxs(P, dbv, ctx, vtx, i)
      invariant t == BlockTotals(P, disk, dbv, ctx, vtx, i)
      invariant nSigOps == BlockSigOps(P, disk, dbv, ctx, vtx, i)
      invariant TxsConnect(P, disk, dbv, ctx, fScriptChecks, vtx, i)
    {
      NextTotals(P, disk, dbv, ctx, vtx, i);
      NextConnects(P, disk, dbv, ctx, fScriptChecks, vtx, i);
      ok, mapQueued, nSigOps, t :=
        ConnectOne(P, disk, txdb, mapQueued, DiskTxPos(pindex.nFile, pindex.nBlockPos, nTxPos), pindex, fScriptChecks, nSigOps, t, vtx[i]);
      if !ok {
        if TxsConnect(P, disk, dbv, ctx, fScriptChecks, vtx, |vtx|) {
          PrefixConnects(P, disk, dbv, ctx, fScriptChecks, vtx, i + 1);
        }
        return;
      }
      nTxPos := nTxPos + P.size(vtx[i]);
    }
    ok := true;
  }

  /** Write the queued records, in any order. */
  method WriteQueued(txdb: CTxDB, mapQueued: TxIndexMap) returns (ok: bool)
    requires txdb.activeTxn.Some?
    modifies txdb
    ensures txdb.committed == old(txdb.committed) && txdb.activeTxn.Some?
    ensures txdb.failures >= old(txdb.failures) && (ok <==> txdb.failures == old(txdb.failures))
    ensures ok ==>
      txdb.activeTxn.value == old(txdb.activeTxn.value).(txindex := old(txdb.activeTxn.value).txindex + mapQueued)
  {
    var todo := mapQueued.Keys;
    ghost var s := txdb.activeTxn.value;
    while todo != {}
      invariant todo <= mapQueued.Keys
      invariant txdb.committed == old(txdb.committed) && txdb.activeTxn.Some?
      invariant txdb.activeTxn.value == s.(txindex := s.txindex + (mapQueued - todo))
      invariant txdb.failures == old(txdb.failures)
      decreases todo
    {
      var h :| h in todo;
      ok := txdb.UpdateTxIndex(h, mapQueued[h]);
      if !ok { return; }
      assert s.txindex + (mapQueued - (todo - {h})) == (s.txindex + (mapQueued - todo))[h := mapQueued[h]];
      todo := todo - {h};
    }
    assert mapQueued - {} == mapQueued;
    ok := true;
  }

  function DiskRecord(p: CBlockIndex, hashNext: Hash256): CDiskBlockIndex
    reads p
  {
    CDiskBlockIndex(if p.pprev == null then 0 else p.pprev.hash, hashNext, p.nMint, p.nMoneySupply)
  }

  function NextHash(p: CBlockIndex): Hash256
    reads p
  {
    if p.pnext == null then 0 else p.pnext.hash
  }

  /** The block index records ConnectBlock leaves: the block's own, and its parent pointing to it. */
  function ConnectedRecords(records: map<Hash256, CDiskBlockIndex>, pindex: CBlockIndex): map<Hash256, CDiskBlockIndex>
    reads pindex, pindex.pprev
  {
    var own := records[pindex.hash := DiskRecord(pindex, NextHash(pindex))];
    if pindex.pprev == null then own else own[pindex.pprev.hash := DiskRecord(pindex.pprev, pindex.hash)]
  }

  /** ConnectBlock succeeds exactly on blocks that connect, unless the database fails. */
  method ConnectBlock(P: Consensus, disk: Disk, txdb: CTxDB, pindex: CBlockIndex, fScriptChecks: bool)
    returns (ok: bool)
    requires WellLinked(pindex) && txdb.activeTxn.Some?
    modifies txdb, pindex`nMint, pindex`nMoneySupply
    ensures txdb.committed == old(txdb.committed) && txdb.activeTxn.Some?
    ensures txdb.failures >= old(txdb.failures)
    ensures ok <==> (txdb.failures == old(txdb.failures)
      && BlockConnects(P, disk, old(txdb.activeTxn.value).txindex, Context(pindex), fScriptChecks, pindex.block))
    ensures ok ==>
      var s, ctx, b := old(txdb.activeTxn.value), Context(pindex), pindex.block;
      var t := BlockTotals(P, disk, s.txindex, ctx, b.vtx, |b.vtx|);
      && pindex.nMint == t.nValueOut - t.nValueIn + t.nFees
      && pindex.nMoneySupply == (if pindex.pprev == null then 0 else pindex.pprev.nMoneySupply) + t.nValueOut - t.nValueIn
      && txdb.activeTxn.value == s.(txindex := ConnectBlockIndex(P, s.txindex, ctx, b),
                                    blockindex := ConnectedRecords(s.blockindex, pindex))
  {
    hide CheckBlock, TxsConnect, BlockTotals, ConnectTxs, Recent;
    if !CheckBlock(P, pindex.block) { return false; }
    var mapQueued, t;
    ok, mapQueued, t := ConnectTransactions(P, disk, txdb, pindex, fScriptChecks);
    if !ok { return; }
    pindex.nMint := t.nValueOut - t.nValueIn + t.nFees;
    pindex.nMoneySupply := (if pindex.pprev == null then 0 else pindex.pprev.nMoneySupply) + t.nValueOut - t.nValueIn;
    ok := txdb.WriteBlockIndex(pindex.hash, DiskRecord(pindex, NextHash(pindex)));
    if !ok { return; }
    ok := WriteQueued(txdb, mapQueued);
    if !ok { return; }
    if pindex.pprev != null {
      assert pindex.block.vtx != [] by { CheckedNonEmpty(P, pindex.block); }
      if ValueOut(pindex.block.vtx[0]) > Subsidy(pindex.nHeight) + t.nFees { return false; }
      ok := txdb.WriteBlockIndex(pindex.pprev.hash, DiskRecord(pindex.pprev, pindex.hash));
    }
  }

  lemma CheckedNonEmpty(P: Consensus, b: CBlock)
    requires CheckBlock(P, b)
    ensures b.vtx != []
  {
  }

  /** DisconnectInputs: free the outputs, erase the transaction. */
  method DisconnectInputs(P: Consensus, txdb: CTxDB, tx: CTransaction) returns (ok: bool)
    requires txdb.activeTxn.Some?
    modifies txdb
    ensures txdb.committed == old(txdb.committed) && txdb.activeTxn.Some?
    ensures txdb.failures >= old(txdb.failures)
    ensures ok <==> txdb.failures == old(txdb.failures) && TxDisconnects(old(txdb.activeTxn.value).txindex, tx)
    ensures ok ==>
      txdb.activeTxn.value == old(txdb.activeTxn.value).(txindex := DisconnectTx(P, old(txdb.activeTxn.value).txindex, tx))
  {
    ghost var s := txdb.activeTxn.value;
    if !tx.IsCoinBase() {
      MarkNone(s.txindex, tx.vin[..0], NullPos);
      for i := 0 to |tx.vin|
        invariant txdb.committed == old(txdb.committed) && txdb.activeTxn.Some?
        invariant txdb.activeTxn.value == s.(txindex := MarkAll(s.txindex, tx.vin[..i], NullPos))
        invariant forall k :: 0 <= k < i ==> HasSlot(s.txindex, tx.vin[k].prevout)
        invariant txdb.failures == old(txdb.failures)
      {
        var prevout := tx.vin[i].prevout;
        SlotKept(s.txindex, tx.vin[..i], NullPos, prevout);
        MarkLast(s.txindex, tx.vin, NullPos, i);
        if prevout.hash !in txdb.Current().txindex { return false; }
        var txindex := txdb.Current().txindex[prevout.hash];
        if prevout.n >= |txindex.vSpent| { return false; }
        txindex := CTxIndex(txindex.pos, txindex.vSpent[prevout.n := NullPos]);
        ok := txdb.UpdateTxIndex(prevout.hash, txindex);
        if !ok { return; }
      }
      assert tx.vin[..|tx.vin|] == tx.vin;
    }
    txdb.EraseTxIndex(P.hash(tx));
    ok := true;
  }

  lemma SlotKept(view: TxIndexMap, vin: seq<CTxIn>, pos: CDiskTxPos, o: COutPoint)
    ensures HasSlot(MarkAll(view, vin, pos), o) <==> HasSlot(view, o)
  {
    MarkAllKeys(view, vin, pos);
    if o.hash in view { MarkAllAt(view, vin, pos, o.hash); }
  }

  function DisconnectedRecords(records: map<Hash256, CDiskBlockIndex>, pindex: CBlockIndex): map<Hash256, CDiskBlockIndex>
    reads pindex.pprev
  {
    if pindex.pprev == null then records else records[pindex.pprev.hash := DiskRecord(pindex.pprev, 0)]
  }

  /** DisconnectBlock: transactions last to first, then the parent's record loses its successor. */
  method DisconnectBlock(P: Consensus, txdb: CTxDB, pindex: CBlockIndex) returns (ok: bool)
    requires txdb.activeTxn.Some?
    modifies txdb
    ensures txdb.committed == old(txdb.committed) && txdb.activeTxn.Some?
    ensures txdb.failures >= old(txdb.failures)
    ensures ok <==> txdb.failures == old(txdb.failures) && BlockDisconnects(P, old(txdb.activeTxn.value).txindex, pindex.block)
    ensures ok ==>
      var s := old(txdb.activeTxn.value);
      txdb.activeTxn.value == s.(txindex := DisconnectBlockIndex(P, s.txindex, pindex.block),
                                 blockindex := DisconnectedRecords(s.blockindex, pindex))
  {
    hide TxDisconnects, DisconnectTx;
    var vtx := pindex.block.vtx;
    ghost var s := txdb.activeTxn.value;
    var i := |vtx|;
    while i > 0
      invariant 0 <= i <= |vtx| && txdb.failures == old(txdb.failures)
      invariant txdb.committed == old(txdb.committed) && txdb.activeTxn.Some?
      invariant txdb.activeTxn.value == s.(txindex := DisconnectTxs(P, s.txindex, vtx, i))
      invariant TxsDisconnect(P, s.txindex, vtx, i)
    {
      i := i - 1;
      ok := DisconnectInputs(P, txdb, vtx[i]);
      if !ok { return; }
    }
    if pindex.pprev != null {
      ok := txdb.WriteBlockIndex(pindex.pprev.hash, DiskRecord(pindex.pprev, 0));
      if !ok { return; }
    }
    ok := true;
  }
}
