/**
 Pointwise facts about the transaction index and how it represents coins: one lemma per
 index operation of `Ledger`.
 */
module LedgerFacts {
  import opened Transactions
  import opened Ledger
  import opened Utxo

  /** An output as read from disk; `(-1, [])` is CTxOut's null value. */
  function OutAt(disk: Disk, pos: CDiskTxPos, n: nat): CTxOut {
    if pos in disk && n < |disk[pos].vout| then disk[pos].vout[n] else CTxOut(-1, [])
  }

  /** The coins an index represents: the outputs whose spent slot is null. */
  function CoinsOf(disk: Disk, db: TxIndexMap): (u: Coins)
    ensures forall o :: o in u <==> Unspent(db, o)
    ensures forall o :: o in u ==> o.hash in db && u[o] == OutAt(disk, db[o.hash].pos, o.n)
  {
    map h, n | h in db && 0 <= n < |db[h].vSpent| && db[h].vSpent[n].NullPos? ::
      COutPoint(h, n) := OutAt(disk, db[h].pos, n)
  }

  /** A count below 253 is one byte; else a marker byte is followed by the fewest of 2, 4 or 8 bytes that
      hold it. */
  lemma CompactSizeFits(n: nat)
    ensures CompactSize(n) == 1 <==> n < 253
    ensures 253 <= n < 65536 ==> CompactSize(n) == 1 + 2
    ensures 65536 <= n < 65536 * 65536 ==> CompactSize(n) == 1 + 4
    ensures n >= 65536 * 65536 ==> CompactSize(n) == 1 + 8
  {
  }

  predicate Names(vin: seq<CTxIn>, o: COutPoint) { exists i :: 0 <= i < |vin| && vin[i].prevout == o }

  /** MarkAll, one slot at a time. */
  lemma {:induction false} MarkAllAt(db: TxIndexMap, vin: seq<CTxIn>, pos: CDiskTxPos, h: Hash256)
    requires h in db
    ensures MarkAll(db, vin, pos).Keys == db.Keys
    ensures var e := MarkAll(db, vin, pos)[h];
      && e.pos == db[h].pos && |e.vSpent| == |db[h].vSpent|
      && forall n :: 0 <= n < |e.vSpent| ==>
           e.vSpent[n] == if Names(vin, COutPoint(h, n)) then pos else db[h].vSpent[n]
    decreases |vin|
  {
    if vin != [] {
      var m := |vin| - 1;
      var before, after := MarkAll(db, vin[..m], pos), MarkAll(db, vin, pos);
      MarkAllAt(db, vin[..m], pos, h);
      assert after.Keys == before.Keys;
      forall n | 0 <= n < |after[h].vSpent|
        ensures after[h].vSpent[n] == if Names(vin, COutPoint(h, n)) then pos else db[h].vSpent[n]
      {
        var o := COutPoint(h, n);
        assert Names(vin, o) <==> Names(vin[..m], o) || vin[m].prevout == o by {
          if Names(vin[..m], o) { var i :| 0 <= i < m && vin[..m][i].prevout == o; assert vin[i].prevout == o; }
          if Names(vin, o) && vin[m].prevout != o {
            var i :| 0 <= i < |vin| && vin[i].prevout == o;
            assert vin[..m][i].prevout == o;
          }
        }
      }
    }
  }

  lemma MarkAllKeys(db: TxIndexMap, vin: seq<CTxIn>, pos: CDiskTxPos)
    ensures MarkAll(db, vin, pos).Keys == db.Keys
    decreases |vin|
  {
    if vin != [] { MarkAllKeys(db, vin[..|vin|-1], pos); }
  }

  /** The inputs are coins of the index, each named once. */
  predicate SpendsCoins(disk: Disk, db: TxIndexMap, tx: CTransaction) {
    tx.IsCoinBase() ||
      (AllAvailable(disk, db, tx.vin) && DistinctInputs(tx.vin)
       && forall i :: 0 <= i < |tx.vin| ==> Unspent(db, tx.vin[i].prevout))
  }

  lemma ConnectsSpendsCoins(P: Consensus, disk: Disk, db: TxIndexMap, view: TxIndexMap, ctx: BlockContext, fs: bool, tx: CTransaction)
    requires TxConnects(P, disk, db, view, ctx, fs, tx)
    ensures SpendsCoins(disk, view, tx)
  {
    if !tx.IsCoinBase() {
      forall i | 0 <= i < |tx.vin| ensures Unspent(view, tx.vin[i].prevout) {
        assert InputSpendable(P, disk, view, fs, tx, i);
      }
    }
  }

  /** Spending marks exactly the named coins. */
  lemma MarkedUnspent(db: TxIndexMap, vin: seq<CTxIn>, pos: CDiskTxPos, o: COutPoint)
    requires !pos.NullPos?
    ensures Unspent(MarkAll(db, vin, pos), o) <==> Unspent(db, o) && o !in Prevouts(vin)
  {
    MarkAllKeys(db, vin, pos);
    if o.hash in db {
      MarkAllAt(db, vin, pos, o.hash);
      assert COutPoint(o.hash, o.n) == o;
      assert Names(vin, o) <==> o in Prevouts(vin);
    }
  }

  /** Spending cannot make a spent-out record spendable. */
  lemma MarkedOverwritable(db: TxIndexMap, vin: seq<CTxIn>, pos: CDiskTxPos, h: Hash256)
    requires !pos.NullPos? && Overwritable(db, h)
    ensures Overwritable(MarkAll(db, vin, pos), h)
  {
    MarkAllKeys(db, vin, pos);
    if h in db { MarkAllAt(db, vin, pos, h); }
  }

  lemma ConnectTxUnspent(P: Consensus, disk: Disk, db: TxIndexMap, tx: CTransaction, pos: CDiskTxPos, o: COutPoint)
    requires !pos.NullPos? && Overwritable(db, P.hash(tx))
    ensures Unspent(ConnectTx(P, db, tx, pos), o) <==>
      (if o.hash == P.hash(tx) then o.n < |tx.vout| else Unspent(db, o) && o !in Consumes(tx))
  {
    MarkedUnspent(db, tx.vin, pos, o);
  }

  lemma ConnectTxPos(P: Consensus, db: TxIndexMap, tx: CTransaction, pos: CDiskTxPos, h: Hash256)
    requires h != P.hash(tx) && h in db
    ensures h in ConnectTx(P, db, tx, pos) && ConnectTx(P, db, tx, pos)[h].pos == db[h].pos
  {
    MarkAllAt(db, tx.vin, pos, h);
  }

  predicate AgreeAt(a: Coins, b: Coins, o: COutPoint) { (o in a <==> o in b) && (o in a ==> a[o] == b[o]) }

  lemma AgreeEverywhere(a: Coins, b: Coins)
    requires forall o :: AgreeAt(a, b, o)
    ensures a == b
  {
    forall o ensures o in a.Keys <==> o in b.Keys { assert AgreeAt(a, b, o); }
    assert a.Keys == b.Keys;
    forall o | o in a.Keys ensures a[o] == b[o] { assert AgreeAt(a, b, o); }
  }

  lemma ConnectTxCoin(P: Consensus, disk: Disk, db: TxIndexMap, tx: CTransaction, pos: CDiskTxPos, o: COutPoint)
    requires !pos.NullPos? && pos in disk && disk[pos] == tx && Overwritable(db, P.hash(tx))
    ensures AgreeAt(CoinsOf(disk, ConnectTx(P, db, tx, pos)), ApplyTx(P, CoinsOf(disk, db), tx), o)
  {
    var db' := ConnectTx(P, db, tx, pos);
    ConnectTxUnspent(P, disk, db, tx, pos, o);
    assert o in CoinsOf(disk, db') <==> Unspent(db', o);
    assert o in CoinsOf(disk, db) <==> Unspent(db, o);
    if o.hash != P.hash(tx) && o.hash in db {
      ConnectTxPos(P, db, tx, pos, o.hash);
    }
  }

  /** Refinement step: the index operation is the coin-set operation. */
  lemma ConnectTxCoins(P: Consensus, disk: Disk, db: TxIndexMap, tx: CTransaction, pos: CDiskTxPos)
    requires !pos.NullPos? && pos in disk && disk[pos] == tx && Overwritable(db, P.hash(tx))
    ensures CoinsOf(disk, ConnectTx(P, db, tx, pos)) == ApplyTx(P, CoinsOf(disk, db), tx)
  {
    var a, b := CoinsOf(disk, ConnectTx(P, db, tx, pos)), ApplyTx(P, CoinsOf(disk, db), tx);
    forall o ensures AgreeAt(a, b, o) {
      ConnectTxCoin(P, disk, db, tx, pos, o);
    }
    AgreeEverywhere(a, b);
  }

  /** No coin carries an overwritable id. */
  lemma OverwritableNoCoin(disk: Disk, db: TxIndexMap, h: Hash256)
    requires Overwritable(db, h)
    ensures forall o :: o in CoinsOf(disk, db) ==> o.hash != h
  {
  }

  /** The value the index reports for a transaction's inputs is the value of the coins. */
  lemma ValueInIsCoins(disk: Disk, db: TxIndexMap, tx: CTransaction)
    requires SpendsCoins(disk, db, tx) && !tx.IsCoinBase()
    ensures var outs := PrevOuts(disk, db, tx.vin);
      && ValueIn(disk, db, tx) == SumOut(outs) && |outs| == |tx.vin|
      && forall i :: 0 <= i < |tx.vin| ==>
           tx.vin[i].prevout in CoinsOf(disk, db) && CoinsOf(disk, db)[tx.vin[i].prevout] == outs[i]
  {
  }

  /** Conservation for one transaction. */
  lemma ConnectTxTotal(P: Consensus, disk: Disk, db: TxIndexMap, tx: CTransaction, pos: CDiskTxPos)
    requires !pos.NullPos? && pos in disk && disk[pos] == tx
    requires SpendsCoins(disk, db, tx) && Overwritable(db, P.hash(tx))
    ensures Total(CoinsOf(disk, ConnectTx(P, db, tx, pos)))
         == Total(CoinsOf(disk, db)) - ValueIn(disk, db, tx) + ValueOut(tx)
  {
    ConnectTxCoins(P, disk, db, tx, pos);
    OverwritableNoCoin(disk, db, P.hash(tx));
    if tx.IsCoinBase() {
      TotalApplyTx(P, CoinsOf(disk, db), tx, []);
    } else {
      ValueInIsCoins(disk, db, tx);
      TotalApplyTx(P, CoinsOf(disk, db), tx, PrevOuts(disk, db, tx.vin));
    }
  }

  // ----- refinement: an index that only lost spent-out records ------------------------------

  /** `e` agrees with `d` on every record it has, and lacks only spent-out ones. */
  predicate Refines(e: TxIndexMap, d: TxIndexMap) {
    && (forall h :: h in e ==> h in d && e[h] == d[h])
    && (forall h :: h in d && h !in e ==> Overwritable(d, h))
  }

  lemma RefinesSelf(d: TxIndexMap)
    ensures Refines(d, d)
  {
  }

  lemma RefinesCoins(disk: Disk, e: TxIndexMap, d: TxIndexMap)
    requires Refines(e, d)
    ensures CoinsOf(disk, e) == CoinsOf(disk, d)
  {
    assert forall o :: Unspent(e, o) <==> Unspent(d, o);
    assert CoinsOf(disk, e).Keys == CoinsOf(disk, d).Keys;
  }

  lemma RefinesOverwritable(e: TxIndexMap, d: TxIndexMap, h: Hash256)
    requires Refines(e, d)
    ensures Overwritable(e, h) <==> Overwritable(d, h)
  {
  }

  lemma RefinesSpends(disk: Disk, e: TxIndexMap, d: TxIndexMap, tx: CTransaction)
    requires Refines(e, d) && SpendsCoins(disk, e, tx)
    ensures SpendsCoins(disk, d, tx) && ValueIn(disk, e, tx) == ValueIn(disk, d, tx)
  {
    if !tx.IsCoinBase() {
      forall i | 0 <= i < |tx.vin|
        ensures Available(disk, d, tx.vin[i].prevout) && Unspent(d, tx.vin[i].prevout)
      {
        assert Available(disk, e, tx.vin[i].prevout);
      }
      assert PrevOuts(disk, e, tx.vin) == PrevOuts(disk, d, tx.vin);
    }
  }

  lemma RefinesMark(e: TxIndexMap, d: TxIndexMap, vin: seq<CTxIn>, pos: CDiskTxPos, h: Hash256)
    requires Refines(e, d) && !pos.NullPos?
    ensures h in MarkAll(e, vin, pos) ==> h in MarkAll(d, vin, pos) && MarkAll(e, vin, pos)[h] == MarkAll(d, vin, pos)[h]
    ensures h in MarkAll(d, vin, pos) && h !in MarkAll(e, vin, pos) ==> Overwritable(MarkAll(d, vin, pos), h)
  {
    MarkAllKeys(e, vin, pos);
    MarkAllKeys(d, vin, pos);
    if h in e {
      MarkAllAt(e, vin, pos, h);
      MarkAllAt(d, vin, pos, h);
      assert MarkAll(e, vin, pos)[h].vSpent == MarkAll(d, vin, pos)[h].vSpent;
    } else if h in d {
      MarkedOverwritable(d, vin, pos, h);
    }
  }

  lemma RefinesConnectTx(P: Consensus, e: TxIndexMap, d: TxIndexMap, tx: CTransaction, pos: CDiskTxPos)
    requires Refines(e, d) && !pos.NullPos?
    ensures Refines(ConnectTx(P, e, tx, pos), ConnectTx(P, d, tx, pos))
  {
    var e', d' := ConnectTx(P, e, tx, pos), ConnectTx(P, d, tx, pos);
    forall h
      ensures h in e' ==> h in d' && e'[h] == d'[h]
      ensures h in d' && h !in e' ==> Overwritable(d', h)
    {
      RefinesMark(e, d, tx.vin, pos, h);
    }
  }

  /** One record of the index after a connected transaction is disconnected again. */
  lemma DisconnectTxAt(P: Consensus, disk: Disk, e: TxIndexMap, d: TxIndexMap, tx: CTransaction, pos: CDiskTxPos, h: Hash256)
    requires !pos.NullPos?
    requires SpendsCoins(disk, d, tx) && Overwritable(d, P.hash(tx))
    requires Refines(e, ConnectTx(P, d, tx, pos)) && TxDisconnects(e, tx)
    ensures h in DisconnectTx(P, e, tx) <==> h in e && h != P.hash(tx)
    ensures h in DisconnectTx(P, e, tx) ==> h in d && DisconnectTx(P, e, tx)[h] == d[h]
    ensures h in d && h !in DisconnectTx(P, e, tx) ==> Overwritable(d, h)
  {
    MarkAllKeys(d, tx.vin, pos);
    MarkAllKeys(e, tx.vin, NullPos);
    if h == P.hash(tx) || h !in d {
    } else if tx.IsCoinBase() {
      assert ConnectTx(P, d, tx, pos)[h] == d[h];
      if h !in e { assert Overwritable(ConnectTx(P, d, tx, pos), h); }
    } else {
      MarkAllAt(d, tx.vin, pos, h);
      if h in e {
        DisconnectedRecord(P, d, e, tx, pos, h);
      } else {
        assert Overwritable(ConnectTx(P, d, tx, pos), h);
        forall n | 0 <= n < |d[h].vSpent| ensures !d[h].vSpent[n].NullPos? {
          assert Names(tx.vin, COutPoint(h, n)) ==> HasSlot(e, COutPoint(h, n));
        }
      }
    }
  }

  lemma DisconnectedRecord(P: Consensus, d: TxIndexMap, e: TxIndexMap, tx: CTransaction, pos: CDiskTxPos, h: Hash256)
    requires h != P.hash(tx) && !tx.IsCoinBase() && h in d && h in e
    requires h in MarkAll(d, tx.vin, pos) && e[h] == MarkAll(d, tx.vin, pos)[h]
    requires forall i :: 0 <= i < |tx.vin| ==> Unspent(d, tx.vin[i].prevout)
    ensures h in DisconnectTx(P, e, tx) && DisconnectTx(P, e, tx)[h] == d[h]
  {
    MarkAllAt(d, tx.vin, pos, h);
    MarkAllAt(e, tx.vin, NullPos, h);
    var r := DisconnectTx(P, e, tx)[h];
    forall n | 0 <= n < |d[h].vSpent|
      ensures r.vSpent[n] == d[h].vSpent[n]
    {
      if Names(tx.vin, COutPoint(h, n)) {
        var i :| 0 <= i < |tx.vin| && tx.vin[i].prevout == COutPoint(h, n);
        assert Unspent(d, tx.vin[i].prevout);
      }
    }
    assert r.vSpent == d[h].vSpent;
  }

  /** Disconnecting undoes connecting, up to spent-out records. */
  lemma DisconnectTxRefines(P: Consensus, disk: Disk, e: TxIndexMap, d: TxIndexMap, tx: CTransaction, pos: CDiskTxPos)
    requires !pos.NullPos?
    requires SpendsCoins(disk, d, tx) && Overwritable(d, P.hash(tx))
    requires Refines(e, ConnectTx(P, d, tx, pos)) && TxDisconnects(e, tx)
    ensures Refines(DisconnectTx(P, e, tx), d)
    ensures DisconnectTx(P, e, tx).Keys == e.Keys - {P.hash(tx)}
  {
    forall h
      ensures h in DisconnectTx(P, e, tx) <==> h in e && h != P.hash(tx)
      ensures h in DisconnectTx(P, e, tx) ==> h in d && DisconnectTx(P, e, tx)[h] == d[h]
      ensures h in d && h !in DisconnectTx(P, e, tx) ==> Overwritable(d, h)
    {
      DisconnectTxAt(P, disk, e, d, tx, pos, h);
    }
  }
}
