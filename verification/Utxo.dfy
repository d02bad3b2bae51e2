/**
 The reference model: a chain denotes a set of unspent coins, obtained by replaying its
 transactions one after the other. No spent flags, no positions, no database.
 */
module Utxo {
  import opened Transactions

  type Coins = map<COutPoint, CTxOut>

  function Prevouts(vin: seq<CTxIn>): set<COutPoint> { set i | 0 <= i < |vin| :: vin[i].prevout }

  /** The outpoints a transaction consumes. */
  function Consumes(tx: CTransaction): set<COutPoint> { if tx.IsCoinBase() then {} else Prevouts(tx.vin) }

  /** Output `n` becomes the coin named by the transaction's id and `n`. */
  function OutCoins(h: Hash256, vout: seq<CTxOut>): (r: Coins)
    ensures forall o :: o in r <==> o.hash == h && o.n < |vout|
    ensures forall o :: o in r ==> r[o] == vout[o.n]
  {
    if vout == [] then map[]
    else OutCoins(h, vout[..|vout|-1])[COutPoint(h, |vout|-1) := vout[|vout|-1]]
  }

  function Creates(P: Consensus, tx: CTransaction): Coins { OutCoins(P.hash(tx), tx.vout) }

  function ApplyTx(P: Consensus, u: Coins, tx: CTransaction): Coins { (u - Consumes(tx)) + Creates(P, tx) }

  function ApplyTxs(P: Consensus, u: Coins, txs: seq<CTransaction>): Coins {
    if txs == [] then u else ApplyTx(P, ApplyTxs(P, u, txs[..|txs|-1]), txs[|txs|-1])
  }

  function AllTxs(chain: seq<CBlock>): seq<CTransaction> {
    if chain == [] then [] else AllTxs(chain[..|chain|-1]) + chain[|chain|-1].vtx
  }

  /** The coins a chain leaves unspent. */
  function UtxoOf(P: Consensus, chain: seq<CBlock>): Coins { ApplyTxs(P, map[], AllTxs(chain)) }

  ghost function Total(u: Coins): int {
    if u == map[] then 0
    else
      var o :| o in u;
      Total(u - {o}) + u[o].nValue
  }

  /** Every input a transaction names is there to be consumed. */
  ghost predicate SpendsExist(P: Consensus, txs: seq<CTransaction>) {
    forall k :: 0 <= k < |txs| ==> Consumes(txs[k]) <= ApplyTxs(P, map[], txs[..k]).Keys
  }

  lemma {:induction false} ApplyTxsConcat(P: Consensus, u: Coins, a: seq<CTransaction>, b: seq<CTransaction>)
    ensures ApplyTxs(P, u, a + b) == ApplyTxs(P, ApplyTxs(P, u, a), b)
    decreases |b|
  {
    hide Consumes, Creates;
    if b == [] {
      assert a + b == a;
    } else {
      assert (a + b)[..|a + b| - 1] == a + b[..|b| - 1];
      ApplyTxsConcat(P, u, a, b[..|b| - 1]);
    }
  }

  lemma {:induction false} TotalRemove(u: Coins, o: COutPoint)
    requires o in u
    ensures Total(u) == Total(u - {o}) + u[o].nValue
    decreases |u|
  {
    var p :| p in u && Total(u) == Total(u - {p}) + u[p].nValue;
    if p != o {
      TotalRemove(u - {p}, o);
      TotalRemove(u - {o}, p);
      assert u - {p} - {o} == u - {o} - {p};
    }
  }

  lemma TotalAdd(u: Coins, o: COutPoint, c: CTxOut)
    requires o !in u
    ensures Total(u[o := c]) == Total(u) + c.nValue
  {
    TotalRemove(u[o := c], o);
    assert u[o := c] - {o} == u;
  }

  /** Removing the inputs of a transaction lowers the total by their value. */
  lemma {:induction false} TotalSpend(u: Coins, vin: seq<CTxIn>, outs: seq<CTxOut>)
    requires |outs| == |vin| && DistinctInputs(vin)
    requires forall i :: 0 <= i < |vin| ==> vin[i].prevout in u && u[vin[i].prevout] == outs[i]
    ensures Total(u - Prevouts(vin)) == Total(u) - SumOut(outs)
    decreases |vin|
  {
    if vin == [] {
      assert u - Prevouts(vin) == u;
    } else {
      var m := |vin| - 1;
      var o := vin[m].prevout;
      TotalSpend(u, vin[..m], outs[..m]);
      assert o !in Prevouts(vin[..m]);
      TotalRemove(u - Prevouts(vin[..m]), o);
      assert u - Prevouts(vin) == u - Prevouts(vin[..m]) - {o};
    }
  }

  lemma PlusUpdate(u: Coins, v: Coins, o: COutPoint, c: CTxOut)
    ensures u + v[o := c] == (u + v)[o := c]
  {
  }

  lemma {:induction false} TotalCreate(u: Coins, h: Hash256, vout: seq<CTxOut>)
    requires forall o :: o in u ==> o.hash != h
    ensures Total(u + OutCoins(h, vout)) == Total(u) + SumOut(vout)
    decreases |vout|
  {
    if vout == [] {
      assert u + OutCoins(h, vout) == u;
    } else {
      var m, o := |vout| - 1, COutPoint(h, |vout| - 1);
      var before := OutCoins(h, vout[..m]);
      TotalCreate(u, h, vout[..m]);
      assert o !in u + before;
      TotalAdd(u + before, o, vout[m]);
      PlusUpdate(u, before, o, vout[m]);
    }
  }

  /** Value moves from inputs to outputs: what a transaction does to the total. */
  lemma TotalApplyTx(P: Consensus, u: Coins, tx: CTransaction, outs: seq<CTxOut>)
    requires tx.IsCoinBase() ==> outs == []
    requires !tx.IsCoinBase() ==>
      && |outs| == |tx.vin| && DistinctInputs(tx.vin)
      && forall i :: 0 <= i < |tx.vin| ==> tx.vin[i].prevout in u && u[tx.vin[i].prevout] == outs[i]
    requires forall o :: o in u ==> o.hash != P.hash(tx)
    ensures Total(ApplyTx(P, u, tx)) == Total(u) - SumOut(outs) + ValueOut(tx)
  {
    var v := u - Consumes(tx);
    if tx.IsCoinBase() {
      assert v == u;
    } else {
      TotalSpend(u, tx.vin, outs);
    }
    assert forall o :: o in v ==> o in u;
    TotalCreate(v, P.hash(tx), tx.vout);
  }

  /** A consumed outpoint stays gone until a transaction with its id is connected again. */
  lemma {:induction false} StaysSpent(P: Consensus, txs: seq<CTransaction>, i: nat, j: nat, o: COutPoint)
    requires i < j <= |txs| && o in Consumes(txs[i])
    requires forall k :: i <= k < j ==> P.hash(txs[k]) != o.hash
    ensures o !in ApplyTxs(P, map[], txs[..j])
    decreases j
  {
    var m := j - 1;
    assert txs[..j][..m] == txs[..m];
    if m > i { StaysSpent(P, txs, i, m, o); }
  }

  /** Two transactions consume the same outpoint only if, from the first one on and before the
      second, some transaction with the outpoint's id was connected again. */
  lemma NoDoubleSpend(P: Consensus, txs: seq<CTransaction>, i: nat, j: nat, o: COutPoint)
    requires SpendsExist(P, txs)
    requires i < j < |txs| && o in Consumes(txs[i]) && o in Consumes(txs[j])
    ensures exists k :: i <= k < j && P.hash(txs[k]) == o.hash
  {
    if forall k :: i <= k < j ==> P.hash(txs[k]) != o.hash {
      StaysSpent(P, txs, i, j, o);
      assert false;
    }
  }

  lemma {:induction false} CoinHasCreator(P: Consensus, txs: seq<CTransaction>, o: COutPoint) returns (k: nat)
    requires o in ApplyTxs(P, map[], txs)
    ensures k < |txs| && P.hash(txs[k]) == o.hash
    decreases |txs|
  {
    var m := |txs| - 1;
    if o in Creates(P, txs[m]) {
      k := m;
    } else {
      k := CoinHasCreator(P, txs[..m], o);
    }
  }

  /** When no transaction id is ever reused, every outpoint is consumed at most once. */
  lemma NoDoubleSpendFreshIds(P: Consensus, txs: seq<CTransaction>, i: nat, j: nat, o: COutPoint)
    requires SpendsExist(P, txs)
    requires forall a, b :: 0 <= a < b < |txs| ==> P.hash(txs[a]) != P.hash(txs[b])
    requires i < j < |txs| && o in Consumes(txs[i])
    ensures o !in Consumes(txs[j])
  {
    if o in Consumes(txs[j]) {
      NoDoubleSpend(P, txs, i, j, o);
      var k :| i <= k < j && P.hash(txs[k]) == o.hash;
      var c := CoinHasCreator(P, txs[..i], o);
    }
  }
}
