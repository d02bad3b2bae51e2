/**
 What the spender of a coin must have shown, told without the index: every input of a connected block
 names an output of an earlier transaction of the same chain, mature if it was mined, and its script
 was verified unless the block lies below the assumed-valid one (src/main.cpp:1421-1533).
 */
module Spends {
  import opened Transactions
  import opened Ledger
  import opened LedgerFacts
  import opened LedgerTheorems

  /** A transaction of a chain: which block, and which of its transactions. */
  datatype Place = Place(block: nat, tx: nat)

  predicate IsPlace(blocks: seq<CBlock>, at: Place) { at.block < |blocks| && at.tx < |blocks[at.block].vtx| }

  function TxAt(blocks: seq<CBlock>, at: Place): CTransaction
    requires IsPlace(blocks, at)
  {
    blocks[at.block].vtx[at.tx]
  }

  predicate HasOwn(blocks: seq<CBlock>, k: nat) { blocks != [] && k < |blocks[|blocks|-1].vtx| }

  /** Transaction `k` of the last block. */
  function Own(blocks: seq<CBlock>, k: nat): CTransaction
    requires HasOwn(blocks, k)
  {
    blocks[|blocks|-1].vtx[k]
  }

  /** Input `i` of transaction `k` of the last block spends an output of the transaction at `at`. */
  predicate SpendsFrom(P: Consensus, blocks: seq<CBlock>, k: nat, i: nat, at: Place, fChecked: bool)
    requires HasOwn(blocks, k) && i < |Own(blocks, k).vin|
  {
    var tx := Own(blocks, k);
    var o := tx.vin[i].prevout;
    && IsPlace(blocks, at) && (at.block == |blocks| - 1 ==> at.tx < k)
    && var prev := TxAt(blocks, at);
       && P.hash(prev) == o.hash && o.n < |prev.vout| && prev.nTime <= tx.nTime
       && (prev.IsCoinBase() || prev.IsCoinStake() ==> at.block + COINBASE_MATURITY < |blocks|)
       && (fChecked || tx.IsCoinStake() ==> P.verifyScript(prev, tx, i))
  }

  /** The outputs the inputs of a transaction spend. */
  function Spent(blocks: seq<CBlock>, tx: CTransaction, from: seq<Place>): seq<CTxOut>
    requires |from| == |tx.vin|
    requires forall i :: 0 <= i < |from| ==> IsPlace(blocks, from[i]) && tx.vin[i].prevout.n < |TxAt(blocks, from[i]).vout|
  {
    seq(|from|, i requires 0 <= i < |from| => TxAt(blocks, from[i]).vout[tx.vin[i].prevout.n])
  }

  ghost predicate Sources(P: Consensus, blocks: seq<CBlock>, k: nat, from: seq<Place>, fChecked: bool)
    requires HasOwn(blocks, k)
  {
    var tx := Own(blocks, k);
    && |from| == |tx.vin|
    && (forall i :: 0 <= i < |from| ==> SpendsFrom(P, blocks, k, i, from[i], fChecked))
    && (!tx.IsCoinStake() ==> SumOut(Spent(blocks, tx, from)) >= ValueOut(tx) + (1 + P.size(tx) / 1000) * MIN_TX_FEE)
  }

  /** All inputs are accounted for, and unless it is a coinstake the transaction pays its fee. */
  ghost predicate TxLawful(P: Consensus, blocks: seq<CBlock>, k: nat, fChecked: bool)
    requires HasOwn(blocks, k)
  {
    !Own(blocks, k).IsCoinBase() ==> exists from: seq<Place> :: Sources(P, blocks, k, from, fChecked)
  }

  /** A transaction that can stand in a chain: it has inputs, all different, and outputs of at least a
      hundred units, or of nothing if it is mined, that are worth no more than all money; the script of
      a coinbase has 2 to 100 elements. */
  predicate TxProper(P: Consensus, tx: CTransaction) {
    && tx.vin != [] && tx.vout != [] && P.size(tx) <= 1_000_000
    && (forall i :: 0 <= i < |tx.vout| ==>
          || 100 <= tx.vout[i].nValue <= 156_000_000_000_000
          || (tx.vout[i] == CTxOut(0, []) && (tx.IsCoinBase() || tx.IsCoinStake())))
    && (forall i :: 0 <= i <= |tx.vout| ==> 0 <= SumOut(tx.vout[..i]) <= 156_000_000_000_000)
    && (forall i, j :: 0 <= i < j < |tx.vin| ==> tx.vin[i].prevout != tx.vin[j].prevout)
    && (forall i :: 0 <= i < |tx.vin| && tx.vin[i].prevout == COutPoint(0, 0xffff_ffff) ==> i == 0 && tx.IsCoinBase())
    && (tx.IsCoinBase() ==> 2 <= |tx.vin[0].scriptSig| <= 100)
  }

  /** A block that can stand in a chain: proper transactions with different ids, a coinbase first and
      nowhere else, a coinstake at most second and then with an empty coinbase. */
  predicate BlockProper(P: Consensus, b: CBlock) {
    && b.vtx != [] && (forall k :: 0 <= k < |b.vtx| ==> TxProper(P, b.vtx[k]) && (b.vtx[k].IsCoinBase() <==> k == 0))
    && (forall k :: 0 <= k < |b.vtx| && b.vtx[k].IsCoinStake() ==> k == 1 && b.vtx[0].vout == [CTxOut(0, [])])
    && (forall j, k :: 0 <= j < k < |b.vtx| ==> P.hash(b.vtx[j]) != P.hash(b.vtx[k]))
  }

  /** The last of some blocks is proper and spends lawfully. */
  ghost predicate BlockLawful(P: Consensus, blocks: seq<CBlock>, fChecked: bool) {
    && blocks != [] && BlockProper(P, blocks[|blocks|-1])
    && forall k :: 0 <= k < |blocks[|blocks|-1].vtx| ==> TxLawful(P, blocks, k, fChecked)
  }

  lemma LessChecked(P: Consensus, blocks: seq<CBlock>, fChecked: bool)
    requires BlockLawful(P, blocks, true)
    ensures BlockLawful(P, blocks, fChecked)
  {
    hide SpendsFrom, SumOut, BlockProper;
    forall k | 0 <= k < |blocks[|blocks|-1].vtx| ensures TxLawful(P, blocks, k, fChecked) {
      assert TxLawful(P, blocks, k, true);
      if !Own(blocks, k).IsCoinBase() {
        var from :| Sources(P, blocks, k, from, true);
        forall i | 0 <= i < |from| ensures SpendsFrom(P, blocks, k, i, from[i], fChecked) { WeakerSpend(P, blocks, k, i, from[i], fChecked); }
        assert Sources(P, blocks, k, from, fChecked);
      }
    }
  }

  lemma WeakerSpend(P: Consensus, blocks: seq<CBlock>, k: nat, i: nat, at: Place, fChecked: bool)
    requires HasOwn(blocks, k) && i < |Own(blocks, k).vin| && SpendsFrom(P, blocks, k, i, at, true)
    ensures SpendsFrom(P, blocks, k, i, at, fChecked)
  {
  }

  // ----- where the index has its records from ---------------------------------------------------------

  /** The record of `h` at `pos` was made for the transaction at `at`, one of the first `k` of its
      block if that is the last. */
  predicate MadeAt(P: Consensus, chain: seq<Link>, k: nat, h: Hash256, pos: CDiskTxPos, at: Place) {
    && at.block < |chain| && at.tx < |chain[at.block].block.vtx| && (at.block == |chain| - 1 ==> at.tx < k)
    && pos == TxPos(P, chain[at.block].ctx, chain[at.block].block.vtx, at.tx)
    && P.hash(chain[at.block].block.vtx[at.tx]) == h
  }

  lemma {:induction false} RecordMade(P: Consensus, before: seq<Link>, last: Link, k: nat, h: Hash256) returns (at: Place)
    requires k <= |last.block.vtx|
    requires h in ConnectTxs(P, Replay(P, before), last.ctx, last.block.vtx, k)
    ensures MadeAt(P, before + [last], k, h, ConnectTxs(P, Replay(P, before), last.ctx, last.block.vtx, k)[h].pos, at)
    decreases |before|, k
  {
    hide TxOffset, MarkAll;
    var vtx := last.block.vtx;
    if k > 0 {
      var view, pos := ConnectTxs(P, Replay(P, before), last.ctx, vtx, k - 1), TxPos(P, last.ctx, vtx, k - 1);
      if h == P.hash(vtx[k - 1]) {
        at := Place(|before|, k - 1);
      } else {
        MarkAllKeys(view, vtx[k - 1].vin, pos);
        ConnectTxPos(P, view, vtx[k - 1], pos, h);
        at := RecordMade(P, before, last, k - 1, h);
      }
    } else {
      var front, tip := before[..|before|-1], before[|before|-1];
      at := RecordMade(P, front, tip, |tip.block.vtx|, h);
      assert front + [tip] == before;
    }
  }

  lemma {:induction false} LinkOnDisk(P: Consensus, disk: Disk, chain: seq<Link>, n: nat)
    requires ChainValid(P, disk, chain) && n < |chain|
    ensures OnDisk(P, disk, chain[n].ctx, chain[n].block)
    decreases |chain|
  {
    hide BlockSpends, OnDisk, Replay, SupplyChange;
    if n < |chain| - 1 { LinkOnDisk(P, disk, chain[..|chain|-1], n); }
  }

  /** The block's context names the positions of the blocks below it, nearest first. */
  predicate RecentOf(ctx: BlockContext, chain: seq<Link>) {
    && |ctx.recent| > |chain| && ctx.recent[0] == (ctx.nFile, ctx.nBlockPos)
    && forall n :: 0 <= n < |chain| ==> ctx.recent[|chain| - n] == (chain[n].ctx.nFile, chain[n].ctx.nBlockPos)
  }

  /** The place found for an input. */
  ghost predicate Sourced(P: Consensus, disk: Disk, st: LedgerState, last: Link, fs: bool, k: nat, i: nat, at: Place)
    requires k < |last.block.vtx| && i < |last.block.vtx[k].vin|
  {
    var view, blocks := ConnectTxs(P, st.db, last.ctx, last.block.vtx, k), Blocks(st.chain) + [last.block];
    && SpendsFrom(P, blocks, k, i, at, fs) && AllAvailable(disk, view, last.block.vtx[k].vin)
    && IsPlace(blocks, at) && last.block.vtx[k].vin[i].prevout.n < |TxAt(blocks, at).vout|
    && PrevOuts(disk, view, last.block.vtx[k].vin)[i] == TxAt(blocks, at).vout[last.block.vtx[k].vin[i].prevout.n]
  }

  lemma InputSource(P: Consensus, disk: Disk, st: LedgerState, last: Link, fs: bool, k: nat, i: nat) returns (at: Place)
    requires Inv(P, disk, st) && BlockConnects(P, disk, st.db, last.ctx, fs, last.block)
    requires OnDisk(P, disk, last.ctx, last.block) && RecentOf(last.ctx, st.chain)
    requires k < |last.block.vtx| && !last.block.vtx[k].IsCoinBase() && i < |last.block.vtx[k].vin|
    ensures Sourced(P, disk, st, last, fs, k, i, at)
  {
    hide ChainValid, Replay, CheckBlock, ConnectTxs, BlockSigOps, BlockTotals, Subsidy, ValueRule, SumOut, TxOffset, SigOps;
    var tx, h := last.block.vtx[k], last.block.vtx[k].vin[i].prevout.hash;
    var view, d := ConnectTxs(P, st.db, last.ctx, last.block.vtx, k), ConnectTxs(P, Replay(P, st.chain), last.ctx, last.block.vtx, k);
    RefinesConnectTxs(P, st.db, Replay(P, st.chain), last.ctx, last.block.vtx, k);
    assert TxConnects(P, disk, st.db, view, last.ctx, fs, tx);
    assert Available(disk, view, tx.vin[i].prevout);
    assert h in view && view[h] == d[h];
    at := RecordMade(P, st.chain, last, k, h);
    assert InputPlausible(disk, view, last.ctx, tx, i) && InputSpendable(P, disk, view, fs, tx, i);
    var blocks := Blocks(st.chain) + [last.block];
    assert disk[view[h].pos] == TxAt(blocks, at) by {
      if at.block < |st.chain| { LinkOnDisk(P, disk, st.chain, at.block); }
    }
    if at.block < |st.chain| {
      if at.block + COINBASE_MATURITY >= |blocks| { assert last.ctx.recent[|st.chain| - at.block] == (st.chain[at.block].ctx.nFile, st.chain[at.block].ctx.nBlockPos); }
    }
  }

  /** Every transaction of a block that ConnectBlock accepts spends lawfully. */
  lemma ConnectedLawful(P: Consensus, disk: Disk, st: LedgerState, last: Link, fs: bool)
    requires Inv(P, disk, st) && BlockConnects(P, disk, st.db, last.ctx, fs, last.block)
    requires OnDisk(P, disk, last.ctx, last.block) && RecentOf(last.ctx, st.chain)
    ensures BlockLawful(P, Blocks(st.chain) + [last.block], fs)
  {
    hide Inv, CheckBlock, TxsConnect, OnDisk, RecentOf, TxLawful, Blocks, BlockProper, Subsidy, BlockTotals;
    CheckedProper(P, last.block);
    forall k | 0 <= k < |last.block.vtx| ensures TxLawful(P, Blocks(st.chain) + [last.block], k, fs) {
      if !last.block.vtx[k].IsCoinBase() { TxIsLawful(P, disk, st, last, fs, k); } else { Free(P, Blocks(st.chain) + [last.block], k, fs); }
    }
  }

  /** A block that passes CheckBlock is proper. */
  lemma CheckedProper(P: Consensus, b: CBlock)
    requires CheckBlock(P, b)
    ensures BlockProper(P, b)
  {
    hide TxProper, CheckTransaction, SumLegacySigOps;
    forall k | 0 <= k < |b.vtx| ensures TxProper(P, b.vtx[k]) {
      assert CheckTransaction(P, b.vtx[k]);
      TxChecked(P, b.vtx[k]);
    }
    if b.IsProofOfStake() { assert b.vtx[0].vout == [CTxOut(0, [])]; }
    if b.vtx[0].IsCoinStake() { assert false; }
  }

  lemma TxChecked(P: Consensus, tx: CTransaction)
    requires CheckTransaction(P, tx)
    ensures TxProper(P, tx)
  {
    hide SumOut;
  }

  lemma Free(P: Consensus, blocks: seq<CBlock>, k: nat, fs: bool)
    requires HasOwn(blocks, k) && Own(blocks, k).IsCoinBase()
    ensures TxLawful(P, blocks, k, fs)
  {
  }

  lemma TxIsLawful(P: Consensus, disk: Disk, st: LedgerState, last: Link, fs: bool, k: nat)
    requires Inv(P, disk, st) && BlockConnects(P, disk, st.db, last.ctx, fs, last.block)
    requires OnDisk(P, disk, last.ctx, last.block) && RecentOf(last.ctx, st.chain)
    requires k < |last.block.vtx| && !last.block.vtx[k].IsCoinBase()
    ensures TxLawful(P, Blocks(st.chain) + [last.block], k, fs)
  {
    hide Inv, OnDisk, RecentOf, Blocks, BlockConnects, AllAvailable, PrevOuts, SpendsFrom, ConnectTxs, ValueRule, SumOut;
    var blocks, tx := Blocks(st.chain) + [last.block], last.block.vtx[k];
    var from: seq<Place> := [];
    while |from| < |tx.vin|
      invariant |from| <= |tx.vin|
      invariant forall i :: 0 <= i < |from| ==> Sourced(P, disk, st, last, fs, k, i, from[i])
    {
      var at := InputSource(P, disk, st, last, fs, k, |from|);
      from := from + [at];
    }
    FeePaid(P, disk, st, last, fs, k, from);
    assert Sources(P, blocks, k, from, fs);
  }

  lemma FeePaid(P: Consensus, disk: Disk, st: LedgerState, last: Link, fs: bool, k: nat, from: seq<Place>)
    requires BlockConnects(P, disk, st.db, last.ctx, fs, last.block)
    requires k < |last.block.vtx| && !last.block.vtx[k].IsCoinBase() && |from| == |last.block.vtx[k].vin|
    requires forall i :: 0 <= i < |from| ==> Sourced(P, disk, st, last, fs, k, i, from[i])
    ensures Sources(P, Blocks(st.chain) + [last.block], k, from, fs)
  {
    hide ConnectTxs, BlockSigOps, BlockTotals, Subsidy, SumOut, SpendsFrom, InputPlausible, InputSpendable, Overwritable, AllAvailable;
    var blocks, tx := Blocks(st.chain) + [last.block], last.block.vtx[k];
    var view := ConnectTxs(P, st.db, last.ctx, last.block.vtx, k);
    assert TxConnects(P, disk, st.db, view, last.ctx, fs, tx);
    assert Spent(blocks, tx, from) == PrevOuts(disk, view, tx.vin);
    assert CheckTransaction(P, tx);
    assert ValueRule(P, disk, st.db, view, last.ctx, tx);
  }
}
