/**
 What an assembled block is worth. It opens with a coinbase, and in a proof-of-stake block with a
 coinstake after it, whose inputs the collection loop does not know (src/main.cpp:4176, 4269). No
 outpoint is spent twice in the block, and ConnectBlock accepts it, exactly when no chosen
 transaction spends a coin of the coinstake.
 */
module AssembledBlocks {
  import opened Transactions
  import opened Utxo
  import opened Ledger
  import opened LedgerFacts
  import opened BlockAssembly

  // ----- no double spend ----------------------------------------------------------------------------------------

  /** BIP 30 for the list: no id is taken by a record that still has unspent outputs. */
  predicate IdsFree(P: Consensus, db: TxIndexMap, vtx: seq<CTransaction>) {
    && Distinct(Ids(P, vtx))
    && forall i :: 0 <= i < |vtx| ==> Overwritable(db, P.hash(vtx[i]))
  }

  lemma ViewNext(P: Consensus, db: TxIndexMap, vtx: seq<CTransaction>, k: nat)
    requires k < |vtx|
    ensures View(P, db, vtx[..k + 1]) == ConnectTx(P, View(P, db, vtx[..k]), vtx[k], MemPos(P.hash(vtx[k])))
  {
    assert vtx[..k + 1][..k] == vtx[..k];
  }

  lemma {:induction false} FreeIdStaysFree(P: Consensus, db: TxIndexMap, vtx: seq<CTransaction>, k: nat, h: Hash256)
    requires k <= |vtx| && Overwritable(db, h) && forall i :: 0 <= i < k ==> P.hash(vtx[i]) != h
    ensures Overwritable(View(P, db, vtx[..k]), h)
  {
    hide Overwritable;
    if k == 0 {
      assert vtx[..0] == [];
    } else {
      FreeIdStaysFree(P, db, vtx, k - 1, h);
      ViewNext(P, db, vtx, k - 1);
      StillFree(P, View(P, db, vtx[..k - 1]), vtx[k - 1], MemPos(P.hash(vtx[k - 1])), h);
    }
  }

  lemma StillFree(P: Consensus, view: TxIndexMap, tx: CTransaction, pos: CDiskTxPos, h: Hash256)
    requires Overwritable(view, h) && P.hash(tx) != h && !pos.NullPos?
    ensures Overwritable(ConnectTx(P, view, tx, pos), h)
  {
    MarkedOverwritable(view, tx.vin, pos, h);
  }

  /** Whether a coin is there after one more transaction. */
  lemma UnspentNext(P: Consensus, db: TxIndexMap, vtx: seq<CTransaction>, k: nat, o: COutPoint)
    requires IdsFree(P, db, vtx) && k < |vtx|
    ensures Unspent(View(P, db, vtx[..k + 1]), o) <==>
      (if o.hash == P.hash(vtx[k]) then o.n < |vtx[k].vout| else Unspent(View(P, db, vtx[..k]), o) && o !in Consumes(vtx[k]))
  {
    hide Overwritable, Unspent;
    ViewNext(P, db, vtx, k);
    forall i | 0 <= i < k ensures P.hash(vtx[i]) != P.hash(vtx[k]) {
      assert Ids(P, vtx)[i] != Ids(P, vtx)[k];
    }
    FreeIdStaysFree(P, db, vtx, k, P.hash(vtx[k]));
    ConnectTxUnspent(P, map[], View(P, db, vtx[..k]), vtx[k], MemPos(P.hash(vtx[k])), o);
  }

  /** A coin that is there is not about to be created again. */
  lemma {:induction false} CoinNotRecreated(P: Consensus, db: TxIndexMap, vtx: seq<CTransaction>, i: nat, k: nat, o: COutPoint)
    requires IdsFree(P, db, vtx) && i <= k < |vtx| && Unspent(View(P, db, vtx[..i]), o)
    ensures P.hash(vtx[k]) != o.hash
    decreases i
  {
    if i == 0 {
      assert vtx[..0] == [];
    } else {
      UnspentNext(P, db, vtx, i - 1, o);
      assert Ids(P, vtx)[i - 1] != Ids(P, vtx)[k];
      if o.hash != P.hash(vtx[i - 1]) {
        CoinNotRecreated(P, db, vtx, i - 1, k, o);
      }
    }
  }

  lemma {:induction false} StaysConsumed(P: Consensus, db: TxIndexMap, vtx: seq<CTransaction>, i: nat, j: nat, o: COutPoint)
    requires IdsFree(P, db, vtx) && i < j <= |vtx|
    requires Unspent(View(P, db, vtx[..i]), o) && o in Consumes(vtx[i])
    ensures !Unspent(View(P, db, vtx[..j]), o)
    decreases j
  {
    hide Unspent, View, Consumes, IdsFree;
    CoinNotRecreated(P, db, vtx, i, j - 1, o);
    UnspentNext(P, db, vtx, j - 1, o);
    if i < j - 1 { StaysConsumed(P, db, vtx, i, j - 1, o); }
  }

  lemma ChosenConsumes(P: Consensus, disk: Disk, db: TxIndexMap, ctx: BlockContext, vtx: seq<CTransaction>, i: nat, o: COutPoint)
    requires Chosen(P, disk, db, ctx, vtx) && i < |vtx| && o in Consumes(vtx[i])
    ensures Unspent(View(P, db, vtx[..i]), o)
  {
    hide TxConnects, View, Unspent;
    assert TxConnects(P, disk, db, View(P, db, vtx[..i]), ctx, true, vtx[i]);
    ConnectsSpendsCoins(P, disk, db, View(P, db, vtx[..i]), ctx, true, vtx[i]);
  }

  /** No two transactions of an assembled list spend the same outpoint. */
  lemma AssembledNoDoubleSpend(P: Consensus, disk: Disk, db: TxIndexMap, ctx: BlockContext, vtx: seq<CTransaction>, i: nat, j: nat, o: COutPoint)
    requires Chosen(P, disk, db, ctx, vtx) && IdsFree(P, db, vtx)
    requires i < j < |vtx| && o in Consumes(vtx[i])
    ensures o !in Consumes(vtx[j])
  {
    hide Chosen, View, Unspent, Consumes;
    ChosenConsumes(P, disk, db, ctx, vtx, i, o);
    StaysConsumed(P, db, vtx, i, j, o);
    if o in Consumes(vtx[j]) { ChosenConsumes(P, disk, db, ctx, vtx, j, o); }
  }

  // ----- the miner's index mirrors the one ConnectBlock will see ------------------------------------------------

  /** The block goes on top of the tip: one more height, its own position in front. */
  predicate NextContext(prev: BlockContext, ctx: BlockContext) {
    ctx.nHeight == prev.nHeight + 1 && ctx.recent == [(ctx.nFile, ctx.nBlockPos)] + prev.recent
  }

  /** Two records of transaction `h`: the same outputs are spent, but for those in `gone`, which only the
      second knows to be spent; reading gives the same transaction, and only pool transactions stand
      elsewhere in the second. */
  predicate Mirrored(disk: Disk, disk': Disk, ctx: BlockContext, gone: set<COutPoint>, h: Hash256, m: CTxIndex, b: CTxIndex) {
    && |m.vSpent| == |b.vSpent|
    && (forall n :: 0 <= n < |m.vSpent| ==> (b.vSpent[n].NullPos? <==> m.vSpent[n].NullPos? && COutPoint(h, n) !in gone))
    && (m.pos in disk ==>
          && b.pos in disk' && disk'[b.pos] == disk[m.pos]
          && (if m.pos.MemPos? then !disk[m.pos].IsCoinBase() && !disk[m.pos].IsCoinStake()
              else b.pos == m.pos && !(b.pos.DiskTxPos? && (b.pos.nFile, b.pos.nBlockPos) == (ctx.nFile, ctx.nBlockPos))))
  }

  /** All records that still have a coin are mirrored. */
  predicate Mirrors(disk: Disk, disk': Disk, ctx: BlockContext, gone: set<COutPoint>, view: TxIndexMap, view': TxIndexMap) {
    forall h :: h in view && !Overwritable(view, h) ==> h in view' && Mirrored(disk, disk', ctx, gone, h, view[h], view'[h])
  }

  lemma MirroredInput(disk: Disk, disk': Disk, ctx: BlockContext, gone: set<COutPoint>, view: TxIndexMap, view': TxIndexMap, o: COutPoint)
    requires Mirrors(disk, disk', ctx, gone, view, view') && Available(disk, view, o) && Unspent(view, o)
    ensures Available(disk', view', o) && PrevTx(disk', view', o) == PrevTx(disk, view, o)
    ensures Unspent(view', o) <==> o !in gone
  {
    assert !Overwritable(view, o.hash);
    assert Mirrored(disk, disk', ctx, gone, o.hash, view[o.hash], view'[o.hash]);
    assert COutPoint(o.hash, o.n) == o;
  }

  lemma MirroredOuts(disk: Disk, disk': Disk, ctx: BlockContext, gone: set<COutPoint>, view: TxIndexMap, view': TxIndexMap, vin: seq<CTxIn>)
    requires Mirrors(disk, disk', ctx, gone, view, view') && AllAvailable(disk, view, vin)
    requires forall i :: 0 <= i < |vin| ==> Unspent(view, vin[i].prevout)
    ensures AllAvailable(disk', view', vin) && PrevOuts(disk', view', vin) == PrevOuts(disk, view, vin)
  {
    hide Mirrors, Available, Unspent;
    forall i | 0 <= i < |vin|
      ensures Available(disk', view', vin[i].prevout) && PrevTx(disk', view', vin[i].prevout) == PrevTx(disk, view, vin[i].prevout)
    {
      MirroredInput(disk, disk', ctx, gone, view, view', vin[i].prevout);
    }
    forall i | 0 <= i < |vin| ensures PrevOuts(disk', view', vin)[i] == PrevOuts(disk, view, vin)[i] {
      AvailableOut(disk, view, vin[i].prevout);
    }
  }

  lemma AvailableOut(disk: Disk, view: TxIndexMap, o: COutPoint)
    requires Available(disk, view, o)
    ensures o.n < |PrevTx(disk, view, o).vout| && PrevOut(disk, view, o) == PrevTx(disk, view, o).vout[o.n]
  {
  }

  /** What matured for the tip has matured for the next block. */
  lemma MirroredMatured(disk: Disk, disk': Disk, prev: BlockContext, ctx: BlockContext, gone: set<COutPoint>,
      view: TxIndexMap, view': TxIndexMap, o: COutPoint)
    requires NextContext(prev, ctx) && Mirrors(disk, disk', ctx, gone, view, view') && Available(disk, view, o) && Unspent(view, o)
    requires Matured(prev, PrevTx(disk, view, o), view[o.hash].pos)
    ensures o.hash in view' && Matured(ctx, PrevTx(disk, view, o), view'[o.hash].pos)
  {
    assert !Overwritable(view, o.hash);
    var m, b := view[o.hash], view'[o.hash];
    assert Mirrored(disk, disk', ctx, gone, o.hash, m, b);
    var t := PrevTx(disk, view, o);
    if t.IsCoinBase() || t.IsCoinStake() {
      forall k | 0 <= k < |ctx.recent| && k < COINBASE_MATURITY
        ensures !(b.pos.DiskTxPos? && ctx.recent[k] == (b.pos.nFile, b.pos.nBlockPos))
      {
        if k > 0 { assert ctx.recent[k] == prev.recent[k - 1]; }
      }
    }
  }

  /** What connects for the miner has the same figures for ConnectBlock, and connects there exactly
      when it spends none of the coins that are gone. */
  lemma MirroredConnects(P: Consensus, disk: Disk, disk': Disk, db: TxIndexMap, prev: BlockContext, ctx: BlockContext,
      gone: set<COutPoint>, view: TxIndexMap, view': TxIndexMap, fs: bool, tx: CTransaction)
    requires NextContext(prev, ctx) && Mirrors(disk, disk', ctx, gone, view, view')
    requires !tx.IsCoinBase() && !tx.IsCoinStake() && TxConnects(P, disk, db, view, prev, true, tx)
    ensures TxConnects(P, disk', db, view', ctx, fs, tx) <==> Consumes(tx) !! gone
    ensures ValueIn(disk', view', tx) == ValueIn(disk, view, tx) && SigOps(P, disk', view', tx) == SigOps(P, disk, view, tx)
  {
    hide Mirrors, Available, Matured, Unspent, VerifySignature, SumOut, AllAvailable, NextContext;
    MinerInputs(P, disk, db, prev, view, tx);
    MirroredOuts(disk, disk', ctx, gone, view, view', tx.vin);
    forall i | 0 <= i < |tx.vin|
      ensures AllAvailable(disk', view', tx.vin) && InputPlausible(disk', view', ctx, tx, i)
      ensures InputSpendable(P, disk', view', fs, tx, i) <==> tx.vin[i].prevout !in gone
    {
      MirroredSpendable(P, disk, disk', prev, ctx, gone, view, view', fs, tx, i);
    }
    assert Consumes(tx) !! gone <==> forall i :: 0 <= i < |tx.vin| ==> tx.vin[i].prevout !in gone;
  }

  lemma MinerInputs(P: Consensus, disk: Disk, db: TxIndexMap, prev: BlockContext, view: TxIndexMap, tx: CTransaction)
    requires !tx.IsCoinBase() && TxConnects(P, disk, db, view, prev, true, tx)
    ensures AllAvailable(disk, view, tx.vin)
    ensures forall i :: 0 <= i < |tx.vin| ==>
      && Available(disk, view, tx.vin[i].prevout) && Unspent(view, tx.vin[i].prevout)
      && InputPlausible(disk, view, prev, tx, i) && InputSpendable(P, disk, view, true, tx, i)
  {
    hide Available, Unspent, Matured, VerifySignature, SumOut;
    forall i | 0 <= i < |tx.vin|
      ensures Available(disk, view, tx.vin[i].prevout) && Unspent(view, tx.vin[i].prevout)
      ensures InputPlausible(disk, view, prev, tx, i) && InputSpendable(P, disk, view, true, tx, i)
    {
      assert InputSpendable(P, disk, view, true, tx, i);
    }
  }

  lemma MirroredSpendable(P: Consensus, disk: Disk, disk': Disk, prev: BlockContext, ctx: BlockContext,
      gone: set<COutPoint>, view: TxIndexMap, view': TxIndexMap, fs: bool, tx: CTransaction, i: nat)
    requires NextContext(prev, ctx) && Mirrors(disk, disk', ctx, gone, view, view') && i < |tx.vin|
    requires AllAvailable(disk, view, tx.vin) && Unspent(view, tx.vin[i].prevout)
    requires InputPlausible(disk, view, prev, tx, i) && InputSpendable(P, disk, view, true, tx, i)
    requires AllAvailable(disk', view', tx.vin) && PrevOuts(disk', view', tx.vin) == PrevOuts(disk, view, tx.vin)
    ensures InputPlausible(disk', view', ctx, tx, i)
    ensures InputSpendable(P, disk', view', fs, tx, i) <==> tx.vin[i].prevout !in gone
  {
    hide Mirrors, Available, Matured, Unspent, VerifySignature, SumOut;
    var o := tx.vin[i].prevout;
    assert Available(disk, view, o) && Available(disk', view', o);
    MirroredInput(disk, disk', ctx, gone, view, view', o);
    MirroredMatured(disk, disk', prev, ctx, gone, view, view', o);
    AvailableOut(disk, view, o);
    AvailableOut(disk', view', o);
  }

  /** Connecting the transaction on both sides keeps them mirrored. */
  lemma MirroredNext(P: Consensus, disk: Disk, disk': Disk, ctx: BlockContext, gone: set<COutPoint>,
      view: TxIndexMap, view': TxIndexMap, tx: CTransaction, pos: CDiskTxPos)
    requires Mirrors(disk, disk', ctx, gone, view, view') && !tx.IsCoinBase() && !tx.IsCoinStake()
    requires MemPos(P.hash(tx)) in disk && disk[MemPos(P.hash(tx))] == tx && pos in disk' && disk'[pos] == tx && !pos.NullPos?
    requires forall o :: o in gone ==> o.hash != P.hash(tx)
    ensures Mirrors(disk, disk', ctx, gone, ConnectTx(P, view, tx, MemPos(P.hash(tx))), ConnectTx(P, view', tx, pos))
  {
    hide MarkAll, Names, Overwritable, Mirrored;
    var h0 := P.hash(tx);
    var m, m' := ConnectTx(P, view, tx, MemPos(h0)), ConnectTx(P, view', tx, pos);
    MarkAllKeys(view, tx.vin, MemPos(h0));
    MarkAllKeys(view', tx.vin, pos);
    forall h | h in m && !Overwritable(m, h) ensures h in m' && Mirrored(disk, disk', ctx, gone, h, m[h], m'[h]) {
      if h == h0 {
        NewMirrored(disk, disk', ctx, gone, h, MemPos(h0), pos, tx);
      } else {
        if Overwritable(view, h) { StillFree(P, view, tx, MemPos(h0), h); }
        assert h in view && Mirrored(disk, disk', ctx, gone, h, view[h], view'[h]);
        MarkedMirrored(disk, disk', ctx, gone, h, view, view', tx.vin, MemPos(h0), pos);
      }
    }
  }

  lemma NewMirrored(disk: Disk, disk': Disk, ctx: BlockContext, gone: set<COutPoint>, h: Hash256, mem: CDiskTxPos, pos: CDiskTxPos, tx: CTransaction)
    requires mem.MemPos? && mem in disk && disk[mem] == tx && pos in disk' && disk'[pos] == tx
    requires !tx.IsCoinBase() && !tx.IsCoinStake() && forall o :: o in gone ==> o.hash != h
    ensures Mirrored(disk, disk', ctx, gone, h, NewIndex(mem, tx), NewIndex(pos, tx))
  {
  }

  lemma MarkedMirrored(disk: Disk, disk': Disk, ctx: BlockContext, gone: set<COutPoint>, h: Hash256, view: TxIndexMap, view': TxIndexMap,
      vin: seq<CTxIn>, pos: CDiskTxPos, pos': CDiskTxPos)
    requires h in view && h in view' && Mirrored(disk, disk', ctx, gone, h, view[h], view'[h]) && !pos.NullPos? && !pos'.NullPos?
    ensures h in MarkAll(view, vin, pos) && h in MarkAll(view', vin, pos')
    ensures Mirrored(disk, disk', ctx, gone, h, MarkAll(view, vin, pos)[h], MarkAll(view', vin, pos')[h])
  {
    hide MarkAll, Names;
    MarkAllKeys(view, vin, pos);
    MarkAllKeys(view', vin, pos');
    MarkAllAt(view, vin, pos, h);
    MarkAllAt(view', vin, pos', h);
  }

  // ----- the assembled block --------------------------------------------------------------------------------------

  /** The circumstances of an assembly: the tip, the files, the pool, and the position the block gets. */
  datatype Site = Site(P: Consensus, disk: Disk, disk': Disk, db: TxIndexMap, pool: Pool, prev: BlockContext, ctx: BlockContext)

  /** A position that is neither in the pool nor in the new block. */
  predicate Elsewhere(ctx: BlockContext, pos: CDiskTxPos) {
    !pos.MemPos? && !(pos.DiskTxPos? && (pos.nFile, pos.nBlockPos) == (ctx.nFile, ctx.nBlockPos))
  }

  /** What the block opens with: a coinbase, or an empty coinbase and a coinstake. */
  predicate Opens(opening: seq<CTransaction>) {
    && 1 <= |opening| <= 2 && opening[0].IsCoinBase()
    && (|opening| == 2 ==>
          && opening[1].IsCoinStake() && !opening[1].IsCoinBase()
          && |opening[0].vout| == 1 && opening[0].vout[0].IsEmpty())
  }

  /** The coins the coinstake spends. */
  function StakedCoins(opening: seq<CTransaction>): set<COutPoint> {
    if |opening| == 2 then Consumes(opening[1]) else {}
  }

  /** No chosen transaction spends a coin of the coinstake: what a caller can check before assembling. */
  predicate StakeUntouched(opening: seq<CTransaction>, vtx: seq<CTransaction>) {
    forall i :: 0 <= i < |vtx| ==> Consumes(vtx[i]) !! StakedCoins(opening)
  }

  /** What ties them together: the block is appended to the files at a new position, and the chain's own
      index knows no pool transactions. */
  ghost predicate Arranged(S: Site, isFinal: CTransaction -> bool, opening: seq<CTransaction>, vtx: seq<CTransaction>, b: CBlock) {
    && NextContext(S.prev, S.ctx) && PoolOk(S.P, S.pool) && FromPool(S.P, S.pool, isFinal, vtx)
    && Chosen(S.P, WithPool(S.disk, S.pool), S.db, S.prev, vtx)
    && Opens(opening) && b.vtx == opening + vtx && OnDisk(S.P, S.disk', S.ctx, b)
    && (forall pos :: pos in S.disk ==> pos in S.disk' && S.disk'[pos] == S.disk[pos] && !pos.MemPos?)
    && (forall h :: h in S.db ==> Elsewhere(S.ctx, S.db[h].pos))
  }

  /** The ids of the block differ and are not taken on the chain (the rule of BIP 30). */
  predicate FreshIds(S: Site, b: CBlock) {
    && (forall i, j :: 0 <= i < j < |b.vtx| ==> S.P.hash(b.vtx[i]) != S.P.hash(b.vtx[j]))
    && (forall i :: 0 <= i < |b.vtx| ==> Overwritable(S.db, S.P.hash(b.vtx[i])))
  }

  ghost predicate Sited(S: Site, isFinal: CTransaction -> bool, opening: seq<CTransaction>, vtx: seq<CTransaction>, b: CBlock) {
    Arranged(S, isFinal, opening, vtx, b) && FreshIds(S, b)
  }

  /** The coinstake connects after the coinbase. */
  predicate StakeConnects(S: Site, opening: seq<CTransaction>, b: CBlock, fs: bool) {
    |opening| == 2 && |b.vtx| >= 2 ==>
      TxConnects(S.P, S.disk', S.db, ConnectTxs(S.P, S.db, S.ctx, b.vtx, 1), S.ctx, fs, opening[1])
  }

  lemma PoolEntry(S: Site, isFinal: CTransaction -> bool, opening: seq<CTransaction>, vtx: seq<CTransaction>, b: CBlock, k: nat)
    requires Sited(S, isFinal, opening, vtx, b) && k < |vtx|
    ensures var all := WithPool(S.disk, S.pool); var pos := MemPos(S.P.hash(vtx[k]));
      && pos in all && all[pos] == vtx[k] && !vtx[k].IsCoinBase() && !vtx[k].IsCoinStake()
    ensures |b.vtx| == |opening| + |vtx| && b.vtx[|opening| + k] == vtx[k] && S.P.hash(vtx[k]) in S.pool
    ensures var at := TxPos(S.P, S.ctx, b.vtx, |opening| + k); at in S.disk' && S.disk'[at] == vtx[k]
  {
    hide Chosen, OnDisk, PoolOk, Opens;
    var h := S.P.hash(vtx[k]);
    assert Eligible(S.pool, isFinal, h) && S.pool[h] == vtx[k];
    assert MemPos(h) in set x | x in S.pool :: MemPos(x);
    assert b.vtx[|opening| + k] == vtx[k];
    AtPlace(S.P, S.disk', S.ctx, b, |opening| + k);
  }

  lemma AtPlace(P: Consensus, disk: Disk, ctx: BlockContext, b: CBlock, i: nat)
    requires OnDisk(P, disk, ctx, b) && i < |b.vtx|
    ensures TxPos(P, ctx, b.vtx, i) in disk && disk[TxPos(P, ctx, b.vtx, i)] == b.vtx[i]
  {
  }

  lemma OpeningFacts(S: Site, isFinal: CTransaction -> bool, opening: seq<CTransaction>, vtx: seq<CTransaction>, b: CBlock)
    requires Sited(S, isFinal, opening, vtx, b)
    ensures Opens(opening) && |b.vtx| == |opening| + |vtx| && forall i :: 0 <= i < |opening| ==> b.vtx[i] == opening[i]
    ensures TxPos(S.P, S.ctx, b.vtx, 0) in S.disk' && S.disk'[TxPos(S.P, S.ctx, b.vtx, 0)] == opening[0]
    ensures NextContext(S.prev, S.ctx)
    ensures forall i :: 0 <= i < |opening| ==> Overwritable(S.db, S.P.hash(opening[i]))
    ensures |opening| == 2 ==> S.P.hash(opening[0]) != S.P.hash(opening[1])
  {
    hide Chosen, OnDisk, PoolOk, FromPool, Overwritable;
    AtPlace(S.P, S.disk', S.ctx, b, 0);
    forall i | 0 <= i < |opening| ensures b.vtx[i] == opening[i] && Overwritable(S.db, S.P.hash(opening[i])) {
      assert b.vtx[i] == opening[i];
    }
    if |opening| == 2 { assert b.vtx[0] == opening[0] && b.vtx[1] == opening[1]; }
  }

  /** A coin the coinstake spends is on the chain: it cannot come from the coinbase of its own block,
      which is not mature. */
  lemma StakedOnChain(S: Site, isFinal: CTransaction -> bool, opening: seq<CTransaction>, vtx: seq<CTransaction>, b: CBlock, fs: bool, o: COutPoint)
    requires Sited(S, isFinal, opening, vtx, b) && StakeConnects(S, opening, b, fs) && o in StakedCoins(opening)
    ensures Unspent(S.db, o)
  {
    hide Sited, Unspent, Overwritable, ConnectTxs, SumOut, ValueRule, VerifySignature, NextContext;
    OpeningFacts(S, isFinal, opening, vtx, b);
    var view, tx := ConnectTxs(S.P, S.db, S.ctx, b.vtx, 1), opening[1];
    var i :| 0 <= i < |tx.vin| && tx.vin[i].prevout == o;
    assert InputPlausible(S.disk', view, S.ctx, tx, i) && InputSpendable(S.P, S.disk', view, fs, tx, i);
    AfterCoinbase(S, opening, b, o);
    if o.hash == S.P.hash(opening[0]) {
      OwnCoinbaseImmature(S, opening, b, o);
      assert false;
    }
  }

  lemma AfterCoinbase(S: Site, opening: seq<CTransaction>, b: CBlock, o: COutPoint)
    requires |b.vtx| >= 1 && |opening| >= 1 && b.vtx[0] == opening[0] && opening[0].IsCoinBase()
    requires Overwritable(S.db, S.P.hash(opening[0]))
    ensures var view := ConnectTxs(S.P, S.db, S.ctx, b.vtx, 1);
      && view == S.db[S.P.hash(opening[0]) := NewIndex(TxPos(S.P, S.ctx, b.vtx, 0), opening[0])]
      && (o.hash != S.P.hash(opening[0]) ==> (Unspent(view, o) <==> Unspent(S.db, o)))
  {
    assert ConnectTxs(S.P, S.db, S.ctx, b.vtx, 0) == S.db;
  }

  lemma OwnCoinbaseImmature(S: Site, opening: seq<CTransaction>, b: CBlock, o: COutPoint)
    requires |b.vtx| >= 1 && |opening| >= 1 && b.vtx[0] == opening[0] && opening[0].IsCoinBase() && NextContext(S.prev, S.ctx)
    requires TxPos(S.P, S.ctx, b.vtx, 0) in S.disk' && S.disk'[TxPos(S.P, S.ctx, b.vtx, 0)] == opening[0]
    requires o.hash == S.P.hash(opening[0])
    ensures var view := S.db[o.hash := NewIndex(TxPos(S.P, S.ctx, b.vtx, 0), opening[0])];
      Available(S.disk', view, o) ==> !Matured(S.ctx, PrevTx(S.disk', view, o), view[o.hash].pos)
  {
    hide TxOffset;
    assert S.ctx.recent[0] == (S.ctx.nFile, S.ctx.nBlockPos);
  }

  /** The index the opening leaves mirrors the chain's, less the staked coins. */
  lemma MirroredStart(S: Site, isFinal: CTransaction -> bool, opening: seq<CTransaction>, vtx: seq<CTransaction>, b: CBlock)
    requires Sited(S, isFinal, opening, vtx, b) && |b.vtx| >= |opening|
    ensures Mirrors(WithPool(S.disk, S.pool), S.disk', S.ctx, StakedCoins(opening), S.db, ConnectTxs(S.P, S.db, S.ctx, b.vtx, |opening|))
  {
    hide Chosen, OnDisk, PoolOk, FromPool, TxOffset, Overwritable, MarkAll, Names, ConnectTxs;
    OpeningFacts(S, isFinal, opening, vtx, b);
    var gone, view := StakedCoins(opening), ConnectTxs(S.P, S.db, S.ctx, b.vtx, |opening|);
    forall h | h in S.db && !Overwritable(S.db, h)
      ensures h in view && Mirrored(WithPool(S.disk, S.pool), S.disk', S.ctx, gone, h, S.db[h], view[h])
    {
      assert forall i :: 0 <= i < |opening| ==> S.P.hash(opening[i]) != h;
      OpenedRecord(S, opening, b, h);
    }
  }

  /** A record of the chain that still has a coin, after the opening. */
  lemma {:induction false} OpenedRecord(S: Site, opening: seq<CTransaction>, b: CBlock, h: Hash256)
    requires Opens(opening) && |b.vtx| >= |opening| && forall i :: 0 <= i < |opening| ==> b.vtx[i] == opening[i]
    requires h in S.db && forall i :: 0 <= i < |opening| ==> S.P.hash(opening[i]) != h
    ensures var view := ConnectTxs(S.P, S.db, S.ctx, b.vtx, |opening|);
      && h in view && view[h].pos == S.db[h].pos && |view[h].vSpent| == |S.db[h].vSpent|
      && forall n :: 0 <= n < |view[h].vSpent| ==>
           (view[h].vSpent[n].NullPos? <==> S.db[h].vSpent[n].NullPos? && COutPoint(h, n) !in StakedCoins(opening))
  {
    hide MarkAll, TxOffset;
    assert ConnectTxs(S.P, S.db, S.ctx, b.vtx, 0) == S.db;
    var view := ConnectTxs(S.P, S.db, S.ctx, b.vtx, 1);
    assert h in view && view[h] == S.db[h];
    if |opening| == 2 {
      var pos := TxPos(S.P, S.ctx, b.vtx, 1);
      MarkAllKeys(view, opening[1].vin, pos);
      MarkAllAt(view, opening[1].vin, pos, h);
      assert ConnectTxs(S.P, S.db, S.ctx, b.vtx, 2)[h] == MarkAll(view, opening[1].vin, pos)[h];
    }
  }

  /** After any number of transactions the two indexes mirror each other, and those so far connect
      exactly when they leave the staked coins alone. */
  lemma {:induction false} AssembledPrefix(S: Site, isFinal: CTransaction -> bool, opening: seq<CTransaction>, vtx: seq<CTransaction>,
      b: CBlock, fs: bool, k: nat)
    requires Sited(S, isFinal, opening, vtx, b) && StakeConnects(S, opening, b, fs) && k <= |vtx| && |b.vtx| == |opening| + |vtx|
    ensures Mirrors(WithPool(S.disk, S.pool), S.disk', S.ctx, StakedCoins(opening),
                    View(S.P, S.db, vtx[..k]), ConnectTxs(S.P, S.db, S.ctx, b.vtx, |opening| + k))
    ensures forall i :: 0 <= i < k ==> (
      TxConnects(S.P, S.disk', S.db, ConnectTxs(S.P, S.db, S.ctx, b.vtx, |opening| + i), S.ctx, fs, vtx[i]) <==>
      Consumes(vtx[i]) !! StakedCoins(opening))
    decreases k
  {
    hide Mirrors, TxConnects, ConnectTx, ValueIn, WithPool, NextContext, OnDisk, Sited, SigOps, StakedCoins, Consumes, StakeConnects, Overwritable;
    var all, gone := WithPool(S.disk, S.pool), StakedCoins(opening);
    if k == 0 {
      assert vtx[..0] == [];
      MirroredStart(S, isFinal, opening, vtx, b);
    } else {
      AssembledPrefix(S, isFinal, opening, vtx, b, fs, k - 1);
      PoolEntry(S, isFinal, opening, vtx, b, k - 1);
      ChosenAt(S, isFinal, opening, vtx, b, k - 1);
      var view, view' := View(S.P, S.db, vtx[..k - 1]), ConnectTxs(S.P, S.db, S.ctx, b.vtx, |opening| + k - 1);
      MirroredConnects(S.P, all, S.disk', S.db, S.prev, S.ctx, gone, view, view', fs, vtx[k - 1]);
      forall o | o in gone ensures o.hash != S.P.hash(vtx[k - 1]) {
        StakedIds(S, isFinal, opening, vtx, b, fs, o, k - 1);
      }
      MirroredNext(S.P, all, S.disk', S.ctx, gone, view, view', vtx[k - 1], TxPos(S.P, S.ctx, b.vtx, |opening| + k - 1));
      assert vtx[..k][..k - 1] == vtx[..k - 1];
    }
  }

  lemma StakedIds(S: Site, isFinal: CTransaction -> bool, opening: seq<CTransaction>, vtx: seq<CTransaction>, b: CBlock, fs: bool, o: COutPoint, k: nat)
    requires Sited(S, isFinal, opening, vtx, b) && StakeConnects(S, opening, b, fs) && o in StakedCoins(opening) && k < |vtx|
    ensures o.hash != S.P.hash(vtx[k])
  {
    hide Chosen, OnDisk, PoolOk, FromPool, StakedCoins, StakeConnects, NextContext;
    StakedOnChain(S, isFinal, opening, vtx, b, fs, o);
    assert b.vtx[|opening| + k] == vtx[k];
  }

  lemma ChosenAt(S: Site, isFinal: CTransaction -> bool, opening: seq<CTransaction>, vtx: seq<CTransaction>, b: CBlock, k: nat)
    requires Sited(S, isFinal, opening, vtx, b) && k < |vtx|
    ensures NextContext(S.prev, S.ctx)
    ensures TxConnects(S.P, WithPool(S.disk, S.pool), S.db, View(S.P, S.db, vtx[..k]), S.prev, true, vtx[k])
  {
    hide TxConnects, View, WithPool, OnDisk, Opens, Overwritable;
  }

  /** The totals of the miner and of ConnectBlock agree; the signature operations of the opening come on top. */
  lemma {:induction false} AssembledTotals(S: Site, isFinal: CTransaction -> bool, opening: seq<CTransaction>, vtx: seq<CTransaction>,
      b: CBlock, fs: bool, k: nat)
    requires Sited(S, isFinal, opening, vtx, b) && StakeConnects(S, opening, b, fs) && k <= |vtx| && |b.vtx| == |opening| + |vtx|
    ensures var t := Tally(S.P, WithPool(S.disk, S.pool), S.db, vtx[..k]);
      && BlockTotals(S.P, S.disk', S.db, S.ctx, b.vtx, |opening| + k).nFees == t.nFees
      && BlockSigOps(S.P, S.disk', S.db, S.ctx, b.vtx, |opening| + k)
         == BlockSigOps(S.P, S.disk', S.db, S.ctx, b.vtx, |opening|) + t.nSigOps
    decreases k
  {
    hide Mirrors, TxConnects, ConnectTx, ConnectTxs, View, ValueIn, WithPool, NextContext, OnDisk, Sited, SigOps, StakedCoins, StakeConnects;
    var all := WithPool(S.disk, S.pool);
    if k == 0 {
      assert vtx[..0] == [];
      TotalsStart(S, isFinal, opening, vtx, b);
    } else {
      AssembledTotals(S, isFinal, opening, vtx, b, fs, k - 1);
      AssembledPrefix(S, isFinal, opening, vtx, b, fs, k - 1);
      PoolEntry(S, isFinal, opening, vtx, b, k - 1);
      ChosenAt(S, isFinal, opening, vtx, b, k - 1);
      MirroredConnects(S.P, all, S.disk', S.db, S.prev, S.ctx, StakedCoins(opening), View(S.P, S.db, vtx[..k - 1]),
        ConnectTxs(S.P, S.db, S.ctx, b.vtx, |opening| + k - 1), fs, vtx[k - 1]);
      assert vtx[..k][..k - 1] == vtx[..k - 1];
    }
  }

  lemma TotalsStart(S: Site, isFinal: CTransaction -> bool, opening: seq<CTransaction>, vtx: seq<CTransaction>, b: CBlock)
    requires Sited(S, isFinal, opening, vtx, b) && |b.vtx| >= |opening|
    ensures BlockTotals(S.P, S.disk', S.db, S.ctx, b.vtx, |opening|).nFees == 0
  {
    hide ConnectTxs, Sited, ValueIn;
    OpeningFacts(S, isFinal, opening, vtx, b);
    assert BlockTotals(S.P, S.disk', S.db, S.ctx, b.vtx, 0) == Totals(0, 0, 0);
    assert BlockTotals(S.P, S.disk', S.db, S.ctx, b.vtx, 1).nFees == 0;
  }

  lemma {:induction false} LegacyWithin(P: Consensus, disk: Disk, db: TxIndexMap, ctx: BlockContext, vtx: seq<CTransaction>, k: nat)
    requires k <= |vtx|
    ensures SumLegacySigOps(P, vtx[..k]) <= BlockSigOps(P, disk, db, ctx, vtx, k)
    decreases k
  {
    hide ConnectTxs;
    if k == 0 {
      assert vtx[..0] == [];
    } else {
      LegacyWithin(P, disk, db, ctx, vtx, k - 1);
      assert vtx[..k][..k - 1] == vtx[..k - 1];
    }
  }

  /** Every transaction passes the rules that look at nothing else. */
  predicate AllChecked(S: Site, opening: seq<CTransaction>) {
    && (forall i :: 0 <= i < |opening| ==> CheckTransaction(S.P, opening[i]))
    && (forall h :: h in S.pool ==> CheckTransaction(S.P, S.pool[h]))
  }

  /** The rules CheckBlock adds. */
  lemma AssembledChecks(S: Site, isFinal: CTransaction -> bool, opening: seq<CTransaction>, vtx: seq<CTransaction>, b: CBlock)
    requires Sited(S, isFinal, opening, vtx, b) && S.P.headerOk(b) && AllChecked(S, opening)
    requires SumLegacySigOps(S.P, b.vtx) <= MAX_BLOCK_SIGOPS
    ensures CheckBlock(S.P, b)
  {
    hide Chosen, OnDisk, CheckTransaction, NextContext, Overwritable, SumLegacySigOps;
    OpeningFacts(S, isFinal, opening, vtx, b);
    forall i | |opening| <= i < |b.vtx|
      ensures !b.vtx[i].IsCoinBase() && !b.vtx[i].IsCoinStake() && CheckTransaction(S.P, b.vtx[i])
    {
      PoolEntry(S, isFinal, opening, vtx, b, i - |opening|);
      assert S.pool[S.P.hash(vtx[i - |opening|])] == vtx[i - |opening|];
    }
  }

  /** The transactions of the block pass, each on the index its predecessors left, exactly when the
      chosen ones leave the staked coins alone and the block's signature operations are within their limit. */
  lemma AssembledTxs(S: Site, isFinal: CTransaction -> bool, opening: seq<CTransaction>, vtx: seq<CTransaction>, b: CBlock, fs: bool)
    requires Sited(S, isFinal, opening, vtx, b) && StakeConnects(S, opening, b, fs) && |b.vtx| == |opening| + |vtx|
    ensures TxsConnect(S.P, S.disk', S.db, S.ctx, fs, b.vtx, |b.vtx|) <==>
      StakeUntouched(opening, vtx) && BlockSigOps(S.P, S.disk', S.db, S.ctx, b.vtx, |b.vtx|) <= MAX_BLOCK_SIGOPS
  {
    hide TxConnects, ConnectTxs, BlockSigOps, WithPool, Sited, Overwritable, StakedCoins, Consumes, View, Mirrors;
    OpeningFacts(S, isFinal, opening, vtx, b);
    AssembledPrefix(S, isFinal, opening, vtx, b, fs, |vtx|);
    CoinbaseConnects(S.P, S.disk', S.db, ConnectTxs(S.P, S.db, S.ctx, b.vtx, 0), S.ctx, fs, opening[0]);
    IdsOverwritable(S, isFinal, opening, vtx, b);
    forall i | 0 <= i < |b.vtx|
      ensures i < |opening| ==> TxConnects(S.P, S.disk', S.db, ConnectTxs(S.P, S.db, S.ctx, b.vtx, i), S.ctx, fs, b.vtx[i])
      ensures i >= |opening| ==> b.vtx[i] == vtx[i - |opening|]
    {
      if i >= |opening| { PoolEntry(S, isFinal, opening, vtx, b, i - |opening|); }
    }
    forall i | 0 <= i < |vtx| ensures b.vtx[|opening| + i] == vtx[i] { }
  }

  lemma IdsOverwritable(S: Site, isFinal: CTransaction -> bool, opening: seq<CTransaction>, vtx: seq<CTransaction>, b: CBlock)
    requires Sited(S, isFinal, opening, vtx, b)
    ensures forall i :: 0 <= i < |b.vtx| ==> Overwritable(S.db, S.P.hash(b.vtx[i]))
  {
    hide Chosen, OnDisk, PoolOk, FromPool, Opens, Overwritable;
  }

  /** The fees of the chosen transactions are not negative. */
  lemma {:induction false} FeesNotNegative(P: Consensus, disk: Disk, db: TxIndexMap, ctx: BlockContext, vtx: seq<CTransaction>, k: nat)
    requires Chosen(P, disk, db, ctx, vtx) && k <= |vtx|
    requires forall i :: 0 <= i < |vtx| ==> !vtx[i].IsCoinBase() && !vtx[i].IsCoinStake()
    ensures Tally(P, disk, db, vtx[..k]).nFees >= 0
    decreases k
  {
    hide View, AllAvailable, InputPlausible, InputSpendable, SumOut, SigOps;
    if k == 0 {
      assert vtx[..0] == [];
    } else {
      FeesNotNegative(P, disk, db, ctx, vtx, k - 1);
      assert TxConnects(P, disk, db, View(P, db, vtx[..k - 1]), ctx, true, vtx[k - 1]);
      assert vtx[..k][..k - 1] == vtx[..k - 1];
    }
  }

  /** With ids that differ and are free. */
  lemma SitedBlockConnects(S: Site, isFinal: CTransaction -> bool, opening: seq<CTransaction>, vtx: seq<CTransaction>, b: CBlock, fs: bool)
    requires Sited(S, isFinal, opening, vtx, b) && StakeConnects(S, opening, b, fs) && |b.vtx| >= |opening|
    requires S.P.headerOk(b) && AllChecked(S, opening)
    requires |opening| == 1 ==>
      ValueOut(opening[0]) <= Subsidy(S.ctx.nHeight) + Tally(S.P, WithPool(S.disk, S.pool), S.db, vtx).nFees
    ensures BlockConnects(S.P, S.disk', S.db, S.ctx, fs, b) <==>
      && StakeUntouched(opening, vtx)
      && BlockSigOps(S.P, S.disk', S.db, S.ctx, b.vtx, |opening|) + Tally(S.P, WithPool(S.disk, S.pool), S.db, vtx).nSigOps <= MAX_BLOCK_SIGOPS
  {
    hide Sited, TxsConnect, BlockTotals, BlockSigOps, Tally, WithPool, Subsidy, CheckBlock, AllChecked, SumLegacySigOps, ConnectTxs,
      TxConnects, StakeUntouched, StakeConnects;
    OpeningFacts(S, isFinal, opening, vtx, b);
    assert vtx[..|vtx|] == vtx && b.vtx[..|b.vtx|] == b.vtx;
    AssembledTxs(S, isFinal, opening, vtx, b, fs);
    AssembledTotals(S, isFinal, opening, vtx, b, fs, |vtx|);
    LegacyWithin(S.P, S.disk', S.db, S.ctx, b.vtx, |b.vtx|);
    if SumLegacySigOps(S.P, b.vtx) <= MAX_BLOCK_SIGOPS { AssembledChecks(S, isFinal, opening, vtx, b); }
    RewardHolds(S, isFinal, opening, vtx, b);
  }

  lemma RewardHolds(S: Site, isFinal: CTransaction -> bool, opening: seq<CTransaction>, vtx: seq<CTransaction>, b: CBlock)
    requires Sited(S, isFinal, opening, vtx, b)
    ensures |opening| == 2 ==>
      ValueOut(opening[0]) <= Subsidy(S.ctx.nHeight) + Tally(S.P, WithPool(S.disk, S.pool), S.db, vtx).nFees
  {
    hide Subsidy, Tally, WithPool, OnDisk, TxConnects, View, Overwritable;
    OpeningFacts(S, isFinal, opening, vtx, b);
    forall i | 0 <= i < |vtx| ensures !vtx[i].IsCoinBase() && !vtx[i].IsCoinStake() {
      PoolEntry(S, isFinal, opening, vtx, b, i);
    }
    FeesNotNegative(S.P, WithPool(S.disk, S.pool), S.db, S.prev, vtx, |vtx|);
    assert vtx[..|vtx|] == vtx;
    if |opening| == 2 { EmptyCoinbase(opening[0]); }
  }

  lemma EmptyCoinbase(tx: CTransaction)
    requires |tx.vout| == 1 && tx.vout[0].IsEmpty()
    ensures ValueOut(tx) == 0
  {
    assert tx.vout[..0] == [];
    assert SumOut(tx.vout[..0]) == 0;
  }

  /** ConnectBlock accepts an assembled block exactly when its ids differ and are free, no chosen
      transaction spends a coin of the coinstake, and the signature operations of the opening, which the
      miner does not count, still fit. The coinstake itself connects, and a proof-of-work coinbase claims
      at most subsidy and fees. */
  lemma AssembledBlockConnects(S: Site, isFinal: CTransaction -> bool, opening: seq<CTransaction>, vtx: seq<CTransaction>, b: CBlock, fs: bool)
    requires Arranged(S, isFinal, opening, vtx, b) && StakeConnects(S, opening, b, fs) && |b.vtx| >= |opening|
    requires S.P.headerOk(b) && AllChecked(S, opening)
    requires |opening| == 1 ==>
      ValueOut(opening[0]) <= Subsidy(S.ctx.nHeight) + Tally(S.P, WithPool(S.disk, S.pool), S.db, vtx).nFees
    ensures BlockConnects(S.P, S.disk', S.db, S.ctx, fs, b) <==>
      && FreshIds(S, b) && StakeUntouched(opening, vtx)
      && BlockSigOps(S.P, S.disk', S.db, S.ctx, b.vtx, |opening|) + Tally(S.P, WithPool(S.disk, S.pool), S.db, vtx).nSigOps <= MAX_BLOCK_SIGOPS
  {
    hide Arranged, BlockTotals, BlockSigOps, Tally, WithPool, Subsidy, AllChecked, SumLegacySigOps, ConnectTxs, CheckTransaction,
      TxConnects, StakeUntouched, StakeConnects, Overwritable;
    if FreshIds(S, b) { SitedBlockConnects(S, isFinal, opening, vtx, b, fs); }
  }

  /** With room for the opening in the hundred operations the miner sets aside, only the staked coins matter:
      a proof-of-work block is always accepted, a proof-of-stake block at least when nothing in the pool
      spends them. */
  lemma WithinMinersLimits(S: Site, isFinal: CTransaction -> bool, opening: seq<CTransaction>, vtx: seq<CTransaction>, b: CBlock, fs: bool)
    requires Sited(S, isFinal, opening, vtx, b) && StakeConnects(S, opening, b, fs) && |b.vtx| >= |opening|
    requires S.P.headerOk(b) && AllChecked(S, opening)
    requires var t := Tally(S.P, WithPool(S.disk, S.pool), S.db, vtx);
      && 100 + t.nSigOps < MAX_BLOCK_SIGOPS && BlockSigOps(S.P, S.disk', S.db, S.ctx, b.vtx, |opening|) <= 100
      && (|opening| == 1 ==> ValueOut(opening[0]) <= Subsidy(S.ctx.nHeight) + t.nFees)
    ensures BlockConnects(S.P, S.disk', S.db, S.ctx, fs, b) <==> StakeUntouched(opening, vtx)
    ensures |opening| == 1 || (forall h :: h in S.pool ==> Consumes(S.pool[h]) !! StakedCoins(opening)) ==>
      BlockConnects(S.P, S.disk', S.db, S.ctx, fs, b)
  {
    hide Sited, StakeConnects, AllChecked, BlockConnects, Tally, BlockSigOps, Subsidy, WithPool, Consumes;
    SitedBlockConnects(S, isFinal, opening, vtx, b, fs);
    forall i | 0 <= i < |vtx| ensures S.P.hash(vtx[i]) in S.pool && S.pool[S.P.hash(vtx[i])] == vtx[i] {
      PooledTx(S, isFinal, opening, vtx, b, i);
    }
  }

  lemma PooledTx(S: Site, isFinal: CTransaction -> bool, opening: seq<CTransaction>, vtx: seq<CTransaction>, b: CBlock, i: nat)
    requires Sited(S, isFinal, opening, vtx, b) && i < |vtx|
    ensures S.P.hash(vtx[i]) in S.pool && S.pool[S.P.hash(vtx[i])] == vtx[i]
  {
    hide Chosen, OnDisk, Opens, Overwritable, PoolOk;
    assert Eligible(S.pool, isFinal, S.P.hash(vtx[i]));
  }

  /** No outpoint is spent twice in the block, exactly when no chosen transaction spends a staked coin. */
  lemma BlockSpendsOnce(S: Site, isFinal: CTransaction -> bool, opening: seq<CTransaction>, vtx: seq<CTransaction>, b: CBlock)
    requires Sited(S, isFinal, opening, vtx, b)
    ensures (forall i, j :: 0 <= i < j < |b.vtx| ==> Consumes(b.vtx[i]) !! Consumes(b.vtx[j])) <==> StakeUntouched(opening, vtx)
  {
    hide OnDisk, NextContext, Chosen, Overwritable, Consumes, PoolOk, FromPool;
    OpeningFacts(S, isFinal, opening, vtx, b);
    NothingConsumed(opening[0]);
    forall i, j | 0 <= i < j < |vtx| ensures Consumes(vtx[i]) !! Consumes(vtx[j]) {
      ChosenApart(S, isFinal, opening, vtx, b, i, j);
    }
    forall i | 0 <= i < |vtx| ensures b.vtx[|opening| + i] == vtx[i] { }
    forall i | |opening| <= i < |b.vtx| ensures b.vtx[i] == vtx[i - |opening|] { }
    if |opening| == 2 { StakeAgainstChosen(opening, vtx, b); } else { StakeAlone(opening, vtx, b); }
  }

  lemma NothingConsumed(tx: CTransaction)
    requires tx.IsCoinBase()
    ensures Consumes(tx) == {}
  {
  }

  lemma StakeAlone(opening: seq<CTransaction>, vtx: seq<CTransaction>, b: CBlock)
    requires |opening| == 1 && Consumes(opening[0]) == {} && |b.vtx| == 1 + |vtx| && b.vtx[0] == opening[0]
    requires forall i :: 1 <= i < |b.vtx| ==> b.vtx[i] == vtx[i - 1]
    requires forall i, j :: 0 <= i < j < |vtx| ==> Consumes(vtx[i]) !! Consumes(vtx[j])
    ensures StakeUntouched(opening, vtx)
    ensures forall i, j :: 0 <= i < j < |b.vtx| ==> Consumes(b.vtx[i]) !! Consumes(b.vtx[j])
  {
    hide Consumes;
  }

  lemma StakeAgainstChosen(opening: seq<CTransaction>, vtx: seq<CTransaction>, b: CBlock)
    requires |opening| == 2 && Consumes(opening[0]) == {} && |b.vtx| == 2 + |vtx| && b.vtx[0] == opening[0] && b.vtx[1] == opening[1]
    requires forall i :: 2 <= i < |b.vtx| ==> b.vtx[i] == vtx[i - 2]
    requires forall i :: 0 <= i < |vtx| ==> b.vtx[2 + i] == vtx[i]
    requires forall i, j :: 0 <= i < j < |vtx| ==> Consumes(vtx[i]) !! Consumes(vtx[j])
    ensures (forall i, j :: 0 <= i < j < |b.vtx| ==> Consumes(b.vtx[i]) !! Consumes(b.vtx[j])) <==> StakeUntouched(opening, vtx)
  {
    hide Consumes;
    if StakeUntouched(opening, vtx) {
      forall i, j | 0 <= i < j < |b.vtx| ensures Consumes(b.vtx[i]) !! Consumes(b.vtx[j]) {
        if i >= 2 { assert Consumes(vtx[i - 2]) !! Consumes(vtx[j - 2]); }
        if i == 1 { assert Consumes(vtx[j - 2]) !! StakedCoins(opening); }
      }
    }
  }

  lemma ChosenApart(S: Site, isFinal: CTransaction -> bool, opening: seq<CTransaction>, vtx: seq<CTransaction>, b: CBlock, i: nat, j: nat)
    requires Sited(S, isFinal, opening, vtx, b) && i < j < |vtx|
    ensures Consumes(vtx[i]) !! Consumes(vtx[j])
  {
    hide OnDisk, NextContext, Chosen, Overwritable, Consumes, PoolOk, Opens;
    forall k | 0 <= k < |vtx| ensures b.vtx[|opening| + k] == vtx[k] { }
    assert IdsFree(S.P, S.db, vtx);
    forall o | o in Consumes(vtx[i]) ensures o !in Consumes(vtx[j]) {
      AssembledNoDoubleSpend(S.P, WithPool(S.disk, S.pool), S.db, S.prev, vtx, i, j, o);
    }
  }

  lemma CoinbaseConnects(P: Consensus, disk: Disk, db: TxIndexMap, view: TxIndexMap, ctx: BlockContext, fs: bool, tx: CTransaction)
    requires tx.IsCoinBase()
    ensures TxConnects(P, disk, db, view, ctx, fs, tx)
  {
  }
}
