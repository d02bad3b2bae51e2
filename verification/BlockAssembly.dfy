/**
 Assembling a block from the memory pool (CreateNewBlock in src/main.cpp). Transactions wait for the
 pool transactions they spend, are tried in some priority order, and are taken if the block still has
 room and the ledger rules allow them. Priorities and fee rates, floating point in the source, are real
 numbers given from outside; the queue may hand out its transactions in any order.
 */
module BlockAssembly {
  import opened Transactions
  import opened Utxo
  import opened Ledger
  import opened LedgerFacts
  import opened BlockTree
  import opened TxDb
  import opened Connect

  const MAX_BLOCK_SIZE_GEN := MAX_BLOCK_SIZE / 2

  /** The memory pool, keyed by transaction id. */
  type Pool = map<Hash256, CTransaction>

  predicate PoolOk(P: Consensus, pool: Pool) { forall h :: h in pool ==> P.hash(pool[h]) == h }

  /** ReadFromDisk of a previous transaction: it is indexed, stored, and has the output. */
  predicate OnChain(disk: Disk, db: TxIndexMap, o: COutPoint) {
    o.hash in db && db[o.hash].pos in disk && o.n < |disk[db[o.hash].pos].vout|
  }

  /** Which pool transactions are considered at all; `isFinal` stands for IsFinal. */
  predicate Eligible(pool: Pool, isFinal: CTransaction -> bool, h: Hash256) {
    h in pool && !pool[h].IsCoinBase() && !pool[h].IsCoinStake() && isFinal(pool[h])
  }

  /** The pool transactions a transaction has to wait for. */
  function Parents(disk: Disk, db: TxIndexMap, vin: seq<CTxIn>): set<Hash256> {
    set i | 0 <= i < |vin| && !OnChain(disk, db, vin[i].prevout) :: vin[i].prevout.hash
  }

  // ----- the order of dependency ------------------------------------------------------------------------------

  type Deps = map<Hash256, set<Hash256>>

  /** The work lists: the queue, what each waiting transaction waits for, and who waits for whom. */
  datatype Plan = Plan(vecPriority: seq<Hash256>, setDependsOn: Deps, mapDependers: map<Hash256, seq<Hash256>>)

  predicate Distinct(s: seq<Hash256>) { forall i, j :: 0 <= i < j < |s| ==> s[i] != s[j] }

  /** The static part: `all` maps every eligible transaction to its parents, `mapDependers` is the
      inverse of the non-empty ones. */
  ghost predicate Indexed(all: Deps, p: Plan) {
    && (forall h :: h in p.setDependsOn <==> h in all && all[h] != {})
    && (forall k, h :: h in all && k in all[h] ==> k in p.mapDependers && h in p.mapDependers[k])
    && (forall k, i :: k in p.mapDependers && 0 <= i < |p.mapDependers[k]| ==>
          p.mapDependers[k][i] in all && k in all[p.mapDependers[k][i]])
  }

  /** The moving part, after the transactions `popped` have been tried and `added` of them taken. */
  ghost predicate Scheduled(all: Deps, p: Plan, popped: set<Hash256>, added: set<Hash256>) {
    && Indexed(all, p) && Distinct(p.vecPriority) && added <= popped <= all.Keys
    && (forall h :: h in p.setDependsOn ==> p.setDependsOn[h] == all[h] - added)
    && (forall i :: 0 <= i < |p.vecPriority| ==>
          p.vecPriority[i] in all && p.vecPriority[i] !in popped && all[p.vecPriority[i]] <= added)
    && (forall h :: h in popped ==> all[h] <= added)
    && (forall h :: h in all && h !in popped && all[h] <= added ==> h in p.vecPriority)
  }

  /** The input is neither on the chain nor in the pool. */
  predicate Missing(disk: Disk, db: TxIndexMap, pool: Pool, o: COutPoint) {
    !OnChain(disk, db, o) && o.hash !in pool
  }

  /** The transactions that are considered: eligible, with no input missing. */
  predicate Considered(disk: Disk, db: TxIndexMap, pool: Pool, isFinal: CTransaction -> bool, h: Hash256) {
    Eligible(pool, isFinal, h) && forall i :: 0 <= i < |pool[h].vin| ==> !Missing(disk, db, pool, pool[h].vin[i].prevout)
  }

  /** The scan finds a missing input before it has entered the transaction anywhere. Otherwise the
      source removes a record that the lists still refer to, and what follows is not defined. */
  predicate MissesFirst(disk: Disk, db: TxIndexMap, pool: Pool, vin: seq<CTxIn>) {
    forall i, j :: 0 <= i < j < |vin| && !OnChain(disk, db, vin[i].prevout) && Missing(disk, db, pool, vin[j].prevout) ==>
      exists k :: 0 <= k <= i && Missing(disk, db, pool, vin[k].prevout)
  }

  /** The considered transactions, each with the pool transactions it spends. */
  function AllDeps(disk: Disk, db: TxIndexMap, pool: Pool, isFinal: CTransaction -> bool): Deps {
    map h | h in pool && Considered(disk, db, pool, isFinal, h) :: Parents(disk, db, pool[h].vin)
  }

  /** Collect the pool into the work lists; a transaction that misses an input is passed over. */
  method CollectPool(disk: Disk, txdb: CTxDB, pool: Pool, isFinal: CTransaction -> bool) returns (p: Plan)
    requires forall h :: Eligible(pool, isFinal, h) ==> MissesFirst(disk, txdb.Current().txindex, pool, pool[h].vin)
    ensures Scheduled(AllDeps(disk, txdb.Current().txindex, pool, isFinal), p, {}, {})
  {
    hide OnChain, Parents, Indexed, Missing, MissesFirst;
    ghost var db := txdb.Current().txindex;
    p := Plan([], map[], map[]);
    ghost var all: Deps := map[];
    var todo := pool.Keys;
    NothingIndexed();
    while todo != {}
      invariant todo <= pool.Keys
      invariant forall h :: h in all <==> Considered(disk, db, pool, isFinal, h) && h !in todo
      invariant forall h :: h in all ==> all[h] == Parents(disk, db, pool[h].vin)
      invariant Scheduled(all, p, {}, {})
      decreases todo
    {
      var h :| h in todo;
      todo := todo - {h};
      var tx := pool[h];
      if !tx.IsCoinBase() && !tx.IsCoinStake() && isFinal(tx) {
        assert Eligible(pool, isFinal, h);
        var fMissingInputs, deps, mapDependers := WaitFor(disk, txdb, pool, h, tx, p.mapDependers);
        if fMissingInputs { continue; }
        Enlist(all, p, h, deps, mapDependers);
        all := all[h := deps];
        if deps != {} {
          p := Plan(p.vecPriority, p.setDependsOn[h := deps], mapDependers);
        } else {
          p := Plan(p.vecPriority + [h], p.setDependsOn, mapDependers);
        }
      }
    }
    assert all == AllDeps(disk, db, pool, isFinal);
  }

  lemma NothingIndexed()
    ensures Scheduled(map[], Plan([], map[], map[]), {}, {})
  {
  }

  /** The entry `h` is appended to the list of every parent, once for each input from it. */
  ghost predicate Extended(h: Hash256, deps: set<Hash256>, before: map<Hash256, seq<Hash256>>, after: map<Hash256, seq<Hash256>>) {
    && (forall k :: k in before ==> k in after && before[k] <= after[k])
    && (forall k :: k in deps ==> k in after && h in after[k])
    && (forall k, i :: k in after && 0 <= i < |after[k]| ==> Accounted(h, deps, before, after, k, i))
  }

  /** An element of a list was there before, or is the new entry in the list of a parent. */
  ghost predicate Accounted(h: Hash256, deps: set<Hash256>, before: map<Hash256, seq<Hash256>>, after: map<Hash256, seq<Hash256>>,
                            k: Hash256, i: nat)
    requires k in after && i < |after[k]|
  {
    (k in before && i < |before[k]|) || (after[k][i] == h && k in deps)
  }

  lemma ExtendOnce(h: Hash256, deps: set<Hash256>, before: map<Hash256, seq<Hash256>>, after: map<Hash256, seq<Hash256>>,
                   k: Hash256, list: seq<Hash256>)
    requires Extended(h, deps, before, after) && list == (if k in after then after[k] else []) + [h]
    ensures Extended(h, deps + {k}, before, after[k := list])
  {
    var deps', after' := deps + {k}, after[k := list];
    assert list[|list| - 1] == h;
    forall x | x in deps' ensures x in after' && h in after'[x] {
      if x != k { assert h in after[x]; }
    }
    forall x | x in before ensures x in after' && before[x] <= after'[x] {
      if x == k { assert list[..|after[k]|] == after[k] && before[k] == after[k][..|before[k]|] == list[..|before[k]|]; }
    }
    forall x, i | x in after' && 0 <= i < |after'[x]| ensures Accounted(h, deps', before, after', x, i) {
      if x != k || i < |list| - 1 {
        assert x in after && after'[x][i] == after[x][i];
        assert Accounted(h, deps, before, after, x, i);
      }
    }
  }

  /** Go through the inputs; the lists stay as they are if one is missing. */
  method WaitFor(disk: Disk, txdb: CTxDB, pool: Pool, h: Hash256, tx: CTransaction, before: map<Hash256, seq<Hash256>>)
    returns (fMissingInputs: bool, deps: set<Hash256>, after: map<Hash256, seq<Hash256>>)
    requires MissesFirst(disk, txdb.Current().txindex, pool, tx.vin)
    ensures fMissingInputs <==> exists i :: 0 <= i < |tx.vin| && Missing(disk, txdb.Current().txindex, pool, tx.vin[i].prevout)
    ensures if fMissingInputs then after == before
      else deps == Parents(disk, txdb.Current().txindex, tx.vin) && Extended(h, deps, before, after)
  {
    hide OnChain, Extended, Parents, MissesFirst;
    ghost var db := txdb.Current().txindex;
    fMissingInputs, deps, after := false, {}, before;
    NotExtended(h, before);
    assert tx.vin[..0] == [];
    NoParents(disk, db);
    for i := 0 to |tx.vin|
      invariant deps == Parents(disk, db, tx.vin[..i]) && Extended(h, deps, before, after)
      invariant forall k :: 0 <= k < i ==> !Missing(disk, db, pool, tx.vin[k].prevout)
      invariant after != before ==> exists k :: 0 <= k < i && !OnChain(disk, db, tx.vin[k].prevout)
    {
      var prevout := tx.vin[i].prevout;
      NextParent(disk, db, tx.vin, i);
      if !OnChain(disk, txdb.Current().txindex, prevout) {
        if prevout.hash !in pool {
          if after != before { NoneWaits(disk, db, pool, tx.vin, i); }
          return true, {}, after;
        }
        var list := (if prevout.hash in after then after[prevout.hash] else []) + [h];
        ExtendOnce(h, deps, before, after, prevout.hash, list);
        after := after[prevout.hash := list];
        deps := deps + {prevout.hash};
      }
    }
    assert tx.vin[..|tx.vin|] == tx.vin;
  }

  lemma NoneWaits(disk: Disk, db: TxIndexMap, pool: Pool, vin: seq<CTxIn>, j: nat)
    requires MissesFirst(disk, db, pool, vin) && j < |vin| && Missing(disk, db, pool, vin[j].prevout)
    requires forall k :: 0 <= k < j ==> !Missing(disk, db, pool, vin[k].prevout)
    ensures forall k :: 0 <= k < j ==> OnChain(disk, db, vin[k].prevout)
  {
    hide OnChain;
  }

  lemma NoParents(disk: Disk, db: TxIndexMap)
    ensures Parents(disk, db, []) == {}
  {
  }

  lemma NotExtended(h: Hash256, before: map<Hash256, seq<Hash256>>)
    ensures Extended(h, {}, before, before)
  {
  }

  lemma NextParent(disk: Disk, db: TxIndexMap, vin: seq<CTxIn>, i: nat)
    requires i < |vin|
    ensures Parents(disk, db, vin[..i + 1]) ==
      Parents(disk, db, vin[..i]) + if OnChain(disk, db, vin[i].prevout) then {} else {vin[i].prevout.hash}
  {
    hide OnChain;
    var a, b := Parents(disk, db, vin[..i]), Parents(disk, db, vin[..i + 1]);
    forall k | k in a ensures k in b {
      var j :| 0 <= j < i && !OnChain(disk, db, vin[..i][j].prevout) && vin[..i][j].prevout.hash == k;
      assert vin[..i + 1][j] == vin[j];
    }
    forall k | k in b ensures k in a || (!OnChain(disk, db, vin[i].prevout) && k == vin[i].prevout.hash) {
      var j :| 0 <= j < i + 1 && !OnChain(disk, db, vin[..i + 1][j].prevout) && vin[..i + 1][j].prevout.hash == k;
      if j < i { assert vin[..i][j] == vin[j]; }
    }
    if !OnChain(disk, db, vin[i].prevout) { assert vin[..i + 1][i] == vin[i]; }
  }

  lemma EnlistIndexed(all: Deps, p: Plan, h: Hash256, deps: set<Hash256>, after: map<Hash256, seq<Hash256>>, p': Plan)
    requires Indexed(all, p) && h !in all && Extended(h, deps, p.mapDependers, after)
    requires p'.mapDependers == after
    requires p'.setDependsOn == if deps == {} then p.setDependsOn else p.setDependsOn[h := deps]
    ensures Indexed(all[h := deps], p')
  {
    var all' := all[h := deps];
    forall k, i | k in after && 0 <= i < |after[k]| ensures after[k][i] in all' && k in all'[after[k][i]] {
      assert Accounted(h, deps, p.mapDependers, after, k, i);
      if k in p.mapDependers && i < |p.mapDependers[k]| { assert after[k][i] == p.mapDependers[k][i]; }
    }
    forall k, x | x in all' && k in all'[x] ensures k in after && x in after[k] {
      if x != h {
        assert x in p.mapDependers[k];
        var i :| 0 <= i < |p.mapDependers[k]| && p.mapDependers[k][i] == x;
        assert after[k][i] == x;
      }
    }
  }

  lemma Enlist(all: Deps, p: Plan, h: Hash256, deps: set<Hash256>, after: map<Hash256, seq<Hash256>>)
    requires Scheduled(all, p, {}, {}) && h !in all && Extended(h, deps, p.mapDependers, after)
    ensures deps != {} ==> Scheduled(all[h := deps], Plan(p.vecPriority, p.setDependsOn[h := deps], after), {}, {})
    ensures deps == {} ==> Scheduled(all[h := deps], Plan(p.vecPriority + [h], p.setDependsOn, after), {}, {})
  {
    hide Extended;
    if deps == {} {
      EnlistIndexed(all, p, h, deps, after, Plan(p.vecPriority + [h], p.setDependsOn, after));
    } else {
      EnlistIndexed(all, p, h, deps, after, Plan(p.vecPriority, p.setDependsOn[h := deps], after));
    }
  }

  /** Take the transaction at `i` off the queue. */
  lemma Popped(all: Deps, p: Plan, popped: set<Hash256>, added: set<Hash256>, i: nat)
    requires Scheduled(all, p, popped, added) && i < |p.vecPriority|
    ensures var h := p.vecPriority[i];
      && h in all && h !in popped && all[h] <= added
      && Scheduled(all, p.(vecPriority := p.vecPriority[..i] + p.vecPriority[i + 1..]), popped + {h}, added)
  {
    var q := p.vecPriority[..i] + p.vecPriority[i + 1..];
    forall j | 0 <= j < |q| ensures q[j] == p.vecPriority[if j < i then j else j + 1] {}
  }

  /** While the dependers of `h` are gone through: those in `done` have dropped it. */
  ghost predicate Releasing(all: Deps, p: Plan, popped: set<Hash256>, added: set<Hash256>, h: Hash256, done: seq<Hash256>) {
    && Distinct(p.vecPriority)
    && (forall x :: x in p.setDependsOn <==> x in all && all[x] != {})
    && (forall x :: x in p.setDependsOn ==> p.setDependsOn[x] == all[x] - added - if x in done then {h} else {})
    && (forall i :: 0 <= i < |p.vecPriority| ==> Ready(all, p, popped, added + {h}, p.vecPriority[i]))
    && (forall x :: x in all && x !in popped && all[x] <= added + {h} && (h in all[x] ==> x in done) ==> x in p.vecPriority)
  }

  ghost predicate Ready(all: Deps, p: Plan, popped: set<Hash256>, added: set<Hash256>, x: Hash256) {
    && x in all && x !in popped && all[x] <= added
    && (x in p.setDependsOn ==> p.setDependsOn[x] == {})
  }

  lemma ReleaseStart(all: Deps, p: Plan, popped: set<Hash256>, added: set<Hash256>, h: Hash256)
    requires Scheduled(all, p, popped, added)
    ensures Releasing(all, p, popped, added, h, [])
  {
  }

  /** One depender: it drops `h`, and joins the queue if that was the last it waited for. */
  lemma ReleaseOne(all: Deps, p: Plan, popped: set<Hash256>, added: set<Hash256>, h: Hash256, done: seq<Hash256>, x: Hash256)
    requires Releasing(all, p, popped, added, h, done) && x in p.setDependsOn && h in all[x] && h !in added
    requires forall y :: y in popped ==> y in all && all[y] <= added
    ensures var rest := p.setDependsOn[x] - {h};
      var p' := p.(setDependsOn := p.setDependsOn[x := rest]);
      && (p.setDependsOn[x] == {} ==> Releasing(all, p, popped, added, h, done + [x]))
      && (p.setDependsOn[x] != {} && rest != {} ==> Releasing(all, p', popped, added, h, done + [x]))
      && (p.setDependsOn[x] != {} && rest == {} ==>
            Releasing(all, p'.(vecPriority := p.vecPriority + [x]), popped, added, h, done + [x]))
  {
    assert forall y :: y in done + [x] <==> y in done || y == x;
    assert h in all[x] - added;
  }

  lemma ReleaseEnd(all: Deps, p: Plan, popped: set<Hash256>, added: set<Hash256>, h: Hash256, done: seq<Hash256>)
    requires Indexed(all, p) && Releasing(all, p, popped, added, h, done) && h in popped && added <= popped <= all.Keys
    requires forall x :: x in all && h in all[x] ==> x in done
    requires forall y :: y in popped ==> all[y] <= added
    ensures Scheduled(all, p, popped, added + {h})
  {
  }

  lemma DependersOf(all: Deps, p: Plan, h: Hash256, popped: set<Hash256>, added: set<Hash256>)
    requires Scheduled(all, p, popped, added)
    ensures Indexed(all, p) && added <= popped <= all.Keys && forall y :: y in popped ==> y in all && all[y] <= added
    ensures forall x :: x in all && h in all[x] ==> h in p.mapDependers && x in p.mapDependers[h]
  {
  }

  lemma Depender(all: Deps, p: Plan, h: Hash256, x: Hash256, i: nat)
    requires Indexed(all, p) && h in p.mapDependers && i < |p.mapDependers[h]| && p.mapDependers[h][i] == x
    ensures x in all && h in all[x] && x in p.setDependsOn
  {
  }

  /** Queue and waiting sets may change; who is indexed does not. */
  lemma SameKeysIndexed(all: Deps, p: Plan, p': Plan)
    requires Indexed(all, p) && p'.setDependsOn.Keys == p.setDependsOn.Keys && p'.mapDependers == p.mapDependers
    ensures Indexed(all, p')
  {
  }

  /** `h` has been taken: whoever waited for it last joins the queue. */
  method Release(ghost all: Deps, p0: Plan, ghost popped: set<Hash256>, ghost added: set<Hash256>, h: Hash256) returns (p: Plan)
    requires Scheduled(all, p0, popped, added) && h in popped && h !in added
    ensures Scheduled(all, p, popped, added + {h})
  {
    hide Releasing, Indexed, Scheduled;
    p := p0;
    ReleaseStart(all, p, popped, added, h);
    DependersOf(all, p, h, popped, added);
    var list: seq<Hash256> := if h in p.mapDependers then p.mapDependers[h] else [];
    assert list[..0] == [];
    for i := 0 to |list|
      invariant Releasing(all, p, popped, added, h, list[..i])
      invariant Indexed(all, p) && p.mapDependers == p0.mapDependers
    {
      var x := list[i];
      assert list[..i + 1] == list[..i] + [x];
      Depender(all, p, h, x, i);
      ReleaseOne(all, p, popped, added, h, list[..i], x);
      ghost var q := p;
      if p.setDependsOn[x] != {} {
        p := p.(setDependsOn := p.setDependsOn[x := p.setDependsOn[x] - {h}]);
        if p.setDependsOn[x] == {} {
          p := p.(vecPriority := p.vecPriority + [x]);
        }
      }
      assert p.setDependsOn.Keys == q.setDependsOn.Keys;
      SameKeysIndexed(all, q, p);
    }
    assert list[..|list|] == list;
    ghost var done := list;
    ReleaseEnd(all, p, popped, added, h, done);
  }

  // ----- taking transactions ----------------------------------------------------------------------------------

  /** The block files together with the pool. */
  function WithPool(disk: Disk, pool: Pool): Disk {
    disk + map pos | pos in set h | h in pool :: MemPos(h) :: pool[pos.id]
  }

  /** The index the chosen transactions leave: their outputs stand under the memory-pool position. */
  function View(P: Consensus, db: TxIndexMap, vtx: seq<CTransaction>): TxIndexMap {
    if vtx == [] then db
    else
      var tx := vtx[|vtx|-1];
      ConnectTx(P, View(P, db, vtx[..|vtx|-1]), tx, MemPos(P.hash(tx)))
  }

  /** Every chosen transaction passes the ledger rules on what its predecessors leave. */
  predicate Chosen(P: Consensus, disk: Disk, db: TxIndexMap, ctx: BlockContext, vtx: seq<CTransaction>) {
    forall i :: 0 <= i < |vtx| ==> TxConnects(P, disk, db, View(P, db, vtx[..i]), ctx, true, vtx[i])
  }

  /** The running totals of the block. */
  datatype Sums = Sums(nSize: nat, nSigOps: nat, nFees: int)

  function Tally(P: Consensus, disk: Disk, db: TxIndexMap, vtx: seq<CTransaction>): Sums {
    if vtx == [] then Sums(0, 0, 0)
    else
      var front, tx := vtx[..|vtx|-1], vtx[|vtx|-1];
      var t, view := Tally(P, disk, db, front), View(P, db, front);
      Sums(t.nSize + P.size(tx), t.nSigOps + SigOps(P, disk, view, tx), t.nFees + ValueIn(disk, view, tx) - ValueOut(tx))
  }

  /** GetMinFee in block mode: the price rises as the block approaches half the generation limit. */
  function BlockMinFee(P: Consensus, tx: CTransaction, nBlockSize: nat): int {
    var nBytes := P.size(tx);
    var nNewBlockSize := nBlockSize + nBytes;
    var base := (1 + nBytes / 1000) * MIN_TX_FEE;
    if nBlockSize != 1 && nNewBlockSize >= MAX_BLOCK_SIZE_GEN / 2 then
      if nNewBlockSize >= MAX_BLOCK_SIZE_GEN then MAX_MONEY
      else
        var fee := base * (MAX_BLOCK_SIZE_GEN / (MAX_BLOCK_SIZE_GEN - nNewBlockSize));
        if MoneyRange(fee) then fee else MAX_MONEY
    else if MoneyRange(base) then base else MAX_MONEY
  }

  /** CTransaction::GetMinFee for a block. */
  method GetMinFee(P: Consensus, tx: CTransaction, nBlockSize: nat) returns (nMinFee: int)
    ensures nMinFee == BlockMinFee(P, tx, nBlockSize)
  {
    var nBytes := P.size(tx);
    var nNewBlockSize := nBlockSize + nBytes;
    nMinFee := (1 + nBytes / 1000) * MIN_TX_FEE;
    if nBlockSize != 1 && nNewBlockSize >= MAX_BLOCK_SIZE_GEN / 2 {
      if nNewBlockSize >= MAX_BLOCK_SIZE_GEN { return MAX_MONEY; }
      nMinFee := nMinFee * (MAX_BLOCK_SIZE_GEN / (MAX_BLOCK_SIZE_GEN - nNewBlockSize));
    }
    if !MoneyRange(nMinFee) { nMinFee := MAX_MONEY; }
  }

  /** A hundred units for every thousand bytes begun, as long as the block is not half full; then as many
      times that as the room left goes into 500000; and out of reach once it is full. */
  lemma FeeInBlock(P: Consensus, tx: CTransaction, nBlockSize: nat)
    requires P.size(tx) <= 1_000_000 && nBlockSize != 1
    ensures var base, size := 100 * (1 + P.size(tx) / 1000), nBlockSize + P.size(tx);
      && (size < 250_000 ==> BlockMinFee(P, tx, nBlockSize) == base)
      && (250_000 <= size < 500_000 ==> BlockMinFee(P, tx, nBlockSize) == base * (500_000 / (500_000 - size)))
      && (size >= 500_000 ==> BlockMinFee(P, tx, nBlockSize) == 156_000_000_000_000)
  {
    var base, size := 100 * (1 + P.size(tx) / 1000), nBlockSize + P.size(tx);
    if size < 500_000 { PriceInRange(base, 500_000 - size); }
  }

  lemma PriceInRange(base: int, room: int)
    requires 0 <= base <= 100_100 && 1 <= room <= 500_000
    ensures MoneyRange(base * (500_000 / room))
  {
    Quotient(room);
    Product(base, 500_000 / room);
  }

  lemma Quotient(room: int)
    requires 1 <= room <= 500_000
    ensures 0 <= 500_000 / room <= 500_000
  {
  }

  lemma Product(a: int, k: int)
    requires 0 <= a <= 100_100 && 0 <= k <= 500_000
    ensures 0 <= a * k <= 50_050_000_000
  {
    assert a * k <= 100_100 * k by { assert (100_100 - a) * k >= 0; }
  }

  /** The command line's limits, the clock's, and the figures CreateNewBlock computes per transaction. */
  datatype Policy = Policy(nBlockMaxSize: nat, nBlockMinSize: nat, nBlockPrioritySize: nat, nMinTxFee: int, nTimeLimit: nat,
    dPriority: CTransaction -> real, dFeePerKb: CTransaction -> real)

  const HIGH_PRIORITY := 576_000.0

  /** Once the queue is sorted by fee: free transactions are skipped past the minimum block size. */
  predicate TooCheap(L: Policy, tx: CTransaction, nNewSize: nat) {
    L.dFeePerKb(tx) < L.nMinTxFee as real && nNewSize >= L.nBlockMinSize
  }

  /** The transaction fits into the block and passes the ledger rules and pays enough. */
  predicate Acceptable(P: Consensus, disk: Disk, db: TxIndexMap, ctx: BlockContext, L: Policy, view: TxIndexMap,
      nBlockSize: nat, nBlockSigOps: nat, tx: CTransaction)
  {
    && nBlockSize + P.size(tx) < L.nBlockMaxSize && nBlockSigOps + SigOps(P, disk, view, tx) < MAX_BLOCK_SIGOPS
    && tx.nTime <= L.nTimeLimit && TxConnects(P, disk, db, view, ctx, true, tx)
    && ValueIn(disk, view, tx) - ValueOut(tx) >= BlockMinFee(P, tx, nBlockSize)
  }

  /** The tests before the fee ones. */
  predicate Fits(P: Consensus, L: Policy, nBlockSize: nat, nBlockSigOps: nat, tx: CTransaction) {
    && nBlockSize + P.size(tx) < L.nBlockMaxSize && nBlockSigOps + P.legacySigOps(tx) < MAX_BLOCK_SIGOPS
    && tx.nTime <= L.nTimeLimit
  }

  /** With this transaction the part of the block kept for high priorities ends. */
  predicate EndsPriority(L: Policy, tx: CTransaction, nNewSize: nat) {
    nNewSize >= L.nBlockPrioritySize || L.dPriority(tx) < HIGH_PRIORITY
  }

  /** The least fee, and the two fee tests of the loop. */
  method FeeTests(P: Consensus, L: Policy, tx: CTransaction, nBlockSize: nat) returns (nMinFee: int, fFree: bool, fNext: bool)
    ensures nMinFee == BlockMinFee(P, tx, nBlockSize)
    ensures fFree == TooCheap(L, tx, nBlockSize + P.size(tx)) && fNext == EndsPriority(L, tx, nBlockSize + P.size(tx))
  {
    var nNewSize := nBlockSize + P.size(tx);
    nMinFee := GetMinFee(P, tx, nBlockSize);
    fFree := L.dFeePerKb(tx) < L.nMinTxFee as real && nNewSize >= L.nBlockMinSize;
    fNext := nNewSize >= L.nBlockPrioritySize || L.dPriority(tx) < (COIN * 144 / 250) as real;
  }

  /** Try one transaction on top of the chosen ones. */
  method Consider(P: Consensus, disk: Disk, txdb: CTxDB, mapTestPool0: TxIndexMap, tx: CTransaction, pindexPrev: CBlockIndex,
      nBlockSize: nat, nBlockSigOps: nat, L: Policy, fSortedByFee: bool, ghost vtx: seq<CTransaction>)
    returns (ok: bool, mapTestPool: TxIndexMap, nTxSigOps: nat, nTxFees: int, fSorted: bool)
    requires WellLinked(pindexPrev) && !tx.IsCoinBase()
    requires txdb.Current().txindex + mapTestPool0 == View(P, txdb.Current().txindex, vtx)
    modifies txdb`failures
    ensures txdb.failures >= old(txdb.failures)
    ensures var dbv := txdb.Current().txindex; var view := View(P, dbv, vtx);
      && (ok <==> txdb.failures == old(txdb.failures)
                  && Acceptable(P, disk, dbv, Context(pindexPrev), L, view, nBlockSize, nBlockSigOps, tx)
                  && !(fSortedByFee && TooCheap(L, tx, nBlockSize + P.size(tx))))
      && (ok ==> dbv + mapTestPool == ConnectTx(P, view, tx, MemPos(P.hash(tx)))
                 && nTxSigOps == SigOps(P, disk, view, tx) && nTxFees == ValueIn(disk, view, tx) - ValueOut(tx))
    ensures fSorted == (fSortedByFee || (Fits(P, L, nBlockSize, nBlockSigOps, tx) && EndsPriority(L, tx, nBlockSize + P.size(tx))))
  {
    hide View, MarkAll, InputsConnect, AllAvailable, SumOut, BlockMinFee, Recent, TooCheap, EndsPriority, TxConnects, ConnectTx;
    ok, mapTestPool, nTxSigOps, nTxFees, fSorted := false, mapTestPool0, 0, 0, fSortedByFee;
    var nTxSize := P.size(tx);
    if nBlockSize + nTxSize >= L.nBlockMaxSize { return; }
    nTxSigOps := P.legacySigOps(tx);
    if nBlockSigOps + nTxSigOps >= MAX_BLOCK_SIGOPS { return; }
    if tx.nTime > L.nTimeLimit { return; }
    var nMinFee, fFree, fNext := FeeTests(P, L, tx, nBlockSize);
    if fSortedByFee && fFree { return; }
    if !fSortedByFee && fNext { fSorted := true; }
    ok, mapTestPool, nTxSigOps, nTxFees := TryConnect(P, disk, txdb, mapTestPool0, tx, pindexPrev, nTxSigOps, nBlockSigOps, nMinFee, vtx);
  }

  /** The rest of the loop body: fetch and connect the inputs on the test pool. */
  method TryConnect(P: Consensus, disk: Disk, txdb: CTxDB, mapTestPool0: TxIndexMap, tx: CTransaction, pindexPrev: CBlockIndex,
      nLegacy: nat, nBlockSigOps: nat, nMinFee: int, ghost vtx: seq<CTransaction>)
    returns (ok: bool, mapTestPool: TxIndexMap, nTxSigOps: nat, nTxFees: int)
    requires WellLinked(pindexPrev) && !tx.IsCoinBase() && nLegacy == P.legacySigOps(tx)
    requires txdb.Current().txindex + mapTestPool0 == View(P, txdb.Current().txindex, vtx)
    modifies txdb`failures
    ensures txdb.failures >= old(txdb.failures)
    ensures var dbv := txdb.Current().txindex; var view := View(P, dbv, vtx);
      && (ok <==> txdb.failures == old(txdb.failures) && nBlockSigOps + SigOps(P, disk, view, tx) < MAX_BLOCK_SIGOPS
                  && TxConnects(P, disk, dbv, view, Context(pindexPrev), true, tx) && ValueIn(disk, view, tx) - ValueOut(tx) >= nMinFee)
      && (ok ==> dbv + mapTestPool == ConnectTx(P, view, tx, MemPos(P.hash(tx)))
                 && nTxSigOps == SigOps(P, disk, view, tx) && nTxFees == ValueIn(disk, view, tx) - ValueOut(tx))
  {
    hide View, MarkAll, InputsConnect, AllAvailable, SumOut, Recent;
    ghost var view := txdb.Current().txindex + mapTestPool0;
    ok, mapTestPool, nTxSigOps, nTxFees := false, mapTestPool0, nLegacy, 0;
    var fFetched, mapInputs, fInvalid := FetchInputs(disk, txdb, mapTestPool, tx);
    if !fFetched { return; }
    var prevouts := InputCoins(disk, view, tx, mapInputs);
    nTxFees := SumOut(prevouts) - ValueOut(tx);
    if nTxFees < nMinFee { return; }
    nTxSigOps := nTxSigOps + P.p2shSigOps(tx, prevouts);
    if nBlockSigOps + nTxSigOps >= MAX_BLOCK_SIGOPS { return; }
    var fConnected, tmp := ConnectInputs(P, disk, txdb, mapInputs, mapTestPool, MemPos(P.hash(tx)), pindexPrev, true, tx);
    if !fConnected { return; }
    var hash := P.hash(tx);
    mapTestPool := tmp[hash := NewIndex(MemPos(hash), tx)];
    assert txdb.Current().txindex + mapTestPool == (txdb.Current().txindex + tmp)[hash := NewIndex(MemPos(hash), tx)];
    ok := true;
  }

  lemma ChooseNext(P: Consensus, disk: Disk, db: TxIndexMap, ctx: BlockContext, vtx: seq<CTransaction>, tx: CTransaction)
    requires Chosen(P, disk, db, ctx, vtx) && TxConnects(P, disk, db, View(P, db, vtx), ctx, true, tx)
    ensures Chosen(P, disk, db, ctx, vtx + [tx])
  {
    hide TxConnects, View;
    var all := vtx + [tx];
    forall i | 0 <= i < |all| ensures TxConnects(P, disk, db, View(P, db, all[..i]), ctx, true, all[i]) {
      assert all[..i] == vtx[..i];
      if i == |vtx| { assert vtx[..i] == vtx; }
    }
  }

  lemma TallyNext(P: Consensus, disk: Disk, db: TxIndexMap, vtx: seq<CTransaction>, tx: CTransaction)
    ensures View(P, db, vtx + [tx]) == ConnectTx(P, View(P, db, vtx), tx, MemPos(P.hash(tx)))
    ensures var t, view := Tally(P, disk, db, vtx), View(P, db, vtx);
      Tally(P, disk, db, vtx + [tx]) ==
        Sums(t.nSize + P.size(tx), t.nSigOps + SigOps(P, disk, view, tx), t.nFees + ValueIn(disk, view, tx) - ValueOut(tx))
  {
    hide ConnectTx, SigOps, ValueIn;
    assert (vtx + [tx])[..|vtx|] == vtx;
  }

  /** The transaction ids of a list. */
  function Ids(P: Consensus, vtx: seq<CTransaction>): seq<Hash256> {
    seq<Hash256>(|vtx|, i requires 0 <= i < |vtx| => P.hash(vtx[i]))
  }

  /** Every input of every transaction is on the chain, or comes from an earlier one of the list. */
  predicate ParentsFirst(P: Consensus, disk: Disk, db: TxIndexMap, vtx: seq<CTransaction>) {
    forall i, k :: 0 <= i < |vtx| && 0 <= k < |vtx[i].vin| ==>
      OnChain(disk, db, vtx[i].vin[k].prevout) || vtx[i].vin[k].prevout.hash in Ids(P, vtx[..i])
  }

  /** The list is drawn from the pool, without repetition. */
  ghost predicate FromPool(P: Consensus, pool: Pool, isFinal: CTransaction -> bool, vtx: seq<CTransaction>) {
    && Distinct(Ids(P, vtx))
    && (forall i :: 0 <= i < |vtx| ==> Eligible(pool, isFinal, P.hash(vtx[i])) && pool[P.hash(vtx[i])] == vtx[i])
  }

  function IdSet(P: Consensus, vtx: seq<CTransaction>): set<Hash256> { set h | h in Ids(P, vtx) }

  lemma DrawNext(P: Consensus, disk: Disk, db: TxIndexMap, pool: Pool, isFinal: CTransaction -> bool, vtx: seq<CTransaction>, h: Hash256)
    requires FromPool(P, pool, isFinal, vtx) && ParentsFirst(P, disk, db, vtx)
    requires Eligible(pool, isFinal, h) && P.hash(pool[h]) == h && h !in IdSet(P, vtx)
    requires Parents(disk, db, pool[h].vin) <= IdSet(P, vtx)
    ensures FromPool(P, pool, isFinal, vtx + [pool[h]]) && ParentsFirst(P, disk, db, vtx + [pool[h]])
    ensures IdSet(P, vtx + [pool[h]]) == IdSet(P, vtx) + {h}
  {
    hide OnChain;
    var tx := pool[h];
    var all := vtx + [tx];
    assert Ids(P, all) == Ids(P, vtx) + [h];
    forall i, k | 0 <= i < |all| && 0 <= k < |all[i].vin|
      ensures OnChain(disk, db, all[i].vin[k].prevout) || all[i].vin[k].prevout.hash in Ids(P, all[..i])
    {
      assert all[..i] == vtx[..i];
      if i == |vtx| {
        assert vtx[..i] == vtx;
        if !OnChain(disk, db, tx.vin[k].prevout) { assert tx.vin[k].prevout.hash in Parents(disk, db, tx.vin); }
      }
    }
  }

  /** The transaction was not good enough on top of the first `k` chosen ones, or too cheap for it. */
  predicate RefusedAt(P: Consensus, disk: Disk, db: TxIndexMap, ctx: BlockContext, L: Policy, chosen: seq<CTransaction>, tx: CTransaction) {
    var t := Tally(P, disk, db, chosen);
    || !Acceptable(P, disk, db, ctx, L, View(P, db, chosen), 1000 + t.nSize, 100 + t.nSigOps, tx)
    || TooCheap(L, tx, 1000 + t.nSize + P.size(tx))
  }

  /** There was a moment in the assembly when the transaction was turned down. */
  ghost predicate Refused(P: Consensus, disk: Disk, db: TxIndexMap, ctx: BlockContext, L: Policy, vtx: seq<CTransaction>, tx: CTransaction) {
    exists k :: 0 <= k <= |vtx| && RefusedAt(P, disk, db, ctx, L, vtx[..k], tx)
  }

  lemma StillRefused(P: Consensus, disk: Disk, db: TxIndexMap, ctx: BlockContext, L: Policy, vtx: seq<CTransaction>, last: CTransaction, tx: CTransaction)
    requires Refused(P, disk, db, ctx, L, vtx, tx)
    ensures Refused(P, disk, db, ctx, L, vtx + [last], tx)
  {
    hide RefusedAt;
    var k :| 0 <= k <= |vtx| && RefusedAt(P, disk, db, ctx, L, vtx[..k], tx);
    assert (vtx + [last])[..k] == vtx[..k];
  }

  lemma RefusedNow(P: Consensus, disk: Disk, db: TxIndexMap, ctx: BlockContext, L: Policy, vtx: seq<CTransaction>, tx: CTransaction)
    requires RefusedAt(P, disk, db, ctx, L, vtx, tx)
    ensures Refused(P, disk, db, ctx, L, vtx, tx)
  {
    hide RefusedAt;
    assert vtx[..|vtx|] == vtx;
  }

  /** The tried ones that were not taken were refused. */
  ghost predicate AllRefused(P: Consensus, disk: Disk, db: TxIndexMap, ctx: BlockContext, L: Policy, pool: Pool, vtx: seq<CTransaction>, tried: set<Hash256>) {
    forall h :: h in tried && h in pool && h !in IdSet(P, vtx) ==> Refused(P, disk, db, ctx, L, vtx, pool[h])
  }

  lemma AllRefusedTaken(P: Consensus, disk: Disk, db: TxIndexMap, ctx: BlockContext, L: Policy, pool: Pool, vtx: seq<CTransaction>, tried: set<Hash256>, h: Hash256)
    requires AllRefused(P, disk, db, ctx, L, pool, vtx, tried) && h in pool
    requires IdSet(P, vtx + [pool[h]]) == IdSet(P, vtx) + {h}
    ensures AllRefused(P, disk, db, ctx, L, pool, vtx + [pool[h]], tried + {h})
  {
    hide Refused, IdSet;
    forall x | x in tried + {h} && x in pool && x !in IdSet(P, vtx + [pool[h]])
      ensures Refused(P, disk, db, ctx, L, vtx + [pool[h]], pool[x])
    {
      StillRefused(P, disk, db, ctx, L, vtx, pool[h], pool[x]);
    }
  }

  lemma NothingTried(P: Consensus, disk: Disk, db: TxIndexMap, ctx: BlockContext, L: Policy, pool: Pool)
    ensures AllRefused(P, disk, db, ctx, L, pool, [], {})
  {
  }

  lemma RefusedWhy(P: Consensus, disk: Disk, db: TxIndexMap, ctx: BlockContext, L: Policy, vtx: seq<CTransaction>, tx: CTransaction,
      nBlockSize: nat, nBlockSigOps: nat)
    requires nBlockSize == 1000 + Tally(P, disk, db, vtx).nSize && nBlockSigOps == 100 + Tally(P, disk, db, vtx).nSigOps
    requires !Acceptable(P, disk, db, ctx, L, View(P, db, vtx), nBlockSize, nBlockSigOps, tx) || TooCheap(L, tx, nBlockSize + P.size(tx))
    ensures Refused(P, disk, db, ctx, L, vtx, tx)
  {
    hide Acceptable, TooCheap, Refused, View, Tally;
    RefusedNow(P, disk, db, ctx, L, vtx, tx);
  }

  lemma NotTaken(P: Consensus, disk: Disk, db: TxIndexMap, ctx: BlockContext, L: Policy, pool: Pool, vtx: seq<CTransaction>, tried: set<Hash256>, h: Hash256)
    requires AllRefused(P, disk, db, ctx, L, pool, vtx, tried) && h in pool && Refused(P, disk, db, ctx, L, vtx, pool[h])
    ensures AllRefused(P, disk, db, ctx, L, pool, vtx, tried + {h})
  {
    hide Refused, IdSet;
  }

  lemma TriedRefused(P: Consensus, disk: Disk, db: TxIndexMap, ctx: BlockContext, L: Policy, pool: Pool, vtx: seq<CTransaction>, tried: set<Hash256>, h: Hash256)
    requires AllRefused(P, disk, db, ctx, L, pool, vtx, tried) && h in tried && h in pool && h !in IdSet(P, vtx)
    ensures Refused(P, disk, db, ctx, L, vtx, pool[h])
  {
    hide Refused, IdSet;
  }

  lemma AcceptedFacts(P: Consensus, disk: Disk, db: TxIndexMap, ctx: BlockContext, L: Policy, view: TxIndexMap,
      nBlockSize: nat, nBlockSigOps: nat, tx: CTransaction)
    requires Acceptable(P, disk, db, ctx, L, view, nBlockSize, nBlockSigOps, tx)
    ensures nBlockSize + P.size(tx) < L.nBlockMaxSize && nBlockSigOps + SigOps(P, disk, view, tx) < MAX_BLOCK_SIGOPS
    ensures tx.nTime <= L.nTimeLimit && TxConnects(P, disk, db, view, ctx, true, tx)
  {
    hide TxConnects, SigOps;
  }

  /** With an empty queue, who has not been tried waits for something that was not taken. */
  lemma Untried(all: Deps, p: Plan, popped: set<Hash256>, added: set<Hash256>, h: Hash256)
    requires Scheduled(all, p, popped, added) && p.vecPriority == [] && h in all && h !in popped
    ensures exists k :: k in all[h] && k !in added
  {
  }

  /** The collection loop of CreateNewBlock. Every transaction is tried at most once, in any order the
      priorities may give, and never before the pool transactions it spends; what is left out was refused
      when it was tried, or waits for something left out. */
  method CollectTransactions(P: Consensus, disk: Disk, txdb: CTxDB, pool: Pool, isFinal: CTransaction -> bool, pindexPrev: CBlockIndex,
      L: Policy)
    returns (vtx: seq<CTransaction>, nBlockSize: nat, nBlockSigOps: nat, nFees: int)
    requires WellLinked(pindexPrev) && PoolOk(P, pool)
    requires forall h :: Eligible(pool, isFinal, h) ==> MissesFirst(disk, txdb.Current().txindex, pool, pool[h].vin)
    modifies txdb`failures
    ensures txdb.failures >= old(txdb.failures)
    ensures FromPool(P, pool, isFinal, vtx)
    ensures ParentsFirst(P, disk, txdb.Current().txindex, vtx)
    ensures Chosen(P, WithPool(disk, pool), txdb.Current().txindex, Context(pindexPrev), vtx)
    ensures nBlockSize >= 1000 && nBlockSigOps >= 100
    ensures Sums(nBlockSize - 1000, nBlockSigOps - 100, nFees) == Tally(P, WithPool(disk, pool), txdb.Current().txindex, vtx)
    ensures (vtx != [] ==> nBlockSize < L.nBlockMaxSize) && nBlockSigOps < MAX_BLOCK_SIGOPS
    ensures forall i :: 0 <= i < |vtx| ==> vtx[i].nTime <= L.nTimeLimit
    ensures txdb.failures == old(txdb.failures) ==>
      forall h :: Considered(disk, txdb.Current().txindex, pool, isFinal, h) && h !in Ids(P, vtx) ==>
      || Refused(P, WithPool(disk, pool), txdb.Current().txindex, Context(pindexPrev), L, vtx, pool[h])
      || exists k :: k in Parents(disk, txdb.Current().txindex, pool[h].vin) && k !in Ids(P, vtx)
  {
    hide Indexed, Scheduled, AllRefused, Refused, RefusedAt, Acceptable, TooCheap, View, Tally, Chosen, Eligible, Considered, OnChain,
      Parents, MissesFirst, AllDeps, FromPool, ParentsFirst, IdSet, Ids, TxConnects, ConnectTx, SigOps, ValueIn, Recent, Context,
      WithPool, EndsPriority, Fits;
    var all_disk := WithPool(disk, pool);
    ghost var db := txdb.Current().txindex;
    var p := CollectPool(disk, txdb, pool, isFinal);
    ghost var all := AllDeps(disk, db, pool, isFinal);
    var mapTestPool: TxIndexMap := map[];
    vtx, nBlockSize, nBlockSigOps, nFees := [], 1000, 100, 0;
    var fSortedByFee := L.nBlockPrioritySize <= 0;
    NothingTried(P, all_disk, db, Context(pindexPrev), L, pool);
    ghost var popped: set<Hash256> := {};
    NothingChosen(P, disk, all_disk, db, Context(pindexPrev), pool, isFinal);
    assert db + map[] == db;
    InDeps(disk, db, pool, isFinal);
    while p.vecPriority != []
      invariant Scheduled(all, p, popped, IdSet(P, vtx)) && IdSet(P, vtx) <= popped <= all.Keys
      invariant FromPool(P, pool, isFinal, vtx) && ParentsFirst(P, disk, db, vtx)
      invariant Chosen(P, all_disk, db, Context(pindexPrev), vtx) && db + mapTestPool == View(P, db, vtx)
      invariant nBlockSize >= 1000 && nBlockSigOps >= 100
      invariant Sums(nBlockSize - 1000, nBlockSigOps - 100, nFees) == Tally(P, all_disk, db, vtx)
      invariant (vtx != [] ==> nBlockSize < L.nBlockMaxSize) && nBlockSigOps < MAX_BLOCK_SIGOPS
      invariant forall i :: 0 <= i < |vtx| ==> vtx[i].nTime <= L.nTimeLimit
      invariant txdb.failures >= old(txdb.failures)
      invariant txdb.failures == old(txdb.failures) ==> AllRefused(P, all_disk, db, Context(pindexPrev), L, pool, vtx, popped)
      decreases all.Keys - popped
    {
      var i := AnyPlace(|p.vecPriority|);
      var hash := p.vecPriority[i];
      Popped(all, p, popped, IdSet(P, vtx), i);
      p := p.(vecPriority := p.vecPriority[..i] + p.vecPriority[i + 1..]);
      NotTakenYet(all, p, popped + {hash}, popped, IdSet(P, vtx), hash);
      popped := popped + {hash};
      var tx := pool[hash];
      var ok, tmp, nTxSigOps, nTxFees, fSorted := Consider(P, all_disk, txdb, mapTestPool, tx, pindexPrev,
        nBlockSize, nBlockSigOps, L, fSortedByFee, vtx);
      fSortedByFee := fSorted;
      if !ok {
        if txdb.failures == old(txdb.failures) {
          RefusedWhy(P, all_disk, db, Context(pindexPrev), L, vtx, tx, nBlockSize, nBlockSigOps);
          NotTaken(P, all_disk, db, Context(pindexPrev), L, pool, vtx, popped - {hash}, hash);
        }
      } else {
        AcceptedFacts(P, all_disk, db, Context(pindexPrev), L, View(P, db, vtx), nBlockSize, nBlockSigOps, tx);
        ChooseNext(P, all_disk, db, Context(pindexPrev), vtx, tx);
        TallyNext(P, all_disk, db, vtx, tx);
        DrawNext(P, disk, db, pool, isFinal, vtx, hash);
        if txdb.failures == old(txdb.failures) {
          AllRefusedTaken(P, all_disk, db, Context(pindexPrev), L, pool, vtx, popped - {hash}, hash);
        }
        mapTestPool := tmp;
        p := Release(all, p, popped, IdSet(P, vtx), hash);
        vtx := vtx + [tx];
        nBlockSize := nBlockSize + P.size(tx);
        nBlockSigOps := nBlockSigOps + nTxSigOps;
        nFees := nFees + nTxFees;
      }
      assert popped - {hash} + {hash} == popped;
    }
    if txdb.failures == old(txdb.failures) {
      forall h | Considered(disk, db, pool, isFinal, h) && h !in IdSet(P, vtx)
        ensures h in pool && h in all
        ensures Refused(P, all_disk, db, Context(pindexPrev), L, vtx, pool[h]) || exists k :: k in all[h] && k !in IdSet(P, vtx)
      {
        if h !in popped {
          Untried(all, p, popped, IdSet(P, vtx), h);
        } else {
          TriedRefused(P, all_disk, db, Context(pindexPrev), L, pool, vtx, popped, h);
        }
      }
    }
    InIdSet(P, vtx);
  }

  lemma InIdSet(P: Consensus, vtx: seq<CTransaction>)
    ensures forall h :: h in IdSet(P, vtx) <==> h in Ids(P, vtx)
  {
  }

  /** The place the heap brings to the front. */
  method AnyPlace(n: nat) returns (i: nat)
    requires n > 0
    ensures i < n
  {
    i :| 0 <= i < n;
  }

  lemma InDeps(disk: Disk, db: TxIndexMap, pool: Pool, isFinal: CTransaction -> bool)
    ensures var all := AllDeps(disk, db, pool, isFinal);
      && (forall h :: h in all ==> Eligible(pool, isFinal, h) && h in pool && !pool[h].IsCoinBase())
      && (forall h :: h in all <==> Considered(disk, db, pool, isFinal, h))
      && (forall h :: h in all ==> all[h] == Parents(disk, db, pool[h].vin))
  {
    hide Missing, Parents;
  }

  lemma NotTakenYet(all: Deps, p: Plan, popped': set<Hash256>, popped: set<Hash256>, added: set<Hash256>, h: Hash256)
    requires Scheduled(all, p, popped', added) && h in popped' && h !in popped && added <= popped
    ensures h !in added && h in all && all[h] <= added
  {
  }

  lemma NothingChosen(P: Consensus, disk: Disk, all_disk: Disk, db: TxIndexMap, ctx: BlockContext, pool: Pool, isFinal: CTransaction -> bool)
    ensures FromPool(P, pool, isFinal, []) && ParentsFirst(P, disk, db, []) && IdSet(P, []) == {}
    ensures Chosen(P, all_disk, db, ctx, []) && View(P, db, []) == db && Tally(P, all_disk, db, []) == Sums(0, 0, 0)
  {
  }
}
