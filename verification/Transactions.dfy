/**
 Transactions, blocks and the context-free rules both must satisfy
 (src/main.h CTransaction/CBlock, src/main.cpp CheckTransaction/CheckBlock).

 What the code takes from other libraries - hashing, serialised size, script
 verification - is a field of `Consensus`, an arbitrary function of its arguments.
 */
module Transactions {

  type Hash256 = nat

  const COIN := 1_000_000
  const CENT := 10_000
  const MIN_TX_FEE := 100
  const MIN_TXOUT_AMOUNT := 100
  const MAX_MONEY := 156_000_000 * COIN
  const MAX_BLOCK_SIZE := 1_000_000
  const MAX_BLOCK_SIGOPS := 20_000
  const COINBASE_MATURITY := 10
  const NULL_N := 0xffff_ffff

  datatype COutPoint = COutPoint(hash: Hash256, n: nat) {
    predicate IsNull() { hash == 0 && n == NULL_N }
  }

  datatype CTxIn = CTxIn(prevout: COutPoint, scriptSig: seq<nat>)

  datatype CTxOut = CTxOut(nValue: int, scriptPubKey: seq<nat>) {
    predicate IsEmpty() { nValue == 0 && scriptPubKey == [] }
  }

  /** `rest` stands for the serialised fields the ledger rules never look at. */
  datatype CTransaction = CTransaction(nTime: nat, vin: seq<CTxIn>, vout: seq<CTxOut>, rest: seq<nat>) {
    predicate IsCoinBase() { |vin| == 1 && vin[0].prevout.IsNull() && |vout| >= 1 }

    predicate IsCoinStake() {
      |vin| > 0 && !vin[0].prevout.IsNull() && |vout| >= 2 && vout[0].IsEmpty()
    }
  }

  datatype CBlock = CBlock(hashPrevBlock: Hash256, nTime: nat, nBits: nat, vtx: seq<CTransaction>, rest: seq<nat>) {
    predicate IsProofOfStake() { |vtx| > 1 && vtx[1].IsCoinStake() }
  }

  /** Position of a transaction in the block files. `NullPos` is the all-ones file number; `MemPos` is
      the position (1,1,1), which stands for the memory-pool transaction of that id. */
  datatype CDiskTxPos = NullPos | DiskTxPos(nFile: nat, nBlockPos: nat, nTxPos: nat) | MemPos(id: Hash256)

  /** Index record of a transaction: where it is, and for each output who spent it. */
  datatype CTxIndex = CTxIndex(pos: CDiskTxPos, vSpent: seq<CDiskTxPos>)

  type TxIndexMap = map<Hash256, CTxIndex>

  /** The transactions readable from the block files. */
  type Disk = map<CDiskTxPos, CTransaction>

  datatype Consensus = Consensus(
    hash: CTransaction -> Hash256,
    blockHash: CBlock -> Hash256,
    size: CTransaction -> nat,
    legacySigOps: CTransaction -> nat,
    p2shSigOps: (CTransaction, seq<CTxOut>) -> nat,
    verifyScript: (CTransaction, CTransaction, nat) -> bool,
    coinAge: (CTransaction, TxIndexMap) -> Option<nat>,
    stakeReward: (nat, nat, nat) -> int,
    headerOk: CBlock -> bool)

  datatype Option<T> = None | Some(value: T)

  predicate MoneyRange(v: int) { 0 <= v <= MAX_MONEY }

  function SumOut(vout: seq<CTxOut>): int {
    if vout == [] then 0 else SumOut(vout[..|vout|-1]) + vout[|vout|-1].nValue
  }

  function ValueOut(tx: CTransaction): int { SumOut(tx.vout) }

  predicate DistinctInputs(vin: seq<CTxIn>) {
    forall i, j :: 0 <= i < j < |vin| ==> vin[i].prevout != vin[j].prevout
  }

  /** CTransaction::CheckTransaction, as one condition. */
  predicate CheckTransaction(P: Consensus, tx: CTransaction) {
    && tx.vin != [] && tx.vout != []
    && P.size(tx) <= MAX_BLOCK_SIZE
    && (forall i :: 0 <= i < |tx.vout| ==>
          && (tx.vout[i].IsEmpty() ==> tx.IsCoinBase() || tx.IsCoinStake())
          && (!tx.vout[i].IsEmpty() ==> tx.vout[i].nValue >= MIN_TXOUT_AMOUNT)
          && tx.vout[i].nValue <= MAX_MONEY)
    && (forall i :: 0 <= i <= |tx.vout| ==> MoneyRange(SumOut(tx.vout[..i])))
    && DistinctInputs(tx.vin)
    && (if tx.IsCoinBase() then 2 <= |tx.vin[0].scriptSig| <= 100
        else forall i :: 0 <= i < |tx.vin| ==> !tx.vin[i].prevout.IsNull())
  }

  function SumLegacySigOps(P: Consensus, vtx: seq<CTransaction>): nat {
    if vtx == [] then 0 else SumLegacySigOps(P, vtx[..|vtx|-1]) + P.legacySigOps(vtx[|vtx|-1])
  }

  /** CBlock::CheckBlock. Header rules (proof of work, clock, merkle root, signature, size,
      timestamps) are `headerOk`. */
  predicate CheckBlock(P: Consensus, b: CBlock) {
    && P.headerOk(b)
    && b.vtx != [] && b.vtx[0].IsCoinBase()
    && (forall i :: 1 <= i < |b.vtx| ==> !b.vtx[i].IsCoinBase())
    && (forall i :: 2 <= i < |b.vtx| ==> !b.vtx[i].IsCoinStake())
    && (b.IsProofOfStake() ==> |b.vtx[0].vout| == 1 && b.vtx[0].vout[0].IsEmpty())
    && (forall i :: 0 <= i < |b.vtx| ==> CheckTransaction(P, b.vtx[i]))
    && (forall i, j :: 0 <= i < j < |b.vtx| ==> P.hash(b.vtx[i]) != P.hash(b.vtx[j]))
    && SumLegacySigOps(P, b.vtx) <= MAX_BLOCK_SIGOPS
  }

  /** CTransaction::GetMinFee with its default arguments (src/main.cpp:525-553). */
  function MinFee(P: Consensus, tx: CTransaction): int {
    var fee := (1 + P.size(tx) / 1000) * MIN_TX_FEE;
    if MoneyRange(fee) then fee else MAX_MONEY
  }
}
