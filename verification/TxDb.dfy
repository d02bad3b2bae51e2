/**
 The transaction database (src/db.h CDB transactions, src/db.cpp CTxDB records): a map from
 keys to records with one optional open transaction. Any put, begin, commit or read of a block file may fail;
 each such failure is counted, so that contracts can say what happens when there is none.
 */
module TxDb {
  import opened Transactions

  /** The parts of a block index record the engine reads back; a hash of 0 means "none". */
  datatype CDiskBlockIndex = CDiskBlockIndex(hashPrev: Hash256, hashNext: Hash256, nMint: int, nMoneySupply: int)

  datatype DbState = DbState(
    txindex: TxIndexMap,
    blockindex: map<Hash256, CDiskBlockIndex>,
    hashBestChain: Hash256,
    hashSyncCheckpoint: Hash256)

  class CTxDB {
    var committed: DbState
    var activeTxn: Option<DbState>
    /** How many operations have failed for reasons of their own. */
    ghost var failures: nat

    constructor (initial: DbState)
      ensures committed == initial && activeTxn == None && failures == 0
    {
      committed, activeTxn, failures := initial, None, 0;
    }

    /** What a read sees: the open transaction's view if there is one. */
    function Current(): DbState
      reads `committed, `activeTxn
    {
      if activeTxn.Some? then activeTxn.value else committed
    }

    /** A change made by a write lands in the open transaction, or in the file when there is none. */
    twostate predicate Wrote(s: DbState)
      reads this
    {
      if old(activeTxn).Some? then committed == old(committed) && activeTxn == Some(s)
      else committed == s && activeTxn == None
    }

    /** The underlying store does what it is asked, or fails and is counted. */
    method Attempt() returns (ok: bool)
      modifies this`failures
      ensures failures >= old(failures) && (ok <==> failures == old(failures))
    {
      ok := *;
      if !ok { failures := failures + 1; }
    }

    method TxnBegin() returns (ok: bool)
      modifies this
      ensures committed == old(committed)
      ensures ok ==> activeTxn == Some(committed)
      ensures !ok ==> activeTxn == old(activeTxn)
      ensures failures >= old(failures)
      ensures ok <==> old(activeTxn).None? && failures == old(failures)
    {
      if activeTxn.Some? { return false; }
      ok := Attempt();
      if !ok { return; }
      activeTxn := Some(committed);
      return true;
    }

    method TxnCommit() returns (ok: bool)
      modifies this
      ensures activeTxn == None
      ensures failures >= old(failures)
      ensures ok <==> old(activeTxn).Some? && failures == old(failures)
      ensures committed == if ok then old(activeTxn).value else old(committed)
    {
      if activeTxn.None? { return false; }
      ok := Attempt();
      if ok { committed := activeTxn.value; }
      activeTxn := None;
    }

    method TxnAbort() returns (ok: bool)
      modifies this
      ensures activeTxn == None && committed == old(committed) && failures == old(failures)
      ensures ok == old(activeTxn).Some?
    {
      ok := activeTxn.Some?;
      activeTxn := None;
    }

    method Put(s: DbState) returns (ok: bool)
      modifies this
      ensures ok ==> Wrote(s)
      ensures !ok ==> committed == old(committed) && activeTxn == old(activeTxn)
      ensures failures >= old(failures) && (ok <==> failures == old(failures))
    {
      ok := Attempt();
      if !ok { return; }
      if activeTxn.Some? { activeTxn := Some(s); } else { committed := s; }
      return true;
    }

    method UpdateTxIndex(hash: Hash256, txindex: CTxIndex) returns (ok: bool)
      modifies this
      ensures ok ==> Wrote(old(Current()).(txindex := old(Current()).txindex[hash := txindex]))
      ensures !ok ==> committed == old(committed) && activeTxn == old(activeTxn)
      ensures failures >= old(failures) && (ok <==> failures == old(failures))
    {
      ok := Put(Current().(txindex := Current().txindex[hash := txindex]));
    }

    /** Erasing an unknown key counts as success. */
    method EraseTxIndex(hash: Hash256)
      modifies this
      ensures Wrote(old(Current()).(txindex := old(Current()).txindex - {hash})) && failures == old(failures)
    {
      var s := Current().(txindex := Current().txindex - {hash});
      if activeTxn.Some? { activeTxn := Some(s); } else { committed := s; }
    }

    method WriteBlockIndex(hash: Hash256, record: CDiskBlockIndex) returns (ok: bool)
      modifies this
      ensures ok ==> Wrote(old(Current()).(blockindex := old(Current()).blockindex[hash := record]))
      ensures !ok ==> committed == old(committed) && activeTxn == old(activeTxn)
      ensures failures >= old(failures) && (ok <==> failures == old(failures))
    {
      ok := Put(Current().(blockindex := Current().blockindex[hash := record]));
    }

    method WriteHashBestChain(hash: Hash256) returns (ok: bool)
      modifies this
      ensures ok ==> Wrote(old(Current()).(hashBestChain := hash))
      ensures !ok ==> committed == old(committed) && activeTxn == old(activeTxn)
      ensures failures >= old(failures) && (ok <==> failures == old(failures))
    {
      ok := Put(Current().(hashBestChain := hash));
    }

    method WriteSyncCheckpoint(hash: Hash256) returns (ok: bool)
      modifies this
      ensures ok ==> Wrote(old(Current()).(hashSyncCheckpoint := hash))
      ensures !ok ==> committed == old(committed) && activeTxn == old(activeTxn)
      ensures failures >= old(failures) && (ok <==> failures == old(failures))
    {
      ok := Put(Current().(hashSyncCheckpoint := hash));
    }
  }
}
