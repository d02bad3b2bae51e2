# Curecoin node: a verified model of its consensus state

Curecoin is a Bitcoin/PPCoin-derived node. This project models the parts of it that decide which
coins exist and which chain is best, and the self-contained structures and codecs around them, and
proves what they are for. The model follows the C++ statement by statement where that code changes
state: the transaction database, the block tree with its forward links, the chain state, the
checkpoint state, the address manager, the send and receive buffers and the flat merkle tree are
classes whose methods have the loops and branches of the source. Beside them stand functions that say
what the loops compute, and lemmas about those functions over all inputs and whole runs.

| file | what it models |
|---|---|
| Transactions, Utxo, Ledger, LedgerFacts, LedgerTheorems, Spends | transactions, the spent-flag index, the coin set it stands for; connecting and disconnecting as index functions; conservation, inversion, double spends, runs; where the inputs of a connected block come from and what their spenders have shown |
| TxDb, Connect | the database with its transactions; ConnectBlock and DisconnectBlock as loops, proved against the index functions |
| BlockTree, Branches, ChainState, PartialSwitch | the tree of block index nodes; what a switch of branches does to the index; Reorganize, SetBestChain, AddToBlockIndex, FindBlockByHeight; a node whose switch stops half-way |
| Checkpoints | synchronised checkpoints and block acceptance as a step machine, and the code as one that takes only such steps |
| AddrTables, AddrMan, AddrPeers | the stochastic address manager, its invariant, and its file format |
| Merkle, StakeModifier, StakeReward, MedianTime, Locator | the merkle tree in a flat array, stake modifier selection, the reward bisection, median time past, the block locator |
| Numbers, Multisig, ScriptOps, Script, ScriptLaws | big numbers in byte strings, greedy multisig matching and merging, the script machine, and laws of its operations and standard scripts |
| Framing, Base58 | wire messages and base-58 text |
| BlockAssembly, AssembledBlocks, StakeConflict | the collection loop of CreateNewBlock, when its blocks connect, and a block that does not |

Conventions. Hash functions, signature checks, script verification, sizes, signature operation counts
and proof-of-work header checks are function-valued parameters (`Consensus`, `Hashing`, `Signing`,
`Net`, `Env`); nothing is assumed of them except where a lemma says so (an injective hash for the
merkle root, an empty signature that never verifies). `disk` is every transaction the append-only
block files will ever hold. Randomness and the outcome of a disk or database operation are
nondeterministic; `CTxDB.failures` counts the operations that failed on their own, so contracts can
say exactly when an operation succeeds if nothing fails. `hide` statements only bound what the solver
looks at. Money amounts: COIN is 1000000 and CENT 10000 (src/util.h:39-40).

Where the code is not what one expects:

- A block may reuse the id of a transaction whose outputs are all spent (src/main.cpp:1662-1669), so
  disconnecting restores the index exactly only when the block's ids were fresh
  (`DisconnectInvertsConnect` is an if and only if); the set of unspent coins is always restored.
- `SetBestChain` makes the given block the best block even when a postponed connect stopped early
  (src/main.cpp:1927-1958). Memory and database then disagree: `CChainState.Healthy` fails, though the
  tree and the links stay sound and everything stands at the block `reached`. When nothing fails on its
  own, success leaves them in agreement if and only if the switch to the whole branch could be made, and
  `PartialSwitch` builds a node where it could not, from two blocks that both pass CheckBlock: the call for
  the first fails in the store, the second claims more than its reward.
- The coinstake of a new proof-of-stake block is not entered into the index the pool transactions are
  tried on (src/main.cpp:4176, 4269). The block spends no outpoint twice, and ConnectBlock accepts it, if
  and only if no chosen transaction spends a coin of the coinstake (and the signature operations fit);
  `StakeConflict` gives a pool with which it is refused.
- The slot `SelectTried` returns is the one the oldest inspected entry was drawn from, not the one it
  was swapped to (src/addrman.cpp:138-146): the slot holds that entry if and only if the two are the same,
  that is, the draw was 0.
- A success or an attempt reported with a time that is not after, or is before, the epoch leaves
  statistics the code's own check refuses; the contracts say so with an if and only if.
- An odd list of at least three transactions and the list with its last entry repeated share their
  merkle root, whatever the hash (`RepeatedLastSameRoot`); the duplicate check is what excludes it.
- A file with another number of new buckets has its entries put into buckets afresh, without a look at
  the bucket size (src/addrman.h:341-345). Of a file in order otherwise the result is consistent if and
  only if no bucket comes out overfull, and `CrowdOverfills` gives a file where one does.
- Reading an address file takes an overfull tried bucket's first 64 records and an entry's first four new
  bucket names, and looks at nothing else (src/addrman.h:347-382): repeated addresses or names are taken as
  they are. `Read` says exactly which files then give a consistent manager.

## Model

| member | source | states |
|---|---|---|
| Connect.FetchInputs | src/main.cpp:1304-1377 | succeeds exactly when every read succeeds and every input names a stored, indexed output, queued records preferred; `fInvalid` exactly when all previous transactions were found and an output number is out of range |
| Connect.ConnectInputs | src/main.cpp:1421-1533 | succeeds exactly when the inputs are mature, not newer, in money range, unspent, distinct, correctly signed and the value rule holds; then exactly the named outputs are marked spent |
| Connect.ConnectBlock | src/main.cpp:1609-1759 | unless the database fails it succeeds exactly on blocks that meet the ledger rules; then the open transaction holds the index of the connected block, its records, mint and supply; nothing is committed |
| Connect.DisconnectInputs | src/main.cpp:1268-1302 | succeeds exactly when every spent record is there; then the inputs are free and the transaction's record is gone |
| Connect.DisconnectBlock | src/main.cpp:1585-1607 | the same for a whole block, last transaction first, and the parent's record loses its successor |
| LedgerFacts.CompactSizeFits | src/serialize.h:173-179 | a count takes one byte below 253, else a marker and the fewest of 2, 4 or 8 bytes that hold it |
| LedgerFacts.ConnectTxCoins | src/main.cpp:1421-1533 | setting spent flags and adding a record is, on the coins the index stands for, removing the consumed ones and adding the created ones |
| LedgerFacts.DisconnectTxRefines | src/main.cpp:1268-1302 | disconnecting a connected transaction restores the index up to records whose outputs are all spent |
| LedgerTheorems.BlockConserves | src/main.cpp:1658-1741 | the value of all unspent outputs moves by exactly what is added to the money supply |
| LedgerTheorems.MintBound | src/main.cpp:1691-1741 | a proof-of-work block raises the supply by at most the subsidy of its height, fees included; a proof-of-stake block by at most what its coinstake may claim |
| LedgerTheorems.SubsidyHalves | src/main.cpp:957-1036 | thirteen coins, halved every 210240 blocks and never below the least unit; another sum at height 1 only |
| LedgerTheorems.DisconnectInvertsConnect | src/main.cpp:1585-1759 | disconnecting a block just connected never fails, restores the coins, and restores the index if and only if the block's ids were fresh |
| LedgerTheorems.StepKeepsInv | src/main.cpp:1585-1759 | connecting and disconnecting keep: the index is a direct replay of the chain, less records that are spent out |
| LedgerTheorems.RunConserves | src/main.cpp:1585-1759 | in every run from genesis, at every moment, the index stands for the coins of the current chain and they total its money supply |
| LedgerTheorems.PathIndependence | src/main.cpp:1761-1855 | two runs that end on the same blocks agree on every unspent coin and the supply, whatever reorganisations they made |
| LedgerTheorems.RunNoDoubleSpend | src/main.cpp:1421-1533 | along the chain of any reachable state an outpoint consumed twice was created again in between, by a reused id |
| Spends.ConnectedLawful | src/main.cpp:1421-1533 | a block ConnectBlock accepts on the index of a chain: proper transactions with different ids, one coinbase, at most one coinstake in its place; every input of every transaction but the coinbase names an output of an earlier transaction of the chain or the block, by its real id; mined outputs are ten blocks deep, no spent transaction is newer, the script was verified if scripts are checked or it is a coinstake, and unless it is a coinstake the inputs are worth the outputs and the fee by size |
| Utxo.NoDoubleSpendFreshIds | src/main.cpp:1421-1533 | with ids never reused every outpoint is consumed at most once |
| TxDb.CTxDB.TxnBegin | src/db.h:273-282 | begins exactly when none is open and the store does not fail, with a view equal to the committed state |
| TxDb.CTxDB.TxnCommit | src/db.h:284-291 | all of the open transaction becomes the committed state, or none of it; it is closed either way |
| TxDb.CTxDB.TxnAbort | src/db.h:293-300 | the committed state stays as it was |
| BlockTree.NextTowardChild | src/main.cpp:1834-1843 | the link a node should have: q follows p exactly when q is on the chain to the tip and p is its parent |
| Branches.Fork | src/main.cpp:1765-1777 | there is a highest common block of two chains with one root |
| Branches.ForkUnique | src/main.cpp:1765-1777 | there is only one |
| Branches.RaisedStops | src/main.cpp:1804-1823 | when a block on the way up does not connect, no block above it is reached |
| Branches.SwitchToChild | src/main.cpp:1859-1881 | attaching a child of the best block is the switch of branches with nothing to disconnect |
| Branches.FirstTarget | src/main.cpp:1905-1914 | the block the postponing loop stops at beats the best chain and its parent does not |
| Branches.SwitchSplit | src/main.cpp:1905-1949 | switching to the whole branch is switching to the first target and connecting the postponed blocks from there |
| Branches.ArrivesIff | src/main.cpp:1905-1949 | undisturbed, the postponed connects arrive at the new tip if and only if the whole switch can be made |
| ChainState.CChainState.constructor | src/main.cpp:1890-1897 | the node after the genesis block meets every invariant, with no cached block and nothing indexed |
| ChainState.CChainState.FindFork | src/main.cpp:1765-1777 | the search terminates on the highest common block |
| ChainState.CChainState.DisconnectBranch | src/main.cpp:1793-1807 | unless something fails on its own it succeeds exactly when every block down to the fork can be disconnected in turn, and leaves that index; the ledger then stands at the fork |
| ChainState.CChainState.ConnectBranch | src/main.cpp:1809-1823 | the same on the way up; the ledger then stands at the new tip |
| ChainState.CChainState.Reorganize | src/main.cpp:1761-1855 | succeeds exactly when the whole switch does; then the committed index is that of the switch and the links are the new main chain; otherwise committed state, links and the supplies of the main chain are as before |
| ChainState.CChainState.SetBestChainInner | src/main.cpp:1859-1881 | the same for one block attached to the tip, and its transaction is closed either way |
| ChainState.CChainState.ConnectSecondary | src/main.cpp:1929-1949 | postponed blocks are connected upwards; it stops short of the new tip only below a block that does not connect, or after a failure, and ledger and links stand where it stopped |
| ChainState.CChainState.SetBestChain | src/main.cpp:1883-1958 | switches to the lowest block that beats the best chain and goes on from there; on failure best block, cache, links and committed state are as before; on success from a consistent node memory and database agree if and only if it arrived, which undisturbed is if and only if the whole switch can be made; the chain the ledger then stands on spends lawfully, with every script verified but those of blocks below the assumed-valid one |
| ChainState.CChainState.AddToBlockIndex | src/main.cpp:2067-2140 | a node joins the tree exactly when it is new and its checks pass; it becomes the best block exactly when it has more trust and the switch to the first target succeeds, and otherwise no record of a transaction changes; tree, links and cache stay sound always, memory and database agree if and only if it did not switch or the whole switch can be made |
| PartialSwitch.Switches | src/main.cpp:1929-1949 | of a sound block and one above it that claims more than its reward both pass CheckBlock, the first can be switched to, and the second cannot |
| PartialSwitch.AddBoth | src/main.cpp:2067-2142 | two calls on a new node: if the first reports failure, which only a failing store or read can cause, and nothing fails in the second, that one succeeds, makes its block the best one, and leaves ledger and links at the parent, so that memory and database disagree |
| ChainState.CChainState.FindBlockByHeight | src/main.cpp:909-924 | the main-chain block at the height, whatever block was found last time; the cache it leaves is in order again |
| ChainState.CChainState.PnextIsChild | src/main.cpp:1834-1843 | p.pnext is q exactly when q is on the main chain and p is its parent |
| ChainState.CChainState.RecordsMirrorLinks | src/main.cpp:1744-1752 | the successors on disk are those in memory, so a restart rebuilds the same links |
| ChainState.CChainState.CommittedCoins | src/main.cpp:1712-1714 | the committed index stands for exactly the coins the main chain leaves unspent, worth the best block's nMoneySupply |
| ChainState.CChainState.MainChainLawful | src/main.cpp:1632-1643 | in every healthy state each block of the main chain spends lawfully, scripts verified unless the block is the assumed-valid one or an ancestor of it; with none set, all are verified |
| ChainState.RaisedLawful | src/main.cpp:1613-1757 | blocks that could be connected one after another spend lawfully, scripts verified unless the assumed-valid block is one of them or above |
| Checkpoints.StepSafe | src/checkpoints.cpp:97-137 | every step of the protocol keeps the checkpoint an ancestor of the best block |
| Checkpoints.RunSafe | src/checkpoints.cpp:97-198 | in every run, at every moment, the checkpoint lies on the best chain, and it only ever moves to strict descendants |
| Checkpoints.CCheckpoints.ValidateSyncCheckpoint | src/checkpoints.cpp:97-137 | accepts exactly the known strict descendants of the current checkpoint; exactly the known blocks on other branches are remembered as invalid |
| Checkpoints.CCheckpoints.WriteSyncCheckpoint | src/checkpoints.cpp:139-154 | the checkpoint moves exactly when it was committed; the chain state is not disturbed |
| Checkpoints.CCheckpoints.AcceptPendingSyncCheckpoint | src/checkpoints.cpp:156-198 | while the pending block is not known nothing changes; once it is, it moves there exactly when that is a strict descendant whose chain is or can become the best one, if nothing fails; it stays pending exactly when it is a strict descendant and was not taken over |
| Checkpoints.CCheckpoints.ProcessSyncCheckpoint | src/checkpoints.cpp:398-447 | the same for a signed message; an unknown block is kept as pending, a bad signature changes nothing |
| Checkpoints.CCheckpoints.CheckSync | src/checkpoints.cpp:215-240 | passes a new block exactly when its parent is the checkpoint or descends from it |
| Checkpoints.CCheckpoints.AcceptBlock | src/main.cpp:2237-2320 | a new block joins the tree exactly when its parent is known and descends from the checkpoint and the other checks pass; block and completed checkpoint are two protocol steps; on success the pending checkpoint is taken over exactly when, in the state in between, its block is a known strict descendant whose chain is or can become the best one, if memory and database agree there and nothing fails; otherwise, and while it is unknown, it stays as it was |
| Checkpoints.CCheckpoints.AwaitCheckpoint | src/checkpoints.cpp:156-198 | a message for an unknown block, any other blocks, and then that block: the checkpoint does not move before, and then moves to it exactly when its chain is or can become the best one, so whenever it became the best block |
| AddrTables.SwapKeepsRandom | src/addrman.cpp:108-126 | a swap keeps vRandom a permutation of the ids with every nRandomPos right |
| AddrTables.DropRef | src/addrman.cpp:152-204 | taking an id out of a new bucket keeps nRefCount equal to the number of buckets holding it |
| AddrTables.ReplaceTried | src/addrman.cpp:233-262 | one entry of a tried bucket makes way for another of the same bucket: every tried id stays once in its own bucket |
| AddrMan.CAddrMan.constructor | src/addrman.h:388-396 | the empty manager meets the invariant |
| AddrTables.TerribleCases | src/addrman.cpp:40-58 | not terrible within a minute of a try; terrible when nothing was heard for 30 days; else from the third attempt on without an answer, and from the tenth on a week after the last one |
| AddrMan.CAddrMan.Find | src/addrman.cpp:83-94 | finds the one entry of an address, or there is none |
| AddrMan.CAddrMan.Create | src/addrman.cpp:96-106 | an unused id, entered in mapInfo, mapAddr and vRandom, in no bucket yet |
| AddrMan.CAddrMan.SwapRandom | src/addrman.cpp:108-126 | the two places are exchanged and every nRandomPos still tells the place |
| AddrMan.CAddrMan.SelectTried | src/addrman.cpp:128-150 | the bucket is shuffled by the draws and only that; the first oldest of the inspected entries stands where its turn put it; the place returned holds it if and only if its draw was 0 |
| AddrMan.CAddrMan.OneEntry | src/addrman.cpp:134-147 | a bucket of one entry always returns it |
| AddrMan.CAddrMan.OtherReturned | src/addrman.cpp:134-147 | two entries and draws with which the place of the younger one is returned |
| AddrMan.CAddrMan.ShrinkNew | src/addrman.cpp:152-204 | one id leaves the bucket: its first terrible one if there is any, else the least recent of those at the four places drawn; all tables stay consistent and nobody else is forgotten |
| AddrMan.CAddrMan.MakeTried | src/addrman.cpp:206-262 | the entry is tried and in no new bucket; exactly when its tried bucket was full one entry of it goes back to the bucket its source selects, or to the origin; no entry is lost |
| AddrMan.CAddrMan.Good_ | src/addrman.cpp:264-313 | a known address under its very port is tried afterwards with its times set; nothing is forgotten and no other entry changes bucket, but for one evicted; the tables agree always, and the code's check passes if and only if the time is positive or the address is not known |
| AddrMan.CAddrMan.Add_ | src/addrman.cpp:315-371 | a routable address is known afterwards; true exactly when it was new; only the bucket its source selects changes; at most one other entry is forgotten, untried, from a full bucket; a known entry takes the time told, less the penalty, exactly when its own is none or more than a day (an hour, if seen within a day) behind that, its time never falls and its services are joined; a new one starts with the time told less the penalty |
| AddrMan.CAddrMan.Attempt_ | src/addrman.cpp:373-390 | exactly the attempt's fields of exactly that address change; the code's check passes if and only if the time is not negative or the address is not known |
| AddrMan.CAddrMan.Connected_ | src/addrman.cpp:524-542 | the time moves only when it is more than twenty minutes behind |
| AddrMan.CAddrMan.GetAddr_ | src/addrman.cpp:508-522 | as many addresses as asked for, all known, all different; only the order in vRandom changes |
| AddrMan.CAddrMan.DeleteTried_ | src/addrman.cpp:544-563 | exactly that entry is forgotten and every table stays consistent |
| AddrMan.CAddrMan.DeleteNew_ | src/addrman.cpp:565-583 | exactly that entry is forgotten, with all its references |
| AddrMan.CAddrMan.CleanupUnsupported | src/addrman.h:510-539 | exactly the entries of unsupported networks go, and are counted; the others keep their buckets |
| AddrMan.CAddrMan.PruneTerrible | src/addrman.h:543-571 | exactly the terrible entries go, and are counted; the others keep their buckets |
| AddrPeers.Read | src/addrman.h:277-384 | the key comes from the file; nLost counts exactly the tried records that came when their bucket was full, all other records are entered in order, the tried table is consistent, and the new buckets hold the names taken; the manager is consistent if and only if what is left of the file is sound, or, for another number of new buckets, in order otherwise and no bucket made up is overfull |
| AddrPeers.KeptIn | src/addrman.h:347-366 | of the tried records of a bucket the first sixty-four are kept |
| AddrPeers.FirstFourUses | src/addrman.h:367-382 | of the names of an entry in new buckets the first four are taken |
| AddrPeers.SoundUntrimmed | src/addrman.h:347-382 | of a sound file nothing is lost or passed over |
| AddrPeers.CrowdOverfills | src/addrman.h:341-345 | sixty-five addresses of one bucket, in an otherwise good file with a single bucket, overfill it |
| AddrPeers.Write | src/addrman.h:285-323 | the file written describes the manager, and is sound |
| AddrPeers.DescribedIsSound | src/addrman.h:285-323 | a file that describes a consistent manager fits the tables it will be read into |
| AddrPeers.RenumberedByReading | src/addrman.h:285-384 | what is read for an id is what was written for it: same stored fields, same new buckets, same tried bucket |
| AddrPeers.RoundTrip | src/addrman.h:254-386 | writing and reading into a manager with any key loses no entry, gives a consistent manager with the writer's key, and the two differ by a renumbering of ids only |
| Merkle.CBlock.BuildMerkleTree | src/main.h:973-990 | the flat array holds the levels, leaves first, and its last node is the recursively defined root |
| Merkle.CBlock.GetMerkleBranch | src/main.h:992-1006 | the siblings on the way up, from the cached tree or a fresh one |
| Merkle.CheckMerkleBranch | src/main.h:1008-1021 | climbs from the leaf along the branch; index -1 gives 0 |
| Merkle.BranchLeadsToRoot | src/main.h:992-1021 | for every list and index the branch leads the leaf to the root |
| Merkle.BranchProvesLeaf | src/main.h:1008-1021 | for an injective hash a branch of full length that leads to the root proves the hash is a leaf, the one at that index |
| Merkle.SameRootIff | src/main.h:973-990 | for an injective hash two lists with trees of one height share a root if and only if their padded leaves agree |
| Merkle.RootAcrossHeights | src/main.h:973-990 | lists with trees of different heights share a root if and only if the lower one's padded leaves are those of the other's level of that height |
| Merkle.HeightUnknown | src/main.h:973-990 | a pair and the one hash above it share their root: the root does not say how high its tree is |
| Merkle.RootDeterminesList | src/main.cpp:2208-2228 | without duplicates the root determines the list: what the duplicate check secures |
| Merkle.RepeatedLastSameRoot | src/main.cpp:2208-2228 | repeating the last of an odd list of three or more keeps the root: why the check is needed |
| StakeModifier.GetStakeModifierSelectionInterval | src/kernel.cpp:72-78 | the interval is the sum of the 64 sections |
| StakeModifier.StopsAdvance | src/kernel.cpp:65-69 | each round looks strictly further, the last to the start of the tip's six-hour interval; the last section is three times the first |
| StakeModifier.SelectBlockFromCandidates | src/kernel.cpp:83-127 | selects exactly when a candidate is left: the first of the least selection hash among those up to the stop time, or the first left if none is |
| StakeModifier.PickUnique | src/kernel.cpp:83-127 | that choice is unique |
| StakeModifier.PickPrefers | src/kernel.cpp:103-111 | among proof-of-work blocks the least hash is picked, among proof-of-stake blocks none with a proof hash smaller by 2^32 or more is passed over, and against a proof-of-work block the proof hash counts 2^32 times less |
| StakeModifier.StakeFavoured | src/kernel.cpp:103-111 | with 256-bit hashes a proof-of-stake block wins over all proof-of-work blocks whose hash is at least 2^224 |
| StakeModifier.GetLastStakeModifier | src/kernel.cpp:51-62 | the modifier and time of the nearest generating block; fails exactly when not even genesis generated one |
| StakeModifier.SortedCandidates | src/kernel.cpp:163-176 | exactly the blocks back to the first too old one, by time and hash |
| StakeModifier.ComputeNextStakeModifier | src/kernel.cpp:142-228 | never fails on a chain whose genesis generated; keeps the modifier within an interval, otherwise draws it in rounds |
| StakeModifier.DrawsDistinct | src/kernel.cpp:179-205 | no block is drawn twice and all drawn are candidates |
| StakeModifier.DrawsUnique | src/kernel.cpp:179-205 | the draw is a function of the chain |
| StakeModifier.GeneratedBits | src/kernel.cpp:179-205 | min(64, n) different blocks are drawn; bit r of the modifier is the entropy bit of the block of round r and there are no other bits |
| StakeModifier.NextModifierUnique | src/kernel.cpp:142-228 | all nodes compute the same next modifier |
| StakeModifier.IndexBlock | src/main.cpp:2101-2106 | indexing a block on a well-made chain never fails and changes no earlier block |
| StakeModifier.NearestGenerator | src/main.cpp:2101-2106 | every block carries the modifier of its nearest generating ancestor or its own |
| StakeModifier.SameBlocksSameModifiers | src/main.cpp:2101-2106 | nodes that index the same blocks hold the same modifiers |
| StakeModifier.GetKernelStakeModifier | src/kernel.cpp:232-262 | the first generating block a full interval after the kernel's block; fails exactly when the chain does not reach that far |
| Numbers.VchRoundTrip | src/bignum.h:266-291 | writing a number and reading it back gives the number, negative ones included |
| Numbers.VchSize | src/bignum.h:281-291 | numbers below 2^(8k) take at most k + 1 bytes |
| Numbers.Normalised | src/bignum.h:266-291 | reading and writing back keeps the value and never needs more than a sign byte extra |
| Numbers.CastToBigNum | src/script.cpp:35-41 | a stack element that is a number is below 2^32 in magnitude |
| Numbers.NumberBack | src/script.cpp:35-41 | a number written to the stack is a number for the next operation exactly when it is below 2^31 in magnitude |
| Multisig.GreedyIsMatch | src/script.cpp:1001-1020 | the greedy loop succeeds if and only if some order-preserving injection of signatures into keys verifies everywhere |
| Multisig.OpCheckMultisig | src/script.cpp:963-1034 | runs exactly when the stack is laid out for it and the count limit holds; pops exactly its operands and answers whether a match exists |
| Multisig.CombineMultisig | src/script.cpp:1710-1763 | the pushes of the merged script; every signature stands for a key it verifies with unless all such keys have one; a key is matched exactly when one of the signatures verifies with it, if no signature fits two keys |
| Multisig.MergedAccepted | src/script.cpp:1710-1763 | the merged signatures match the keys if and only if at least m keys were matched |
| Multisig.MergedSpends | src/script.cpp:1710-1763 | the operation run on the merged script and the output script says yes if and only if at least m keys were matched |
| ScriptOps.CheckMultiSigMeaning | src/script.cpp:963-1034 | the machine's CHECKMULTISIG is the greedy match, with the operation count raised by the keys |
| ScriptOps.ExecSmall | src/script.cpp:380-1034 | no operation makes an element of more than 520 bytes out of smaller ones |
| Script.FlatIsNested | src/script.cpp:346-379 | on any tree of conditionals the flat machine does what the recursive evaluator of the tree does, limits in untaken branches included |
| Script.ParseIsFlatten | src/script.cpp:346-379 | a script that parses is the flat form of its tree and what follows it |
| Script.ParseFinds | src/script.cpp:346-379 | every tree is found again in its flat form, so the tree of a script is unique |
| Script.UnfinishedStaysOpen | src/script.cpp:1051-1052 | a conditional without end leaves its flag behind, whatever is executed |
| Script.FlatMeans | src/script.cpp:257-1055 | the flat machine accepts exactly what the tree reading accepts and leaves the same state; unbalanced scripts are never accepted |
| Script.StepBounded | src/script.cpp:276-303 | every instruction leaves at most 1000 elements on both stacks together, none over 520 bytes, and a count of at most 201 |
| Script.RunBounded | src/script.cpp:276-1042 | and so does every run |
| Script.EvalScript | src/script.cpp:257-1055 | accepts exactly scripts of at most 10000 bytes whose tree evaluates, with its stack |
| ScriptLaws.PaysToKeyHash | src/script.cpp:257-1055 | the script of an ordinary output, run on a signature and a key, fails unless the key has its hash, and else answers whether the signature is one of that key for the script without it |
| ScriptLaws.OneOfOne | src/script.cpp:935-1034 | CHECKSIG answers what CHECKMULTISIG with one signature and one key answers, which is whether they match |
| ScriptLaws.OnlyLaidOut | src/script.cpp:963-1005 | CHECKMULTISIG fails unless the stack is laid out for it and its keys stay within the operation limit |
| ScriptLaws.SignsWhatFollows | src/script.cpp:921-952 | after CODESEPARATOR only the rest of the script is signed |
| ScriptLaws.ArmTaken | src/script.cpp:346-379 | an IF on a value that is not zero does what its first arm does, on zero what its second arm does, with NOTIF the other way round; the arm not taken only has to be readable |
| ScriptLaws.TrueIsNonzero | src/script.cpp:43-57 | an element is true exactly when it is not zero as a number of any length |
| ScriptLaws.SpelledOut | src/script.cpp:423-600 | every operation that moves or copies elements does what its spelling in PICK, ROLL and DROP does, and fails when that fails |
| ScriptLaws.ReachOn | src/script.cpp:551-567 | PICK copies and ROLL moves the element with so many above it, and both fail beyond the bottom |
| ScriptLaws.ThreeRots | src/script.cpp:569-579 | three ROT are the identity |
| ScriptLaws.Comparisons | src/script.cpp:780-867 | LESSTHAN is GREATERTHAN after SWAP, and the other comparisons are negations of these |
| ScriptLaws.UnarySpelled | src/script.cpp:750-775 | 1ADD, 1SUB, NEGATE, ABS and 0NOTEQUAL in terms of ADD, SUB, MAX and NOT |
| ScriptLaws.SubThenAdd | src/script.cpp:780-867 | x y SUB y ADD gives x, and addition commutes |
| ScriptLaws.DeMorgan | src/script.cpp:780-867 | BOOLOR is BOOLAND with everything negated |
| ScriptLaws.MinAndMax | src/script.cpp:780-867 | MIN and MAX leave the two numbers, one each, in order |
| ScriptLaws.WithinSpelled | src/script.cpp:869-887 | WITHIN is the conjunction of its two comparisons |
| ScriptLaws.VerifyForms | src/script.cpp:381-393 | VERIFY pops what is not zero and fails on zero, and EQUALVERIFY, NUMEQUALVERIFY, CHECKSIGVERIFY and CHECKMULTISIGVERIFY are the plain operations followed by it |
| ScriptLaws.EqualOn | src/script.cpp:718-747 | EQUAL answers whether the two top elements are the same bytes |
| ScriptLaws.DepthReaches | src/script.cpp:505-510 | one less than DEPTH rolls the bottom element up |
| ScriptLaws.SizeCounts | src/script.cpp:659-668 | SIZE leaves the element and the number of its bytes |
| ScriptLaws.IfDupOn | src/script.cpp:494-503 | IFDUP is DUP on what is not zero, and nothing on zero |
| ScriptLaws.AltBack | src/script.cpp:405-421 | FROMALTSTACK brings back what TOALTSTACK put away |
| ScriptLaws.HashesLeft | src/script.cpp:889-919 | the hash operations leave twenty or thirty-two bytes in place of the element hashed |
| Framing.CMessageHeader.GetCommand | src/protocol.cpp:42-48 | a front of the field, without zeros and ended by one if the last byte is zero, else all of it; of a valid field only padding is cut off; of a field a sender filled in exactly his command is left |
| Framing.CMessageHeader.IsValid | src/protocol.cpp:50-78 | start bytes, printable command with only zeros after the first, size limit: exactly these |
| Framing.CNode.BeginMessage | src/net.h:344-354 | a header with empty size and checksum, over an unfinished message if there is one |
| Framing.CNode.AbortMessage | src/net.h:356-367 | the send buffer is as before the message |
| Framing.CNode.EndMessage | src/net.h:369-399 | size and checksum of the payload are patched in; without an open message nothing happens |
| Framing.CNode.PushMessage | src/net.h:417-445 | the send buffer grows by exactly the frame of the message |
| Framing.FrameLayout | src/protocol.h:32-52 | a frame byte by byte: start bytes, command and zeros, the size with its least byte first, checksum, payload |
| Framing.CNode.ProcessMessages | src/main.cpp:3691-3810 | the loop delivers what scanning the buffer gives, and keeps the rest |
| Framing.ScanStream | src/main.cpp:3691-3810 | on any prefix of garbage and frames a scan delivers the next messages in order and loses nothing of the others |
| Framing.AnySplitDelivers | src/main.cpp:3691-3810 | for every split of the stream into chunks and every pattern of full send buffers: messages in order, nothing else, and all once everything is there, start bytes inside payloads or not |
| Framing.ReceiveAll | src/main.cpp:3691-3810 | a node fed chunk after chunk delivers exactly that |
| Framing.SendAll | src/net.h:417-445 | messages pushed one after another make the send buffer grow by the stream the reader's theorems are about |
| Framing.Converse | src/net.cpp:946-956 | one node pushes messages, single sends of any sizes carry the buffer over, the other processes after each: it delivers them in order and nothing else, and all once all is sent and there is room |
| BlockAssembly.CollectPool | src/main.cpp:4193-4266 | the work lists hold exactly the eligible transactions that miss no input, each waiting for exactly its pool parents |
| BlockAssembly.Release | src/main.cpp:4353-4369 | exactly those who waited only for the taken transaction join the queue |
| BlockAssembly.FeeInBlock | src/main.cpp:532-569 | the least fee of a transaction in a block: by size while the block is not half full, then as many times that as the room left goes into the whole, then all money |
| BlockAssembly.Consider | src/main.cpp:4288-4338 | takes a transaction exactly when its inputs can be read, it fits, is not too cheap, pays its fee and passes the ledger rules on top of the chosen ones; then index and totals follow |
| BlockAssembly.CollectTransactions | src/main.cpp:4268-4370 | for any priority order: each pool transaction at most once, after all its pool parents, size and signature operations below their limits, totals right; if no read fails, whatever is left out misses an input, was refused when tried or waits for something left out |
| AssembledBlocks.AssembledNoDoubleSpend | src/main.cpp:4268-4370 | no two chosen transactions spend the same outpoint, if pool ids are not taken by coins of the chain |
| AssembledBlocks.BlockSpendsOnce | src/main.cpp:4115-4390 | a whole block, with its coinbase or with coinbase and coinstake, spends no outpoint twice if and only if no chosen transaction spends a coin of the coinstake |
| AssembledBlocks.MirroredConnects | src/main.cpp:4324-4330 | what connects on the miner's pool index has the same value and signature operations on the index ConnectBlock builds, and connects there if and only if it spends no staked coin |
| AssembledBlocks.AssembledTotals | src/main.cpp:4340-4345 | the miner's fees are those ConnectBlock computes, and its signature operations too but for those of the block's opening |
| AssembledBlocks.AssembledBlockConnects | src/main.cpp:4115-4390 | ConnectBlock accepts an assembled block of either kind if and only if its ids differ and are not taken by coins of the chain, no chosen transaction spends a coin of the coinstake, and the signature operations of the opening still fit; given good headers and transactions, a coinstake that connects, a proof-of-work reward within subsidy and fees |
| AssembledBlocks.WithinMinersLimits | src/main.cpp:4268-4390 | with free ids and an opening of at most the hundred signature operations set aside, proof-of-work blocks are always accepted, proof-of-stake blocks whenever nothing in the pool spends a staked coin |
| StakeConflict.PoolConflictsWithStake | src/main.cpp:4162-4182 | a block assembled in good order in which coinstake and a pool transaction spend one coin, and which ConnectBlock refuses |
| Base58.EncodeBase58 | src/base58.h:28-66 | leading zero bytes become leading ones, the rest the digits of the number |
| Base58.DecodeBase58 | src/base58.h:76-120 | accepts exactly blanks, characters of the alphabet, blanks, and decodes the characters |
| Base58.DecodeEncoded | src/base58.h:28-120 | every byte string comes back, leading zeros included |
| Base58.EncodeDecoded | src/base58.h:28-120 | every string over the alphabet comes back |
| Base58.BlanksIgnored | src/base58.h:84-104 | blanks around a string change nothing |
| Base58.EncodeBase58Check | src/base58.h:133-140 | the text of the bytes and their checksum |
| Base58.DecodeBase58Check | src/base58.h:144-161 | accepts exactly texts of some bytes followed by their checksum, and returns those bytes |
| Base58.CheckedRoundTrip | src/base58.h:133-161 | a checked text decodes to what was encoded, and nothing else is accepted, up to blanks |
| MedianTime.GetMedianTimePast | src/main.h:1265-1279 | the upper middle of the last eleven times, or of all of a shorter chain |
| MedianTime.MedianUnique | src/main.h:1265-1279 | the counting definition of the median fixes one value |
| MedianTime.MedianNeverDecreases | src/main.cpp:2262-2264 | along every chain whose blocks exceed their parent's median, the median never falls, short windows included |
| StakeReward.GetProofOfStakeReward | src/main.cpp:1042-1088 | the bisection terminates with the reward function's value |
| StakeReward.RateWithinACent | src/main.cpp:1050-1079 | the rate is between one and thirteen cents, after the fork four and fifty-two; it is above the fourth-root curve unless it is the cap, and at most a cent above it or within a cent of the floor |
| StakeReward.BisectMonotone | src/main.cpp:1063-1074 | an easier target never lowers the rate |
| StakeReward.RewardMonotone | src/main.cpp:1042-1088 | the reward never falls with target or coin age and never exceeds the cap's |
| Locator.Set | src/main.h:1501-1516 | hashes at distances 0 to 10, then doubling steps, then genesis |
| Locator.GetBlockIndex | src/main.h:1539-1553 | the first hash in the receiver's main chain, genesis if none |
| Locator.LocatorShort | src/main.h:1501-1516 | at most 12 + log2(height) hashes |
| Locator.LocatorFindsFork | src/main.h:1501-1553 | a receiver that shares the blocks at distance f and beyond finds one at a distance from f to 2f |

## Left out

- Integer widths: `int64` sums, `unsigned int` positions and 256-bit trust are unbounded integers here; the money-range tests are kept, so only sums the source itself does not test could wrap.
- Lookups and erases of database records do not fail; the source cannot tell a failed lookup from an absent record and ignores the result of erasing (src/main.cpp:1299). Begins, puts, commits and the reads of blocks and previous transactions from the block files may fail at any time, except in the scan of the pool before an assembly, where a previous transaction that cannot be read counts as not on the chain.
- The just-check mode of ConnectBlock, the memory pool and wallet updates after a switch, peer scoring, `InvalidChainFound` statistics and the disk space tests of AddToBlockIndex.
- The genesis branch of SetBestChain is the constructor of the chain state; start-up repair, checkpoint reset, `-nosynccheckpoints` and the test network are not part of the step relations.
- Checks of headers, timestamps, proof of work and stake kernels enter as outcomes (`headerOk`, `fContext`, `fModifier`); coin age and the stake reward enter ConnectInputs as functions.
- AddrMan.CAddrMan.Retell: the one-in-2^n draw that thins further references (src/addrman.cpp:347-352) may come out either way.
- AddrPeers.Read: is about files whose counts are those of their lists and whose new buckets name untried records of the file. With more than 256 new buckets the source also forms an out-of-range `vvNew[b]` it does not use (src/addrman.h:369); the model passes over it.
- `Select_` and `GetChance` (floating point), and `Check_` as code: its conditions are the parts of `CAddrMan.Valid`.
- Bucket hashes, the selection hash, checksums and signature checks are parameters; `FindAndDelete` is one too.
- StakeModifier.ComputeNextStakeModifier: requires the blocks of a chain to have different hashes, and reads them by height instead of by hash; `std::sort` is an insertion sort.
- StakeModifier.GetKernelStakeModifier: is stated for a block on the main chain, which is where kernels are looked up.
- Script bytes: scripts are lists of decoded instructions, so that a truncated push or an unknown opcode is not represented; `VerifyScript` with its pay-to-script-hash step and `SignN` are not modelled.
- Multisig.MergedSpends: requires that the signatures do not occur in the output script, which is what deleting them from the script relies on.
- BlockAssembly.CollectTransactions: requires that the scan finds a missing input before it has entered the transaction into a list (`MissesFirst`); otherwise the source drops a record its lists still refer to (src/main.cpp:4217-4226) and what follows is not defined. The heap may hand out any transaction of the queue, and how priority and fee rate are computed is not modelled.
- AssembledBlocks.AssembledBlockConnects: takes it as given that the wallet's coinstake connects.
- ChainState.CChainState.AddToBlockIndex: takes the stake entropy, proof hash and stake modifier steps on the new node as one outcome `fChecks` (src/main.cpp:2090-2109). That its call of ComputeNextStakeModifier does not fail on a chain indexed by the same code is `StakeModifier.IndexBlock`, stated on the list of block records; so `fChecks` can only be false by a missing proof hash or a modifier checkpoint.
- Base58.DecodeBase58: reads the whole sequence; the source takes a C string, also of a `std::string`, and stops at the first zero byte (src/base58.h:76-127).
- Framing.AnySplitDelivers: is about commands of at most eleven printable characters and payloads within the size limit, the ones a peer accepts; message dispatch and its exceptions and `-dropmessagestest` are not modelled.
- `SetCompact` and `GetCompact`, and the other integer conversions of the big number class: only the byte format base 58 and the script numbers use is modelled.
- Sockets, threads, RPC, user interface, wallet, key and file encryption, Berkeley DB itself, alerts, DNS and UPnP.
