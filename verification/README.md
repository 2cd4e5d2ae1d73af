# Coreth chain-management core in Dafny

This project models the part of coreth that decides which chain is canonical, makes blocks final, survives crashes,
builds and executes blocks, and moves the data around that this needs. It proves what must hold over every run,
interleaving and input, not on examples. `dafny verify dfyconfig.toml` checks all of it.

| file | what it models |
|---|---|
| Blocks, ChainSpec | blocks, ideal hashes, ancestors; the canonical index and finality as a specification on values |
| BlockChain | `reorg` and its callers as imperative code over an in-place database, with every database state a crash can leave |
| Acceptor, Recovery, TrieWriter | the asynchronous acceptor, the pruning trie writer, and recovery after a crash |
| Caches, HashLookup | ring buffer, FIFO cache, accepted-header cache and the memoising `GetHashFn` against plain lookups |
| ChainIndexer | the section indexer that reads without the lock while the chain reorganises |
| World, IntrinsicGas, StateTransition, Processor | wei and gas accounting of a transaction and of a block |
| Ordering, Miner | the price heap, the block builder, and its agreement with the validator |
| Iterator | the parallel in-order block iterator |
| Bytes, PredicateResults, PredicateBytes | the two predicate codecs |
| Network | request handlers, the request semaphore and shutdown |
| Arith, Sums | division by a variable, and sums over maps |

Modelling choices:

- A hash is a constructor applied to the block it was taken from, so distinct blocks have distinct hashes. The block
  store is a set of blocks, the canonical index a map from heights to hashes.
- Concurrent code is a state machine whose events are the steps between two lock or channel operations; theorems hold for
  every enabled sequence of events. Sequential code is a class or a method with the source's loops, proved against a
  specification function.
- The EVM is an arbitrary function of the state, the transaction, its gas and its own predicate results that returns no
  more gas than it got and creates no ether. Total supply is assumed to stay below 2^256.
- Message execution is modelled for transactions under London rules, without `NoBaseFee` and with gas refunds skipped,
  as `TransitionDb` always does. The base fee goes to the coinbase, unlike in EIP-1559.
- Parents that are not stored make `InsertBlock` fail; state roots of accepted blocks are assumed to be reproduced when
  they are executed again; the genesis state is on disk from the start; `StateHistory` is positive.

Some promises hold only under a condition, which is given exactly:

- `BlockChain.CrashInReorgHealsIff`: `reorg` deletes the old chain's higher index entries in batches of 10000, lowest
  first, and startup stops deleting at the first gap. A crash inside a reorg is repaired by the next start if and only if
  the old head is at most 10000 blocks above the new one. `BlockChain.TallTowerIsNotRepaired` reaches a failing state.
- `Recovery.IndicesRecoveredIff`: recovery switches index writing on at the persisted acceptor tip. If no tip was ever
  written, the blocks accepted before the crash stay unindexed. `Recovery.FirstBlockStaysUnindexed` reaches such a crash.
- `Network.FreshIdIsNeeded`: taking a request id that is still in use loses the earlier handler for good.
  `Network.FirstIdsAreFresh` shows that this cannot happen in the first 2^31 requests, and
  `Network.CollisionIsReachable` that it can happen right after them.
- `IntrinsicGas.ChargeIsExactIff`: the price of an access list that no precompile checks wraps at 64 bits.
- `Caches.FifoOfDistinctKeys` and `Caches.PutAgainIsLost`: the cache keeps the last puts only if no key is put twice.
- `Miner.DroppedLeaveNothingIff`: the results of a dropped transaction are to be removed, but one dropped because the
  results no longer fit in a header leaves its own behind. `Miner.OversizeStays` is such an attempt.
- `ChainSpec.RejectSafeIff`: rejecting a block keeps the index sound if and only if the block is not canonical.

## Model

| member | source | states |
|---|---|---|
| `Blocks.ForkSplits` | core/blockchain.go:1702-1747 | the common ancestor that the walk down both chains looks for is the highest one: the chains agree at a height if and only if it is at or below it |
| `ChainSpec.StepKeepsInv` | core/blockchain.go:1206-1228 | after every insert, preference, accept and reject the index is exactly the stored, parent-linked ancestor path of the head, empty above it, and passes through the last accepted block |
| `ChainSpec.RejectSafeIff` | core/blockchain.go:1300-1328 | rejecting keeps that invariant if and only if the block is off the canonical chain |
| `ChainSpec.RejectForgets` | core/blockchain.go:1300-1328 | once a block off the canonical chain is rejected it is not stored, not the head and not accepted, and every other block stays |
| `ChainSpec.RejectedStaysOut` | core/blockchain.go:1300-1328 | over every later run a rejected block is not stored, preferred or accepted unless it is inserted again with verification |
| `ChainSpec.RunKeepsInv` | core/blockchain.go:1000-1016 | the same invariant in every state of every legal run from a sound state |
| `ChainSpec.ReachableIsSound` | core/blockchain.go:808-823 | the same in every state that can be reached from an empty database |
| `ChainSpec.StepExtendsAccepted` | core/blockchain.go:1255-1298 | no step moves the last accepted block anywhere but to a descendant |
| `ChainSpec.Finality` | core/blockchain.go:1749-1754 | over every later run the index never changes at or below the last accepted height |
| `ChainSpec.AcceptedForever` | core/blockchain.go:1255-1298 | once a child of the last accepted block is accepted, every later state indexes it at its height |
| `ChainSpec.ReachableIsFinal` | core/blockchain.go:1749-1754 | in any state reachable from genesis, what is accepted keeps its index entry in every later state |
| `BlockChain.ReorgReindexes` | core/blockchain.go:1775-1816 | on a sound index, overlaying the new chain and deleting upwards to the first gap leaves exactly the index of the new head |
| `BlockChain.ReorgCondition` | core/blockchain.go:1702-1754 | the reorg's own success condition at the fork is equivalent to the new head descending, through stored blocks, from the last accepted block |
| `BlockChain.RestartHeals` | core/blockchain.go:760-806 | a database whose index has no gap below its top is brought back to the last accepted block's index by a restart |
| `BlockChain.RestartKeepsStale` | core/blockchain.go:1794-1816 | a gap below a stale entry keeps that entry through a restart |
| `BlockChain.CrashInReorgHealsIff` | core/blockchain.go:1775-1816 | every crash point of a reorg is repaired by a restart if and only if the old head is at most 10000 above the new one |
| `BlockChain.CrashInReorgIsStartable` | core/blockchain.go:760-806 | every state a crash inside a reorg can leave meets the conditions under which startup runs, so the equivalence above is about what startup does |
| `BlockChain.TallTowerIsNotRepaired` | core/blockchain.go:1783-1816 | the failing case is reachable: after inserting 10001 blocks over genesis, preferring genesis passes through a state that startup accepts and does not repair |
| `BlockChain.BlockChain.constructor` | core/blockchain.go:808-823 | an empty database is initialised to the sound genesis chain |
| `BlockChain.BlockChain.FindFork` | core/blockchain.go:1702-1747 | terminates with the highest common ancestor and both chains above it, highest first; fails if and only if a block on the way is missing, and says on which side |
| `BlockChain.BlockChain.TrimIndex` | core/blockchain.go:1783-1816 | deletes exactly the consecutive heights above the new head, leaving one crash state per batch |
| `BlockChain.BlockChain.SendRemoved` | core/blockchain.go:1822-1839 | side events are the dropped blocks lowest first; the concatenated removed logs are exactly theirs, whatever the batching |
| `BlockChain.BlockChain.SendReborn` | core/blockchain.go:1841-1854 | the concatenated reborn logs are exactly those of the new blocks strictly between the ancestor and the new head |
| `BlockChain.BlockChain.WriteNewChain` | core/blockchain.go:1775-1780 | writes the new chain below its head lowest first, one crash state per block |
| `BlockChain.BlockChain.Reorg` | core/blockchain.go:1696-1856 | succeeds if and only if both paths to the fork are stored and the fork is not below the last accepted block; every failure changes no field and writes nothing |
| `BlockChain.BlockChain.WriteKnownBlock` | core/blockchain.go:1330-1339 | extends the head directly or reorganises, with the same failure atomicity |
| `BlockChain.BlockChain.SetPreference` | core/blockchain.go:1194-1228 | the head moves, and the index becomes that of the new head, if and only if the block descends from the last accepted block through stored blocks, otherwise nothing changes; a head event is sent exactly on a change |
| `BlockChain.BlockChain.InsertBlock` | core/blockchain.go:1343-1377 | stores the block exactly when it is verified and its parent is stored, and keeps the index invariant; a block that extends the head becomes the head and sends a chain event, its logs and a head event, any other only a side event |
| `BlockChain.BlockChain.Accept` | core/blockchain.go:1255-1298 | succeeds exactly for children of the last accepted block, which is then canonical, and moves the head only if the block was not; no block is lost |
| `BlockChain.BlockChain.Reject` | core/blockchain.go:1300-1328 | deletes the block, canonical or not, and no other; the index invariant survives if and only if the block was not canonical |
| `BlockChain.BlockChain.LoadLastState` | core/blockchain.go:760-806 | on any crash state whose accepted part is intact startup ends at the last accepted block, and with a sound index exactly when the crash state can be repaired |
| `Caches.BoundedBuffer.Insert` | core/bounded_buffer.go:32-49 | the callback gets exactly the entry inserted `size` insertions earlier; if it fails nothing is inserted |
| `Caches.BoundedBuffer.Last` | core/bounded_buffer.go:55-60 | returns the newest entry, or nothing if and only if nothing was inserted |
| `Caches.FifoGet` | core/fifo_cache.go:51-64 | a key is found if and only if it was put and not put out by the eviction order since, and the value is that of its latest put |
| `Caches.FifoBounded` | core/fifo_cache.go:43-64 | the map never exceeds its limit |
| `Caches.FifoRecent` | core/fifo_cache.go:43-64 | whatever the cache finds was put among the last `limit` puts |
| `Caches.FifoOfDistinctKeys` | core/fifo_cache.go:43-64 | when no key is put twice, a key is present if and only if it is among the last `limit` puts |
| `Caches.PutAgainIsLost` | core/fifo_cache.go:43-64 | a concrete history in which a key that is put again leaves the cache with its first put, while still among the last `limit` puts |
| `Caches.BufferFIFOCache.Put` | core/fifo_cache.go:43-49 | the map and the ring together refine the history of puts |
| `Caches.BufferFIFOCache.Get` | core/fifo_cache.go:51-57 | answers from that history |
| `Acceptor.StepKeepsNode` | core/blockchain.go:606-653 | each step of the acceptor, the chain and shutdown keeps: blocks in flight are the path from the tip's child to the last accepted block in order; indices written once and in order; a state of the last commit interval on disk; cached headers accepted |
| `Acceptor.RunKeepsNode` | core/blockchain.go:606-670 | the same for every interleaving, and the tip only moves to descendants |
| `Acceptor.GenesisNodeIsSound` | core/blockchain.go:440-447 | a node on an empty database starts with that invariant |
| `Acceptor.DrainedIsProcessed` | core/blockchain.go:675-743 | when the pending count is zero, tip and persisted tip equal the last block handed over and every block was indexed exactly once, so draining and stopping lose and repeat nothing |
| `Acceptor.PendingNeverStuck` | core/blockchain.go:657-743 | while blocks are pending, as for a blocked `Accept`, a drain or a shutdown, the queue or the worker can take a step |
| `Acceptor.WorkEnds` | core/blockchain.go:606-743 | every such step lowers a measure bounded by the queue limit, so hand-over, drain and shutdown end |
| `Acceptor.CacheRefinesIndex` | core/headerchain.go:171-180 | in every reachable state the lookup through the accepted-header cache equals the lookup through the canonical index, for every height |
| `Acceptor.NewestHeaderIsCached` | core/blockchain.go:624-627 | in every sound state since startup the cache finds the header of the last processed block under its height |
| `Recovery.Recovery.FindState` | core/blockchain.go:2071-2122 | returns the newest ancestor with a state; the walk to genesis runs if and only if the bounded search finds none |
| `Recovery.Recovery.Reexecute` | core/blockchain.go:2124-2189 | rebuilds the state of the last accepted block and writes indices exactly for the blocks above the old tip, in order |
| `Recovery.Recovery.ReprocessState` | core/blockchain.go:2039-2209 | recovers if and only if some ancestor state is on disk; then the last accepted state is committed, the tip equals it and the missing indices are written once and in order; a failure writes nothing |
| `Recovery.CrashFindsStateInWindow` | core/blockchain.go:613-622 | after a crash at any step of any run a state less than one commit interval below the tip is found without walking to genesis |
| `Recovery.CrashIsRestartable` | core/blockchain.go:760-806 | after such a crash startup can move the index to any block consensus may report, and recovery starts sound |
| `Recovery.CrashInRecovery` | core/blockchain.go:2124-2209 | a crash inside recovery loses nothing: the tip only moved on, a state is still found, and the two recoveries together write what one would have |
| `Recovery.BetweenAgain` | core/blockchain.go:2124-2209 | any number of interrupted recoveries leave a disk that a single one could have left |
| `Recovery.SearchAfterInterruption` | core/blockchain.go:803-805 | after interrupted recoveries a state lies less than one commit interval plus the blocks in flight below the tip; with a queue at least two shorter than the interval, twice the interval still avoids the walk to genesis |
| `Recovery.RecoveredNodeRuns` | core/blockchain.go:440-447 | the node brought up on the disk that recovery leaves satisfies the invariant of a running node |
| `Recovery.RecoveredDisk` | core/blockchain.go:2124-2209 | interrupted or not, recovery leaves the last accepted state committed and, if a tip was on disk, the tip at it and every block since the previous start indexed once and in order; without a tip it writes no index |
| `Recovery.CrashRecovers` | core/blockchain.go:2039-2209 | for every run, every crash point and every block consensus may report: a state is found, with a tip on disk inside the search window, the disk ends complete, and the restarted node is sound |
| `Recovery.IndicesRecoveredIff` | core/blockchain.go:2049-2163 | all blocks since the previous start are indexed after recovery if and only if a tip was on disk or nothing was accepted |
| `Recovery.FirstBlockStaysUnindexed` | core/blockchain.go:2153-2163 | the failing case is reachable: the first block over genesis is accepted and the node crashes before the worker has written anything |
| `Recovery.OneLife` | core/blockchain.go:2039-2209 | one run, crash and recovery moves the last accepted block on and indexes exactly the blocks in between |
| `Recovery.LivesGoOn` | core/blockchain.go:2039-2209 | over any sequence of runs, crashes and recoveries every life is sound and, once a tip is on disk, all accepted blocks are indexed exactly once and in order |
| `Recovery.EveryLifeIsSound` | core/headerchain.go:171-180 | from an empty database through any such sequence, every reachable node is sound and its header cache answers as the canonical index |
| `Recovery.WarmAcceptedCaches` | core/blockchain.go:569-602 | fills the cache with exactly the last accepted blocks above genesis, lowest first |
| `TrieWriter.CappedMemoryTrieWriter.AcceptTrie` | core/state_manager.go:182-228 | the roots dereferenced are those older than the last `StateHistory` accepted ones, once and in order; the roots committed are those on the interval; errors are told apart |
| `TrieWriter.CappedMemoryTrieWriter.InsertRoot` | core/state_manager.go:182-192 | evicts exactly the root accepted `StateHistory` blocks earlier |
| `TrieWriter.CappedMemoryTrieWriter.CommitOrCap` | core/state_manager.go:194-228 | commits exactly on the interval and makes the cap calls that `CapsMean` describes, errors told apart |
| `TrieWriter.CappedMemoryTrieWriter.Shutdown` | core/state_manager.go:250-261 | commits the newest accepted root, if any |
| `TrieWriter.TargetMeans` | core/state_manager.go:203-220 | the memory target falls in equal steps from the memory cap, 768 blocks before a commit, to the commit target |
| `TrieWriter.CapsMean` | core/state_manager.go:203-228 | a block k before the next commit is capped if and only if k is between 1 and 768 and the cache exceeds the target, and then to 102400 bytes below it |
| `ChainIndexer.FreshIsOk` | core/chain_indexer.go:142-158 | a new indexer satisfies the invariant with or without a checkpoint |
| `ChainIndexer.StepKeepsSystem` | core/chain_indexer.go:255-380 | reorgs, notifications, unlocked reads, failures and section ends in any order keep stored heads above the checkpoint parent-linked, each exactly one section after the previous |
| `ChainIndexer.RunKeepsSystem` | core/chain_indexer.go:255-452 | the same for every run |
| `ChainIndexer.LastHeadDecides` | core/chain_indexer.go:434-441 | if the last stored head is canonical then all stored heads above the checkpoint are |
| `ChainIndexer.SectionsAreCanonical` | core/chain_indexer.go:446-452 | in every reachable state, after a query every stored head above the checkpoint is canonical although only the last one is compared |
| `ChainIndexer.KnownMeansConfirmed` | core/chain_indexer.go:288-311 | a head notification only adds sections, those whose last block has at least the required confirmations and no fewer, and passes the checkpoint only if the chain does |
| `ChainIndexer.ConfirmedBecomesKnown` | core/chain_indexer.go:288-311 | every section confirmed in this way becomes known, provided the sections cover the checkpoint and the chain passes through it |
| `ChainIndexer.RollbackIsExact` | core/chain_indexer.go:259-286 | a section stays known or, above the checkpoint, stored only if it was and ends at or below the common ancestor; every such section stays, except that none stays known when the ancestor lies inside the checkpoint |
| `ChainIndexer.OnlyStaleAreDropped` | core/chain_indexer.go:434-441 | a dropped section lies at or above the checkpoint and its head is off the chain |
| `ChainIndexer.KnownSectionsAreConfirmed` | core/chain_indexer.go:255-312 | over every run each known section from the checkpoint on was confirmed by a notification that no later rollback undid |
| `ChainIndexer.StartsOnCanonical` | core/chain_indexer.go:316-345 | processing starts right above the last stored section, whose head is canonical at that moment |
| `ChainIndexer.QuietSectionIsStored` | core/chain_indexer.go:316-429 | progress: while the chain stands still, a known section that is complete on it, on top of a canonical last section, is read and stored with its canonical head, and nothing else changes |
| `ChainIndexer.FailureWaits` | core/chain_indexer.go:360-380 | after a failure nothing is processed again before a new notification |
| `ChainIndexer.ChainIndexer.SetValidSections` | core/chain_indexer.go:491-503 | forgets the heads of all sections from the given one on, and no others |
| `ChainIndexer.ChainIndexer.VerifyLastHead` | core/chain_indexer.go:434-441 | drops sections from the end until the last one is canonical |
| `ChainIndexer.ChainIndexer.NewHead` | core/chain_indexer.go:255-312 | refines the notification step that `KnownMeansConfirmed`, `ConfirmedBecomesKnown` and `RollbackIsExact` describe, and passes a rollback on exactly when the known sections end below what children were told |
| `ChainIndexer.ChainIndexer.ProcessSection` | core/chain_indexer.go:400-429 | succeeds if and only if the backend never fails and each read fits; a backend that cannot be reset makes the indexer forget all sections, any other failure changes nothing |
| `ChainIndexer.ChainIndexer.ReadSection` | core/chain_indexer.go:409-424 | each read, on whatever chain it sees, must find a block on top of the previous read; then the whole section is one unbroken chain on the old head |
| `ChainIndexer.ChainIndexer.Sections` | core/chain_indexer.go:446-452 | every section it reports above the checkpoint has the canonical head |
| `ChainIndexer.FindCommonAncestor` | core/chain_indexer.go:538-559 | returns the highest common ancestor, or nothing when a header on the way is missing |
| `HashLookup.PlainLookupFindsAncestor` | core/evm.go:158-194 | with a stored chain the plain walk finds the hash of every ancestor |
| `HashLookup.LookupIff` | core/evm.go:158-194 | the answer is the ancestor hash if and only if the height is below the reference and every header in between is stored, else zero |
| `HashLookup.HashFn.GetHash` | core/evm.go:158-194 | for any sequence of queries the answer equals the plain walk's, zero at and above the reference height or when a header is missing, and the memo only grows |
| `IntrinsicGas.ToWordSize` | core/state_transition.go:183-189 | the rounding up never overflows |
| `IntrinsicGas.DivisionTest` | core/state_transition.go:107-126 | the division test used before each multiplication detects 64-bit overflow exactly |
| `IntrinsicGas.AccessListGas` | core/state_transition.go:143-180 | with predicates, the exact sum, or an error if and only if a predicate is refused or the sum overflows; without, the sum wrapped to 64 bits |
| `IntrinsicGas.PlainAccessListGas` | core/state_transition.go:146-150 | the two unchecked products give the exact price modulo 2^64 |
| `IntrinsicGas.DataGas` | core/state_transition.go:84-127 | base, data and init code gas are the exact sum, or overflow if and only if it exceeds 64 bits |
| `IntrinsicGas.Intrinsic` | core/state_transition.go:84-141 | the charge is computed exactly, or an error is returned if and only if it exceeds 64 bits or a predicate is refused |
| `IntrinsicGas.ChargeIsExactIff` | core/state_transition.go:84-141 | the charge is the exact mathematical sum if and only if there is no list, predicates exist, or the list costs at most 2^64 - 1 |
| `IntrinsicGas.EmptyPrice` | core/state_transition.go:84-94 | a transaction without data costs 21000, a creation under Homestead 53000 |
| `IntrinsicGas.BytePrice` | core/state_transition.go:96-127 | one more byte costs 4 if it is zero, else 16 or, before Istanbul, 68, and 2 more whenever it starts a new word of init code |
| `IntrinsicGas.EntryPrice` | core/state_transition.go:143-180 | one more access-list entry costs 2400 and 1900 per key, or what the precompile of its address says, which may refuse it |
| `StateTransition.FundsCoverPayment` | core/state_transition.go:301-338 | a sender that passes the checks owns the payment and the value together, and neither the sum nor the price leaves 256 bits |
| `StateTransition.BuyingIsExact` | core/state_transition.go:301-338 | buying gas never underflows and lowers the supply by exactly the payment; the transfer check after it cannot fail |
| `StateTransition.Conservation` | core/state_transition.go:433-523 | an applied transaction lowers the supply by exactly what the EVM destroyed plus, under Cancun, 131072 times the blob base fee per blob |
| `StateTransition.UnreachableErrors` | core/state_transition.go:479-513 | the transfer error and the price overflow are never returned |
| `StateTransition.AppliedIff` | core/state_transition.go:340-488 | a transaction is applied if and only if it is signed and meets every validity condition, whatever the order of the checks |
| `StateTransition.GasConservation` | core/state_transition.go:525-564 | remaining pool plus used gas is the old pool, and used gas lies between the intrinsic gas and the limit |
| `StateTransition.SupplyNeverGrows` | core/state_transition.go:433-523 | a supply below 2^256 stays below it |
| `StateTransition.Settlement` | core/state_transition.go:301-338 | for every account: the sender alone pays limit times price plus blob fee before execution, afterwards gets the unused gas back, the coinbase gets the used gas at base fee plus tip, and nobody else changes outside the EVM |
| `StateTransition.SettlementKeepsRest` | core/state_transition.go:490-523 | buying and settling touch balances only: nonces, contracts and storage are as the EVM left them |
| `StateTransition.EvmSees` | core/state_transition.go:497-506 | an applied transaction carries its sender's nonce; the EVM gets that nonce raised by one for a call and untouched for a creation, and all other nonces, contracts and storage untouched |
| `StateTransition.NonceIsUsed` | core/state_transition.go:497-506 | with an EVM that lowers no nonce and raises that of a creator, an applied transaction leaves its sender's nonce above its own and lowers nobody's |
| `StateTransition.FundsAreTheWorstCase` | core/state_transition.go:301-325 | the balance asked for is what the sender would pay if both fees stood at its caps, plus the value |
| `StateTransition.ErrorsMean` | core/state_transition.go:340-488 | every error is returned for the condition it names, and a nonce below the account's always as such |
| `StateTransition.CreditIsMinerFee` | core/state_transition.go:505-515 | the coinbase's balance rises by used gas times base fee plus effective tip, without wrap-around |
| `StateTransition.LargerPool` | core/state_transition.go:329-334 | a larger gas pool changes neither outcome nor state |
| `StateTransition.GasPool.AddGas` | core/gaspool.go:40-46 | adds exactly, when the sum fits 64 bits |
| `StateTransition.GasPool.SubGas` | core/gaspool.go:50-56 | fails and changes nothing if and only if the pool is too small |
| `StateTransition.StateTransition.BuyGas` | core/state_transition.go:301-338 | fails without effect exactly when funds or pool do not suffice |
| `StateTransition.StateTransition.PreCheck` | core/state_transition.go:340-421 | the first failing check, in the source's order and with its loop over blob hashes, decides the error, and nothing has changed by then |
| `StateTransition.StateTransition.Execute` | core/state_transition.go:490-523 | refines execution and settlement: nonce, EVM run, refund and coinbase payment in the source's order, as `EvmSees`, `NonceIsUsed` and `Settlement` describe them |
| `StateTransition.StateTransition.TransitionDb` | core/state_transition.go:433-523 | refines the transition that the conservation results are about, including the state an error leaves behind; `AddGas` cannot panic |
| `Processor.ApplyTransaction` | core/state_processor.go:119-177 | state, pool and gas are those of the transition, and the receipt is the one `ReceiptsTellTruth` is about; a refusal issues none |
| `Processor.Process` | core/state_processor.go:97-110 | the transaction loop accepts if and only if every transaction applies in turn, and returns that run's state, receipts, gas and the logs of all receipts in order |
| `Processor.BlockGas` | core/state_processor.go:97-110 | over a block pool plus used gas is constant and used gas covers the intrinsic gas of every transaction |
| `Processor.ReceiptsAddUp` | core/state_processor.go:147-176 | receipt i has the hash and index of transaction i and cumulates exactly the gas of the receipts up to it |
| `Processor.ReceiptsTellTruth` | core/state_processor.go:147-176 | over every block receipt i reports status, gas and logs of the EVM's own run of transaction i on the state left by those before it, and its blob gas, price and creation address |
| `Processor.StatesAreFinalised` | core/state_processor.go:137-143 | the state after every transaction of a block is a finalised one |
| `Processor.NoncesGrow` | core/state_processor.go:97-110 | with such an EVM, transaction i carries the nonce its sender has in the state before it, no nonce ever falls, and that sender's ends above it |
| `Processor.NoReplay` | core/state_processor.go:97-110 | with such an EVM, a transaction of a block is refused for its nonce in every later state, whatever the pool and the predicate results, and later transactions of its sender have higher nonces |
| `Processor.BlockConservation` | core/state_processor.go:97-110 | with an EVM that destroys no ether, a block lowers the supply by exactly its blob fees |
| `Processor.TotalFees` | miner/worker.go:557-573 | the loop over transactions and receipts computes the sum of the miner fees, with or without a base fee |
| `Processor.CreditsAreFees` | miner/worker.go:557-573 | the sum of the coinbase's balance increases over a block equals the total fees computed from the receipts |
| `Ordering.RunTakesPrefixes` | miner/ordering.go:149-166 | over every run of `Shift` and `Pop` each account's transactions are taken as a prefix of its list, each with a fee cap of at least the base fee, and one head per account remains |
| `Ordering.NoneTwice` | miner/ordering.go:149-166 | two operations never take the same place of the same list |
| `Ordering.RootIsBest` | miner/ordering.go:73-82 | in a heap no entry precedes the root by tip and then by time |
| `Ordering.HeapIsBest` | miner/ordering.go:141-146 | what `Peek` shows is a best head of the whole queue |
| `Ordering.FeeIsPaid` | miner/ordering.go:50-66 | the fee of a head is as much as both the tip cap and the room under the fee cap allow, and there is a head exactly when the fee cap covers the base fee |
| `Ordering.FeeIsEffectiveTip` | miner/ordering.go:50-66 | it is the tip per gas that the coinbase gets when the transaction executes |
| `Ordering.OperationsMean` | miner/ordering.go:149-166 | `Shift` replaces the head by the account's next transaction or removes it, `Pop` removes it, and no other account changes |
| `Ordering.TransactionsByPriceAndNonce.constructor` | miner/ordering.go:112-138 | whatever order the accounts are visited in, there is exactly one head for each account whose first transaction pays the base fee, and the heap order holds |
| `Ordering.TransactionsByPriceAndNonce.Down` | miner/ordering.go:149-158 | the sift restores the heap order and permutes the heads |
| `Ordering.TransactionsByPriceAndNonce.PopHeap` | miner/ordering.go:164-166 | removes exactly the root and keeps the heap order |
| `Ordering.TransactionsByPriceAndNonce.Peek` | miner/ordering.go:141-146 | returns a head and the fee it pays, of which no head pays more and none that pays the same is older, or nothing if and only if there is none |
| `Ordering.TransactionsByPriceAndNonce.Shift` | miner/ordering.go:149-159 | replaces the best head by its account's next transaction if that pays the base fee, else drops it; the transactions left decrease |
| `Ordering.TransactionsByPriceAndNonce.Pop` | miner/ordering.go:164-166 | drops the best head and with it the account; the transactions left decrease |
| `Miner.SameResults` | core/evm.go:138-142 | processing a block depends only on the predicate results of its own transactions |
| `Miner.ApplyAllLarger` | core/state_processor.go:97-110 | a larger pool processes a block in the same way and keeps the difference |
| `Miner.CommitReplays` | miner/worker.go:346-375 | an attempt, successful or reverted, on a transaction not tried before keeps the block replayable by the validator |
| `Miner.AttemptsReplay` | miner/worker.go:377-480 | so does every sequence of attempts on distinct transactions |
| `Miner.Agreement` | core/state_processor.go:97-110 | whatever was tried and reverted, processing just the included transactions with a pool at least as large gives the builder's state, gas and receipts; pool plus used gas is the capacity |
| `Miner.AttemptsAddUp` | miner/worker.go:307-343 | over every sequence of attempts gas, size, blob gas and count in the block are the sums over what it includes, and the blob gas is 131072 per blob |
| `Miner.AttemptsFillHeader` | miner/worker.go:346-375 | over every sequence of attempts on distinct transactions the recorded predicate results are those verification gave each included transaction, and besides exactly those of attempts dropped because the results became too large |
| `Miner.DroppedLeaveNothingIff` | miner/worker.go:90-94 | so the results of dropped transactions are removed if and only if none was dropped for that reason |
| `Miner.OversizeStays` | miner/worker.go:360-365 | an attempt that leaves its results behind |
| `Miner.RecordedIsFound` | predicate/predicate_results.go:131-142 | what is recorded for a transaction is what is looked up for it, empty results as none, and no other lookup changes |
| `Miner.CommitFailsFor` | miner/worker.go:321-375 | an attempt fails for blob space if and only if the block would exceed six blobs, else for a failed verification, results that are too large, or the error of its transition, in this order, and for nothing else |
| `Miner.SkippedWouldFail` | miner/worker.go:421-452 | a transaction skipped for lack of gas or blob space could not have been included |
| `Miner.RoundMeans` | miner/worker.go:377-480 | no blob transaction is taken once six blobs are in, and an account goes on to its next transaction if and only if this one was included or its nonce was too low |
| `Miner.FillTraced` | miner/worker.go:377-480 | every fair filling is a legal sequence of operations on both queues and a sequence of attempts, each from an operation of its own, and never gives gas or blobs back |
| `Miner.Environment.ApplyTransaction` | miner/worker.go:346-375 | a failure restores state and pool and removes the recorded results, except that a failed marshalling keeps them |
| `Miner.Environment.CommitTransaction` | miner/worker.go:307-343 | includes exactly the transactions that apply, and refuses blob transactions over the blob limit before running them |
| `Miner.Environment.Choose` | miner/worker.go:403-417 | picks a head whose fee no head of either queue exceeds, a plain one on a tie |
| `Miner.Environment.Attempt` | miner/worker.go:421-478 | runs a transaction if and only if it is still pooled and gas, 786432 of blob gas, 1792 KiB of size and the replay rule allow it, keeps the limits of the block, and asks for the account's next one exactly on success or a low nonce |
| `Miner.Environment.TakeBest` | miner/worker.go:384-478 | one round: takes the most profitable head of both queues and moves its account on as the outcome of its attempt says, or reports that nothing is left |
| `Miner.Environment.CommitTransactions` | miner/worker.go:377-480 | terminates on the transactions left; the block and both queues are the result of a sequence of fair rounds, and it stops only below 21000 gas or with no head left that could enter |
| `Miner.Environment.FillTransactions` | miner/worker.go:248-262 | every one of the four pending lists is worked through in order of profit down to its last head unless gas or blob space ran out, no transaction is tried twice, and the validator accepts the block with the builder's state, gas and receipts |
| `Miner.PicksAreDistinct` | miner/worker.go:377-480 | the builder never tries the same transaction twice, which is what agreement needs |
| `Iterator.SlotIsRemainder` | core/blockchain_iterator.go:146 | the ring slot of a height is its remainder by the parallelism |
| `Iterator.SlotIsFree` | core/blockchain_iterator.go:162-170 | a received block always goes into an empty slot, so unread heights never share one |
| `Iterator.StepKeepsIter` | core/blockchain_iterator.go:72-136 | every step keeps: each height handed out and not delivered is in exactly one place, a worker or its slot |
| `Iterator.TakesNext` | core/blockchain_iterator.go:147-157 | the block in the next slot is the next height |
| `Iterator.DeliveredInOrder` | core/blockchain_iterator.go:139-176 | for every interleaving `Next` has returned start, start + 1, and so on, once each |
| `Iterator.OnlyAcceptedAreRead` | core/blockchain_iterator.go:120-136 | no worker ever reads, and the ring never holds, a height above the last accepted block |
| `Iterator.NoneBeyondMissing` | core/blockchain_iterator.go:162-166 | a missing block is never passed over: neither its height nor any above it is ever returned |
| `Iterator.SomeWorkerIsFree` | core/blockchain_iterator.go:120-136 | whenever a height is handed out some worker is idle to take it |
| `Iterator.NoDeadlock` | core/blockchain_iterator.go:139-185 | open or closed, until a call returns the caller or a worker can take a step |
| `Iterator.WorkersLeave` | core/blockchain_iterator.go:180-185 | once closed, every worker still there can take a step of its own |
| `Iterator.CallsReturn` | core/blockchain_iterator.go:139-185 | every such step lowers a measure, so every call returns, also one that stops on a missing block and waits for all workers, and so does `Stop` |
| `Bytes.ListIsUnique` | predicate/predicate_results.go:162-168 | only one list holds given keys in byte order, so the iteration order of the map cannot show in the output |
| `Bytes.SortedKeys` | predicate/predicate_results.go:162-168 | collecting keys in any order and sorting them yields that list |
| `Bytes.LessMeans` | predicate/predicate_results.go:162-168 | one key precedes another if and only if it ends first or has the smaller byte at the first difference |
| `Bytes.Be32Digits` | predicate/predicate_results.go:170-195 | lengths are written with the most significant byte first |
| `PredicateResults.SizeIsLength` | predicate/predicate_results.go:147-153 | the size summed over the maps is the length of the encoding |
| `PredicateResults.RoundTrip` | predicate/predicate_results.go:72-119 | parsing an encoding, also with bytes behind it, gives the same nested map |
| `PredicateResults.OneEntryLayout` | predicate/predicate_results.go:146-195 | the bytes of a single entry with a value below 256 bytes: two zero bytes, count 1, hash, count 1, address, length, value |
| `PredicateResults.TruncatedIsRefused` | predicate/predicate_results.go:72-119 | every proper prefix of an encoding is refused |
| `PredicateResults.ParseRefuses` | predicate/predicate_results.go:72-92 | input over 1 MiB and a version other than zero are refused as such, and only then |
| `PredicateResults.ComputeSize` | predicate/predicate_results.go:147-153 | the nested loops over unordered maps compute that size |
| `PredicateResults.Marshal` | predicate/predicate_results.go:146-195 | fails if and only if the size exceeds 1 MiB; otherwise fills the buffer exactly to its end with an encoding that depends only on the map's contents |
| `PredicateResults.ParseResults` | predicate/predicate_results.go:72-119 | the offset loop refines the recursive reader, error by error |
| `PredicateBytes.UnpackPack` | predicate/predicate_bytes.go:28-51 | every message is recovered from its packed form, which fills whole words |
| `PredicateBytes.PackUnpack` | predicate/predicate_bytes.go:36-51 | only packed forms are accepted, so packing is a bijection onto the valid encodings |
| `PredicateBytes.PackLayout` | predicate/predicate_bytes.go:28-33 | the message, the byte 0xff, and zeros up to the next multiple of 32 |
| `PredicateBytes.RefusalsMean` | predicate/predicate_bytes.go:36-51 | with the last non-zero byte at j: refused for its padding if and only if the length is not the next multiple of 32 above j, for its delimiter if and only if it is and that byte is not 0xff, else accepted |
| `PredicateBytes.AllZeroMeans` | predicate/predicate_bytes.go:36-40 | input is refused as empty if and only if it has no byte but zeros |
| `PredicateBytes.HashSliceToBytes` | utils/bytes.go:23-29 | copies the words into one buffer in order |
| `PredicateBytes.BytesToHashSlice` | utils/bytes.go:33-44 | cuts bytes into words, the last one filled with zeros |
| `PredicateBytes.WordsOfJoined` | utils/bytes.go:23-44 | cutting joined words gives the words back |
| `PredicateBytes.JoinedWords` | utils/bytes.go:23-44 | joining the words of whole-word bytes gives the bytes back |
| `PredicateBytes.JoinedAt` | utils/bytes.go:23-29 | word i fills the bytes from 32 i to 32 i + 31 |
| `PredicateBytes.CutAndJoined` | utils/bytes.go:23-44 | cutting and joining any bytes gives them back with zeros up to a whole word |
| `PredicateBytes.PreparePredicateStorageSlots` | predicate/predicate_slots.go:20-30 | each checked address gets all its predicates in list order, and no other address gets any |
| `PredicateBytes.AttachedPredicate` | predicate/predicate_tx.go:29-32 | a predicate attached to a transaction comes out of the prepared slots unchanged, behind those its address already had |
| `Network.StepKeepsNet` | network/network.go:206-280 | every step with a free id keeps: held slots match senders, handlers and releasing threads while open; each registered handler waits, is being answered, or has had exactly one callback |
| `Network.RunKeepsNet` | network/network.go:206-280 | the same for every run |
| `Network.SlotsMatchHandlers` | network/network.go:233-280 | at rest and open, the held slots are exactly the registered handlers |
| `Network.OneCallbackEach` | network/waiting_handler.go:39-50 | no handler gets two callbacks, so no channel is closed twice; after shutdown and the answers in progress every registered handler has had exactly one |
| `Network.ReleasesAreBacked` | network/network.go:336-370 | the semaphore is never released below zero |
| `Network.StepKeepsEven` | network/network.go:533-538 | request ids stay even over every step, and a send takes the id two above, or 0 after 2^32 - 2 |
| `Network.FreshIdIsNeeded` | network/network.go:248-277 | a send, delivered or not, keeps the bookkeeping if and only if the next id is not in use; otherwise the handler registered under it is lost |
| `Network.LostForever` | network/network.go:233-468 | a lost handler is never called back in any later state of any run |
| `Network.FirstIdsAreFresh` | network/network.go:533-538 | in the first 2^31 requests no id is in use again, so the results above hold for every run up to there |
| `Network.CollisionIsReachable` | network/network.go:533-538 | the bound is tight: a run with exactly 2^31 sends, all with free ids, ends with the next id in use |
| `Network.FirstRequestIsLost` | network/network.go:248-249 | the next delivered request after that run loses the first one for good |
| `Network.AppNetwork.TakeSlot` | network/network.go:217-220 | takes a slot exactly when one is free |
| `Network.AppNetwork.SendAppRequest` | network/network.go:233-280 | closed, cancelled, undelivered and delivered requests are exactly the corresponding steps, and the returned error fits |
| `Network.AppNetwork.Answer` | network/network.go:336-370 | a known id is taken out, its slot released and its handler called once; an unknown one changes nothing |
| `Network.AppNetwork.Close` | network/network.go:456-468 | every waiting handler gets exactly one failure, in whatever order the map is visited, no other handler gets anything, and the table is empty |

## Left out

- InsertBlockWithoutState, SetLastAcceptedBlockDirect, AcceptImportedState, ResetToStateSyncedBlock and EnsureGenesisState: entry points that overwrite head or accepted markers outside the protocol.
- The LRU caches of headers, bodies and receipts: they are keyed by hash, so they cannot disagree with the store.
- `number - 1` at genesis: the 64-bit wrap-around of a walk past genesis is modelled as a missing block.
- Snapshot trees, trie nodes and the path scheme: states are roots that are on disk or in memory.
- Re-execution of a block during recovery always gives the state root of its header; a mismatch is not modelled.
- A failing `Dereference` inside the acceptor worker: `AcceptTrie` models it, the run-level results assume success.
- The archival trie writer, which commits or skips roots without a tip buffer.
- `AddCheckpoint` during section processing, and what child indexers do with a rollback passed on to them.
- `verifyLastHead` comparing several sections while the chain changes: each comparison is one step, also available separately as `DropLast`.
- Recovery.LivesGoOn: treats each chain operation as one step; a crash inside a reorg is the subject of `BlockChain.CrashInReorgHealsIff`.
- Messages that are not transactions (`eth_call`, system calls), pre-London rules and `NoBaseFee`.
- The two reasons for a missing intrinsic gas, overflow and a refused predicate, are one error in `StateTransition`.
- StateTransition.GasPool.AddGas: requires that the sum fits 64 bits, where the source panics; `TransitionDb` never violates it.
- Receipt fields that only copy block data: bloom, block hash, block number and post state.
- Processor.Process: models the transaction loop only, without upgrades and the beacon-root call before it and engine finalisation after it.
- Splitting pending transactions into local and remote accounts; `FillTransactions` takes the four lists.
- A blob transaction without a sidecar, on which the builder panics.
- Miner.Agreement: is stated for attempts on distinct hashes, since retrying an included transaction would delete its predicate results; `Miner.PicksAreDistinct` proves that the builder's queues never do that.
- Miner.Environment.CommitTransactions: is stated for two queues built for the same base fee, as `commitNewWork` builds them.
- Processor.NoReplay: is stated for an EVM that lowers no nonce and raises that of a creator, which the arbitrary EVM of the model need not do.
- What the iterator returns besides the height: the block itself and whether its state exists.
- `WaitForResult` and the bytes of a response: a callback is recorded as response or failure.
- Semaphore slots after shutdown, which stay held for the handlers that were dropped; only the bound is stated there.
- Consensus engine, LP-176 fees, KZG, bloom bits, accounts/abi, RPC, clients, metrics and logging.
