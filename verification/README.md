# Verified model of chain sync, persistence order and harness state in pq-rust-lightning

This project models the parts of the repository that keep state across calls, and proves what they keep over whole runs.

- `BlockTree.dfy`, `SpvClient.dfy`: The block-sync client: header checks, the walk of two chains back to their fork point, the header cache, and a listener that is disconnected and connected while any request may fail.
- `FalseClaims.dfy`: What a source can bring about by false claims over a cached parent.
- `InitSync.dfy`: Startup sync of many listeners over one shared path fetched in batches.
- `Ledger.dfy`, `Mempool.dfy`, `HarnessChain.dfy`: The consistency harness's chain: unspent outputs, a mempool with replacement, mining.
- `Persistence.dfy`: The background processor's order of persisting the channel manager and flushing deferred monitor operations, interleaved with message handlers.
- `MonitorTracker.dfy`: Which serialized monitors a restart may load.
- `MessageQueues.dfy`: The harness's peer message queues, in which node B's traffic is merged and split again.
- `BlockDelivery.dfy`, `Payments.dfy`, `MppSplit.dfy`: Skipping block delivery, the payment ledger, multi-part amounts.
- `PqChunks.dfy`: Post-quantum keys and signatures spread over BOLT 11 tagged fields.
- `GossipCache.dfy`: Concurrent lookups of short channel ids through a shared cache.

A block source is a tree of headers; what it claims for heights and chainwork is free. Any request to it may fail, except
for hashes in a set that is sure to be answered; results that promise success name what has to be in that set. A listener
is the stack of blocks it is on, and its preconditions are the order in which blocks have to be handed to it.

Four expectations a reader of the code may have do not hold as they stand. Each has a concrete case in a state
that the operations lead to, and the exact condition under which it does hold:

- A tip the client adopts is not always backed by the work it claims, nor at consecutive heights, because links to
  cached parents are not checked (`ReorganizedOntoLessWork`, `UnbackedBehindHonest`; `CachedLinksDecide` and
  `ClaimsDecideFork` for any cache, `FirstLinkDecidesWork`, `FirstLinkDecidesHeights` and `FirstLinkDecidesFork` for one
  that is a path to the tip).
- The flag a poll returns does not always tell of notifications (`NotifiedUnreported`; the two clauses on `KeepsOldTip`
  of `PollBestTip`, and `ClaimsDecideFlag`).
- Replacement in the mempool is not atomic (`ReplacementNotAtomic`; `ReplacementAtomic`).
- A gossip lookup can find and cache a block that has left the chain, and later lookups are served it, if a hash is read
  before the tip (`StaleBlockFound`; `CarefulIsExact`, `ReadOrderDecides`).

Where comments and code differ the code is followed: the header cache is described as a week of headers, but its cutoff
is inclusive, so it holds up to `HEADER_CACHE_LIMIT` + 1; a startup sync is described as starting from the listener's
own block, but falls back to a listed ancestor, and then the listener may be taken back further than the fork point.

## Model

| member | source | states |
|---|---|---|
| `SpvClient.Client.PollBestTip` | lightning-block-sync/src/lib.rs:275-291 | Whatever call fails and whatever heights and chainwork are claimed, the listener's stack afterwards is exactly the chain ending at `chainTip`. The flag is true iff the tip moved, and then the listener was notified. It is true iff the listener was notified, unless the walk went below the old tip though the new chain only adds to it; then a block that cannot be fetched at the right place makes it false after notifications. The reported tip is the block the source named, classed by its chainwork. If the source answers enough, given the cache, a better tip is reached in full. With any cache, an adopted tip's chainwork is backed by work iff the links with a cached parent claim nothing on top, and its heights are consecutive, coming from consecutive ones, iff those links' heights are right. With a contiguous cache that is the first new link alone. |
| `SpvClient.Client.UpdateChainTip` | lightning-block-sync/src/lib.rs:295-314 | The same for one new best header: tip and listener move together to some block of its chain, also when the sync stops half-way; a changed tip had a validated transition. |
| `SpvClient.Client.constructor` | lightning-block-sync/src/lib.rs:263-268 | Starts with the listener on the chain ending at the tip; with an empty cache and consecutive heights the state is settled. |
| `SpvClient.ChainNotifier.SynchronizeListener` | lightning-block-sync/src/lib.rs:351-364 | Success puts the listener on the whole chain to the new tip. A failure with a header comes only from a validated transition and leaves the listener at exactly that header, before a block not sure to be answered. A failure without one leaves it unnotified. The number of notifications is exact. An answerable walk always succeeds. |
| `SpvClient.ChainNotifier.FindDifferenceFromHeader` | lightning-block-sync/src/lib.rs:417-445 | Ends, and returns a common block with exactly the path from the tip down to just above it, whatever heights are claimed; the lowest common ancestor if heights are consecutive on both chains. Tip chainwork is the common block's plus the work of the path plus what links with a cached parent claim on top. On mainnet, blocks of one 2016-block period with no cached parent between them have the same bits, and the first of a period is within a factor of four of its parent's target. Whenever the recursive `Walk` succeeds on the sure answers, the result is that of `Walk`. |
| `SpvClient.ChainNotifier.FindDifferenceFromBestBlock` | lightning-block-sync/src/lib.rs:374-411 | From a locator: the walk starts at some listed hash with no hash before it cached or sure to be answered, so at the listener's own block if that is known, and its result is a common block of both chains with the path above it, whose links with an uncached parent were checked. If some listed hash is sure to be answered, no distance up to it exceeds the height, and the walk from every known hash up to it can be answered, the result is a path that can be fetched. It is an error if a distance exceeds the height before any hash the source or the cache knows. Only hashes the locator names enter the cache. |
| `SpvClient.ChainNotifier.FindStart` | lightning-block-sync/src/lib.rs:379-408 | Tries the listed hashes in turn. Everything passed over was neither cached nor sure to be answered and not further back than the height; what is found is the tree's header for the hash it stopped at, on the listener's chain; nothing is found only at the end of the list or at a distance greater than the height. |
| `SpvClient.CandidatesExact` | lightning-block-sync/src/lib.rs:380-388 | The hashes tried are exactly the own block at distance 0 and each listed ancestor at its place plus one, nearest first. |
| `SpvClient.ChainNotifier.LookUpPreviousHeader` | lightning-block-sync/src/lib.rs:449-456 | Gives the parent in the tree; one the cache did not hold was checked to build on. |
| `SpvClient.ChainNotifier.DisconnectBlocks` | lightning-block-sync/src/lib.rs:459-463 | One notification takes the listener back to exactly the fork point; the cache keeps its path shape. |
| `SpvClient.ChainNotifier.ConnectBlocks` | lightning-block-sync/src/lib.rs:466-490 | The listener grows along the chain, one notification a block, and a failure reports exactly where it stands: before a block not sure to be answered, never past one sure to be missing. |
| `SpvClient.Listener.FilteredBlockConnected` | lightning-block-sync/src/lib.rs:479-481 | Precondition of every connect: the block is a child of the listener's tip. Consecutive heights of the stack say that every connect was one higher. |
| `SpvClient.Listener.BlocksDisconnected` | lightning-block-sync/src/lib.rs:459-463 | Precondition of every disconnect: it names a strict ancestor of the listener's tip. |
| `SpvClient.HeaderCache.BlockConnected` | lightning-block-sync/src/lib.rs:214-222 | Inserts the header and keeps exactly those that claim to be at most `HEADER_CACHE_LIMIT` below it. |
| `SpvClient.HeaderCache.InsertDuringDiff` | lightning-block-sync/src/lib.rs:226-235 | The same measured from the highest header held. |
| `SpvClient.HeaderCache.BlocksDisconnected` | lightning-block-sync/src/lib.rs:242-246 | Drops exactly the headers above the fork point, unless told to retain. |
| `SpvClient.ContiguousConnect` | lightning-block-sync/src/lib.rs:214-222 | A cache that holds exactly the newest blocks of the stack still does after a connect. |
| `SpvClient.ContiguousDisconnect` | lightning-block-sync/src/lib.rs:242-246 | And after a disconnect to any fork point. |
| `SpvClient.ContiguousSize` | lightning-block-sync/src/lib.rs:214-222 | Such a cache holds at most `HEADER_CACHE_LIMIT` + 1 headers, the cutoff being inclusive. |
| `SpvClient.ChainPoller.PollChainTip` | lightning-block-sync/src/poll.rs:221-238 | The answer is about the block the source named: common iff it is the known tip, else better iff its chainwork is greater; fails only if the source does. |
| `SpvClient.ChainPoller.LookUpPreviousHeader` | lightning-block-sync/src/poll.rs:240-259 | The parent is right in hash, height and chainwork and, on mainnet, has the same bits in the same 2016-block period and a target within a factor of four across periods; a parent that is all that, and sure to be answered, is returned. |
| `BlockTree.MeetIsFork` | lightning-block-sync/src/lib.rs:417-445 | Whatever heights are claimed, the two-sided walk meets at a common block and has collected the path to it. |
| `BlockTree.MeetFinds` | lightning-block-sync/src/lib.rs:417-445 | It meets at the lowest common ancestor if all blocks above that claim to be above it. |
| `BlockTree.MeetMisses` | lightning-block-sync/src/lib.rs:417-445 | It steps over it if any new block claims not to be above it, while the old ones do. |
| `BlockTree.DifferenceUnique` | lightning-block-sync/src/lib.rs:417-445 | Two chains have only one lowest common ancestor with the path above it. |
| `BlockTree.CacheTransparent` | lightning-block-sync/src/lib.rs:449-456 | A walk that succeeds with some headers cached, or none, gives the same difference with more of them cached. |
| `SpvClient.CachedLinksDecide` | lightning-block-sync/src/lib.rs:417-456 | For every cache of tree headers and every validated transition: the new tip's chainwork is the fork point's plus the work of the new blocks if and only if the links with a cached parent claim nothing on top; coming from consecutive heights, the new heights are consecutive if and only if those links' heights are right. |
| `SpvClient.ClaimsDecideFork` | lightning-block-sync/src/lib.rs:417-445 | Whatever is cached: for a chain that only adds to the old one, or coming from consecutive heights, the walk finds the lowest common ancestor if and only if all new blocks claim to be above it. |
| `SpvClient.ClaimsDecideFlag` | lightning-block-sync/src/lib.rs:275-314 | For a chain that only adds to the old tip, the walk keeps to the old tip, so that the flag tells of every notification, if and only if all new blocks claim to be above it. |
| `SpvClient.FirstLinkDecidesWork` | lightning-block-sync/src/lib.rs:449-456 | Corollary for a cache that is a path to the listener's tip: the new chainwork is backed by work if and only if the first new block's is. |
| `SpvClient.FirstLinkDecidesHeights` | lightning-block-sync/src/lib.rs:449-456 | Corollary for such a cache and consecutive heights: the new heights are consecutive if and only if the first new block's is right. |
| `SpvClient.FirstLinkDecidesFork` | lightning-block-sync/src/lib.rs:417-456 | Corollary for the same: the walk finds the lowest common ancestor if and only if the first new block claims to be above it. |
| `SpvClient.OnlyFirstUnchecked` | lightning-block-sync/src/lib.rs:449-456 | With such a cache all new links but the first passed the header checks. |
| `SpvClient.ConsecutiveFindsFork` | lightning-block-sync/src/lib.rs:417-445 | With any cache, consecutive heights on both chains make the walk find the lowest common ancestor. |
| `SpvClient.MovedOrSilent` | lightning-block-sync/src/lib.rs:295-314 | A listener that ends where it was has heard nothing, unless the walk went below its tip. |
| `SpvClient.Client.Transition` | lightning-block-sync/src/lib.rs:295-307 | The sync behind an update, with its effects on listener, cache and notifications. |
| `SpvClient.Client.Adopt` | lightning-block-sync/src/lib.rs:304-313 | Which tip is taken over from each outcome. |
| `BlockTree.ChainworkTelescopes` | lightning-block-sync/src/poll.rs:130-161 | Along any path whose links with an uncached parent passed the header checks, chainwork grows by the work of the blocks plus what the other links claim on top. |
| `BlockTree.BuildsOnIsAcceptable` | lightning-block-sync/src/poll.rs:130-161 | The checks in terms of periods: same bits if and only if in the same period as the parent, a bounded target otherwise. |
| `BlockTree.CheckedKeepsDifficulty` | lightning-block-sync/src/poll.rs:146-158 | Along a checked mainnet path, blocks of one period with no cached parent between them have equal bits, and a first block of a period with an uncached parent has a target within a factor of four of its parent's. |
| `FalseClaims.ReorganizedOntoLessWork` | lightning-block-sync/src/lib.rs:452-455 | Concrete case through `PollBestTip`: a sibling of the tip with less work that claims more chainwork, over a cached fork point, is adopted, and the listener ends on a chain of less work. |
| `FalseClaims.NotifiedUnreported` | lightning-block-sync/src/lib.rs:275-314 | Concrete case through `PollBestTip`: a child of the cached tip that claims the tip's height, and whose block cannot be fetched, makes the listener leave its tip and come back while the flag says nothing happened. |
| `FalseClaims.UnbackedBehindHonest` | lightning-block-sync/src/lib.rs:396-403 | Concrete case after a startup sync that found a listener on a stale block, which stays cached: a false child of that block is adopted, at a false height and without the work it claims, though the first new block is in order. |
| `InitSync.SynchronizeListeners` | lightning-block-sync/src/init.rs:142-233 | If best-chain blocks on top of blocks that a locator names claim the right height, as a trusted source's do: each listener hears of one disconnect at most, to its own fork point, then of the best-chain blocks above it, ascending and once each. Success leaves all on the best chain. A failed batch leaves all with exactly the whole batches before it, a failed search leaves listeners not yet visited untouched. Where the listener's own block is known and its heights are consecutive, its fork point is where the chains part. If the source names a tip it answers, and every listener's locator lists a hash from which the walk can be answered, the result is success, also for listeners whose own block the source has forgotten. |
| `InitSync.SynchronizeTo` | lightning-block-sync/src/init.rs:152-233 | The two phases towards a given tip, with the same promises about every listener, on success and on failure. |
| `InitSync.FindForks` | lightning-block-sync/src/init.rs:156-176 | The first phase: visited listeners stand at their fork points, heights rise by one above each of these, and the kept path is the longest, starting at the lowest of these. All are visited, and the path can be fetched, if every locator can be recovered from. |
| `InitSync.CheckedRises` | lightning-block-sync/src/init.rs:156-176 | Links not cached were checked, so right links onto blocks the locators name make heights rise by one above a fork point. |
| `InitSync.HonestIsEnough` | lightning-block-sync/src/init.rs:32-34 | A source that is honest about heights has those links right. |
| `InitSync.DisconnectStale` | lightning-block-sync/src/init.rs:156-169 | One listener is taken to a common block, or left alone on error; the returned path is the best chain above it. A locator that can be recovered from never gives an error. |
| `InitSync.LocateFork` | lightning-block-sync/src/init.rs:156-169 | The fork point from a locator: a common block with the path above it, above which heights rise by one; where the chains part, if the own block is known and heights are consecutive. A locator that can be recovered from gives one. |
| `InitSync.LongestPathStep` | lightning-block-sync/src/init.rs:171-175 | Keeping the longer path keeps one that contains every other listener's path as its upper part. |
| `InitSync.FetchBatch` | lightning-block-sync/src/init.rs:184-199 | A batch holds the next blocks from the low end, ascending, as many as fit, and nothing after them; it fails only if a fetch does. |
| `InitSync.NotifyBatch` | lightning-block-sync/src/init.rs:211-225 | A listener at any fork height gets exactly the part of the batch it lacks. |
| `InitSync.ConnectAll` | lightning-block-sync/src/init.rs:178-229 | After any number of whole batches every listener is at the higher of its fork point and the batches' end; all blocks are connected iff no batch failed. |
| `InitSync.ValidateBestBlockHeader` | lightning-block-sync/src/init.rs:22-30 | The header of the block the source named. |
| `HarnessChain.ChainState.MineBlocks` | fuzz/src/chanmon_consistency.rs:415-444 | In every reachable state both assertions hold. The whole mempool, in order, is the first new block, and the mempool is then empty. |
| `HarnessChain.ChainState.ConfirmMempool` | fuzz/src/chanmon_consistency.rs:424-437 | Neither mining assertion can fail on a mempool in valid order, for all such mempools. |
| `HarnessChain.ChainState.AdmitTxToMempool` | fuzz/src/chanmon_consistency.rs:316-406 | For any transaction the relay policy allows: keeps the chain invariant and leaves the mempool as it was if the transaction is confirmed, listed, or shares an input with one all of whose sequences forbid replacement. Otherwise exactly those that share an input and their descendants go, the rest stays in order, and the newcomer comes last if and only if every input is an output created and unspent on the chain and in what stays, each used once. |
| `HarnessChain.AdmissionExact` | fuzz/src/chanmon_consistency.rs:316-406 | What `Admit` computes in a consistent chain state meets that description, which does not mention it. |
| `HarnessChain.ChainState.RelayTransactions` | fuzz/src/chanmon_consistency.rs:408-412 | The same for a list, in order. |
| `HarnessChain.ChainState.MineSetupTxToDepth` | fuzz/src/chanmon_consistency.rs:295-311 | A setup transaction confirmed under the mempool leaves the mempool minable; it is the first new block, buried to the depth. |
| `HarnessChain.ChainState.MineEmptyBlocks` | fuzz/src/chanmon_consistency.rs:285-289 | Confirms nothing and keeps the invariant. |
| `HarnessChain.ChainState.constructor` | fuzz/src/chanmon_consistency.rs:214-223 | The first state satisfies the invariant. |
| `HarnessChain.ReachableEvictionExact` | fuzz/src/chanmon_consistency.rs:370-389 | In every state satisfying the invariant, the one eviction pass removes exactly the conflicts and their transitive descendants. |
| `Mempool.EvictionExact` | fuzz/src/chanmon_consistency.rs:370-389 | One pass over a list with parents first keeps, in order, exactly what no descent path from a conflict reaches. |
| `Mempool.SpendableIsTopological` | fuzz/src/chanmon_consistency.rs:200-211 | A mempool in valid block order lists parents first. |
| `Mempool.EvictSpendable` | fuzz/src/chanmon_consistency.rs:370-389 | What survives the pass is still in valid block order. |
| `Mempool.AdmitInOrder` | fuzz/src/chanmon_consistency.rs:316-406 | Admission keeps: distinct, unconfirmed, minable in this order. |
| `Mempool.AdmitExact` | fuzz/src/chanmon_consistency.rs:316-406 | A known or blocked newcomer changes nothing. For any other, its conflicts and their transitive descendants go, the rest stays in order, and it comes last if and only if its inputs are available after that. |
| `Mempool.AdmitUncontested` | fuzz/src/chanmon_consistency.rs:390-405 | An unknown newcomer without conflicts whose inputs are available is put at the end and nothing else changes. |
| `Mempool.ReplacementAtomic` | fuzz/src/chanmon_consistency.rs:357-406 | Relaying leaves the mempool as it was or with the newcomer in it, if and only if nothing had to be evicted, a conflict does not signal replaceability, or the newcomer's inputs are available after the eviction. |
| `HarnessChain.ReplacementNotAtomic` | fuzz/src/chanmon_consistency.rs:388-404 | Concrete case in a state that satisfies the chain invariant: a relayable newcomer that spends the contested output and one of the transaction it would replace empties the mempool and is itself rejected. |
| `Mempool.EvictsOwnInput` | fuzz/src/chanmon_consistency.rs:371-404 | The same for any such pair of transactions. |
| `HarnessChain.FindConflicts` | fuzz/src/chanmon_consistency.rs:357-369 | Blocked iff some direct conflict does not signal replaceability; otherwise all direct conflicts. |
| `HarnessChain.EvictConflicts` | fuzz/src/chanmon_consistency.rs:371-388 | The pass as it runs computes `Evict`, about which exactness is proved. |
| `HarnessChain.AvailableUtxos` | fuzz/src/chanmon_consistency.rs:393-401 | The unspent outputs after the whole mempool. |
| `HarnessChain.HasInvalidInputs` | fuzz/src/chanmon_consistency.rs:257-268 | True iff an input is repeated or not unspent. |
| `HarnessChain.SetupUnderMempool` | fuzz/src/chanmon_consistency.rs:295-311 | Mining a setup transaction takes no output from the mempool. |
| `HarnessChain.LocksSnoc` | fuzz/src/chanmon_consistency.rs:316-349 | No mempool transaction with an enabled height lock is confirmed at or below its lock height. |
| `Ledger.UtxosAreCreatedMinusSpent` | fuzz/src/chanmon_consistency.rs:270-277 | For every valid history the unspent set is all outputs created minus all outpoints spent, and only created ones were spent. |
| `Ledger.SpentOnce` | fuzz/src/chanmon_consistency.rs:270-277 | No outpoint is spent by two confirmed transactions, coinbases aside. |
| `Ledger.ConflictMeans` | fuzz/src/chanmon_consistency.rs:357-369 | Two transactions conflict if and only if some input of each spends the same output. |
| `Ledger.SignalsBelowTwoHighest` | fuzz/src/chanmon_consistency.rs:359-359 | Replaceability is signalled if and only if some sequence is at most 0xFFFFFFFD, as in BIP 125. |
| `Ledger.PolicyIsFinality` | fuzz/src/chanmon_consistency.rs:316-349 | The two lock-time assertions let through exactly what is final in the next block or carries an obscured commitment number. |
| `Ledger.UtxosAreUnspent` | fuzz/src/chanmon_consistency.rs:270-277 | Applying a valid history leaves exactly the outputs that some transaction creates and none spends. |
| `HarnessChain.ChainState.UtxosExact` | fuzz/src/chanmon_consistency.rs:200-211 | In every valid state an output is in the unspent set if and only if some confirmed transaction created it and none spends it; the confirmed ids are those in blocks, and nothing is confirmed twice. |
| `HarnessChain.ChainState.ConfirmedAreFinal` | fuzz/src/chanmon_consistency.rs:316-349 | Every confirmed transaction other than setup ones is final at its height by the consensus rule for block heights, or carries an obscured commitment number. |
| `HarnessChain.ChainState.NoDoubleSpend` | fuzz/src/chanmon_consistency.rs:270-277 | No two inputs of confirmed transactions spend the same output, coinbases aside. |
| `Ledger.ConfirmAll` | fuzz/src/chanmon_consistency.rs:424-437 | Confirming a mempool in valid order extends a valid history to a valid one. |
| `Persistence.RunKeepsInv` | lightning-background-processor/src/lib.rs:1033-1164 | The invariant behind the results below, over every interleaving of handlers with either processor. |
| `Persistence.FlushedAreDurable` | lightning-background-processor/src/lib.rs:1718-1738 | At every moment of every run no more operations have been flushed than the last written manager reflects; a flush never meets an empty queue. |
| `Persistence.FlushedAreEncoded` | lightning-background-processor/src/lib.rs:1718-1738 | The operations themselves: in every run that has flushed any, there is an earlier encoding of a manager that was then written, and the flushed operations are the oldest of those queued by that encoding. |
| `Persistence.OpsKept` | lightning/src/chain/chainmonitor.rs:1642-1643 | No action reorders or removes a queued operation: new ones only come last. |
| `Persistence.NoWriteNoFlush` | lightning-background-processor/src/lib.rs:1125-1145 | Without a successful manager write nothing is flushed, from any state. |
| `Persistence.IdleWritesNothing` | lightning-background-processor/src/lib.rs:1125-1145 | While no handler raises the flag, a loop that finds it down writes and flushes nothing over any number of iterations. |
| `Persistence.FailedWriteEnds` | lightning-background-processor/src/lib.rs:1718-1738 | After a failed write of the sync processor, or a failed final one of either, nothing more is ever written or flushed, whatever handlers do. |
| `Persistence.NotStranded` | lightning-background-processor/src/lib.rs:1033-1164 | At the loop top, an unflushed operation whose handler has finished implies the flag. |
| `Persistence.SettledExact` | lightning-background-processor/src/lib.rs:1033-1164 | Over every run the settled operations are exactly those for which such a raise happened. |
| `Persistence.RaisedNotStranded` | lightning-background-processor/src/lib.rs:1033-1164 | The same told by the actions of a run: if at the loop top an operation is unflushed and its handler raised the flag at some time after queueing it, the flag is up. |
| `Persistence.QuiescentMeansFlushed` | fuzz/src/chanmon_consistency.rs:1364-1379 | With all handlers finished, an unset flag at the loop top means an empty queue. |
| `Persistence.DoneMeansFlushed` | lightning-background-processor/src/lib.rs:1401-1412 | However the loop was left, also with a manager write dropped half-way, a finished processor has flushed everything queued before it left and all that it counted. |
| `Persistence.CanLeave` | lightning-background-processor/src/lib.rs:1033-1164 | Exactly where each processor can leave the loop, and that leaving neither flushes nor loses an operation. |
| `Persistence.ControlFlow` | lightning-background-processor/src/lib.rs:1033-1164 | From every place in the loop and the final persist, exactly which step can come next; only the two ends have none. |
| `Persistence.LeftMeansFlushed` | lightning-background-processor/src/lib.rs:1401-1412 | The same for two moments of one run: everything queued when the loop had been left is flushed by the time the processor is done. |
| `Persistence.ExitFlushesAll` | lightning-background-processor/src/lib.rs:1854-1863 | From every exit the final persist can complete, and then the queue is empty. |
| `Persistence.FlushAllRuns` | lightning/src/chain/chainmonitor.rs:1315-1384 | A flush of n operations, in the loop or at the end, takes exactly the n oldest. |
| `Persistence.RoundFlushesAll` | lightning-background-processor/src/lib.rs:1718-1738 | From every reachable loop top with the flag raised, an undisturbed round with a successful write flushes everything queued and leaves the flag down. |
| `MonitorTracker.LatestMonitorState.SelectMonitorForReload` | fuzz/src/chanmon_consistency.rs:591-612 | Every selector yields, once a write is durable, a pair that was submitted together, at or above the newest id reported durable; a pending monitor is a submitted pair even before that. What was still owed is discarded, and the tracker is consistent for the next epoch. |
| `MonitorTracker.LatestMonitorState.TrackUpdate` | fuzz/src/chanmon_consistency.rs:620-667 | Each status moves the baseline, the candidates and the owed completions exactly as stated; an error changes nothing. |
| `MonitorTracker.LatestMonitorState.InsertPending` | fuzz/src/chanmon_consistency.rs:494-550 | The order assertions cannot fail for ids arriving in order; snapshots may repeat the last id. |
| `MonitorTracker.LatestMonitorState.MarkPersisted` | fuzz/src/chanmon_consistency.rs:517-526 | The baseline never moves back and is the newest id reported; candidates up to the reported id are retired and every newer one stays, as often as it was there, in any completion order. |
| `MonitorTracker.LatestMonitorState.MarkCompletedUpdatePersisted` | fuzz/src/chanmon_consistency.rs:552-561 | The double-completion assertion cannot fail; the obligation moves from handed out to finished. |
| `MonitorTracker.LatestMonitorState.TakePendingCompletion` | fuzz/src/chanmon_consistency.rs:567-589 | Hands out exactly the selected obligation once, or none if there is none there. |
| `MonitorTracker.LatestMonitorState.DrainPendingCompletions` | fuzz/src/chanmon_consistency.rs:563-565 | Hands out all of them. |
| `MonitorTracker.LatestMonitorState.SubmitPersisted` | fuzz/src/chanmon_consistency.rs:620-640 | A later write that is durable at once becomes the baseline and retires the candidates it supersedes. |
| `MonitorTracker.LatestMonitorState.FirstCompleted` | fuzz/src/chanmon_consistency.rs:640-661 | A channel's first write, already durable. |
| `MonitorTracker.LatestMonitorState.FirstInProgress` | fuzz/src/chanmon_consistency.rs:640-661 | A first write in flight, with nothing durable to fall back on. |
| `MonitorTracker.PersistedKeepsConsistent` | fuzz/src/chanmon_consistency.rs:517-526 | The tracker's invariant survives any durable report, old or new. |
| `MonitorTracker.NewerThanExact` | fuzz/src/chanmon_consistency.rs:517-526 | Exactly the newer candidates are kept, each as often as it was there. |
| `MonitorTracker.NewerThanConcat` | fuzz/src/chanmon_consistency.rs:517-526 | And in the order they were in. |
| `MonitorTracker.ReloadKeepsConsistent` | fuzz/src/chanmon_consistency.rs:591-612 | And a reload of the baseline or any candidate. |
| `MonitorTracker.OweKeepsConsistent` | fuzz/src/chanmon_consistency.rs:528-550 | And a new obligation: every obligation is outstanding, handed out, finished or discarded, exactly once. |
| `MonitorTracker.TakeKeepsConsistent` | fuzz/src/chanmon_consistency.rs:567-589 | And handing any one of them out. |
| `MonitorTracker.TakenBy` | fuzz/src/chanmon_consistency.rs:567-589 | What each selector takes out and leaves. |
| `MessageQueues.Network.ProcessMsgEvents` | fuzz/src/chanmon_consistency.rs:3553-3599 | In all three modes the links stay balanced: emitted is consumed, then queued, then unfetched. Delivering all messages consumes exactly what the node had emitted; the limited modes consume exactly the first event's messages, short of a batch's commitment_signed. Nothing on other links is consumed. True is returned iff there was an event. |
| `MessageQueues.Network.DeliveredInOrder` | fuzz/src/chanmon_consistency.rs:1643-1737 | In every valid state the messages taken off each directed link are a prefix of those emitted on it. |
| `MessageQueues.Network.Disconnect` | fuzz/src/chanmon_consistency.rs:1878-1899 | The cut link starts afresh and the other link's history and order are undisturbed. |
| `MessageQueues.Network.TakeForNode` | fuzz/src/chanmon_consistency.rs:1643-1664 | Merging B's two queues keeps both links balanced. |
| `MessageQueues.Network.RouteFromMiddle` | fuzz/src/chanmon_consistency.rs:1684-1737 | Each peer's events go to its queue, in order, without the silent kinds. |
| `MessageQueues.Network.Requeue` | fuzz/src/chanmon_consistency.rs:3584-3597 | Undelivered events go back so that every link is balanced again. |
| `MessageQueues.DeliveryConserves` | fuzz/src/chanmon_consistency.rs:3330-3405 | Delivering one event leaves, on every link, what was taken followed by what is on its way as it was. |
| `MessageQueues.SplitDelivery` | fuzz/src/chanmon_consistency.rs:3387-3401 | What is delivered of an update batch followed by what is kept back is the whole batch, and what is kept back is not split again. |
| `MessageQueues.HandleEvent` | fuzz/src/chanmon_consistency.rs:3407-3551 | The same for every kind of event. |
| `MessageQueues.HandleUpdateHTLCs` | fuzz/src/chanmon_consistency.rs:3330-3405 | The loops over a batch, as they run, hand over `Delivered` and keep back `Extra`. |
| `MessageQueues.WireOrder` | fuzz/src/chanmon_consistency.rs:3346-3403 | A batch goes out as adds, fulfills, fails, malformed fails, fee update and commitment_signed, each list in order. |
| `MessageQueues.KeptBack` | fuzz/src/chanmon_consistency.rs:3387-3401 | Something is kept back if and only if delivery is limited and the batch has an add, fulfill, fail or malformed fail, and then exactly the commitment_signed. |
| `MessageQueues.WireToFor` | fuzz/src/chanmon_consistency.rs:1684-1737 | Splitting by peer keeps each peer's wire messages. |
| `MessageQueues.ForMembers` | fuzz/src/chanmon_consistency.rs:1684-1737 | A peer's queue gets exactly the events addressed to it that are not silent. |
| `MessageQueues.KeepOther` | fuzz/src/chanmon_consistency.rs:1753-1808 | B's messages for its other peer survive a disconnect, behind those already queued. |
| `BlockDelivery.ConnectChainRange` | fuzz/src/chanmon_consistency.rs:1257-1297 | Makes exactly the skipping calls, and the same ones on the monitors if asked. |
| `BlockDelivery.SyncMonitorToTip` | fuzz/src/chanmon_consistency.rs:1316-1362 | One reloaded monitor gets the call trace of the live path, from any start height. |
| `BlockDelivery.SkippingRefinesNaive` | fuzz/src/chanmon_consistency.rs:1257-1297 | Every listener for which a later best-block update supersedes earlier ones ends in the same state as under the block-by-block loop. |
| `BlockDelivery.SkippingRecords` | fuzz/src/chanmon_consistency.rs:1257-1297 | Every transaction of the range is confirmed at its own height and position, nothing else is, and the best height is the target. |
| `BlockDelivery.ConfirmedMeans` | fuzz/src/chanmon_consistency.rs:1257-1297 | What is confirmed is exactly each transaction of the blocks above the start, at its height, numbered from one within its block. |
| `BlockDelivery.NextWithTransactions` | fuzz/src/chanmon_consistency.rs:1268-1273 | The first non-empty block above a height, or one past the target. |
| `Payments.NodePayments.SyncPendingWithManagerGeneration` | fuzz/src/chanmon_consistency.rs:2101-2116 | Resolves exactly the pending payments first persisted after the generation, keeps the rest in order, trips no assertion, and returns the resolved hashes in order. |
| `Payments.NodePayments.AddPending` | fuzz/src/chanmon_consistency.rs:1984-2000 | A fresh id becomes pending and must succeed. |
| `Payments.NodePayments.ResolvePending` | fuzz/src/chanmon_consistency.rs:2002-2017 | The one pending payment with the id leaves, the id is resolved, and the resolved assertion cannot fail. |
| `Payments.NodePayments.AllowFailure` | fuzz/src/chanmon_consistency.rs:2019-2055 | Exactly the payments the reason covers may fail from now on. |
| `Payments.CoversExactly` | fuzz/src/chanmon_consistency.rs:2019-2055 | What each reason covers: the id, the hash, a hop of any path over the channel, or an expiry within the buffer of the height. |
| `Payments.NodePayments.MarkSent` | fuzz/src/chanmon_consistency.rs:2057-2069 | The id ends up resolved with the hash, whether it was pending, resolved without one or resolved with it. |
| `Payments.NodePayments.MarkFailed` | fuzz/src/chanmon_consistency.rs:2070-2087 | A pending payment that may fail is resolved; a later report changes nothing. |
| `Payments.RunEvolves` | fuzz/src/chanmon_consistency.rs:1965-2117 | Over any sequence of ledger states each evolving to the next, which every operation ensures: between any two of them resolved ids stay, a recorded hash never changes, and a pending payment is kept, at most relaxed, or resolved. |
| `Payments.RollbackExact` | fuzz/src/chanmon_consistency.rs:2101-2116 | With distinct ids, dropping the rolled-back ids is the same as keeping the older payments. |
| `Payments.RolledBackConcat` | fuzz/src/chanmon_consistency.rs:2101-2116 | Rolled-back payments are taken one by one in order. |
| `Payments.RemoveIsWithout` | fuzz/src/chanmon_consistency.rs:2002-2017 | Removing the entry found is dropping the id. |
| `MppSplit.DirectPathsDeliver` | fuzz/src/chanmon_consistency.rs:2489-2524 | Recipient amounts over all parts sum to exactly the amount. |
| `MppSplit.DirectPathsUseAll` | fuzz/src/chanmon_consistency.rs:2489-2524 | Each destination channel carries its own share, named by its own id and short id. |
| `MppSplit.HopPathsDeliver` | fuzz/src/chanmon_consistency.rs:2560-2622 | The same for two-hop parts, whose first hops sum to the amount plus the 50,000 fee. |
| `MppSplit.HopPathUses` | fuzz/src/chanmon_consistency.rs:2560-2622 | Each part goes over the next channel of either list, starting over at its end, and its first hop carries its own share of the fee on top. |
| `MppSplit.Share` | fuzz/src/chanmon_consistency.rs:2489-2524 | No part underflows, and each is at least the floor share. |
| `MppSplit.FeesTelescope` | fuzz/src/chanmon_consistency.rs:2172-2206 | A route can be built iff amounts never increase toward the recipient; its hop fees then sum to the first-hop amount. |
| `MppSplit.FeeAt` | fuzz/src/chanmon_consistency.rs:2172-2206 | Each hop's fee is its amount less that of the next. |
| `MppSplit.PathsAreRoutable` | fuzz/src/chanmon_consistency.rs:2560-2622 | Every two-hop part gives a route and stays within 64 bits. |
| `PqChunks.ReadAfterAppend` | lightning-invoice/src/pq.rs:40-85 | For every field list, tag and data: reading after appending gives what the tag held before followed by the data, and other tags read unchanged. |
| `PqChunks.AppendShape` | lightning-invoice/src/pq.rs:40-53 | Earlier fields stay, one field is added per started 639 bytes, all but the last are full, and each new field's two length values give its true length, at most 1023. |
| `PqChunks.RegroupRoundTrip` | lightning-invoice/src/pq.rs:42-80 | Bytes to base32 and back is the identity on every byte string. |
| `PqChunks.FromBitsConcat` | lightning-invoice/src/pq.rs:42-53 | Bits are read most significant first. |
| `PqChunks.FeAt` | lightning-invoice/src/pq.rs:42-53 | Each base32 value has its own five bits in the bit string. |
| `PqChunks.ByteAt` | lightning-invoice/src/pq.rs:42-53 | Each byte has its own eight bits in the bit string. |
| `PqChunks.PaddedWithZeros` | lightning-invoice/src/pq.rs:42-53 | The base32 values spell the bits of the bytes followed by fewer than five zeros. |
| `PqChunks.FieldBoundTight` | lightning-invoice/src/pq.rs:33-35 | A chunk's length fits ten bits iff the chunk has at most 639 bytes. |
| `PqChunks.AppendChunks` | lightning-invoice/src/pq.rs:40-53 | The loop computes `Append`. |
| `PqChunks.ReadChunks` | lightning-invoice/src/pq.rs:70-85 | The loop computes `Read`; a tag over five bits reads empty. |
| `GossipCache.LookupsAgreeWithCacheFree` | lightning-block-sync/src/gossip.rs:159-223 | For every interleaving in which the hash of a block not yet buried is read after the tip: each finished lookup has the transaction, the out-of-range rejection or the immaturity that a lookup without a cache has; the cache has at most 50 entries and one per height. |
| `GossipCache.CarefulIsExact` | lightning-block-sync/src/gossip.rs:183-215 | From any state careful interleavings lead to, after one more hash read: this and every other lookup is right under every careful continuation, in what it finds and in what it rejects as out of range, if and only if that read was careful, that is, came after the tip read or when the block was already buried. Every later lookup is if and only if the read was careful or the block is too short for this lookup, which then does not cache it. |
| `GossipCache.ReadOrderDecides` | lightning-block-sync/src/gossip.rs:183-198 | A lookup that has read the hash is right, found or out of range, under every continuation, however careless the other lookups, if and only if it had read the tip before or the block was already buried. |
| `GossipCache.StaleBlockFound` | lightning-block-sync/src/gossip.rs:183-215 | Concrete run from an empty cache and no lookups: hash read first, block replaced, deeper tip read after; the stale transaction is found and cached, and a second lookup, which reads no hash, is served it. |
| `GossipCache.HitIsCacheFree` | lightning-block-sync/src/gossip.rs:166-178 | A cache hit picks what the lookup would pick without the cache. |
| `GossipCache.BlamedOnSource` | lightning-block-sync/src/gossip.rs:183-206 | Over every run, a lookup is given up for a failing source only if the source failed that lookup. |
| `GossipCache.AloneAgrees` | lightning-block-sync/src/gossip.rs:159-223 | From every state, an undisturbed lookup that meets no cache entry comes to exactly what one without a cache does, immaturity included, and stores the block if and only if it finds its transaction there. |
| `GossipCache.InsertBounded` | lightning-block-sync/src/gossip.rs:207-215 | Inserting keeps heights distinct and the size within its limit. |
| `GossipCache.FirstInFirstOut` | lightning-block-sync/src/gossip.rs:207-215 | After any number of inserts of distinct heights the cache holds exactly the 50 newest, in order. |
| `GossipCache.InsertOnce` | lightning-block-sync/src/gossip.rs:207-215 | A height that is already cached is not stored again. |
| `GossipCache.ScidRecomposes` | lightning-block-sync/src/gossip.rs:162-164 | The three parts of a short channel id recompose to it and fit 24, 24 and 16 bits. |
| `GossipCache.SelectByIndex` | lightning-block-sync/src/gossip.rs:162-178 | A short channel id put together from any parts selects the transaction at its index. |
| `SpvClient.ChainPoller.GetHeader` | lightning-block-sync/src/poll.rs:267-273 | A header of the tree for the hash asked for, and a sure hash is answered. |
| `SpvClient.ChainPoller.FetchBlock` | lightning-block-sync/src/poll.rs:261-265 | The block of the header asked for; a sure one is answered, a missing one is not. |
| `SpvClient.Listener.Connect` | lightning-block-sync/src/lib.rs:476-483 | Full and header-only blocks both extend the listener by this block at the given height, with one notification. |
| `SpvClient.ChainNotifier.ConnectNext` | lightning-block-sync/src/lib.rs:470-487 | One block: fetched, handed over and cached, or nothing changed. |
| `SpvClient.AnswerableCached` | lightning-block-sync/src/lib.rs:449-456 | A source that answers enough without a cache answers enough with any. |
| `SpvClient.HonestIsAnswerable` | lightning-block-sync/src/lib.rs:417-456 | Two chains from one origin whose every link passes the checks, answered in full, give a successful walk to a path that can be fetched. |
| `SpvClient.CandidateOnChain` | lightning-block-sync/src/lib.rs:379-388 | Every hash a locator offers that the source knows lies on the listener's chain; the first is its own block. |
| `InitSync.NotifyAll` | lightning-block-sync/src/init.rs:211-225 | The same for every listener, none disturbing another. |
| `InitSync.ConnectBatch` | lightning-block-sync/src/init.rs:178-229 | One batch goes to all listeners and off the shared path, or to none. |
| `HarnessChain.ChainState.ApplyTxToUtxos` | fuzz/src/chanmon_consistency.rs:270-277 | The two loops remove what is spent and add what is created, in that order. |
| `HarnessChain.ChainState.MineBlock` | fuzz/src/chanmon_consistency.rs:279-283 | One block on top; the confirmed history grows by its transactions. |
| `HarnessChain.ComputeAdmission` | fuzz/src/chanmon_consistency.rs:316-406 | The branches of admission, early returns included, compute `Admit`, which `AdmitExact` and `AdmissionExact` describe in full. |
| `Mempool.DroppedIsTainted` | fuzz/src/chanmon_consistency.rs:371-388 | Nothing is evicted without a descent path from a conflict. |
| `Mempool.PathIsDropped` | fuzz/src/chanmon_consistency.rs:371-388 | Everything on a descent path from a conflict is evicted. |
| `Persistence.StepKeepsInv` | lightning-background-processor/src/lib.rs:1685-1738 | Every atomic step of a handler or the processor keeps the invariant. |
| `MessageQueues.Network.FetchNewEvents` | fuzz/src/chanmon_consistency.rs:3559-3562 | Everything the node had generated is fetched, behind what was queued. |
| `MessageQueues.Network.ProcessMsgEvent` | fuzz/src/chanmon_consistency.rs:3407-3551 | One event is delivered, less a kept-back commitment_signed; any answers keep the links balanced and consume nothing. |
| `MessageQueues.Network.DeliverEvents` | fuzz/src/chanmon_consistency.rs:3565-3583 | All events, or in the limited modes the first, are consumed; the rest is what remains. |
| `MessageQueues.SplitByPeer` | fuzz/src/chanmon_consistency.rs:1684-1737 | The loop sorts by peer and drops the silent kinds. |
| `BlockDelivery.NaiveRecords` | fuzz/src/chanmon_consistency.rs:1257-1297 | The block-by-block loop confirms exactly the range. |
| `MppSplit.SharesSum` | fuzz/src/chanmon_consistency.rs:2489-2524 | The parts of any amount sum to it. |
| `GossipCache.RunKeepsInv` | lightning-block-sync/src/gossip.rs:159-223 | Cached and fetched contents are those of buried blocks over every such interleaving. |
| `GossipCache.RaceFindsStale` | lightning-block-sync/src/gossip.rs:183-215 | From any state where the hash was read first and the block is not buried, some continuation goes by the stale block and, if the lookup finds its transaction there and nothing was cached for the height, caches it. |
| `GossipCache.LaterIsStale` | lightning-block-sync/src/gossip.rs:166-178 | Any lookup of that height begun after that is served the stale block, and is wrong if the contents differ for it. |

## Left out

- HTTP, REST, RPC and JSON access to block sources: requests are answers that may fail.
- Proof of work, merkle and witness checks and hashing: a header in the tree counts as validated, a transaction's content stands for its txid.
- A source that changes what it claims for a hash between answers: a hash has one header. Heights, chainwork, bits and targets in it are free.
- SynchronizeListeners: does not say what listeners are given when a best-chain block on top of a block that a locator names claims a wrong height, because the operation is documented for a trusted source; `HonestIsEnough` shows that such a source meets the condition.
- Overflow of 32-bit heights and 256-bit work and targets.
- Block contents and the split between full and header-only blocks beyond which call hands them over.
- Several block sources behind one poller.
- `ChannelManager`, `ChainMonitor` and `ChannelMonitor` internals: a handler queues operations and then raises the flag, an encoded manager reflects what was queued by then, and a dropped write may or may not have landed.
- Timers, scorer, network graph pruning and the liquidity manager, except as ways out of the processor's loop.
- The persister's map of channels: one channel's tracker is modelled, without its locks.
- Deliberately corrupted adds: delivering an altered add counts as delivering it.
- Node restarts in the message queues, peer reconnection, and messages whose handling the harness panics on; a stale reestablish counts as taken off the wire.
- The interleaving of manager and monitor calls in one block range, beyond each one's own sequence.
- Successful probes and resolutions without a hash in the payment ledger: resolve-only variants of `ResolvePending`.
- A multi-part payment with an empty channel list on one side only, which divides by zero in the harness.
- The bech32 crate: regrouping follows the 8-to-5-bit conversion of BIP 173.
- An unreported tip height and the final unspent-output request of a gossip lookup.
- ReadOrderDecides: assumes the source has another block at hand that would give another answer, since otherwise no order of reads can go wrong.
- CarefulIsExact: the same assumption.
- LookupsAgreeWithCacheFree: covers careful interleavings only; `CarefulIsExact` shows that no more can be covered.
- The post-quantum handshake, onion and gossip rules, the other fuzz targets, custom messages, DNS resolution and the liquidity message queue.
