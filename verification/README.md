# Verified model of the node's core

A Dafny model of the parts of this go-ethereum derivative that keep redundant
state in step, and proofs that they do.  `dafny verify dfyconfig.toml` checks
everything.

* **Transaction pool** (`Heaps`, `NonceMaps`, `Sorting`, `SortedMaps`, `TxLists`,
  `Pricing`, `Admission`, `PoolState`, `PoolSteps`, `PoolLimits`, `PoolResets`,
  `PoolTraces`, `PoolRuns`, `PoolLosses`, `Reinjections`, `Bystanders`, `PoolHistories`,
  `TxPools`, `PoolScenarios`).  One set of transactions is held in per-account pending
  and queued lists, a hash index, a lazily cleaned price heap and virtual nonces.
  `PoolState.Agree` says how they agree; while an operation moves transactions they
  are "in limbo", and the lemmas of `PoolState` say what each single move keeps.
  `PoolTraces` says what adding, promoting and moving to a new head do to lists,
  virtual nonces and index, `PoolLosses` what they can cost an account; `Reinjections`
  and `Bystanders` say which accounts a head reset leaves with their nonces in a run;
  `TxPool.Run` is the statement over whole runs.
* **Quota** (`Mortgage`).  The 24-slot ring is a sliding window over history, and
  admitted contract calls stay within the creator's stake.
* **Chains** (`Headers`, `HeaderChains`, `HeaderQueries`, `Blocks`, `BlockChains`).
  Number index, total difficulties and transaction lookup follow the head through
  every switch of branch; the Algorand fork choice; the answers to
  `GetBlockHeaders`.
* **Feed** (`Feeds`).  The delivery protocol as a state machine over all
  interleavings.
* **Fees and gas** (`StateTransitions`, `StateProcessors`, `Execution`).  Who pays for a
  transaction, and that what the pool admits can be applied; what buying, refunding
  and paying the coinbase do to the sum of all balances, up to the deletion of
  accounts at the end of each transaction; the gas pool adds up; receipts are
  recovered from their consensus encoding.
* **Chain indexer** (`ChainIndexers`).  Sections processed without the lock while
  reorganisations arrive.
* **Sortition weights** (`Weights`).  Rounding errors stay below the number of
  miners.

Conventions.  Hashes are ideal: a transaction or header hash is the value it was
taken of, so equal hashes have equal preimages.  Caches are transparent, databases
are maps.  Times, coins, the virtual machine, contract registries, the credential
comparison and what other goroutines do to the chain between two reads are
parameters, and every statement holds for all of them.

What the proofs found out about the code:

* The early return of the list filter is exact only for transactions their senders
  pay for (`TxLists.SkipIsExactIffSelfPaying`, `Admission.SkipCanKeepUnpayable`).
* A quota cached before the gas price was raised admits more than the stake
  (`MortgageWorker.CachedQuotaIsSafe` says exactly when not,
  `Mortgage.CachedQuotaCanOverspend` is an example).
* A price floor of zero makes the next quota of a creator divide by zero
  (`MortgageWorker.Passable`, `PoolScenarios.ZeroPriceStopsCall`).
* A head reset whose reinjected transactions start at the new state nonce but do not
  reach the old pending list leaves a hole (`Reinjections.ReinjectedRunIff` says
  exactly when, `PoolScenarios.ReinjectionCanLeaveHole` is an example).
* A full pool makes room for reinjected transactions at the expense of used-up ones
  and takes the virtual nonce of their sender below its state nonce
  (`Bystanders.BystanderRunIff`, `PoolScenarios.EvictionCanSinkNonce`).
* Fees paid to an account that destroyed itself in the same transaction are gone
  (`StateTransitions.FeesCancel`, `StateProcessors.CoinbaseCanBurn`).
* The reorganisation leaves index entries above a lower new head, and the lookup
  table loses the entry of a transaction that the chain holds twice
  (`BlockChains.Reorg`, `LowerHeadLeavesEntry`, `RepeatIsLost`).
* A creator that pays for the gas of its own call is asked for gas and value one by
  one, so the pool admits calls whose transfer must fail
  (`Execution.AdmittedIsAccepted`, `CreatorCanPayTwice`).
* Siblings whose credentials all have weight zero are not ordered: the first one
  written stays the head (`Blocks.OrderMattersIff`).
* `GetAncestor` takes the zero hash above the head for canonical and answers a real
  hash for it (`HeaderQueries.GetAncestor`, `ZeroHashIsAnswered`).
* The miner writes blocks without the lock that `GetAncestor` takes
  (miner/worker.go:579), so the jump can run along a half-written index and end on
  another branch (`HeaderQueries.HalfWrittenMisleads`).
* The chain indexer stores a stale section when a reorganisation inside it arrives
  after its blocks were read (`ChainIndexer.ReorgBeforeFinish`, `StaleSection`).
* A full queue is cut starting from the account with the latest heartbeat, although
  the comment at core/tx_pool.go:1163 speaks of the oldest (`TxPool.TruncateQueue`).

## Model

| member | source | states |
|---|---|---|
| Heaps.Up | core/tx_list.go:36-50 | moving a nonce up restores heap order and keeps the elements |
| Heaps.Down | core/tx_list.go:36-50 | moving one down restores heap order and keeps the elements |
| Heaps.Init | core/tx_list.go:115-120 | heapifying any sequence gives a heap of the same elements |
| Heaps.Pop | core/tx_list.go:44-50 | takes out a least element and leaves a heap of the others |
| Heaps.RemoveAt | core/tx_list.go:160-166 | removing at any index leaves a heap of the others |
| SortedMaps.TxSortedMap.Put | core/tx_list.go:75-82 | the map gains the transaction under its nonce; the heap still holds exactly the map's nonces, once each, in heap order |
| SortedMaps.TxSortedMap.Forward | core/tx_list.go:86-100 | what is below the threshold leaves, in nonce order; the rest stays, and a live cache equals the nonce-sorted contents |
| SortedMaps.TxSortedMap.Filter | core/tx_list.go:104-125 | exactly the matching transactions leave |
| SortedMaps.TxSortedMap.Cap | core/tx_list.go:129-150 | only the lowest nonces stay, as many as allowed; the dropped ones come in descending order |
| SortedMaps.TxSortedMap.Remove | core/tx_list.go:154-171 | exactly the given nonce leaves, and the answer says whether it was there |
| SortedMaps.TxSortedMap.Ready | core/tx_list.go:180-195 | takes the maximal consecutive run from the least nonce, if that is not above the start, in nonce order |
| SortedMaps.TxSortedMap.Flatten | core/tx_list.go:205-218 | lists the contents by nonce and changes nothing but the cache |
| NonceMaps.ListingIsUnique | core/tx_list.go:205-218 | a nonce-sorted listing of a map is unique, so a live cache can be handed out |
| Sorting.Sort | core/tx_list.go:205-218 | the sort behind the cache: sorted, and the same elements |
| TxLists.TxList.Add | core/tx_list.go:253-274 | a transaction with the nonce of one held at price p is taken if and only if its price exceeds p and p x (100 + bump) < 100 x (its price + 1), any other always; reports what it replaced; the caps still bound every self-paying transaction |
| TxLists.TxList.Forward | core/tx_list.go:279-282 | what is below the threshold leaves |
| TxLists.TxList.Filter | core/tx_list.go:292-334 | changes nothing if both caps are within the limits; otherwise a transaction stays if and only if it is payable and, in a strict list, all below it are, the limits become the caps, and what left is reported in two parts |
| TxLists.TxList.Cap | core/tx_list.go:338-341 | keeps the lowest nonces |
| TxLists.TxList.Remove | core/tx_list.go:345-356 | deletes by nonce; a strict list that had the nonce gives up everything above it too |
| TxLists.TxList.Ready | core/tx_list.go:365-367 | takes the executable run |
| TxLists.FilterIsExactForSelfPaying | core/tx_list.go:292-323 | with bounding caps, `Filter` drops a self-paying transaction if and only if the full predicate does, whether or not it returned early |
| TxLists.SkipIsExactIffSelfPaying | core/tx_list.go:292-323 | the early return is exact in every head state if and only if every transaction of the list is self-paying |
| TxLists.FilteredKeepsCaps | core/tx_list.go:292-323 | the caps bound the self-paying transactions after `Filter` |
| TxLists.CutsKeepGapFree | core/tx_list.go:279-282 | `Forward` keeps a gap-free list gap-free |
| TxLists.FilterKeepsGapFree | core/tx_list.go:292-334 | so does `Filter` on a strict list |
| TxLists.RemoveKeepsGapFree | core/tx_list.go:345-356 | so does `Remove` on a strict list |
| TxLists.CapKeepsGapFree | core/tx_list.go:338-341 | so does `Cap` |
| TxLists.LowestCount | core/tx_list.go:338-341 | `Cap` keeps all there is or, if that is more, exactly as many as allowed |
| TxLists.LowestLieBelow | core/tx_list.go:338-341 | every nonce that `Cap` keeps is below every nonce it drops |
| Pricing.TxPricedList.Removed | core/tx_list.go:410-425 | counts a stale entry or rebuilds the heap from the index; every pooled transaction keeps an entry |
| Pricing.TxPricedList.Cap | core/tx_list.go:429-457 | the victims are remote and below the threshold, and no other remote is below it; every pooled transaction keeps its entries but for the victims, and the stale counter goes down by exactly the stale entries given up |
| Pricing.TxPricedList.Underpriced | core/tx_list.go:460-482 | agrees with a full scan of the pool for the cheapest price, however many stale entries there are; gives up stale entries only, and counts them |
| Pricing.TxPricedList.Discard | core/tx_list.go:486-509 | every victim is remote and cheaper than any surviving remote, or as cheap with no lower a nonce; fewer than asked for only if no remote survives; entries and stale counter as above |
| Admission.IntrinsicGas | core/state_transition.go:85-115 | the two overflow tests refuse exactly the data whose cost does not fit in 64 bits; otherwise the cost is 53000 for a creation past Homestead and 21000 else, plus 68 for each byte that is not zero and 4 for each that is |
| Admission.AdmittedIffPayable | core/tx_pool.go:615-682 | validation admits exactly what passes size, sign, signature, price, nonce and intrinsic gas and what the list filter would keep in the same state; both spelled out for senders that pay and for creators that do |
| Admission.RefusedFor | core/tx_pool.go:615-682 | a refusal names the first of the twelve checks that fails, each spelled out, in the order in which they are made |
| Admission.SponsoredCallAdmitted | core/tx_pool.go:615-682 | a concrete call that its contract's creator pays for is admitted while the creator can pay |
| Admission.SkipCanKeepUnpayable | core/tx_list.go:292-323 | once the creator cannot, the list that call was put in returns early from `Filter` and keeps it |
| Execution.AdmittedIffAffordable | core/tx_pool.go:615-682 | in one state, the pool admits exactly what is well formed, not too cheap, not used up and within a block's gas, what `TransitionDb` could charge for, and whose value the sender has as well |
| Execution.AdmittedIsAccepted | core/state_transition.go:199-261 | what the pool admits with the state's nonce is accepted into a block with enough gas left, if and only if it is not a call that a creator pays for itself without covering both value and gas |
| Execution.CreatorCanPayTwice | core/state_transition.go:199-261 | a concrete call of that kind: the pool admits it and no block can hold it |
| PoolState.TakePending | core/tx_pool.go:985-995 | transactions taken off a pending list are in limbo; index and lists still agree |
| PoolState.PutQueued | core/tx_pool.go:768-793 | a transaction in limbo can always be queued: its nonce is free in both lists |
| PoolState.PutPending | core/tx_pool.go:811-844 | a transaction in limbo can always be made pending |
| PoolState.ReplacePending | core/tx_pool.go:723-737 | a replacement takes the place of the pending transaction with its nonce in list and index |
| PoolState.EnterQueue | core/tx_pool.go:747-751 | a transaction with a free nonce enters the queue |
| PoolLimits.IndexCount | core/tx_pool.go:534-544 | the hash index has as many entries as the lists hold transactions |
| PoolSteps.HashNames | core/tx_pool.go:971-1010 | a hash in the index names a transaction that is pending or queued, not both, under its own nonce, so deleting by nonce deletes it |
| PoolSteps.PurgedMore | core/tx_pool.go:716-719 | dropping victims one by one, each with what it sends back to the queue, amounts to this: every account's pending list is cut at its lowest victim, what was above goes to the queue unless it is a victim too, and the virtual nonce comes down to the cut |
| PoolSteps.PromotionKeepsRun | core/tx_pool.go:1049-1071 | promoting a run up to where the quota cuts it short, and requeueing its tail, extends the pending interval exactly by what was promoted |
| PoolRuns.PurgedKeepsRun | core/tx_pool.go:716-719 | so an eviction keeps each account's nonces a run |
| PoolRuns.AddedKeepsRun | core/tx_pool.go:692-763 | adding a transaction, whatever it evicts or replaces, keeps each account's nonces a run |
| PoolRuns.LimitsKeepRun | core/tx_pool.go:1092-1202 | the limits cut a run and its virtual nonce together |
| PoolRuns.PromotedKeepsRun | core/tx_pool.go:1015-1203 | promotion and the limits together keep each account's nonces a run |
| PoolTraces.KeepsCapacity | core/tx_pool.go:705-720 | when a transaction was not turned away, the pool is within its capacity or holds only local transactions beside it, provided no transaction has two entries in the price heap |
| PoolTraces.DecisionMeans | core/tx_pool.go:721-762 | what has the nonce, pending before queued, decides: not paying the bump over it is refused, anything else accepted |
| PoolLosses.PromotionServes | core/tx_pool.go:1027-1087 | a promoted account keeps what it has pending; what joins it or stays queued was queued, is not used up and can be paid for; a local account loses nothing payable; another keeps at most accountQueue queued, and loses a payable transaction only above all it keeps and only if these are exactly accountQueue |
| PoolLosses.DemotionServes | core/tx_pool.go:1211-1245 | what stays pending is a run from the state nonce without a payable one missing; what is payable and not used up is pending or queued afterwards; the queue loses nothing and gains only what was pending |
| TxPools.TxPool.constructor | core/tx_pool.go:245-290 | an empty pool meets every invariant |
| TxPools.TxPool.EnqueueTx | core/tx_pool.go:768-793 | queue and index after an insertion, a replacement or a refusal |
| TxPools.TxPool.PromoteTx | core/tx_pool.go:811-844 | pending list, index and virtual nonce after an insertion, a replacement or a refusal |
| TxPools.TxPool.RemoveTx | core/tx_pool.go:971-1010 | exactly the transaction with the hash leaves the index; what was above it in the pending list is queued again and the virtual nonce comes down to it; index, lists and prices stay in agreement, no stale price entry goes uncounted, and nonce runs are kept |
| TxPools.TxPool.SetGasPrice | core/tx_pool.go:504-513 | at any price, zero included: exactly the remote transactions below the floor are dropped, every account's lists and virtual nonce are cut accordingly, and nonce runs are kept |
| TxPools.TxPool.EvictIdle | core/tx_pool.go:349-364 | exactly the queues of idle remote accounts go, and nonce runs are kept |
| TxPools.TxPool.Stats | core/tx_pool.go:534-544 | counts the pending and the queued transactions; together they are what the hash index counts |
| TxPools.TxPool.PruneQueue | core/tx_pool.go:1032-1047 | stale and unpayable queued transactions go, from the index too |
| TxPools.TxPool.PromoteRun | core/tx_pool.go:1049-1071 | promotes in nonce order up to the first call the quota refuses |
| TxPools.TxPool.PromoteAccount | core/tx_pool.go:1027-1087 | what one account's queue, pending list and virtual nonce become; nothing payable is lost but above accountQueue queued ones of a remote account, as `PromotionServes` says; agreement and nonce runs are kept |
| TxPools.TxPool.PromoteAccounts | core/tx_pool.go:1019-1087 | each given account is promoted as above, with the same bound on losses, and every other account is untouched |
| TxPools.TxPool.CapRound | core/tx_pool.go:1121-1136 | one round takes the highest nonce of each offender, brings its virtual nonce down to what it lost and the total down by their number |
| TxPools.TxPool.LevelDown | core/tx_pool.go:1119-1137 | the offenders stay level, the running counter stays the true total, virtual nonces follow the lowest nonce lost, and no more is cut than needed, until the pool fits or the threshold is reached |
| TxPools.TxPool.TruncatePending | core/tx_pool.go:1092-1162 | within the limit nothing changes; otherwise the pending total fits or no remote account has more than accountSlots, and with one transaction back for each account that was cut the total would exceed the limit; nobody is cut below the slots, only highest nonces of remote accounts are cut, all that were cut end level, no remote account over its slots ends above them, and the virtual nonce of exactly those that were cut becomes the lower of itself and the lowest nonce lost |
| TxPools.TxPool.TruncateQueue | core/tx_pool.go:1163-1202 | within the limit nothing changes; otherwise the queued total ends at exactly the limit, or above it with only local accounts left; only highest nonces of remote accounts go, and a remote account that loses nothing has no later heartbeat than one that loses |
| TxPools.TxPool.PromoteExecutables | core/tx_pool.go:1015-1203 | every executable run becomes pending, whole or up to a call whose creator's quota is used up, in whatever order accounts are visited; promoted remote accounts have at most accountQueue queued, local ones lose nothing payable; then both limits hold, at the cost of highest remote nonces only and of no more of them than needed, with virtual nonces to match; agreement and nonce runs are kept |
| TxPools.TxPool.DemoteAccount | core/tx_pool.go:1211-1245 | what one account's lists become when stale and unpayable transactions leave, and that nothing else is lost, as `DemotionServes` says |
| TxPools.TxPool.DemoteUnexecutables | core/tx_pool.go:1208-1247 | what every account's lists become, with the same bound on losses, in whatever order accounts are visited |
| TxPools.TxPool.MakeRoom | core/tx_pool.go:706-719 | a full pool refuses exactly what a full scan finds no dearer than everything pooled, and otherwise gives up as many price entries as needed, or all remote ones: remote transactions no dearer than those it keeps; lists and virtual nonces are cut accordingly |
| TxPools.TxPool.Insert | core/tx_pool.go:721-762 | a transaction is refused if and only if its nonce is held, pending before queued, at a price p for which it is not true that its price exceeds p and p x (100 + bump) < 100 x (its price + 1); in lists and index it takes the place of what had its sender and nonce; its sender becomes local exactly if the transaction is and replaces nothing pending |
| TxPools.TxPool.Add | core/tx_pool.go:692-763 | each answer is given exactly under its condition, the one for the price bump spelled out on what is held at the nonce once room is made; known, invalid and underpriced transactions change nothing, virtual nonces included, and one refused for its price bump changes nothing but the room made before; a full pool gives up as much as needed; lists, virtual nonces and index lose the victims and what was replaced and gain the transaction; all invariants are kept |
| TxPools.TxPool.AddTx | core/tx_pool.go:875-899 | one such addition, decided by the spelled-out price bump, and, if the transaction is new, the promotion of its sender from the lists and virtual nonces the addition left; the limits then hold, and nonce runs are kept |
| TxPools.TxPool.AddTxs | core/tx_pool.go:920-941 | a batch is such additions one after the other, each decided by the price bump, then the promotion of exactly the senders of what is new, from the lists and virtual nonces the batch left; nonce runs are kept |
| TxPools.TxPool.Reset | core/tx_pool.go:390-470 | reinjection as a batch under the new head with no virtual nonces set, whose lists and virtual nonces, with the accounts that got something new promoted, are what is then demoted account by account; virtual nonces past what is left pending; promotion of every queue; agreement and limits hold; which accounts end with their nonces in a run, as the rows below say, and always if nothing is reinjected |
| Reinjections.AfterBatch | core/tx_pool.go:448-452 | a batch for which the pool has room leaves an account's pending nonces and all virtual nonces alone; what is pending at a nonce is the last transaction that outbid it, and beside what was queued exactly the admitted nonces that are not pending are queued |
| Reinjections.SettledRun | core/tx_pool.go:454-470 | an account that comes to its demotion with two runs pending, the old one and a payable one from the new state nonce, ends in a run if there is no hole between what demotion keeps of them, and, if the limits cannot touch it, only then |
| Reinjections.ReinjectedRunIff | core/tx_pool.go:448-470 | after the whole reset, limits included, the nonces of an account are a run if and only if it is not the case that admitted reinjected nonces start at its new state nonce below its old lowest pending nonce, miss one in between, and what is then pending at that lowest nonce can be paid for; for every account whose nonces were a run, that pays for what it has pooled and reinjects no quota call, if the pool has room for the batch and the account is local or within its slots |
| Bystanders.BystanderRunIff | core/tx_pool.go:448-470 | in any pool, full or not, the nonces of an account that nothing is reinjected for are a run after the reset if and only if the batch did not cost it a pending transaction below its new state nonce |
| PoolResets.GapStays | core/tx_pool.go:1049-1071 | a gap in a pending list is never closed by the promotion of a reset |
| PoolScenarios.ReinjectionCanLeaveHole | core/tx_pool.go:448-470 | a new pool takes a transfer with nonce 5; a reset to nonce 3 reinjects 3 and, below the price floor, 4; the nonces of the account are then no run |
| PoolScenarios.EvictionCanSinkNonce | core/tx_pool.go:448-470 | a new pool for two transactions holds nonce 5 of an account when a block uses it; the reset reinjects two transfers of another account, the second drives the used-up one out, and the nonces of the first account are then no run |
| PoolScenarios.ZeroPriceStopsCall | core/mortgage.go:155-172 | on a new pool whose price floor is set to zero, the first call to a contract whose creator has no cached quota divides by zero |
| PoolHistories.StepKeepsRun | core/tx_pool.go:300-375 | every pool operation keeps the nonces of an account a run, a head reset if it reinjects nothing, or nothing for the account while nothing of it is used up, or leaves it undisturbed and without a hole |
| PoolHistories.HistoryKeepsRun | core/tx_pool.go:300-375 | over any history of operations, in any order, an account whose nonces are a run at the start has them in a run at every moment up to a reset that can harm it |
| TxPools.TxPool.Run | core/tx_pool.go:300-375 | any sequence of adds, batches, price changes, head resets, evictions and quota updates is a history of exactly those steps; the index holds exactly the pending and queued transactions, no nonce is in both lists and every pooled transaction has a price entry; for each account to which every reset was harmless, pending nonces are exactly those from the state nonce to the virtual nonce and nothing queued lies below |
| Mortgage.CircleQueue.Add | core/mortgage.go:60-96 | the ring as updated in place is the ring of the plain history with one more entry; position and start height agree, no subtraction goes below zero |
| Mortgage.RingIsWindow | core/mortgage.go:60-96 | after any sequence of additions the total is the sum of the slots and the sum of all accepted counts whose slot is among the last 24 |
| Mortgage.RunMatches | core/mortgage.go:60-96 | slot by slot, the ring holds the counts of its slot of the history |
| Mortgage.QuotaIsExact | core/mortgage.go:156-171 | being within the twice-floored quota is being within the stake |
| Mortgage.MortgageWorker.CachedQuotaIsSafe | core/mortgage.go:156-171 | at another gas price, every call a worker can still admit before the next update stays within the stake if and only if it can admit none or the cached quota is no greater than one worked out anew |
| Mortgage.CachedQuotaCanOverspend | core/mortgage.go:156-226 | a worker caches a quota at price 1, passes and counts a call at price 2, and the call is more than the stake covers |
| Mortgage.MortgageWorker.AdmitCalls | core/mortgage.go:201-226 | asking again and again and counting what passes uses up exactly the room there is |
| Mortgage.MortgageWorker.Passable | core/mortgage.go:201-219 | a call passes if and only if the quota exceeds window total plus pending calls; a quota not cached is asked for at price zero exactly where the division stops the program |
| Mortgage.MortgageWorker.AddPending | core/mortgage.go:221-226 | counts a call; what was admitted stays within the quota if and only if there was room |
| Mortgage.MortgageWorker.Updates | core/mortgage.go:174-187 | appends the counts of every block to the histories and clears quotas and pending calls |
| Mortgage.MortgageWorker.AdmittedWithinStake | core/mortgage.go:156-226 | (window total + admitted calls) x gas price x 2000000 is at most the stake behind the cached quota |
| Mortgage.MortgageWorker.RoomIsStake | core/mortgage.go:201-219 | having room is the stake covering one call more |
| Headers.IndexIsAncestry | core/headerchain.go:159-184 | an index of parent-linked entries up to the head holds at each height the head's ancestor |
| HeaderChains.DeleteAbove | core/headerchain.go:159-168 | the deletion loop leaves nothing above the new number |
| HeaderChains.Reroute | core/headerchain.go:159-184 | the stale-overwrite walk ends, and the canonical map is exactly the new head's ancestor chain |
| HeaderChains.HeaderChain.WriteHeader | core/headerchain.go:135-199 | keeps: canonical map exactly the ancestor chain, each total difficulty the sum along the ancestors, the head of maximal total difficulty; switches exactly on a greater one or on a tie with the coin |
| HeaderChains.HeaderChain.WriteAll | core/headerchain.go:135-199 | the same over any run of writes with any coins, which stores exactly the headers whose parents are stored by then |
| HeaderQueries.GetAncestor | core/headerchain.go:329-359 | on any index whose entries are stored headers, also one that a reorganisation is still writing: whether a hash is answered, which, and what is left of the budget, exactly; what was spent is the distance to the first ancestor on the index, and a search between writes that fails found none within the budget; between writes the answer is the hash that many parent links away; for the zero hash as input, exactly when and which canonical hash it answers |
| HeaderQueries.ReachedIsAncestor | core/headerchain.go:329-359 | between writes the jump along the index ends at the true ancestor |
| HeaderQueries.ZeroHashIsAnswered | core/headerchain.go:329-359 | on the genesis block alone, the zero hash at number 2 is answered with the genesis hash |
| HeaderQueries.HalfWrittenMisleads | core/headerchain.go:341-345 | while a reorganisation is half written the jump can end on the other branch: a concrete index |
| HeaderQueries.Advance | eth/handler.go:404-449 | the next cursor, with what is left of the step budget, exactly, also while a reorganisation is being written; there is none exactly over an end of the chain, off the branch or beyond the budget |
| HeaderQueries.Answer | eth/handler.go:364-448 | every header sent is the one the query leads to at the moment it is looked up, and the answer ends exactly where a limit is reached or the next header is missing, unprovable or out of reach, whatever is being written at those moments; if no reorganisation is half written when an ancestor is looked for, two consecutive headers of a hash query are skip+1 ancestors apart on one branch, in both directions, whatever happens to the chain between the reads; in closed form as the next two rows say |
| HeaderQueries.NumbersEnumerated | eth/handler.go:437-449 | header k of the answer to a number query is the one on the index at origin + k x (skip+1) modulo 2^64, or origin - k x (skip+1), and the answer ends at the first such number that is not there, at the amount asked for or at 192 |
| HeaderQueries.HashesEnumerated | eth/handler.go:405-436 | so does the answer to a hash query from a header on the index, if the chain does not change meanwhile |
| HeaderQueries.ExactIsUnique | eth/handler.go:364-448 | the chain at the moments of the reads determines the answer |
| Blocks.BranchHolder | core/blockchain.go:1592-1611 | looking a transaction up from the top of a branch is looking it up in the branch and then below |
| BlockChains.FindCommon | core/blockchain.go:1533-1577 | the common-ancestor search ends and returns both branches down to the nearest common ancestor |
| BlockChains.InsertChain | core/blockchain.go:1592-1604 | index and lookup table after inserting a branch in ascending order |
| BlockChains.Reorg | core/blockchain.go:1499-1611 | the index is right up to the new head, what lay above is left as it was, so it is exact if and only if the new head is not lower than the old one; each lookup entry, and that an exact table stays exact if and only if no dropped transaction has an earlier copy below the fork |
| Headers.ReachesDescends | core/blockchain.go:1592-1604 | an index that is right up to a head holds at each height the ancestor there |
| BlockChains.RepeatIsLost | core/blockchain.go:1605-1611 | after a concrete reorganisation a transaction that the new chain holds has no lookup entry |
| BlockChains.LowerHeadLeavesEntry | core/blockchain.go:1592-1604 | after a concrete reorganisation to a lower head the index still has the old entry above it |
| BlockChains.FreshLosesNothing | core/blockchain.go:1605-1611 | nothing is lost if no block repeats a transaction of its chain |
| BlockChains.BlockChain.WriteBlock | core/blockchain.go:974-1139 | keeps: number index exactly the head's ancestors with nothing above, no written block higher than the head and, if no written block repeats a transaction of its chain, lookup table exactly their transactions; the head height never drops; a block becomes the head if and only if it is higher or, at one height, has weight and the head has none or a greater draw or, at one draw, a greater hash; an exact lookup table stays exact if and only if the switch loses nothing |
| BlockChains.BlockChain.WriteAll | core/blockchain.go:974-1139 | the same over any run of block writes, which stores exactly the blocks whose parents are stored by then |
| BlockChains.BlockChain.Extend | core/blockchain.go:515-532 | writing lookup entries and inserting the head |
| BlockChains.BlockChain.WriteSiblings | core/blockchain.go:1083-1113 | children of a canonical block written in any order, one of them perhaps the head already, end on the head the fork choice folds to |
| Blocks.HeadIsBest | core/blockchain.go:1083-1113 | the head after writing siblings is one of them and, once one has weight, beats all by draw and then hash |
| Blocks.FromParent | core/blockchain.go:1083-1113 | starting from the parent is starting from the first sibling |
| Blocks.OrderDoesNotMatter | core/blockchain.go:1083-1113 | any two orders of the same siblings, one of them with weight, end on the same block |
| Blocks.FirstStays | core/types/certificate.go:104-109 | siblings without weight: the first one written stays |
| Blocks.OrderMattersIff | core/types/certificate.go:104-126 | the order decides on the block if and only if the siblings are not all one block and none has weight |
| Feeds.FindCase | event/feed.go:213-220 | the first index of the channel, or -1 |
| Feeds.DeleteCase | event/feed.go:223-225 | the shift in place is deletion at the index |
| Feeds.DeactivateCase | event/feed.go:228-232 | the swap in place moves the case out of the active prefix |
| Feeds.StepKeeps | event/feed.go:73-190 | every step of every goroutine keeps the invariant |
| Feeds.LiveInOnePlace | event/feed.go:73-125 | in every interleaving a live subscription is in exactly one of inbox and cases, any other channel in neither |
| Feeds.SendDeliversOnce | event/feed.go:129-190 | whatever step ends a `Send`, in every interleaving: every channel it took on and that was not removed meanwhile has got the value exactly once, nobody got it twice or without being taken on, and the result counts the deliveries |
| Feeds.SendTakesOnAll | event/feed.go:129-150 | what `Send` takes on is everything subscribed when it collects its cases |
| Feeds.SendIsNotStuck | event/feed.go:151-182 | a `Send` that runs has a case to try, ends its round of tries, or waits for a subscriber that it has not served |
| Feeds.ActiveIsUnserved | event/feed.go:151-182 | the active prefix holds precisely the channels still to be served |
| Feeds.RemovalAlwaysFinds | event/feed.go:104-125 | a removal that did not find its channel in the inbox finds it among the cases |
| Feeds.RemovalGoesThrough | event/feed.go:104-125 | a removal under way can go through whenever no `Send` runs or one waits, and leaves the channel without subscription and case |
| Feeds.SendProgresses | event/feed.go:155-182 | every delivery and removal brings `Send` closer to its end |
| StateTransitions.GasPool.AddGas | core/gaspool.go:29-35 | adds without overflow; callers prove that it never panics |
| StateTransitions.GasPool.SubGas | core/gaspool.go:39-45 | takes the amount or, if it is not there, nothing |
| StateTransitions.StateTransition.BuyGas | core/state_transition.go:158-180 | charges payer and pool, or neither |
| StateTransitions.StateTransition.RefundGas | core/state_transition.go:263-284 | returns unused gas and a refund of at most half to payer and pool |
| StateTransitions.StateTransition.TransitionDb | core/state_transition.go:199-261 | who pays is the creator that grants the gas for a message that names none, else the sender; the state handed to the machine differs in that account's balance, less by the gas times the price, and for a call in the sender's nonce, one more; fails exactly if nobody pays, the nonce is off, that account cannot pay, the pool is too small, the gas does not cover what is due up front or the transfer fails, with that error; afterwards only that account and the coinbase have gained, by the unused and the used gas times the price; the gas charged is what was spent less the smaller of the refund counter and half of it, and the pool loses exactly that |
| StateTransitions.TransitionMeans | core/state_transition.go:199-284 | the same of the functions that the block statements below are about |
| StateTransitions.Used | core/state_transition.go:263-289 | never more than was bought and at least half of what is due up front |
| StateTransitions.FeesCancel | core/state_transition.go:199-284 | buying, refunding and paying the coinbase move balances about, whoever pays: when the transaction has ended, total balances have changed by what the machine changed less what was paid to accounts that destroyed themselves, which is nothing if and only if gas is free or neither the coinbase nor a payer with a refund did |
| StateTransitions.Finalise | core/state/statedb.go:632-653 | deletes exactly the changed accounts that destroyed themselves or, under newer rules, are empty, and leaves every other as it was |
| StateTransitions.FinalisedMeans | core/state_processor.go:108-115 | the state the next transaction starts from, account by account |
| StateProcessors.BlockFeesCancel | core/state_processor.go:56-86 | the same over all transactions of a block |
| StateProcessors.ApplyTransaction | core/state_processor.go:93-131 | accepted exactly if the message is; the receipt is marked failed if and only if the machine ended with an error, names the created contract if and only if the transaction is sent to nobody, and has the transaction's hash and the gas charged; logs, state after deletion of destroyed and empty accounts, and pool |
| StateProcessors.Process | core/state_processor.go:56-86 | accepts a block exactly if every transaction is accepted in the state and gas those before it leave; then receipt i says how the machine ended on transaction i in the state those before it left, what it created and what it was charged, and holds its logs numbered on through the block; gas used plus gas left is the gas limit, cumulative gas are prefix sums, the counter has for each creator the number of transactions that called an ordinary contract of it, and total balances change only by machine, block reward and fees paid to accounts then deleted |
| StateProcessors.ProcessTx | core/mortgage.go:143-152 | one more transaction keeps the counter exact: an entry for exactly the creators whose contracts were called, with the number of calls, each judged in the state the transaction left |
| StateProcessors.CoinbaseCanBurn | core/state_processor.go:108-115 | a concrete block whose one transaction makes the coinbase destroy itself: total balances fall by the fee |
| StateProcessors.BookedIsComplete | core/blockchain.go:817-850 | the receipts of a processed block are what filling in makes of their consensus encoding, unless transaction hashes repeat |
| StateProcessors.ReceiptsRecovered | core/blockchain.go:817-850 | so filling in the encoding gives the receipts back |
| StateProcessors.OwnGasRecovered | core/blockchain.go:833-838 | from such receipts the differences of cumulative gas are each transaction's own gas |
| StateProcessors.SetReceiptsData | core/blockchain.go:817-850 | fills in hash, contract address, own gas and the block, transaction and consecutive number of each log in place and touches nothing else |
| ChainIndexers.ProcessSection | core/chain_indexer.go:382-412 | succeeds exactly if no block read is missing, fails or does not follow the one before; what it returns leads back to the given head in sectionSize parents, whatever the chain did meanwhile |
| ChainIndexers.ChainIndexer.AddCheckpoint | core/chain_indexer.go:127-139 | heads, stored count and checkpoint exactly; for a section already stored the indexer stays consistent if and only if the heads between it and an earlier, higher checkpoint are linked, otherwise if and only if the checkpoint has a hash and does not overtake the section being processed |
| ChainIndexers.ChainIndexer.SetValidSections | core/chain_indexer.go:453-465 | removes exactly the heads of the sections given up |
| ChainIndexers.ChainIndexer.NewHead | core/chain_indexer.go:239-296 | after a reorganisation exactly the sections past the checkpoint that do not end below it are given up; other notices touch no head, and more sections become known exactly if their last block has its confirmations and the checkpoint is among them and recognised; what children are told, exactly |
| ChainIndexers.ChainIndexer.Begin | core/chain_indexer.go:313-332 | remembers the section and the head it builds on |
| ChainIndexers.ChainIndexer.Finish | core/chain_indexer.go:343-362 | marks the section complete and tells children exactly if processing succeeded and the head it built on is still there |
| ChainIndexers.LastDecides | core/chain_indexer.go:343-362 | the stored heads are all canonical if and only if the last one is |
| ChainIndexers.ChainIndexer.ReorgBeforeFinish | core/chain_indexer.go:330-362 | a reorganisation noticed after a section was read and before it is marked complete, whatever was noticed in between: the section is dropped exactly if the head it builds on is gone by then; otherwise it is stored, with canonical heads if and only if the fork is not below its last block |
| ChainIndexers.StaleSection | core/chain_indexer.go:330-362 | a concrete run that stores a section whose last block is no longer canonical |
| ChainIndexers.ChainIndexer.ResetFails | core/chain_indexer.go:387-390 | gives every section up |
| ChainIndexers.ChainIndexer.Run | core/chain_indexer.go:239-412 | in every interleaving section heads exist only below the stored count and those past the checkpoint form one parent-linked chain |
| ChainIndexers.HeadsApart | core/chain_indexer.go:453-496 | k sections apart is k times sectionSize parents apart, without gaps down to the checkpoint |
| Weights.RoundedShare | core/weight.go:51-87 | a weight is at most the total and within one of the exact share, above it if and only if the hash is above the half, or at it on an odd quotient, and the low word of the remainder is not zero |
| Weights.WeightsAddUp | core/weight.go:51-87 | for balances that add up to the recorded total, whatever the hashes, the weights add up to the total weight up to less than the number of miners |

## Left out

- TxPools.TxPool.Reset: takes the reinjected transactions as given; the walk over both branches that collects them, and the early returns on a missing block or state, are not modelled.
- TxPools.TxPool: account lists are held as values, which the `TxList` object is proved to compute; that the pool and a loop share one list object is not captured. Journal, events, metrics and the heartbeat clock are left out; heartbeats are an arbitrary order.
- Admission.AdmittedIffPayable: the gas a contract grants is a field of the transaction instead of being cached in place; size, sign and validity of the signature are given with the transaction.
- Nonces, gas sums and heights are unbounded where a chain of 2^64 elements would be needed to tell the difference; 64-bit arithmetic is modelled in `IntrinsicGas`, the gas pool, receipts, header queries and weights. Header queries take stored numbers to fit in 64 bits.
- Execution.AdmittedIsAccepted: pool and block read one state, and the machine is taken to refuse a transfer exactly if the sender does not have the value (core/vm/evm.go:200).
- TxPools.TxPool.RemoveTx: the stale counter of the price heap never falls short; once an entry held twice has been given up it can exceed the stale entries, and by how much is not stated.
- Mortgage.MortgageWorker: the cache of entries never evicts. A division by a zero price, which stops the program, is a refusal recorded in `panicked`.
- Reinjections.ReinjectedRunIff: for an account that something is reinjected for, the equivalence is not stated for a pool without room for the batch, where it depends on the order of the price heap, nor for a remote account over its slots or one with calls that a quota can refuse; there `Reset` states the run only through the demoted lists.
- Bystanders.BystanderRunIff: its condition is what the batch cost the account, which in a full pool depends on the order and the repeated entries of the price heap; before the call, room for the batch or nothing pending below the new state nonce is enough, and `Reset` states that too.
- HeaderQueries.GetAncestor: the reads of one call see one moment; a reorganisation can be half written then, but not go on between them.
- HeaderQueries.Answer: a lookup by number reads the index and the header in one moment. A skip of 2^64-1 makes the step of a number query zero, as in the code.
- BlockChains.BlockChain.WriteBlock: Algorand mode only. The total-difficulty fork choice of the other mode is proved for headers; for blocks `Reorg` states what a switch to a lower head leaves behind. State commits, the trie garbage queue, receipts, logs and side-chain import are left out.
- Blocks.Oracle: sortition weights and the least hash drawn are given functions of the credential and the canonical header below; a credential whose proof does not decode, at which the code panics, is not modelled.
- Feeds: one event type, and no channel subscribed twice at a time; a send that blocks for ever is a run in which no further step is taken.
- StateTransitions.StateTransition.TransitionDb: the virtual machine is a function that returns no more gas than it is given; a failed transaction leaves the state to be discarded by the caller, as in the code.
- StateProcessors.Process: bloom filters and intermediate roots are left out; the creator that the registry names for a contract is a given function of the state. For blocks that repeat a transaction hash, what logs each receipt has is not stated.
- ChainIndexers.ChainIndexer.AddCheckpoint: an index reopened from disk is not modelled. Children are told, but not modelled as objects.
- Weights.WeightsAddUp: the total weight fits in 64 bits, and the balances do not add up to zero, for which the code divides by zero.
- The rest of the repository (virtual machine, tries, codecs, networking, cryptography, user interfaces, fast sync, `SetHead`) is not part of this model.
