# Verified model of the order management back end

Dafny models of the managers of the order management system, with proofs of what their
redundant structures keep. Each area has a state machine over values (`...Model`), in which
properties of arbitrary runs are proved, and classes whose methods update their fields in place
and are proved to take exactly the steps of that machine. The `...History` modules read from
the calls what the answers must be.

* **Cache** (`CacheEntries`, `MemoryCacheModel`, `MemoryCacheRuns`, `MemoryCacheOrder`,
  `MemoryCacheEviction`, `MemoryCacheSurvival`, `MemoryCacheHistory`, `MemoryCache`, `RedisCache`,
  `RedisHistory`, `TierModel`, `TierCoherence`, `TierHistory`, `MultiTierCache`, `CacheLock`):
  the in-memory tier with its five eviction strategies, the Redis tier, a stack of any number of
  tiers of either kind, and locks built on set-if-absent. List iterators are node identities, the
  clock is a parameter, and the choices an eviction may make are listed in the operation.
* **Role inheritance** (`RoleGraph`, `RoleTermination`, `RoleManager`, `RoleHistory`): reachability, acyclicity,
  when the recursions end, the cached permission closures and the inheritance chain.
* **Order lines** (`OrderLines`, `OrderItemCollection`): two indexes over a vector, erasing by
  position, merging and sorting.
* **Connections** (`ConnectionModel`, `ConnectionHistory`, `PoolModel`, `PoolInvariant`, `Database`): nested
  transactions and savepoints, the pool, and transaction objects that give back what they took.
  The class contracts state the pool operations on shared connection objects; runs are proved on
  `PoolModel`, which names connections by number.
* **Orders, warehouses, sessions, payments** (`OrderModel`, `OrderDistribution`, `OrderHistory`,
  `OrderManager`, `WarehouseModel`, `WarehouseHistory`, `WarehouseManager`, `SessionModel`,
  `SessionHistory`, `SessionManager`, `PaymentModel`, `PaymentHistory`, `PaymentManager`): state
  machines over maps with secondary indexes, conservation laws and pagination.
* `Common`: results, sequence facts, ascending iteration, sums over maps.

Facts about the code that the proofs brought out, each with its exact condition:

* An entry under the empty key is never evicted, and choosing it again and again keeps the loop
  going: with one in the cache a set under any key can go on for ever. `SetEndsIff` says when a loop
  can end and when it must, and `LaterSetHangs` shows a set of a non-empty key that fits and hangs.
  `MemoryCache.Set` asks for no more than a loop that must end.
* Storing a present key leaves a stale list node, and a read that meets an expired entry leaves
  its node and its bytes: the list stays exact precisely without these two and without the loop
  coming to the empty key (`StepOrderIff`). A stale node can make the newest key the next victim
  (`StaleNodeEvictsNewest`), and lost bytes can make a set evict the key it stores
  (`AbsentKeySurvivesIff`, `LostBytesEvictNewKey`). The memory bound does not depend on any of this.
* A tier that a write, deletion or clear does not reach keeps what it had (`SetCoherentIff`,
  `DelCoherentIff`, `ClearCoherentIff`), and answers it when it is back (`StaleAfterReconnect`,
  `DeletedAfterReconnect`, `ClearedAfterReconnect`).
* A copy that a read leaves in a tier above lives for 3600 seconds from that read, whatever was
  promised, and no longer (`BackfillOutlivesPromise`, `NothingOutlivesBackfill`).
* Of the releases exactly those that reach the cache while another object holds the key can lead to
  two holders (`ReleaseBreaksIff`, `RefusedReleaseGivesTwoHolders`). A holder that tries
  again, or whose release does not reach the cache, leaves the key present without a holder
  (`TryBlocksIff`, `ReleaseBlocksIff`): every attempt is refused, expiry or not, until a release of
  some object of the key, a delete, a clear or a read of the expired key reaches the cache
  (`StepBlockedIff`, `ObtainableIff`, `ReleaseUnblocks`). Over anything but a Redis cache every
  attempt succeeds (`CacheLock.TryAcquire`).
* `create_role` can overwrite a live role while the permission cache counts as clean
  (`CreateCoherentIff`, `OverwriteLeaksPermissions`).
* `add_inheritance` can close a cycle (`AddParentAcyclicIff`). The traversals of a role end exactly
  when no cycle can be reached from it (`EndsIff`, `MutualInheritanceNeverEnds`).
* `cancel_order` leaves the status lists behind (`CancelFilingIff`, `CancelledOrderStays`); an
  update or deletion that does not find the order in the list of its status adds one to the
  distribution for good (`DistributionSum`).
* A transaction object that is begun again after a commit is not rolled back by its destructor,
  which then pools an open transaction exactly if it is still open and the pool takes the
  connection back (`DestroyCleanIff`, `SecondBeginLeaks`). A begin of an object whose connection
  is still busy strands that connection (`BeginStrandsIff`).
* Negative quantities are accepted by the warehouse operations; `StepBoundedIff` says which break
  0 <= reserved <= stock (`NegativeQuantitiesBreak`).
* A session id that is drawn while it is live breaks the user index (`CreateSafeIff`,
  `LiveIdDrawnTwice`).
* `process_refund` reports success even if it records nothing, and it looks neither at the status
  of the request nor at what was paid out before: a request is recorded whenever its payment is at
  SUCCESS and covers it (`RefundRecordedIff`, `SuccessWithoutRefund`, `RejectedRefundPaid`), hence
  again after every step that brings the payment back to SUCCESS (`ReopensIff`, `RefundPaidTwice`)
  and never without one (`RecordedOnce`, `RecordingsBounded`).

The methods of the classes that take a single step say in their contracts that the new state is
that of the model's step, and give the answer with its error codes; the table lists a method only
if its contract states more than that.

## Model

| member | source | states |
|---|---|---|
| `MemoryCacheEviction.EvictOneProgress` | src/cache/cache.cpp:210-271 | In a loop that must end every call of evict_one shortens the recency list or the entry map, whatever the strategy; outside LRU and FIFO it removes exactly the chosen key |
| `MemoryCacheModel.InsertEvicting` | src/cache/cache.cpp:83-100 | Storing a value leaves a state in which, not counting the new entry, the limit is met and (LRU, FIFO) a non-empty new key is listed |
| `MemoryCacheEviction.EvictionBounded` | src/cache/cache.cpp:210-214 | Every partial execution of a loop that must end is at most as long as the list and the map together |
| `MemoryCacheEviction.SetTerminates` | src/cache/cache.cpp:83-106 | As long as the empty key has not been stored: some choices of victims end the loop and no choices keep it going longer than the list and the map |
| `MemoryCacheEviction.EmptyKeyNeverEvicted` | src/cache/cache.cpp:263-270 | No choices of victims remove or change an entry under the empty key |
| `MemoryCacheEviction.OversizedEmptyKey` | src/cache/cache.cpp:263-270 | While the entry under the empty key alone exceeds the limit no choices of victims end the loop |
| `MemoryCacheEviction.SetEndsIff` | src/cache/cache.cpp:83-106 | Storing any value under any key in any state of a run: the loop can end if and only if there is no entry under the empty key afterwards or the keys the strategy may choose beside it (listed; all; no more accesses; no later expiry) are enough to meet the limit; it must end, with a bound on its length, if and only if the keys it chooses strictly before it (listed; none; fewer accesses; sooner expiry) are enough |
| `MemoryCacheEviction.FloorFixed` | src/cache/cache.cpp:216-271 | With an entry under the empty key no eviction changes what the counter can come down to |
| `MemoryCacheEviction.LaterSetHangs` | src/cache/cache.cpp:241-270 | Concrete run: after an accepted set under the empty key a set under another, non-empty key that fits cannot end |
| `MemoryCacheRuns.StepKeepsInv` | src/cache/cache.cpp:53-126 | Every operation, in every strategy, keeps real bytes <= counter <= limit and every iterator in the index pointing at a live node of its key |
| `MemoryCacheRuns.MemoryBound` | src/cache/cache.cpp:53-271 | On every run of operations that end, from an empty cache, all keys and strategy switches included: 0 <= real bytes <= counter <= limit, and no iterator in the index dangles |
| `MemoryCacheRuns.GetAnswersLastWritten` | src/cache/cache.cpp:53-152 | Refinement of a lossy map: after every run get answers nothing or the value written last under the key |
| `MemoryCacheHistory.GetAnswersExactly` | src/cache/cache.cpp:53-152 | After every run, read from the calls alone: a key that is still there is answered with the value of its last set if now is at most the time of that set plus its time to live, and with nothing later; absent keys are answered with nothing; each entry has counted its reads in time since the set |
| `MemoryCacheHistory.SetThenGet` | src/cache/cache.cpp:53-106 | A key that survives its own set is answered with the stored value up to now + ttl and with nothing afterwards |
| `MemoryCacheHistory.GoneIff` | src/cache/cache.cpp:53-208 | An entry goes if and only if it is deleted or cleared, read or cleaned up after its expiry, or a victim of a set; cleanup keeps all others |
| `MemoryCacheHistory.LowestEvicted` | src/cache/cache.cpp:231-261 | After every run a set under LFU evicts the keys with the fewest reads since they were stored, under TTL_ONLY those that expire soonest, lowest first, and no survivor ranks below a victim |
| `MemoryCacheOrder.FaithfulIsPermutation` | src/cache/cache.cpp:70-77 | When index and entries agree the list names each entry key exactly once |
| `MemoryCacheOrder.EvictsOldest` | src/cache/cache.cpp:221-230 | On exact LRU and FIFO runs each eviction removes exactly the key whose last touch is the oldest |
| `MemoryCacheOrder.SetEvictsOldest` | src/cache/cache.cpp:83-106 | The keys one set evicts are those touched longest ago, oldest first, and every survivor was touched after each of them |
| `MemoryCacheOrder.OrderRun` | src/cache/cache.cpp:53-126 | On every run within LRU and FIFO (switches between them included) that stores absent keys only, meets no expired entry and never comes to evict the empty key, the list stays ordered by last touch and the byte counter exact |
| `MemoryCacheOrder.OrderFromStart` | src/cache/cache.cpp:53-126 | The same from an empty cache: newest touch first, as many nodes as entries, exact bytes |
| `MemoryCacheSurvival.StoredKeySurvivesIff` | src/cache/cache.cpp:83-106 | LRU and FIFO, any state of a run: a stored non-empty key is still there after its own set if and only if the limit is met once everything listed behind the oldest node of the key is gone |
| `MemoryCacheSurvival.AbsentKeySurvivesIff` | src/cache/cache.cpp:83-106 | A key without a node, in a cache that lists every entry, survives its own set if and only if it fits beside the bytes that belong to no entry and the entry under the empty key |
| `MemoryCacheSurvival.FittingKeySurvivesIff` | src/cache/cache.cpp:83-106 | The same when no bytes are lost and the empty key is not stored: if and only if it fits alone |
| `MemoryCacheSurvival.LostBytesEvictNewKey` | src/cache/cache.cpp:62-66 | Concrete run: after an entry has been read expired a key that fits alone is evicted by its own set |
| `MemoryCacheOrder.SetKeepsOrderIff` | src/cache/cache.cpp:83-106 | A whole set, its evictions included, keeps the list ordered by last touch and the byte counter exact if and only if the key was absent and the loop does not come to the empty key |
| `MemoryCacheOrder.GetKeepsOrderIff` | src/cache/cache.cpp:62-80 | A read keeps the list ordered by last touch and the byte counter exact if and only if it meets no expired entry |
| `MemoryCacheOrder.StepOrderIff` | src/cache/cache.cpp:53-208 | For every operation: the list stays exact if and only if the step stores an absent key without coming to the empty key, meets no expired entry and does not leave LRU and FIFO |
| `MemoryCacheOrder.StaleNodeEvictsNewest` | src/cache/cache.cpp:97-100 | Concrete run: re-storing a key makes it the next victim although it was touched last |
| `MemoryCaches.MemoryCache.Get` | src/cache/cache.cpp:53-81 | Answers exactly the unexpired value; new state as in the model: expired entries dropped without their bytes, hits moved to the front under LRU |
| `MemoryCaches.MemoryCache.Set` | src/cache/cache.cpp:83-106 | Terminates for every call whose loop must end, the empty key included; the state is the stored value followed by a complete eviction with choices the strategy allows; keeps the memory bound |
| `MemoryCaches.MemoryCache.EvictIfNeeded` | src/cache/cache.cpp:210-214 | The loop performs a complete sequence of allowed evictions and ends |
| `MemoryCaches.MemoryCache.EvictOne` | src/cache/cache.cpp:216-271 | One eviction with a key the strategy may choose |
| `MemoryCaches.MemoryCache.LeastFrequent` | src/cache/cache.cpp:231-240 | The scan returns a key of minimal access count below INT_MAX, or the empty key if there is none |
| `MemoryCaches.MemoryCache.SoonestExpiry` | src/cache/cache.cpp:251-260 | The scan returns a key of minimal expiry below the sentinel, or the empty key if there is none |
| `MemoryCaches.MemoryCache.CleanupExpired` | src/cache/cache.cpp:181-198 | Erasing while iterating equals dropping at once all expired entries with their bytes and indexed nodes |
| `RedisModel.SetNxOnce` | src/cache/cache.cpp:469-488 | After a successful set_nx and any run of operations that does not remove the key, every further set_nx on it fails, expired or not |
| `RedisModel.FreesIff` | src/cache/cache.cpp:303-359 | A key leaves the tier if and only if a delete or clear reaches it or a get meets it expired |
| `RedisModel.OtherKeysUntouched` | src/cache/cache.cpp:299-359 | No operation on one key affects another key, whatever the prefix |
| `RedisHistory.AnswersExactly` | src/cache/cache.cpp:303-488 | After every run, whatever the prefix and the connections: get answers the value of the last effective set, set_nx or expire up to and including its expiry, nothing later, an error while disconnected; set_nx succeeds exactly for keys not held |
| `TierCoherence.GetCoherent` | src/cache/cache.cpp:501-520 | A read with backfill keeps every tier coherent and answers nothing or the value written last |
| `TierCoherence.SetCoherentIff` | src/cache/cache.cpp:522-534 | A write, write-through or not, keeps all tiers coherent if and only if no tier that it misses (disconnected, or below a broken write) holds another value under the key |
| `TierCoherence.DelCoherentIff` | src/cache/cache.cpp:536-543 | A deletion keeps all tiers coherent if and only if no unreachable tier holds the key |
| `TierCoherence.ClearCoherentIff` | src/cache/cache.cpp:555-560 | Clearing keeps all tiers coherent if and only if no unreachable tier holds anything |
| `TierCoherence.StepCoherentIff` | src/cache/cache.cpp:501-560 | For every step, tiers going up and down included: coherence is kept if and only if the step is safe in the sense of the three conditions |
| `TierCoherence.SafeRunAnswers` | src/cache/cache.cpp:501-560 | After every run of safe steps, with connections changing at will and write-through on or off, get answers nothing or the value written last |
| `TierCoherence.StepCoherent` | src/cache/cache.cpp:501-560 | With fixed connections and write-through on, every step is safe and keeps every tier holding only what was written last |
| `TierCoherence.StepDurable` | src/cache/cache.cpp:303-359 | Each operation keeps, in a connected Redis tier, every value whose promised life is not over |
| `TierCoherence.StackAnswers` | src/cache/cache.cpp:501-560 | For any stack of tiers, after every run with a monotone clock: get answers nothing or the last written value, and exactly that value until its time to live has passed if some Redis tier is connected |
| `TierHistory.SetArrives` | src/cache/cache.cpp:522-534 | A set reaches a tier exactly if that is connected and, without write-through, all above are; a reached tier answers the value for its time to live, unless a memory tier evicted it at once; a missed one is untouched |
| `TierHistory.BackfillArrives` | src/cache/cache.cpp:501-520 | A read-through get that finds the value at tier n answers it, and every reachable tier above answers it for another 3600 seconds, unless a memory tier evicted it at once; tiers below are untouched |
| `TierHistory.NothingOutlivesBackfill` | src/cache/cache.cpp:501-520 | On runs with fixed connections and write-through nothing is answered once the promised life is over and 3600 seconds have passed since the last step |
| `TierHistory.BackfillOutlivesPromise` | src/cache/cache.cpp:510-511 | Concrete run: a value promised for 10 seconds is answered an hour later from its backfilled copy |
| `TierCoherence.StaleAfterReconnect` | src/cache/cache.cpp:522-534 | Concrete run from an empty tier: write, disconnect, write, connect; get answers the older value |
| `TierCoherence.DeletedAfterReconnect` | src/cache/cache.cpp:536-543 | Concrete run: write, disconnect, delete, connect; get answers the deleted value |
| `TierCoherence.ClearedAfterReconnect` | src/cache/cache.cpp:555-560 | Concrete run: write, disconnect, clear, connect; get answers the cleared value |
| `MultiTierCaches.MultiTierCache.Get` | src/cache/cache.cpp:501-520 | Probes tier after tier up to the first answer and copies it into the tiers above with a TTL of 3600; for every call whose eviction loops must end |
| `MultiTierCaches.MultiTierCache.Set` | src/cache/cache.cpp:522-534 | Writes all tiers, or without write-through up to the first failing one; outcome of the last tier tried; for every call whose eviction loops must end |
| `LockModel.StepSafeIff` | src/cache/cache.cpp:727-752 | A step, by anybody, keeps at most one holder per key and the key present while held if and only if it takes no held key away: no release by another object that reaches the cache, no delete, clear or expired read of a held key |
| `LockModel.ReleaseBreaksIff` | src/cache/cache.cpp:749-752 | After a release a disciplined run can reach two holders of one key if and only if the release reached the cache and another object held the key |
| `LockModel.ReleaseSafeIff` | src/cache/cache.cpp:749-752 | release, which checks no ownership, keeps every held key present if and only if the cache is unreachable or no other lock holds the key |
| `LockModel.RefusedReleaseGivesTwoHolders` | src/cache/cache.cpp:738-752 | Concrete run from an empty cache: a lock is granted, a second object refused and released, a third granted beside the first |
| `LockModel.MutualExclusion` | src/cache/cache.cpp:727-752 | After every interleaving of safe steps, which all disciplined ones are, two acquired locks have different keys, and an attempt on a held key fails at any time |
| `LockModel.ReleaseBlocksIff` | src/cache/cache.cpp:749-752 | A release by the holder leaves the key free, except if and only if it does not reach the cache: then the key stays without a holder |
| `LockModel.DestroyFrees` | src/cache/cache.cpp:732-736 | Destroying an object frees the key it holds if that reaches the cache, and leaves the cache alone if it holds none |
| `LockModel.TryBlocksIff` | src/cache/cache.cpp:738-747 | An attempt leaves the key present without a holder if and only if the object held the lock already or the key was in that state before |
| `LockModel.StepBlockedIff` | src/cache/cache.cpp:727-752 | A present key without a holder stays so, expiry or not, until and only until a release of an object of the key, a delete, a clear or an expired read reaches the cache |
| `LockModel.GrantedForTenSeconds` | src/cache/cache.cpp:738-747 | A granted lock loses its key to a read by another client from the eleventh second on, and not before |
| `LockModel.BlockedUntilFreed` | src/cache/cache.cpp:727-752 | The same over runs: until such a step nobody holds the lock |
| `LockModel.ObtainableIff` | src/cache/cache.cpp:727-752 | On some run without such a step some lock object holds the key if and only if the key is not present without a holder |
| `LockModel.ReleaseUnblocks` | src/cache/cache.cpp:738-752 | With it, every key can be obtained from every state: a new object is refused, releases and tries again |
| `LockModel.RetryBlocksEveryone` | src/cache/cache.cpp:738-752 | After a holder tries again, over every run up to a step that frees the key, the key is present and no object holds it; its own release is such a step if and only if the cache is connected |
| `CacheLocks.CacheLock.constructor` | src/cache/cache.cpp:727-730 | Tries to acquire the key with the lock prefix; over a Redis cache by set_nx, over a memory cache or a stack of tiers always granted |
| `CacheLocks.CacheLock.TryAcquire` | src/cache/cache.cpp:738-747 | Over a Redis cache acquired is the verdict of set_nx with value 1 and TTL 10; over a memory cache or a stack, Redis tiers in it or not, it is always true and nothing is stored |
| `CacheLocks.CacheLock.Release` | src/cache/cache.cpp:749-752 | Deletes the key from the backend, for a stack from every tier, and forgets the claim |
| `CacheLocks.CacheLock.Destroy` | src/cache/cache.cpp:732-736 | The destructor releases a lock that is held, and only that |
| `RoleGraph.AncestorsShrink` | src/auth/rbac.cpp:316-324 | The termination measure: along an inheritance edge of an acyclic graph the set of reachable roles shrinks |
| `RoleGraph.CollectIsClosure` | src/auth/rbac.cpp:366-374 | The recursive collection equals the union of permissions over all roles reachable by inheritance |
| `RoleGraph.ChainSummary` | src/auth/rbac.cpp:307-329 | The chain ends in the role, lists exactly the reachable live roles, has every live parent before each occurrence of its child, and its permissions union to the closure |
| `RoleGraph.AddParentAcyclicIff` | src/auth/rbac.cpp:259-272 | Adding an inheritance keeps the graph acyclic if and only if the parent does not already inherit from the child |
| `RoleTermination.EndsIff` | src/auth/rbac.cpp:307-324 | The recursion from a role ends at some depth if and only if no cycle can be reached from the role; the number of reachable roles is then depth enough |
| `RoleTermination.CycleNeverEnds` | src/auth/rbac.cpp:316-324 | From a role on a cycle the recursion ends at no depth |
| `RoleTermination.BuildEndsIff` | src/auth/rbac.cpp:362-379 | The cache can be built, which traverses every role, if and only if the graph is acyclic |
| `RoleTermination.AddInheritanceEndsIff` | src/auth/rbac.cpp:259-272 | After add_inheritance the cache can be built if and only if the parent did not inherit from the child |
| `RoleTermination.MutualInheritanceNeverEnds` | src/auth/rbac.cpp:259-272 | Concrete input: two new roles and two successful calls of add_inheritance after which neither traversal ends |
| `RoleGraph.CreateAcyclic` | src/auth/rbac.cpp:172-189 | Creating a role closes no cycle, even when it overwrites a live one or revives a deleted id |
| `RoleModel.AnswerIsClosure` | src/auth/rbac.cpp:287-305 | Under the invariant the answer, cached or fallback, dirty or clean, is the closure |
| `RoleModel.CreateCoherentIff` | src/auth/rbac.cpp:172-189 | create_role, which does not mark the cache, keeps it dirty-or-right if and only if it is dirty, the id is free, or the overwritten role passed on no permission |
| `RoleModel.StepKeepsInv` | src/auth/rbac.cpp:172-305 | Every operation keeps the graph acyclic and the cache dirty or right |
| `RoleModel.StepSafeIff` | src/auth/rbac.cpp:172-305 | An operation keeps the graph acyclic and the cache dirty or right if and only if it is not a create_role or add_inheritance that its condition excludes |
| `RoleModel.PermissionsAnswered` | src/auth/rbac.cpp:172-379 | After every run each live role is answered with the union over everything it inherits from |
| `RoleHistory.AnsweredByLedger` | src/auth/rbac.cpp:172-305 | After every run get_all_role_permissions answers exactly what the calls have granted and not revoked (create, delete, add, remove, set) to the role or along inheritances added and not removed, through roles live by the calls |
| `RoleHistory.RevokedForAll` | src/auth/rbac.cpp:233-244 | A permission that no role holds by the calls any more is answered for nobody |
| `RoleHistory.RevokedUnlessInherited` | src/auth/rbac.cpp:233-244 | Right after a revocation a role has the permission only if another role it inherits from holds it |
| `RoleModel.OverwriteLeaksPermissions` | src/auth/rbac.cpp:177-186 | Concrete run from the empty manager: three creations, a deletion, a grant, a read and a creation; the new role answers the permission of the overwritten one |
| `RoleManagers.RoleManager.CreateRole` | src/auth/rbac.cpp:172-189 | Takes the id size + 1 and stores an empty role; the invariant is kept if and only if the cache is dirty, the id is free or the overwritten role granted nothing |
| `RoleManagers.RoleManager.AddInheritance` | src/auth/rbac.cpp:259-272 | Adds an edge between live roles without a cycle check; the invariant is kept if and only if the parent does not reach the child |
| `RoleManagers.RoleManager.GetAllRolePermissions` | src/auth/rbac.cpp:287-305 | Answers with the permission closure of a live role, an error for others |
| `RoleManagers.RoleManager.BuildInheritanceCache` | src/auth/rbac.cpp:362-379 | Fills the cache with the collection of every live role |
| `RoleManagers.RoleManager.CollectInto` | src/auth/rbac.cpp:366-374 | The recursion terminates and adds the collection of a role to the captured set |
| `RoleManagers.RoleManager.GetInheritanceChain` | src/auth/rbac.cpp:307-329 | Ancestors exactly, parents first, the role last |
| `RoleManagers.RoleManager.Traverse` | src/auth/rbac.cpp:316-324 | The recursion terminates and appends the chain of a role to the captured vector |
| `OrderLines.DoubleCounting` | src/order/order_item.cpp:261-323 | Summing quantities per product and per line gives the same total |
| `OrderLines.PermutationKeepsMap` | src/order/order_item.cpp:343-373 | Reordering the lines changes no product quantity |
| `OrderLines.MergedProducts` | src/order/order_item.cpp:325-341 | The merged list has the same products, strictly increasing |
| `OrderLines.MergedLinesAreFirst` | src/order/order_item.cpp:325-341 | Every merged line carries id and price of the first line of its product and the quantity of all of them |
| `OrderLines.MergeKeepsQuantities` | src/order/order_item.cpp:325-341 | Merging changes neither the quantity of any product nor the total |
| `OrderLines.MergeIdempotent` | src/order/order_item.cpp:325-341 | Merging twice is merging once |
| `OrderLines.MergeFixed` | src/order/order_item.cpp:325-341 | A list is left alone by merging if and only if its product ids increase strictly |
| `OrderItemCollections.EraseStep` | src/order/order_item.cpp:192-194 | Erasing one more position from the right turns a partly filtered list into the next one |
| `OrderItemCollections.OrderItemCollection.RebuildIndexes` | src/order/order_item.cpp:375-382 | The id index names the last line of each id, the product index exactly the ascending positions of each product |
| `OrderItemCollections.OrderItemCollection.AddItem` | src/order/order_item.cpp:164-170 | Appends the line with id size + 1; exact indexes |
| `OrderItemCollections.OrderItemCollection.RemoveItem` | src/order/order_item.cpp:172-181 | Removes the last line with the id; error if there is none |
| `OrderItemCollections.OrderItemCollection.RemoveItemByProduct` | src/order/order_item.cpp:183-197 | Erasing by descending position equals the order-preserving filter; error if the product is absent |
| `OrderItemCollections.OrderItemCollection.UpdateQuantity` | src/order/order_item.cpp:243-250 | Changes the last line with the id in place; indexes stay exact |
| `OrderItemCollections.OrderItemCollection.UpdatePrice` | src/order/order_item.cpp:252-259 | Changes the last line with the id in place; indexes stay exact |
| `OrderItemCollections.OrderItemCollection.GetItem` | src/order/order_item.cpp:199-213 | The last line with the id |
| `OrderItemCollections.OrderItemCollection.GetItemByProduct` | src/order/order_item.cpp:215-229 | The first line of the product |
| `OrderItemCollections.OrderItemCollection.ComputeTotalQuantity` | src/order/order_item.cpp:261-267 | The accumulated quantity over all lines |
| `OrderItemCollections.OrderItemCollection.CountProduct` | src/order/order_item.cpp:297-307 | Adding up through the index gives the quantity over all lines of the product |
| `OrderItemCollections.OrderItemCollection.ProductQuantityMap` | src/order/order_item.cpp:317-323 | The quantity of every product; its values add up to the total quantity |
| `OrderItemCollections.OrderItemCollection.MergeDuplicateProducts` | src/order/order_item.cpp:325-341 | One line per product, by product id, the first line with the summed quantity; quantities and total unchanged |
| `OrderItemCollections.OrderItemCollection.CollectByProduct` | src/order/order_item.cpp:326-333 | The first loop builds the merged line of every product |
| `OrderItemCollections.OrderItemCollection.SortByPrice` | src/order/order_item.cpp:343-357 | An ordered permutation; quantities unchanged, indexes exact |
| `OrderItemCollections.OrderItemCollection.SortByQuantity` | src/order/order_item.cpp:359-373 | An ordered permutation; quantities unchanged, indexes exact |
| `ConnectionModel.RunKeepsConnInv` | src/db/database.cpp:327-422 | After any sequence of connection operations: open exactly when depth >= 1, savepoints only inside a transaction, every saved depth >= 1 |
| `ConnectionModel.RollbackToStaysOpen` | src/db/database.cpp:409-417 | Going back to a savepoint never closes the transaction; disconnecting always does |
| `ConnectionModel.NestedCommits` | src/db/database.cpp:361-386 | At depth n + 1 it takes exactly n + 1 commits to close the transaction |
| `ConnectionHistory.HistoryIs` | src/db/database.cpp:313-422 | After any calls the depth, the open transaction, the link, the last use, the savepoints and the depth each leads back to are those of a definition on the list of calls alone |
| `ConnectionHistory.SavepointReturns` | src/db/database.cpp:400-417 | Whatever happens between, short of closing the transaction or replacing or releasing that savepoint: going back to it leads to the depth at which it was set, and exactly that many commits then close the transaction |
| `ConnectionHistory.BeginsTakeCommits` | src/db/database.cpp:361-386 | n begins on a new connection take exactly n commits |
| `PoolInvariant.GetKeepsInv` | src/db/database.cpp:479-495 | get_connection hands out a linked connection outside any transaction that nobody else uses |
| `PoolInvariant.ReleaseCleanIff` | src/db/database.cpp:497-512 | release_connection keeps the pool clean if and only if it does not pool a connection with an open transaction |
| `PoolInvariant.BeginKeepsInv` | src/db/database.cpp:569-580 | begin keeps the invariant, a second time and after a commit too |
| `PoolInvariant.BeginStrandsIff` | src/db/database.cpp:569-580 | begin leaves a busy connection without an owner if and only if the object has a busy connection already |
| `PoolInvariant.NoneStranded` | src/db/database.cpp:457-605 | On disciplined runs that begin each object at most once every busy connection belongs to a holder or a transaction object |
| `PoolInvariant.DestroyCleanIff` | src/db/database.cpp:560-567 | The destructor keeps the invariant unless, and only unless, the object is active after a commit, its connection is open and the pool takes it back; then exactly that connection is pooled with its transaction |
| `PoolInvariant.StepSafeIff` | src/db/database.cpp:457-605 | Every step keeps lists disjoint and duplicate-free, pooled connections clean and users apart if and only if it does not give an open transaction back to the pool |
| `PoolInvariant.CarefulIsLegal` | src/db/database.cpp:556-605 | Callers who never begin an object again after its commit never destroy one that leaks |
| `PoolInvariant.PooledConnectionsAreClean` | src/db/database.cpp:438-694 | On every disciplined run no connection is pooled twice or both pooled and busy, and a pooled connection has no open transaction, no savepoint and no user |
| `PoolInvariant.UsedConnectionKept` | src/db/database.cpp:539-554 | A connection used by execute or ping is pooled again, and an idle check keeps it up to 300 seconds after that use and drops it later |
| `PoolInvariant.RunWithinLimit` | src/db/database.cpp:497-512 | On disciplined runs that do not change the limit the pool never holds more connections than the limit |
| `PoolInvariant.GivenBackIff` | src/db/database.cpp:505-509 | A connection given back is pooled if and only if it is linked and fewer than the limit are pooled |
| `PoolInvariant.CheckCloses` | src/db/database.cpp:539-554 | The idle check drops exactly the pooled connections unused for more than 300 seconds and unlinks exactly those |
| `PoolInvariant.ShutdownCloses` | src/db/database.cpp:457-473 | After a shutdown both lists are empty and every connection in them is unlinked, without a transaction or a savepoint |
| `PoolInvariant.SecondBeginLeaks` | src/db/database.cpp:560-593 | Concrete run: begin, commit, begin, destroy puts an open transaction into the pool and strands a connection |
| `Databases.ConnectionPool.GetConnection` | src/db/database.cpp:479-495 | The last pooled connection, or a fresh one, or null; the pool stays valid and the connection is clean |
| `Databases.ConnectionPool.ReleaseConnection` | src/db/database.cpp:497-512 | Erased from busy; pooled unchanged if linked and there is room, otherwise disconnected; the pool stays valid if and only if the connection was not pooled and is not pooled with an open transaction |
| `Databases.ConnectionPool.CheckConnections` | src/db/database.cpp:539-554 | Erasing while iterating closes and drops exactly the connections idle for more than 300; the others keep order and state |
| `Databases.ConnectionPool.Shutdown` | src/db/database.cpp:457-473 | Every connection is disconnected, both lists are empty |
| `Databases.Transaction.Begin` | src/db/database.cpp:569-580 | A busy connection with a transaction at depth 1, or an error and no connection; allowed at any time |
| `Databases.Transaction.Commit` | src/db/database.cpp:582-593 | On success the connection is outside any transaction |
| `Databases.Transaction.Destroy` | src/db/database.cpp:560-567 | The connection goes back, rolled back only if nothing was ever committed; the pool stays valid if and only if the object does not leak |
| `Databases.DatabaseManager.Execute` | src/db/database.cpp:658-667 | Takes the connection on top or a new one, uses it and gives it back; nothing stays busy and the pool is as before, up to the stamp or a connection there is no room for |
| `OrderModel.StepKeepsUserInv` | src/order/order.cpp:411-530 | Every operation keeps each user list the strictly increasing list of the live orders of that user |
| `OrderModel.UserPagesComplete` | src/order/order.cpp:447-472 | After every run the pages of a user, put together, are all live orders of the user, each once, newest first, for every positive page size |
| `OrderModel.CancelFilingIff` | src/order/order.cpp:522-530 | cancel_order keeps the status lists exact if and only if it leaves the status as it was |
| `OrderModel.UpdateKeepsFiling` | src/order/order.cpp:498-520 | update_order_status keeps the status lists exact, and exact for orders that are not CANCELLED on any run |
| `OrderModel.DistributionCountsOrders` | src/order/order.cpp:738-747 | With exact status lists the distribution adds up to the number of orders |
| `OrderDistribution.DistributionSum` | src/order/order.cpp:498-768 | After every run the distribution adds up to the number of orders plus the number of updates and deletions that did not find the order in the list of its status |
| `OrderDistribution.StraysAreCancelled` | src/order/order.cpp:522-530 | Only orders whose status cancel_order changed are missing in their list |
| `OrderDistribution.CancelledOrderStays` | src/order/order.cpp:522-530 | Concrete run: create and cancel leave the lists wrong, and after a deletion the order is gone but still counted |
| `OrderModel.StatusPagesComplete` | src/order/order.cpp:474-496 | After every run the pages of a status other than CANCELLED show each live order of the status once; without effective cancel_order they show nothing else and the distribution is right |
| `OrderModel.FinalIsAbsorbing` | src/order/order.cpp:35-65 | On every run an order that is CANCELLED or REFUNDED keeps that status or is gone for good |
| `OrderModel.ShippedWasPaid` | src/order/order.cpp:44-54 | On every run from the start an order that is SHIPPED was PAID or PROCESSING earlier |
| `OrderHistory.TransitionTable` | src/order/order.cpp:35-65 | can_transition_to accepts exactly the changes of a table of statuses |
| `OrderHistory.LifeFollowsTable` | src/order/order.cpp:257-530 | In the life of an order on any run each step changes the status exactly as asked if the table allows it, and not at all otherwise: PAID only from CREATED and PENDING_PAYMENT, SHIPPED only from PAID and PROCESSING, CANCELLED not from SHIPPED, DELIVERED and REFUNDED, every other change from a status other than CANCELLED and REFUNDED |
| `OrderHistory.OrdersAsTold` | src/order/order.cpp:411-530 | After every run the orders are those placed and not deleted, numbered in the order of placing, with the user who placed them and the status of the last allowed change |
| `OrderHistory.PagesAsTold` | src/order/order.cpp:447-472 | The pages of a user are, newest first, the orders that the calls say this user has |
| `OrderHistory.StatusListsInOrder` | src/order/order.cpp:474-520 | After every run each status list, which get_orders_by_status pages through, is in the order in which orders came to that status by the calls |
| `OrderManagers.OrderManager.GetUserOrders` | src/order/order.cpp:447-472 | The loop returns the page of the reversed user list; all ids are live orders of the user |
| `OrderManagers.OrderManager.GetOrdersByStatus` | src/order/order.cpp:474-496 | The loop returns the live ids of the page of the status list |
| `OrderManagers.OrderManager.GetStatusDistribution` | src/order/order.cpp:738-747 | The length of every status list; with exact lists the sum is the number of orders |
| `WarehouseModel.StepBoundedIff` | src/inventory/warehouse.cpp:134-189 | For any quantity, negative ones included, a step keeps 0 <= reserved <= stock everywhere if and only if a condition on the quantity holds that the caller can check |
| `WarehouseModel.NegativeQuantitiesBreak` | src/inventory/warehouse.cpp:134-179 | Concrete input: releasing or receiving -1 with all stock reserved breaks the bound |
| `WarehouseModel.NonNegativeIsSafe` | src/inventory/warehouse.cpp:165-189 | That condition holds for every non-negative quantity |
| `WarehouseModel.RunBounded` | src/inventory/warehouse.cpp:134-189 | Every run with non-negative quantities keeps 0 <= reserved <= stock for each product in each warehouse |
| `WarehouseModel.StepConserves` | src/inventory/warehouse.cpp:386-417 | One step changes the total stock of a product by its receipt or confirmed deduction only; transfers, even to the same warehouse, by nothing |
| `WarehouseModel.RunConserves` | src/inventory/warehouse.cpp:378-417 | Over every run the total stock is the initial one plus receipts minus confirmed deductions |
| `WarehouseHistory.RunAdds` | src/inventory/warehouse.cpp:134-189 | Over every run, in every warehouse: the reservation of a product is the initial one plus accepted reservations less accepted releases and confirmations; its stock is the initial one plus receipts and transfers in less confirmed deductions and transfers out |
| `WarehouseHistory.FreeAfter` | src/inventory/warehouse.cpp:144-189 | Confirming leaves stock less reservation as it was; reserving and releasing change it by their quantity |
| `WarehouseHistory.RunActive` | src/inventory/warehouse.cpp:428-463 | Whether a warehouse takes part in allocation is what the last activation said |
| `WarehouseHistory.ServableIsCount` | src/inventory/warehouse.cpp:436-448 | The number by which warehouses are compared is the number of order lines an active warehouse has enough free stock for |
| `WarehouseManagers.WarehouseManager.TransferStock` | src/inventory/warehouse.cpp:386-408 | Moves available stock between two warehouses that may be the same object; error codes in the order of the code |
| `WarehouseManagers.WarehouseManager.GetTotalProductStock` | src/inventory/warehouse.cpp:378-384 | The sum of the product over all warehouses |
| `WarehouseManagers.WarehouseManager.FindWarehousesWithProduct` | src/inventory/warehouse.cpp:331-339 | By ascending id exactly the active warehouses with enough available stock |
| `WarehouseManagers.WarehouseManager.AllocateOrder` | src/inventory/warehouse.cpp:428-463 | Fails exactly when some line fits no active warehouse; otherwise an active warehouse that serves the most lines, the smallest id among equals, with its true count; the first id and 0 for an empty order |
| `WarehouseManagers.Argmax` | src/inventory/warehouse.cpp:450-456 | The scan with strict comparison finds the largest count and the smallest id that has it |
| `SessionModel.StepKeepsInv` | src/auth/session.cpp:150-297 | Every operation keeps each user list the duplicate-free list of exactly the live sessions of that user |
| `SessionModel.CreateSafeIff` | src/auth/session.cpp:150-170 | A new session keeps both structures in agreement if and only if its id is not that of a live session |
| `SessionModel.LiveIdDrawnTwice` | src/auth/session.cpp:150-203 | Concrete run: an id drawn again while live; destroying the sessions of its first user ends the session of the second |
| `SessionModel.IndexMatchesSessions` | src/auth/session.cpp:150-297 | After every run that draws no live id a live session stands exactly once in the index, under its own user, and a dead one nowhere |
| `SessionModel.ExpiredForGood` | src/auth/session.cpp:205-233 | A session that is gone or expired at some time is never answered again by get or refresh, whatever happens later, unless its id is drawn again |
| `SessionHistory.SessionsAsTold` | src/auth/session.cpp:150-297 | After every run that draws no live id, read from the calls alone: which sessions there are, whose, and until when get and refresh answer them: 86400 seconds from a persistent creation, the duration set last from any other creation or from a refresh |
| `SessionHistory.RefreshThenGet` | src/auth/session.cpp:224-233 | An answered refresh makes the session last exactly the duration from then on |
| `SessionManagers.SessionManager.DestroyAllUserSessions` | src/auth/session.cpp:189-203 | Exactly the sessions of the user go |
| `SessionManagers.SessionManager.CleanupExpiredSessions` | src/auth/session.cpp:278-297 | Exactly the unexpired sessions stay; both structures agree |
| `PaymentModel.StepKeepsInv` | src/payment/payment.cpp:365-691 | Every operation keeps ids 1 to n, both indexes exact in id order, every refunded amount zero or within the amount, and every request naming a live transaction and an amount within its payment |
| `PaymentModel.LedgerBalances` | src/payment/payment.cpp:40-54 | Over every run the refunded amount changes by exactly the refunds recorded |
| `PaymentModel.RefundsNeverExceedPayment` | src/payment/payment.cpp:26-54 | After every run, re-run payments and overwritten statuses included, the refunded amount is the sum of recorded refunds and is zero or in (0, amount] |
| `PaymentModel.RefundRecordedIff` | src/payment/payment.cpp:524-554 | process_refund that answers success raises the refunded amount by the request if and only if the payment stands at SUCCESS and covers it; otherwise no transaction changes |
| `PaymentModel.ReopensIff` | src/payment/payment.cpp:444-691 | A step brings a transaction back to SUCCESS if and only if it is an accepted payment, an accepted retry of a FAILED one, or an overwrite with SUCCESS |
| `PaymentModel.RecordedOnce` | src/payment/payment.cpp:40-54 | After a recorded refund no request, the same or another, is recorded on the transaction over any run that does not bring it back to SUCCESS |
| `PaymentModel.RecordingsBounded` | src/payment/payment.cpp:40-54 | Over every run a transaction has at most as many refunds recorded as steps that brought it to SUCCESS |
| `PaymentHistory.PaymentsAsTold` | src/payment/payment.cpp:365-691 | After every run payment number id is the id-th one created, for the order, user, amount and method asked for, with the status and the refunded amount that the calls since then have led to |
| `PaymentHistory.PaymentAnswers` | src/payment/payment.cpp:444-467 | What process_payment answers on any run, by method and amount alone: six methods are taken, Alipay from one cent |
| `PaymentHistory.FullyRefundedIff` | src/payment/payment.cpp:40-54 | A recorded refund leaves the payment REFUNDED if and only if nothing of it is left, PARTIALLY_REFUNDED otherwise |
| `PaymentModel.RefundPaidTwice` | src/payment/payment.cpp:524-554 | Concrete run: pay, refund, pay again, process the same request of 30 again; 60 are refunded |
| `PaymentModel.RejectedRefundPaid` | src/payment/payment.cpp:524-569 | Concrete run: a rejected request is paid out when it is processed |
| `PaymentModel.SuccessWithoutRefund` | src/payment/payment.cpp:549-553 | Concrete run: the second processing of a request answers success and records nothing |
| `PaymentManagers.PaymentManager.ProcessRefundRequest` | src/payment/payment.cpp:524-554 | The request is completed and recorded if can_refund allows; the answer, with its error codes, does not depend on that |
| `PaymentManagers.PaymentManager.GetTransactionsByOrder` | src/payment/payment.cpp:397-408 | Exactly the transactions of the order, in id order |
| `PaymentManagers.PaymentManager.GetTransactionsByUser` | src/payment/payment.cpp:410-421 | Exactly the transactions of the user, in id order |

## Left out

- MemoryCaches.MemoryCache.Set: does not cover calls whose eviction loop need not end, on which there is no result to state (see `SetEndsIff`), nor expiries at the sentinel of `evict_one`.
- MultiTierCaches.MultiTierCache.Set: the same, for the memory tiers that it writes.
- MultiTierCaches.MultiTierCache.Get: the same, for the memory tiers that it backfills.
- RoleManagers.RoleManager.GetInheritanceChain: does not cover graphs with a cycle, on which it need not end (see `EndsIff`); the same holds for the traversals it shares with GetAllRolePermissions.
- Databases.ConnectionPool.constructor: starts with an empty pool; the connections that init opens in advance are not part of this model.
- MemoryCacheOrder.OrderRun: exact order is stated for runs on which it holds; the steps that end it are exactly those of `StepOrderIff`.
- Machine integers: counters, amounts and quantities are unbounded, money is integer cents, prices are exact reals; access counts and expiries must stay below the sentinels of `evict_one`.
- Mutexes, threads, sleeping and wait_for_connection: every public operation is one atomic step.
- Cache statistics, key listings, increment and decrement, creation and last-access times of entries, and the CacheManager facade, which only forwards.
- Random ids, random payment refusals and the order in which hash maps are visited are unconstrained inputs.
- Mutation through the raw pointers that getters hand out, and sharing one backend object twice in a tier stack.
- Copies of a transaction object returned by value from begin_transaction.
- Names, descriptions, levels and enabled flags of roles; the permission registry and the RBAC service, which have no cache or graph.
- Order contents other than id, user and status; order lines other than id, product, quantity and unit price, hence money totals.
- Creating and deleting warehouses, distances, and the raw stock setters; adjust_inventory is receive_stock with any sign.
- Payment fees, fee statistics, gateway transaction ids and time stamps; the registered gateways are a set.
- Discounts, the product catalog, users and passwords, configuration, query building, adapters, printing and the menu: per-item arithmetic, formatting or plumbing.
- Standard sorting promises an ordered permutation; the insertion used here is one such sort.
