# Verified model of the gateway's shared-memory, network and session core

This project models, in Dafny, the parts of a C++ game-server framework that carry the most
state: the shared-memory slab allocator and hash map with epoch-based deferred freeing, smooth
weighted round robin, the byte ring with the TCP and WebSocket parsers on top of it, the
service registry with per-subscriber change queues, the MySQL connection pool and transaction
manager, the session manager, dotted JSON paths, and the token codec.

`dafny verify dfyconfig.toml` checks everything.

How the model is built:

- Code that changes fields in loops is a class or a method with a loop; its contract ties it to
  a function of the old state, and the lemmas are about that function.
- Concurrent code (epoch reclamation, stripe locks, connection pool, transactions, sessions) is
  a state machine whose steps are the atomic accesses or the regions under a lock. A run is any
  legal sequence of steps of any number of threads; theorems hold for every run.
- Auxiliary state (`role`, `shared`, `own`, `place`, `begun`, `ended`, ghost fields) is never
  read by a guard or by a concrete update, except that an allocation returns something that is
  not allocated.

| files | part of the system |
|---|---|
| EpochReclaim, EpochRecords, EpochSafety, EpochScanRace, EpochProgress | deferred freeing: steps, retire records, safety, the race without an atomic scan, what is freed |
| SlabClasses, SlabMemory, Slab, SlabAllocator | size classes on 32-bit words, free lists inside the bytes handed out, the allocator |
| Chains, HashTable, HashContents, HashSteps, HashMap | linked chains, the two-table layout, its meaning as a finite map, the operations |
| Stripes | stripe locks, the all-stripes acquisition, the nested slab lock |
| SmoothWeighted | the balancer and its fairness |
| Bytes, Modular, Search, Wrappers | shared helpers |
| Ring, Streams, TcpFraming, WsFrames | the ring, incremental parsers in general, the two parsers |
| RegistryLog, Registry, TcpRegistrar | replaying change logs, the registry, the order in which the center drives it |
| ConnPool, Transactions, Session | pool, transactions, sessions |
| JsonPath, Base64Url, Jwt | documents and paths, the codec, tokens |

Where the code does not do what a caller would expect, the exact condition is proved and a
concrete case given:

- Reclaim is safe when MinActiveEpoch is one step; scanned slot by slot it can free a node a
  reader holds, exactly when the node was retired after the scan began
  (`EpochSafety.PromptRunsAreSafe`, `EpochScanRace.FreesHeldIff`).
- The slab serves requests above 2^31 bytes from its smallest class (`SlabClasses.LongEnoughIff`).
- Put searches only the new table: a key still waiting in the old one is stored twice and goes
  back to its old value (`HashContents.WaitingKeyGoesStale`).
- RehashStart may choose fewer buckets than there are stripes; exactly then two threads can edit
  one chain (`Stripes.RaceIffTooSmall`). Asked for no buckets at all it makes a table without any
  (`HashMap.ShmHashMap.RehashStart`), and above 2^31 its loop does not end
  (`HashMap.RoundingEndsIff`).
- A balancer instance with an empty id is never charged (`SmoothWeighted.PickKeepsSumIff`).
- A heartbeat that renews an expired instance from the cache puts it back without telling any
  subscriber (`TcpRegistrar.Registrar.Renew`, `Registry.SilentReturn`).
- Deregistering an id takes its deadline and logs it as offline, which is right exactly when no
  other service has the id (`Registry.ServiceRegistry.DeregisterInstance`,
  `Registry.TwoServicesLoseDeadline`).
- A connection that logs in as a second user locks its first user out
  (`Session.StepInverseIff`, `Session.SecondUserLocksOut`, `Session.LockedOutForGood`);
  handleLogin reports success without looking at the answer of its second call, which may bind
  nothing (`Session.RebindIff`, `Session.RebindMayMiss`).
- A connection handed out by getConnection may be in use while its transaction commits
  (`Transactions.CopyOutlivesIff`, `Transactions.CopyOutlivesCommit`).
- With a pool_size above max_pool_size the pool may exceed its maximum (`ConnPool.BoundIff`).
- Two spellings of an array index name one element, so that setting one path changes another
  (`JsonPath.OthersUnchangedIff`, `JsonPath.SpellingsCollide`).
- The length check of the TCP parser admits packets whose 16-bit data length can never match
  (`TcpFraming.LongPacketNeverDelivered`).
- Bytes above 127 decode like the letter A (`Base64Url.HighBytesReadAsA`).
- The frame parser answers a ping with an empty pong and looks at neither the FIN bit nor
  continuation frames, unlike sections 5.4 and 5.5.3 of RFC 6455; the model follows the code.

## Model

| member | source | states |
|---|---|---|
| EpochSafety.OneStepScansAreSafe | server/core/shm/shm_hashmap.cpp:140-217 | from the initial state, in every interleaving of any number of reader slots and writers whose MinActiveEpoch runs as one step, every node an active reader holds (linked at some moment since it published) is still allocated, even when the reader pauses between loading and publishing the epoch |
| EpochSafety.PromptRunsAreSafe | server/core/shm/shm_hashmap.cpp:172-191 | the same for any run, scans taken slot by slot or not, in which Reclaim frees only nodes retired no later than its scan began |
| EpochSafety.OneStepScansArePrompt | server/core/shm/shm_epoch.h:99-111 | with one-step scans the test `retire_epoch + 1 < minE` implies that guard at every free |
| EpochSafety.FreeIsSafe | server/core/shm/shm_hashmap.cpp:180-185 | the node under Reclaim's cursor is held by no reader when its record was retired before the scan |
| EpochSafety.StepSafe | server/core/shm/shm_hashmap.cpp:140-217 | every step of every thread keeps the reader invariant: published epochs bound what a reader may hold, and a scan has noticed every reader that matters to it |
| EpochSafety.LeastIsLower | server/core/shm/shm_epoch.h:99-111 | the one-step minimum is at most every published epoch |
| EpochScanRace.FreesHeldIff | server/core/shm/shm_hashmap.cpp:172-185 | with the slots scanned one by one: for every epoch a scan can begin at, every result of it and every record the code's test lets go, the free can take a node a reader holds, as the first free of some run to come too early, exactly when the record was retired after the scan began |
| EpochScanRace.InterleavedScanFreesHeldNode | server/core/shm/shm_epoch.h:99-111 | the run that does so, built for all such epochs: after the free the reader holds a node that is not allocated |
| EpochScanRace.PromptFreeIsSafe | server/core/shm/shm_hashmap.cpp:180-185 | a record retired by the time the scan began is never the one: no reader holds its node |
| EpochProgress.ScanAnswer | server/core/shm/shm_epoch.h:97-111 | MinActiveEpoch in one step answers with an epoch that is at most every published one and is one of them, or with the global epoch when none is published |
| EpochProgress.ScanAlone | server/core/shm/shm_epoch.h:97-111 | undisturbed, the loop over the reader slots answers just that |
| EpochProgress.ReclaimFreesIff | server/core/shm/shm_hashmap.cpp:172-217 | a Reclaim no other thread disturbs frees exactly the records, and their nodes, whose retire epoch plus one is below the scan's answer, and leaves exactly the others on retire_head's list, in their order |
| EpochProgress.IdleReclaimCatchesUp | server/core/shm/shm_hashmap.cpp:172-217 | when no reader is inside a read section it leaves no record behind whose retire epoch plus one is below the global epoch |
| EpochProgress.ReclaimEnds | server/core/shm/shm_hashmap.cpp:172-217 | from every state in which its thread is free such a Reclaim exists and ends |
| EpochProgress.WalkRun | server/core/shm/shm_hashmap.cpp:179-216 | however the compare-exchanges of the merge fail in between, the walk ends with that list and those blocks |
| EpochProgress.PushRetries | server/core/shm/shm_hashmap.cpp:162-169 | a push that loses its compare-exchange loads the head again and then succeeds, its record in front of the list as it is then |
| EpochProgress.MergeRetries | server/core/shm/shm_hashmap.cpp:205-216 | so does the merge of what Reclaim keeps |
| EpochProgress.InsertLinks | server/core/shm/shm_hashmap.cpp:333-349 | in the epoch model too a new node goes in front of its chain and no other chain changes |
| EpochProgress.DetachUnlinks | server/core/shm/shm_hashmap.cpp:244-265 | and an erase takes exactly its node out of the chain, leaving the node's own next pointer to readers that stand on it |
| EpochProgress.ReplaceSwaps | server/core/shm/shm_hashmap.cpp:308-327 | a Put with a value of another length puts the new node in the old one's place |
| EpochProgress.MoveToFrontSteps | server/core/shm/shm_hashmap.cpp:219-242 | MoveToFront is three pointer stores, each a step of the model, that leave the node in front of the others in their order |
| EpochProgress.ReaderGoesOn | server/core/shm/shm_hashmap.cpp:362-400 | a reader is never held up: it may leave, start on any bucket, and go on to the node that follows, which it holds |
| EpochRecords.StepRec | server/core/shm/shm_hashmap.cpp:140-217 | every step of every interleaving keeps the record invariant: the shared list and each private chain are well linked, duplicate-free and hold exactly the records with that role |
| EpochRecords.RecordsConserved | server/core/shm/shm_hashmap.cpp:162-217 | over every run the multiset of records on retire_head's list and on the private chains equals what was pushed minus what was freed, each record at most once |
| EpochRecords.StepConserves | server/core/shm/shm_hashmap.cpp:162-217 | one step changes that multiset by its own push or free and by nothing else |
| EpochRecords.RecordOnce | server/core/shm/shm_hashmap.cpp:162-217 | a record counts once when it is queued or taken and never otherwise |
| EpochRecords.NothingFreedTwice | server/core/shm/shm_hashmap.cpp:180-185 | what Reclaim frees is allocated at that moment: the record is on the thread's own chain and the node was retired under that record |
| SlabClasses.LongEnoughIff | server/core/shm/shm_slab.cpp:12-41 | a served block is at least as long as requested exactly when the request is at most 2^31; above that the rounding wraps and the smallest class serves it |
| SlabClasses.Pow2Ceil | server/core/shm/shm_slab.cpp:12-23 | the smallest power of two not below x for 1 < x <= 2^31, and 0 by wrap-around above |
| SlabClasses.SizeClassIndex | server/core/shm/shm_slab.cpp:25-41 | the least class whose items hold the rounded request, refusal between 8193 and 2^31, class 0 after wrap-around |
| SlabClasses.Align8 | server/core/shm/shm_slab.cpp:199 | rounding to 8 never changes which class sizes hold the request |
| SlabClasses.ClassOfRequest | server/core/shm/shm_slab.cpp:197-202 | Align8 followed by SizeClassIndex on 32-bit words equals the class function on the unbounded request |
| SlabClasses.Geometry | server/core/shm/shm_slab.cpp:153-170 | header, bitmap and capacity of a page: every class has at least one chunk and the chunks fit the page behind the bitmap |
| SlabClasses.PageIsFull | server/core/shm/shm_slab.cpp:153-170 | a page is filled: one more chunk would not fit, and the bitmap has a bit for every chunk and fewer than eight bits more than the items behind the header need |
| SlabClasses.SizesDouble | server/core/shm/shm_slab.cpp:73-78 | ten classes from 16 to 8192 bytes, each twice the one before |
| Slab.ChunksDisjoint | server/core/shm/shm_slab.cpp:172-178 | two different chunks of any pages and classes do not overlap |
| Slab.LiveBlocksDisjoint | server/core/shm/shm_slab.cpp:197-243 | live blocks of any classes are pairwise disjoint |
| Slab.LiveBlockPlaced | server/core/shm/shm_slab.cpp:197-243 | a live block lies inside the region and clear of the header and the bitmap of every page, its own and all others, as long as that page's class makes them |
| Slab.UserWriteKeepsInv | server/core/shm/shm_slab.cpp:174-177 | writing anything inside a live block keeps the whole invariant: every free list stays linked, acyclic and free of live blocks |
| Slab.UserWriteSparesOthers | server/core/shm/shm_slab.cpp:174-177 | writing inside a live block changes no byte of another block |
| Slab.NewPageInv | server/core/shm/shm_slab.cpp:147-192 | a carved page put in front of its class's free list keeps the invariant, including free plus live equals carved, per class |
| Slab.PopInv | server/core/shm/shm_slab.cpp:217-223 | taking the head of a free list keeps the invariant and the block was not live |
| Slab.PushInv | server/core/shm/shm_slab.cpp:236-243 | giving a live block back keeps the invariant |
| SlabAllocator.PageTestExactIff | server/core/shm/shm_slab.cpp:140-146 | the 32-bit test `bump + PAGE_SIZE > end` tells the truth exactly when the sum does not wrap |
| SlabAllocator.BumpNeverWraps | server/core/shm/shm_slab.cpp:140-146 | with the region end at most 2^32 minus a page it never wraps |
| SlabAllocator.ShmSlab.LinkChunks | server/core/shm/shm_slab.cpp:171-178 | the loop leaves the chunks of the page threaded from last to first, ending in 0, and touches nothing before the payload |
| SlabAllocator.ShmSlab.FillPage | server/core/shm/shm_slab.cpp:149-191 | the chain through all chunks of the page continues into the class's old free list |
| SlabAllocator.ShmSlab.NewPage | server/core/shm/shm_slab.cpp:134-195 | 0 and nothing changed exactly when no page is left; otherwise bump moves by a page, the class's free list is not empty, no byte below the old bump changes |
| SlabAllocator.ShmSlab.Alloc | server/core/shm/shm_slab.cpp:197-226 | 0 exactly when the request has no class or its class is empty and no page is left; otherwise a block that was not live becomes live, everything else live as before; each block uses up exactly one of those its free list and the pages left can hold |
| SlabAllocator.ShmSlab.AllocMany | server/core/shm/shm_slab.cpp:197-226 | repeated requests of a class succeed exactly as often as its free list and the pages left can hold; with a page left that is at least as often as items fit into 65008 bytes; the blocks are all different |
| SlabAllocator.ShmSlab.Free | server/core/shm/shm_slab.cpp:228-244 | the block leaves the live set and becomes the head of its class's free list; only its link word changes |
| SlabAllocator.ShmSlab.Store | server/core/shm/shm_slab.cpp:204-243 | a holder's byte store keeps the allocator valid |
| SlabMemory.ChainRedirect | server/core/shm/shm_slab.cpp:185-191 | redirecting the last link word of an in-memory chain moves its end |
| HashMap.ShmHashMap.Put | server/core/shm/shm_hashmap.cpp:267-351 | from tables that stand for a finite map, a successful Put gives a table that stands for the updated map exactly when the key was not waiting in the old table; item_count stays the size; it fails, changing nothing, exactly for an empty key or a failed allocation that was needed |
| HashMap.ShmHashMap.PutLocked | server/core/shm/shm_hashmap.cpp:274-347 | under its stripe lock: the node with the key gets a same-length value in place and moves to the front, or gives way in its place to a new node and is retired, or a new node goes in front; the map as for Put; afterwards the key's new chain shows the value put, whether or not an older node waits in the old table |
| HashMap.ShmHashMap.Get | server/core/shm/shm_hashmap.cpp:353-404 | the value of the first node with the key on its new chain, or else of the first on its old chain, in any well-linked state; where the tables stand for a finite map, that is lookup in it |
| HashSteps.ShowsIs | server/core/shm/shm_hashmap.cpp:287-347 | what it means that a chain shows a value: the first node with the key on its new chain has it |
| HashMap.ShmHashMap.Erase | server/core/shm/shm_hashmap.cpp:412-461 | agrees with removal; true exactly when the key was there; the node a lookup finds is the one that leaves the chains, joins the retired nodes, and is gone only if Reclaim frees it |
| HashMap.ShmHashMap.EraseLocked | server/core/shm/shm_hashmap.cpp:418-458 | the parts of Erase under its stripe locks: that node leaves its chain, is retired and stays allocated, and item_count drops by one |
| HashMap.ShmHashMap.Unlink | server/core/shm/shm_hashmap.cpp:418-446 | the search of Erase takes out the node a lookup finds, from the new table or else from the old one |
| HashTable.SolePointer | server/core/shm/shm_hashmap.cpp:244-265 | between operations the predecessor on its chain, or the bucket head, is the only pointer to a linked node |
| HashMap.ShmHashMap.TouchMoveToFront | server/core/shm/shm_hashmap.cpp:463-476 | the map is unchanged, the first node with the key becomes the head of its new bucket, false exactly when the new table has none |
| HashMap.ShmHashMap.MoveToFront | server/core/shm/shm_hashmap.cpp:219-242 | the same for one chain |
| HashMap.ShmHashMap.EraseFromList | server/core/shm/shm_hashmap.cpp:244-265 | unlinks the first node with the key and nothing else |
| HashMap.ShmHashMap.Locate | server/core/shm/shm_hashmap.cpp:281-330 | the walk finds the first node with the key and its predecessor |
| HashMap.ShmHashMap.RehashStart | server/core/shm/shm_hashmap.cpp:502-537 | true at once when a rehash runs; false with nothing changed when the new buckets do not fit; otherwise the filled table becomes the old one and the map is unchanged, except that a request of 0, which the code lets through, leaves a map without buckets |
| HashMap.RoundBuckets | server/core/shm/shm_hashmap.cpp:504-510 | the bucket count used: the request itself when a power of two or 0, else the least power of two from 8 on |
| HashMap.RoundingEndsIff | server/core/shm/shm_hashmap.cpp:504-510 | the 32-bit rounding loop ends exactly for requests up to 2^31 |
| HashMap.RoundedIsLeast | server/core/shm/shm_hashmap.cpp:504-510 | no smaller power of two from 8 on holds the request |
| HashMap.ShmHashMap.MigrateOneBucket | server/core/shm/shm_hashmap.cpp:539-573 | the nodes of the old bucket sit at the fronts of the new chains their hashes select, as the migration function says |
| HashMap.ShmHashMap.RehashStep | server/core/shm/shm_hashmap.cpp:575-591 | the map is unchanged; the number of buckets migrated; the rehash is over exactly after bucket_count_old + 1 steps from its start |
| HashMap.ShmHashMap.HelpRehashStep | server/core/shm/shm_hashmap.cpp:592-596 | one such step when a rehash runs |
| HashMap.ShmHashMap.Reclaim | server/core/shm/shm_hashmap.cpp:172-217 | freeing retired nodes changes no chain and not the map; every allocated node is linked or retired, so none leaks |
| HashContents.FindIsLookup | server/core/shm/shm_hashmap.cpp:362-400 | what the two-table walk finds is the finite map's value, and nothing exactly when the key is not in it |
| HashContents.FirstInIsFirst | server/core/shm/shm_hashmap.cpp:366-381 | the node a walk finds is the first of its chain with the key |
| HashContents.MeansOne | server/core/shm/shm_hashmap.h:171-179 | tables stand for at most one finite map |
| HashContents.InsertMeans | server/core/shm/shm_hashmap.cpp:332-342 | linking one more node keeps keys unique exactly when its key is not in the map yet |
| HashContents.ReplaceMeans | server/core/shm/shm_hashmap.cpp:289-327 | rewriting a node's value, or putting another node in its place, is a map update |
| HashContents.RemoveMeans | server/core/shm/shm_hashmap.cpp:244-265 | unlinking a node is a map removal |
| HashContents.MigratedShape | server/core/shm/shm_hashmap.cpp:539-573 | migration keeps every chain well linked, every node in the bucket of its hash and every node in the table |
| HashContents.WaitingKeyGoesStale | server/core/shm/shm_hashmap.cpp:332-342 | a key put while its node waits in the old table is found with its new value, and with the old value again once that bucket is migrated |
| HashSteps.InMapMeansWaiting | server/core/shm/shm_hashmap.cpp:281-342 | a key that the new chain lacks is in the map exactly when it waits in the old table |
| HashSteps.PutFreshKeeps | server/core/shm/shm_hashmap.cpp:332-342 | a new node in front: chains, counts and the finite map |
| HashSteps.OverwrittenKeeps | server/core/shm/shm_hashmap.cpp:289-311 | a value overwritten in place and moved to the front |
| HashSteps.ReplacedKeeps | server/core/shm/shm_hashmap.cpp:312-330 | a node of another size in the place of the old one, which is retired |
| HashSteps.ErasedKeeps | server/core/shm/shm_hashmap.cpp:418-458 | an unlinked and retired node |
| HashSteps.MigratedKeeps | server/core/shm/shm_hashmap.cpp:539-573 | a migrated bucket: the map stays and the cursor's progress is real |
| HashSteps.RestartedKeeps | server/core/shm/shm_hashmap.cpp:517-536 | the table swap of RehashStart |
| Stripes.NoTwoEditors | server/core/shm/shm_hashmap.cpp:273-347 | in every run of any number of threads no two threads edit the same chain at once |
| Stripes.NoDeadlock | server/core/shm/shm_hashmap.cpp:549-571 | in every reachable state with an operation under way some thread can take a step that finishes something it has begun |
| Stripes.StepInv | server/core/shm/shm_hashmap.cpp:273-573 | lock ownership, including all stripes taken in ascending order and the slab lock nested inside a stripe, is kept by every step |
| Stripes.ChainsExclusive | server/core/shm/shm_hashmap.h:171-179 | a thread editing a chain owns that chain's one stripe |
| Stripes.NeverStuck | server/core/shm/shm_slab.cpp:204-226 | the slab holder, else the thread furthest in the ascending acquisition, else a waiting one, can move |
| Stripes.AllFinish | server/core/shm/shm_hashmap.cpp:273-457 | from every reachable state all operations that have begun can be finished, in exactly as many steps as they have left, after which no lock is held |
| Stripes.NoLongerRun | server/core/shm/shm_hashmap.cpp:273-457 | and no run of such steps is longer: each leaves exactly one less |
| Stripes.LoneWrite | server/core/shm/shm_hashmap.cpp:273-349 | a write takes its stripe, asks for a block under it, and gives everything back |
| Stripes.LoneFree | server/core/shm/shm_slab.cpp:227-243 | a Free takes and gives back the slab lock |
| Stripes.LoneMove | server/core/shm/shm_hashmap.cpp:549-571 | a migration goes from no stripe to all of them, one after another, and back |
| Stripes.MigrationEdits | server/core/shm/shm_hashmap.cpp:540-572 | the chains a migration changes are among those its thread counts as editing |
| Stripes.OneStripePerChainIff | server/core/shm/shm_hashmap.h:171-179 | keys that share a bucket share a stripe exactly when the stripe count divides the bucket count |
| Stripes.PowDivides | server/core/shm/shm_hashmap.h:171-179 | for powers of two that is so whenever there are at least as many buckets as stripes |
| Stripes.RaceIffTooSmall | server/core/shm/shm_hashmap.cpp:502-510 | for power-of-two counts, some run of some threads ends with two of them editing one chain exactly when a table in use has fewer buckets than there are stripes, which RehashStart allows |
| Stripes.SmallTableRace | server/core/shm/shm_hashmap.cpp:273-285 | that run, for every such layout, powers of two or not, and in either table: the keys that hash to 0 and to the bucket count share a bucket and not a stripe |
| SmoothWeighted.Balancer.Select | server/common/LoadBalancer.cpp:118-188 | each call is one pick: nodes refreshed, boosted, a largest one charged the total effective weight and returned; with an empty winning id nothing is charged or returned |
| SmoothWeighted.Balancer.Register | server/common/LoadBalancer.cpp:128-147 | known nodes keep current and effective weight and are re-weighted, new ones start at zero with their configured weight, 1 standing for 0, and the total is that of exactly these instances |
| SmoothWeighted.Balancer.Prune | server/common/LoadBalancer.cpp:150-156 | exactly the nodes without an instance go |
| SmoothWeighted.Balancer.BoostAll | server/common/LoadBalancer.cpp:160-163 | every current grows by its effective weight |
| SmoothWeighted.Balancer.FindBest | server/common/LoadBalancer.cpp:166-175 | a node with the largest current, for any order of visiting |
| SmoothWeighted.PickKeepsSumIff | server/common/LoadBalancer.cpp:158-187 | a pick keeps the sum of the currents exactly when the winner's id is not empty |
| SmoothWeighted.PickKeepsBalance | server/common/LoadBalancer.cpp:158-187 | currents sum to zero and stay at least 1 - W, pick after pick |
| SmoothWeighted.BalancedUpperBound | server/common/LoadBalancer.cpp:158-187 | and at most n * W |
| SmoothWeighted.RunKeepsBalance | server/common/LoadBalancer.cpp:158-187 | both bounds after every run of picks on an unchanged instance set, whatever the tie-breaking |
| SmoothWeighted.RunClosedForm | server/common/LoadBalancer.cpp:158-187 | after t picks a current is t times its weight minus W times the number of times it won |
| SmoothWeighted.NeverAhead | server/common/LoadBalancer.cpp:113-188 | after t picks from rest no instance was chosen t * w / W + 1 times or more |
| SmoothWeighted.ExactPerCycle | server/common/LoadBalancer.cpp:113-188 | after every W picks from rest each instance was chosen exactly w times per cycle and all currents are zero again |
| SmoothWeighted.FreshWeights | server/common/LoadBalancer.cpp:132-147 | the effective weight of a new instance is its configured weight, or 1 for 0, and W is the sum of those |
| SmoothWeighted.FreshNeverAhead | server/common/LoadBalancer.cpp:113-188 | from a fresh balancer, in terms of the configured weights: after t picks no instance was chosen t * w / W + 1 times or more |
| SmoothWeighted.FreshExactPerCycle | server/common/LoadBalancer.cpp:113-188 | from a fresh balancer, in terms of the configured weights: after every W picks each instance was chosen w times per cycle and all currents are zero |
| SmoothWeighted.FreshIsAtRest | server/common/LoadBalancer.cpp:132-139 | a fresh balancer is at rest |
| Ring.ByteRing.Push | server/core/shm/shm_ringbuffer.cpp:101-132 | all of the bytes appended, or nothing when they do not fit ring_size - 1 |
| Ring.ByteRing.Pop | server/core/shm/shm_ringbuffer.cpp:69-98 | exactly a prefix taken, or nothing |
| Ring.ByteRing.Peek | server/core/shm/shm_ringbuffer.cpp:4-30 | that prefix without taking it |
| Ring.ByteRing.PushFront | server/core/shm/shm_ringbuffer.cpp:32-66 | all of the bytes put before the first, or nothing |
| Ring.ByteRing.Drop | server/core/shm/shm_ringbuffer.h:257-283 | the first min(count, used) bytes dropped; refused for count 0 or an empty ring |
| Ring.ByteRing.PushOne | server/core/shm/shm_ringbuffer.h:241-255 | one item appended unless full |
| Ring.ByteRing.PopOne | server/core/shm/shm_ringbuffer.h:299-313 | the first item taken unless empty |
| Ring.ByteRing.PushEach | server/core/shm/shm_ringbuffer.h:229-239 | items pushed one at a time: where the byte batch succeeds the contents are the same; where it fails a prefix has gone in |
| Ring.ByteRing.PopEach | server/core/shm/shm_ringbuffer.h:287-297 | items popped one at a time: the same bytes where the batch succeeds, all of them where it fails |
| Ring.ByteRing.Used | server/core/shm/shm_ringbuffer.h:406-416 | the number of bytes held, across wrap-around |
| Ring.ByteRing.Available | server/core/shm/shm_ringbuffer.h:394-404 | ring_size - 1 minus that number |
| Ring.ByteRing.IsFull | server/core/shm/shm_ringbuffer.h:367-370 | full exactly at ring_size - 1 bytes |
| Ring.ByteRing.IsEmpty | server/core/shm/shm_ringbuffer.h:362-365 | empty exactly without bytes |
| Ring.ByteRing.Reset | server/core/shm/shm_ringbuffer.h:387-392 | empty again |
| Ring.Capacity | server/core/shm/shm_ringbuffer.h:394-416 | used plus available is ring_size - 1, and both tests agree with the window |
| Ring.WindowAt | server/core/shm/shm_ringbuffer.h:406-416 | the window's i-th byte sits i cells after head, around the end |
| Ring.Pushed | server/core/shm/shm_ringbuffer.cpp:117-129 | cells filled after tail extend the window at its end |
| Ring.PushedFront | server/core/shm/shm_ringbuffer.cpp:49-63 | cells filled before head extend it at its front |
| Streams.ParseExtend | server/core/network/TcpConnection.cpp:191-259 | for any incremental parser, parsing a prefix first and the rest later is parsing the whole; once closed, closed |
| Streams.ChunkingIndependent | server/core/network/TcpConnection.cpp:191-259 | for any incremental parser the units delivered and the close decision do not depend on how the stream is cut |
| Streams.DeliveredWereSent | server/core/network/TcpConnection.cpp:191-259 | on an open connection the stream is the units delivered followed by the rest, nothing lost |
| TcpFraming.PacketsIncremental | server/core/network/TcpConnection.cpp:193-228 | the packet parser is one: it takes non-empty units and what it has decided stays decided |
| TcpFraming.TcpChunkingIndependent | server/core/network/TcpConnection.cpp:191-259 | for every split of a byte stream the messages and the close decision are those of one parse |
| TcpFraming.PacketsRoundTrip | server/core/network/TcpConnection.cpp:191-259 | any concatenation of well-formed packets delivers exactly those packets in order, data_ and conn_id_ rewritten, and leaves nothing over |
| TcpFraming.FieldsRoundTrip | server/core/network/TcpConnection.cpp:235-257 | a packet laid out from its fields delivers the message with that header, those ids, that route and that body, and the connection's own id |
| TcpFraming.AllFieldsRoundTrip | server/core/network/TcpConnection.cpp:191-259 | the same for any sequence of packets, in order |
| Bytes.LeOfTwo | server/core/network/TcpConnection.cpp:235-240 | a 16-bit field has its least significant byte first |
| Bytes.LeOfFour | server/core/network/TcpConnection.cpp:206-215 | a 32-bit field too |
| TcpFraming.TakenWereWellFormed | server/core/network/TcpConnection.cpp:209-248 | conversely every packet taken off the stream was well-formed |
| TcpFraming.LongPacketNeverDelivered | server/core/network/TcpConnection.cpp:216-248 | data_len_ has 16 bits, so a header that announces more than 65605 bytes never yields a message although it passes the length check |
| TcpFraming.Connection.ProcessRecvBuffer | server/core/network/TcpConnection.cpp:191-259 | on the ring, in place: exactly the parse of its contents is delivered, kept and decided |
| TcpFraming.Connection.OnReadable | server/core/network/TcpConnection.cpp:30-66 | a chunk the ring cannot take, or a read error, closes with nothing parsed; otherwise the reads are fed as one chunk; at end of stream the connection is closed and what is buffered still parsed |
| WsFrames.FrameRoundTrip | server/core/network/WsListener.cpp:281-344 | any payload in any of the three length forms, masked with any key or not, is recovered and exactly its bytes consumed when it has at most MAX_PACKET_SIZE bytes; a longer one closes |
| WsFrames.MaskTwice | server/core/network/WsListener.cpp:325-336 | unmasking undoes masking |
| WsFrames.MaskedByIndex | server/core/network/WsListener.cpp:281-336 | a masked frame read byte by byte, in each length form: the i-th payload byte is the i-th byte behind the key exclusive-or the key's byte at i modulo 4 |
| WsFrames.PlainByIndex | server/core/network/WsListener.cpp:281-330 | an unmasked frame carries its payload as it is |
| WsFrames.MaskedFrameDelivers | server/core/network/WsListener.cpp:281-396 | such a data frame alone delivers the message in that payload and leaves nothing over |
| WsFrames.OversizeCloses | server/core/network/WsListener.cpp:315-320 | a frame that announces more than 2^20 bytes closes the connection as soon as its header is there |
| WsFrames.ShortPayloads | server/core/network/WsListener.cpp:357-389 | nothing is delivered below 18 bytes, no ids and no body below 22, no body when fewer bytes follow than announced |
| WsFrames.FramesIncremental | server/core/network/WsListener.cpp:281-396 | the frame parser is an incremental parser |
| WsFrames.WsChunkingIndependent | server/core/network/WsListener.cpp:281-396 | a sequence of frames parses the same however the buffer is filled |
| WsFrames.FrameStreamRoundTrip | server/core/network/WsListener.cpp:281-396 | a stream of data frames of any forms and keys delivers the messages of their payloads in order |
| WsFrames.LayoutRoundTrip | server/core/network/WsListener.cpp:414-421 | the message laid out by send is the message delivered, apart from the rewritten connection id; a missing body arrives as zeros, an empty one as none |
| WsFrames.MessageRoundTrip | server/core/network/WsListener.cpp:414-423 | the same through a frame in any length form and with any key or none, whatever follows it |
| WsFrames.BuildFrame | server/core/network/WsListener.cpp:34-56 | one unmasked binary frame in the shortest length form, as section 5.2 of RFC 6455 lays it out |
| WsFrames.WsConn.ParseFrames | server/core/network/WsListener.cpp:281-396 | consuming the buffer in place: the parse of its contents, close frames and oversized payloads included |
| WsFrames.WsConn.OnBytes | server/core/network/WsListener.cpp:199-231 | bytes read are fed as one chunk |
| WsFrames.ReadLength | server/core/network/WsListener.cpp:301-312 | the shift-and-or loops give the big-endian length |
| WsFrames.Unmask | server/core/network/WsListener.cpp:325-336 | the in-place loop gives the masked sequence of section 5.3 of RFC 6455 |
| Registry.ServiceRegistry.RegisterInstance | server/center/ServiceRegistry.cpp:7-35 | the table, deadline and queues after the call; the log keeps saying who is registered exactly when a new id comes in with is_new_instance, or the id was there |
| Registry.ServiceRegistry.DeregisterInstance | server/center/ServiceRegistry.cpp:37-61 | unknown instances are ignored; a known one goes with its deadline, an emptied service entry too, and one OFFLINE is queued to every other subscriber; deadlines and log then still agree with the table exactly when no other service has the id |
| Registry.ServiceRegistry.CleanupExpired | server/center/ServiceRegistry.cpp:88-135 | exactly the ids whose deadline lies before now go, each logged once; queues grow by exactly those entries minus a subscriber's own |
| Registry.ServiceRegistry.RemoveEverywhere | server/center/ServiceRegistry.cpp:106-125 | an id is taken out of every service and emptied entries go |
| Registry.ServiceRegistry.PushDeltaToOthers | server/center/ServiceRegistry.cpp:189-198 | one entry at the end of every queue but the changed id's own |
| Registry.ServiceRegistry.Subscribe | server/center/ServiceRegistry.cpp:165-170 | a new queue, an existing one kept |
| Registry.ServiceRegistry.PopDeltas | server/center/ServiceRegistry.cpp:178-187 | the queue, which is empty afterwards |
| Registry.ServiceRegistry.ReplayConverges | server/center/ServiceRegistry.cpp:178-198 | at any moment, replaying what a subscriber has popped and still has queued over the registry at its subscription gives the registry now, up to itself |
| Registry.OneOfflineEach | server/center/ServiceRegistry.cpp:126-134 | a cleanup queues exactly one OFFLINE per removed id to every other subscriber |
| Registry.LoggedOk | server/center/ServiceRegistry.cpp:189-198 | popped plus queued is the log since subscription minus one's own, and every push keeps it so |
| Registry.TwoServicesLoseDeadline | server/center/ServiceRegistry.cpp:37-61 | by calls of the methods: an id registered under two services and deregistered from one stays in the table without a deadline, and a cleanup at any time leaves it there |
| Registry.SilentReturn | server/center/ServiceRegistry.cpp:7-35 | registered, expired and renewed, an id is back in the table with no log entry |
| RegistryLog.SnapshotThenDeltas | server/center/TcpRegistrar.cpp:214-258 | replaying any suffix of the log that starts at or before a snapshot over that snapshot gives the current membership, minus oneself |
| RegistryLog.SubscriptionThenDeltas | server/center/ServiceRegistry.cpp:165-198 | in particular over the registry at subscription |
| RegistryLog.ReplayAgain | server/center/ServiceRegistry.cpp:178-198 | replaying a stretch a second time over what it led to changes nothing |
| RegistryLog.ReplayOthers | server/center/ServiceRegistry.cpp:189-198 | leaving out one's own changes loses only oneself |
| RegistryLog.LastDecides | server/center/ServiceRegistry.cpp:189-198 | the last entry about an id decides |
| TcpRegistrar.Registrar.OnRegist | server/center/TcpRegistrar.cpp:74-112 | subscribe, then register: the log stays true |
| TcpRegistrar.Registrar.Renew | server/center/TcpRegistrar.cpp:129-203 | what is renewed: the cached instance with the new load, else the registered one, else a new one, which alone makes the connection due for a full answer again; the id has a fresh deadline; the log stays true exactly when the heartbeat does not renew, from the cache, an instance that has expired in the meantime |
| TcpRegistrar.Registrar.OnUpdateServiceStatus | server/center/TcpRegistrar.cpp:114-265 | the answer: the queue if it is not empty, else nothing if the connection had a full answer, else the whole table, after which it counts as having had one; the log stays true as for the renewal, unless its own cleanup comes more than a TTL later; what a full answer leaves in the queue leads from the snapshot sent to the registry as it is |
| TcpRegistrar.Registrar.Answer | server/center/TcpRegistrar.cpp:214-258 | the queue is taken and sent; if it is empty the whole table is sent once, then nothing |
| TcpRegistrar.Registrar.OnClose | server/center/TcpRegistrar.cpp:52-72 | the instance leaves the table, its OFFLINE is logged if it was there, its queue goes, and so do the connection's entries; the log stays true exactly when no other service has the id |
| ConnPool.PoolSafe | server/dbproxy/MySQLConnectionPool.cpp:37-147 | under every interleaving of acquire, creation outside the lock, release and healthCheck: all_ is the duplicate-free disjoint union of idle, lent and checked connections, active_count_ is the number lent, no connection has two borrowers, none in use is deleted, all_ plus creating_ stays within max_pool_size_ |
| ConnPool.StepInv | server/dbproxy/MySQLConnectionPool.cpp:37-147 | every step keeps the placement of every connection and the three counts |
| ConnPool.BoundIff | server/dbproxy/MySQLConnectionPool.cpp:4-19 | the bound on all_ plus creating_ holds in every run exactly when the constructor made no more connections than max_pool_size; in any case the pool never outgrows the larger of the two |
| ConnPool.StepSize | server/dbproxy/MySQLConnectionPool.cpp:37-147 | no step grows a pool that is at its bound or over it |
| ConnPool.EveryThreadGoesOn | server/dbproxy/MySQLConnectionPool.cpp:37-147 | in every reachable state each thread can take its next step: try to acquire, come back from a creation with or without a connection, go on with a health check either way, give back or hand on what it borrowed |
| ConnPool.CheckAlone | server/dbproxy/MySQLConnectionPool.cpp:103-147 | a health check by steps, undisturbed, ends like the method: the dead idle connections leave the pool and are deleted, the others queue up again in order, everything else stays |
| ConnPool.RunOn | server/dbproxy/MySQLConnectionPool.cpp:37-147 | a run goes on exactly by an enabled step, and ends where that step leads |
| ConnPool.CreatedIsTake | server/dbproxy/MySQLConnectionPool.cpp:84-99 | a creation that succeeds adds the connection and then borrows the front of the queue, in one locked region |
| ConnPool.MySQLConnectionPool.AcquireTurn | server/dbproxy/MySQLConnectionPool.cpp:58-83 | one turn of the loop under the lock, as the step function |
| ConnPool.MySQLConnectionPool.AfterCreation | server/dbproxy/MySQLConnectionPool.cpp:84-99 | the locked region after a creation, as the step function |
| ConnPool.MySQLConnectionPool.ReleaseConn | server/dbproxy/MySQLConnectionPool.cpp:40-49 | as the step function |
| ConnPool.MySQLConnectionPool.Drop | server/dbproxy/MySQLConnectionPool.cpp:130-136 | exactly the first occurrence leaves all_ |
| ConnPool.MySQLConnectionPool.TakeIdle | server/dbproxy/MySQLConnectionPool.cpp:112-120 | the whole queue, front to back |
| ConnPool.MySQLConnectionPool.HealthCheck | server/dbproxy/MySQLConnectionPool.cpp:109-147 | uninterrupted, exactly the dead idle connections leave the pool and the others queue up in order |
| Transactions.TransactionsSafe | server/dbproxy/TransactionManager.cpp:9-116 | under every interleaving of begin, commit, rollback and checkTimeouts: live transactions own distinct lent connections, each id goes live at most once and is finalized at most once, and 0 never names one |
| Transactions.ReturnedAfterLeaving | server/dbproxy/TransactionManager.cpp:55-84 | a connection goes back to the pool only when no transaction has it, before or after the step |
| Transactions.StepInv | server/dbproxy/TransactionManager.cpp:9-116 | every step keeps ids, ownership and exclusiveness |
| Transactions.StillOwned | server/dbproxy/TransactionManager.cpp:35-84 | what the pool has lent is owned by a transaction or a thread |
| Transactions.CopyOutlivesIff | server/dbproxy/TransactionManager.cpp:35-79 | when a step ends a transaction, a copy of its connection is in use afterwards exactly when one was before, and exactly then the pool does not get the connection back when the ending thread lets go of it |
| Transactions.CopyOutlivesCommit | server/dbproxy/TransactionManager.cpp:35-53 | a connection handed out by getConnection can still be in use while its transaction commits |
| Transactions.TransactionManager.NextId | server/dbproxy/TransactionManager.cpp:25 | the atomic draw of an id is the model's step |
| Transactions.TransactionManager.Insert | server/dbproxy/TransactionManager.cpp:28-29 | the emplace is the model's step: the id is fresh, so it always takes |
| Transactions.TransactionManager.GetConnection | server/dbproxy/TransactionManager.cpp:36-54 | a copy of the connection, as the model's step, exactly while the transaction is live and in time; otherwise nothing changes |
| Transactions.TransactionManager.TakeOut | server/dbproxy/TransactionManager.cpp:58-70 | finalize's locked region, for a client or for checkTimeouts, is the model's step: whoever takes the entry out ends the transaction, and nobody else does |
| Transactions.TransactionManager.Expired | server/dbproxy/TransactionManager.cpp:99-108 | checkTimeouts' locked region is the model's scan: exactly the ids past their deadline, each once |
| Transactions.TransactionManager.CheckTimeouts | server/dbproxy/TransactionManager.cpp:96-116 | run alone it ends exactly the late transactions, keeps the others, and the pool gets back the connections nobody is using |
| Session.OneConnectionPerUser | server/connd/SessionManager.cpp:5-51 | in every run of any threads, handleLogin's two-call kick included, no user has two authenticated connections |
| Session.StepMapsBack | server/connd/SessionManager.cpp:5-51 | every step keeps each authenticated session's user mapped back to it |
| Session.StepInverseIff | server/connd/SessionManager.cpp:5-51 | a step keeps the two maps inverse to each other exactly when the connection id is not taken by an authenticated session, an ending session has a user, and a binding does not change the user of an authenticated session |
| Session.BijectionInTameRuns | server/connd/SessionManager.cpp:5-51 | in runs with fresh connection ids where each connection logs in as one non-empty user, the two maps are inverse bijections under every interleaving |
| Session.SecondUserLocksOut | server/connd/ConndMsgDispatcher.cpp:110-122 | a connection that logs in as a second user leaves its first user mapped to it; that user's next login kicks it and binds nothing |
| Session.LockedOutForGood | server/connd/SessionManager.cpp:31-51 | from then on no run lets that user in unless that very connection id connects again |
| Session.RebindIff | server/connd/ConndMsgDispatcher.cpp:110-122 | in every run up to handleLogin's second call that call makes its connection the user's exactly when the connection is still known, the earlier holder has been taken out, and no login of the user from another connection has come in between and stayed |
| Session.HolderAfterRun | server/connd/SessionManager.cpp:31-51 | over every run, a user is held by another connection at the end exactly when some login brought one in that no later step took out, or the first holder was never taken out |
| Session.RebindMayMiss | server/connd/ConndMsgDispatcher.cpp:110-122 | two logins of one user in flight: the second on_auth_ok of one of them binds nothing |
| Session.SessionManager.OnConnect | server/connd/SessionManager.cpp:5-14 | the new session replaces any of that id |
| Session.SessionManager.OnDisconnect | server/connd/SessionManager.cpp:16-29 | the session goes, the user's mapping only when it points here |
| Session.SessionManager.OnAuthOk | server/connd/SessionManager.cpp:31-51 | the older connection, or the binding |
| Session.SessionManager.HandleLogin | server/connd/ConndMsgDispatcher.cpp:110-122 | uninterrupted and from inverse maps, a known connection ends up as the user's one session; the maps stay inverse exactly when it was not logged in as somebody else |
| JsonPath.GetAfterSet | server/core/app/JsonParser.cpp:71-90 | what was set at a path is what a lookup there gives, by getValue when it is not null |
| JsonPath.OthersUnchangedIff | server/core/app/JsonParser.cpp:81-90 | a successful lookup at one path is safe from every setValue at another exactly when the two paths part at some node of the document; the same for getValue and non-null values |
| JsonPath.OthersUnchanged | server/core/app/JsonParser.cpp:81-90 | every lookup that succeeded on a path that parts from it is unchanged |
| JsonPath.ListsDiverge | server/core/app/JsonParser.cpp:150-178 | paths that part as token lists part in the document when no index has two spellings in them |
| JsonPath.SpellingsCollide | server/core/app/JsonParser.cpp:150-160 | with two spellings of an index, setting one path changes the other |
| JsonPath.FailureLeavesUnchanged | server/core/app/JsonParser.cpp:126-193 | a walk that fails has created nothing on its way |
| JsonPath.FreshGrows | server/core/app/JsonParser.cpp:140-146 | below a created object every path can be created |
| JsonPath.ArrayGrows | server/core/app/JsonParser.cpp:150-166 | an array that is too short grows just as far as the index, by empty objects, and keeps its other elements |
| JsonPath.InsertOrdered | server/core/app/JsonParser.cpp:140-144 | a created member goes to its place in ascending key order |
| JsonPath.LessIff | server/core/app/JsonParser.cpp:235-243 | the order of keys, in which they are listed, is lexicographic |
| JsonPath.SplitJoinIff | server/core/app/JsonParser.cpp:114-124 | dot-free tokens survive joining and parsing exactly when the last is not empty |
| JsonPath.ParseKeyPath | server/core/app/JsonParser.cpp:114-124 | getline semantics: a trailing dot opens no token |
| JsonPath.GetConstJsonRef | server/core/app/JsonParser.cpp:195-231 | the loop finds what the path resolves to |
| JsonPath.ElementByIndex | server/core/app/JsonParser.cpp:208-218 | the element at index i is found by the decimal spelling of i |
| JsonPath.StoulReads | server/core/app/JsonParser.cpp:208-212 | a decimal number reads back as itself after blanks and a sign and before anything that is no digit, a negative one modulo 2^64, and one of 2^64 or more is refused |
| JsonPath.StoulRefuses | server/core/app/JsonParser.cpp:220-224 | without a digit there is no index |
| JsonPath.GetValue | server/core/app/JsonParser.cpp:71-79 | a null counts as absent |
| JsonPath.Config.SetValue | server/core/app/JsonParser.cpp:81-90 | false exactly when the walk fails, with the document unchanged; otherwise the value is at the path |
| JsonPath.AllKeysExact | server/core/app/JsonParser.cpp:98-112 | on object trees with non-empty dot-free keys, the keys listed are exactly the non-root paths that resolve, each once |
| JsonPath.ListedIff | server/core/app/JsonParser.cpp:233-254 | the same on token lists |
| JsonPath.CollectKeysRecursive | server/core/app/JsonParser.cpp:233-254 | the list grows by the collection of the subtree, arrays included |
| JsonPath.ArrayListed | server/core/app/JsonParser.cpp:245-253 | for an array exactly what is listed for its elements, each under prefix, bracket, index, bracket |
| JsonPath.GetAllKeys | server/core/app/JsonParser.cpp:98-112 | nothing for a root that is no object |
| Base64Url.RoundTrip | server/common/Helper.cpp:462-509 | decoding undoes encoding for every byte string |
| Base64Url.EncodeIsPlain | server/account/AccountService.cpp:11-42 | the encoded text has no dot and no padding |
| Base64Url.StagesAreEncode | server/account/AccountService.cpp:19-41 | padding, alphabet change and trimming together are the unpadded encoding of section 5 of RFC 4648 |
| Base64Url.Base64UrlEncode | server/account/AccountService.cpp:11-42 | the three loops compute it |
| Base64Url.Base64Decode | server/common/Helper.cpp:462-509 | the loops compute the decoding function, illegal characters and missing padding included |
| Base64Url.TablesAgree | server/common/Helper.cpp:471-480 | the decoding table inverts the encoding table through both alphabet changes |
| Base64Url.HighBytesReadAsA | server/common/Helper.cpp:471-480 | the table gives 128 of its 256 values, so bytes above 127 read as the letter A |
| Jwt.CutCompact | server/connd/auth/JwtAuthProvider.cpp:36-44 | cutting at the first two dots recovers three segments whose first two have no dot |
| Jwt.CutIsCompact | server/connd/auth/JwtAuthProvider.cpp:36-44 | and only such texts are cut |
| Jwt.SignedTokenVerifies | server/account/AccountService.cpp:112-129 | a token from signJwt passes the format and signature checks under the same secret, for any HMAC; what is left is the header, the secret and the claims |
| Jwt.AcceptedIff | server/connd/auth/JwtAuthProvider.cpp:32-133 | a token is accepted exactly when it is header, dot, payload, dot, signature, the first two without dots; the secret is not empty; the signature is the HMAC of header, dot, payload; the header is HS256; the time claims are absent or hold now; and the user is the sub claim, or the user_id claim where there is none |
| Jwt.SignedDataDiffers | server/connd/auth/JwtAuthProvider.cpp:66-67 | tokens that differ in header or payload are verified over different data |
| Jwt.SignedTokenIs | server/account/AccountService.cpp:124-128 | signJwt signs header, dot, payload and puts the three segments together with dots |
| Jwt.WrongSignature | server/connd/auth/JwtAuthProvider.cpp:65-80 | a wrong signature is found before the payload is looked at |
| Jwt.AcceptedInTime | server/connd/auth/JwtAuthProvider.cpp:93-114 | an accepted token is neither expired nor too early |

## Left out

- EpochReclaim: epochs are unbounded numbers and UINT32_MAX as "no reader" is None; counters that wrap are not modelled, and memory order is taken as sequentially consistent.
- EpochReclaim.CanDetach: that the pointer an erase redirects is the only one to the node is a guard of that step; HashTable.SolePointer proves it of the chains between operations, and Stripes that a chain has one editor, but the relinking steps of the epoch model are not restricted to what an operation under its stripe does.
- RetireNode's branch for a failed record allocation, which frees the node at once: there deferred freeing gives no guarantee.
- Lock-free reads that race with move-to-front or migration, and torn reads of in-place overwrites: in the hash-map refinement Get is one step; the epoch model lets table pointers be relinked arbitrarily, so it covers freeing but not what a racing reader finds.
- HashMap.ShmHashMap.Put: each operation is one step for the map refinement; the locks are modelled in Stripes, the freeing in the epoch modules.
- HashMap.RoundBuckets: a request above 2^31 is outside its precondition, because the rounding loop does not end for it (HashMap.RoundingEndsIff); the same holds for HashMap.ShmHashMap.RehashStart and the constructor.
- HashBytes is an arbitrary function, and `h & (n - 1)` for a power of two n is written `h % n`.
- The byte layout of header, locks, buckets, epoch header and slab region, and RehashStart's address arithmetic: whether the new buckets fit is a parameter. Those regions are taken as separate objects.
- SlabAllocator.ShmSlab.Free: a block that is not live, or a size of another class, is outside its precondition, as the code does not detect them.
- The slab's page_list links and statistics, its creation and attachment, and alignment of blocks of 2048 bytes and more.
- Statistics counters of the hash map.
- SmoothWeighted.Balancer.Select: weights and sums are unbounded integers.
- The other balancers, which are single loops or a random choice.
- Ring.ByteRing.PushFront: a null pointer argument is not modelled; TryPush and TryPop differ from Push and Pop of one item only in giving up on a taken lock.
- TcpFraming.Connection.OnReadable: sockets and epoll are replaced by the list of successful reads and how the loop ended; the send side is not part of this model.
- WsFrames.WsConn.OnBytes: the HTTP upgrade is not part of this model; the write of a pong always succeeds.
- KcpListener, whose behaviour rests on ikcp.
- Registry.ServiceRegistry.CleanupExpired: the source removes expired ids in ascending order; the model allows any order, and when an id sits under several services, any of its instances as the OFFLINE snapshot.
- TcpRegistrar.Registrar.OnUpdateServiceStatus: messages, sockets and shared instance objects are values; load metrics are one opaque number; handlers run one after another, so that another thread's change between their registry calls is covered only by RegistryLog.SnapshotThenDeltas.
- The receiving side of deltas, IBusNet::onCenterUpdateServiceStatusRsp, which rebuilds its tables instead of merging.
- ConnPool.PoolSafe: until shutdown; connecting, pinging and waiting are outcomes of steps, and an object created later is a different connection even at the same address.
- Transactions.TransactionsSafe: that the pool lends a connection to nobody twice is the result of ConnPool, and is the guard of Acquire here; a failed COMMIT or ROLLBACK is not told apart from a successful one.
- Session.SessionManager.HandleLogin: token checking and replies are left to Jwt and to I/O.
- JsonPath.Config.SetValue: the tree is a value and the walk a recursion over it, not a pointer into nodes changed in place, so aliasing inside a document is not captured; running out of memory while padding an array is not modelled.
- JSON parsing and printing, files, and configuration loading.
- Jwt.SignedTokenVerifies: HMAC and JSON parsing are arbitrary functions, so nothing is said about forging.
- IBusNet, BusdNet and BusClientNet routing, CoroutineScheduler, Timer, chat, logic and login handlers, logging and the SQL migration tool.
