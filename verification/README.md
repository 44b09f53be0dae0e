# A verified model of the concurrency substrate

The trees of this repository stand on a small set of lock-free primitives, reclamation schemes and containers
under `common/`. This project models those in Dafny and proves what they promise.

Three kinds of model are used, after the form of the code:

- **Protocols** are step machines. A step is one atomic load, store or compare-and-swap; a run is any sequence of
  (thread, action) pairs, over any number of threads. Memory is sequentially consistent. Descriptors that are
  recycled under sequence numbers keep a history of the operations they held, named by (thread, sequence number).
  No step decides anything by that history; it is there so that properties can be stated. Each machine has an
  inductive invariant, and each theorem holds for every schedule from every initial state.
- **Objects that update fields in place** (the hash list, block bags, tree statistics, the entry sort) are classes and
  methods over arrays and linked nodes, each proved against a function of the old contents.
- **Arithmetic and order arguments** behind them are lemmas on values.

| files | component |
|---|---|
| `KcasModel`, `KcasInvariant`, `KcasEffects`, `KcasSteps`, `KcasTheorems`, `KcasCalls`, `KcasAlone`, `KcasAbandoned`, `KcasWitness`, `KcasSort` | k-word compare-and-swap over RDCSS with reusable descriptors |
| `ScxModel`, `ScxInvariant`, `ScxEffects`, `ScxSteps`, `ScxTheorems`, `ScxAborts`, `ScxCalls`, `ScxAlone` | LLX and SCX with reusable descriptors |
| `Dcss`, `DcssTheorems`, `DcssCalls` | double-compare-single-swap |
| `DescriptorWords` | the words of a descriptor, as its owner writes them |
| `RangeQuery`, `RangeUpdates`, `RangeReads` | timestamps of updates and range queries, the effect of an update, what a query reads at its end, the scan of retired nodes |
| `Debra`, `TokenRing` | epoch-based reclamation, by announcements and by a token |
| `Probing`, `HashList` | quadratic probing, the hash list |
| `BagView`, `BlockBag`, `SharedPool` | block bags, the lock-free stack of full blocks and the object pool |
| `TreeStats`, `ParallelStats` | sequential and parallel tree statistics |

`dafny verify dfyconfig.toml` checks the whole project.

## Findings

- A k-CAS that FAILED can find its tag back in memory after its owner has returned, because an RDCSS helper that read
  UNDECIDED may finish late (`KcasTheorems.LateTagIsNotOfSucceeded` says exactly which tags such a helper can write).
  If the owner has by then started its next operation, the tag stays in memory for ever, unless an activation of `help`
  that is unlocking for the old operation has yet to come to that entry: this is exact
  (`KcasAbandoned.TagStaysIffAbandoned`). A thread that reads such a word never returns
  (`KcasAbandoned.ReaderNeverReturns`). The state is reachable: `KcasWitness.AbandonedTagIsReached` gives a run of two
  threads, from an initial state, to the tag of a FAILED operation whose owner has returned false. The user-visible
  value is still right (`KcasTheorems.RunIsAtomic`), so this concerns progress, not atomicity.
- In DCSS a stale helper can read the state of a later operation from a recycled descriptor
  (`MUTABLES_VAL_CAS_FIELD` does not compare sequence numbers again after its compare-and-swap fails). It is harmless:
  the tag it would replace is gone and never returns (`DcssTheorems.HelpersAgree`, `DcssTheorems.TagNeverReturns`).
- A hash table of capacity 1 passes the assertion that capacities are powers of two, and is full after one insertion. From
  then on only a search for the inserted element ends (`HashList.SearchesEnd`, `HashList.FullOfOne`). In general `findIx`
  returns exactly when there is an empty slot or the element is in the table (`HashList.ReturnsIff`), and the load rule
  leaves an empty slot after every sequence of insertions and clearings exactly when the initial capacity is at least 2
  (`HashList.RoomIffTwo`).
- The sort of k-CAS entries never resets its `swapped` flag, so it stops early only after a first pass without a swap.
  It sorts all the same (`KcasSort.Sort`).

## Model

| member | source | states |
|---|---|---|
| KcasTheorems.RunIsAtomic | common/kcas/kcas_reuse_impl.h:296-462 | In every run with any helpers, the user-visible memory is the result of performing the SUCCEEDED operations one at a time as atomic k-word swaps, each finding all its old values, each exactly once |
| KcasCalls.ExecuteIsOneSwap | common/kcas/kcas_reuse_impl.h:371-462 | A call of execute, among any steps of others: it returns true and at one step of the call all n words its caller wrote into the descriptor go from the given old to the given new values and no other word changes, or it returns false and at some instant of the call one of these words differed |
| KcasCalls.PublishesDescription | common/kcas/kcas_reuse_impl.h:224-240 | Writing the number of entries and address, old and new value of each, in any order and among any steps of others, publishes an operation with exactly those entries |
| KcasCalls.ExecuteReports | common/kcas/kcas_reuse_impl.h:418-462 | The step that ends execute reports the decision of the operation the call was for |
| KcasCalls.ReadReports | common/kcas/kcas_reuse_impl.h:464-474 | The step that ends readPtr reports the user-visible value of its word at that instant |
| KcasAlone.ExecuteAlone | common/kcas/kcas_reuse_impl.h:371-462 | An execute that runs alone on user values returns, true exactly if all words match; then all have their new values, otherwise all are as they were, and no other word changes |
| KcasCalls.CallAlone | common/kcas/kcas_reuse_impl.h:371-462 | The same for the entries a caller described |
| KcasTheorems.StepKeeps | common/kcas/kcas_reuse_impl.h:296-497 | Every action of every thread keeps the invariant and either changes no user-visible word or is one whole k-word swap by an operation that turns SUCCEEDED |
| KcasEffects.SucceedIsAtomic | common/kcas/kcas_reuse_impl.h:400-417 | The compare-and-swap from UNDECIDED to SUCCEEDED switches exactly the k words of the operation, all from old to new value |
| KcasEffects.FailIsInvisible | common/kcas/kcas_reuse_impl.h:400-417 | Deciding FAILED changes no user-visible word |
| KcasEffects.LockEffect | common/kcas/kcas_reuse_impl.h:296-309 | Replacing an RDCSS tag by the tag of its k-CAS, which has not succeeded, keeps the invariant, including that locked entries are a prefix, and is invisible |
| KcasEffects.ReleaseEffect | common/kcas/kcas_reuse_impl.h:418-430 | Unlocking a word of a decided operation is invisible |
| KcasTheorems.SucceededTagNeverReturns | common/kcas/kcas_reuse_impl.h:296-430 | A word that does not hold the tag of a SUCCEEDED operation never holds it again |
| KcasTheorems.LateTagIsNotOfSucceeded | common/kcas/kcas_reuse_impl.h:296-309 | An RDCSS that read UNDECIDED and still finds its tag writes the tag of its k-CAS, and that k-CAS has not succeeded |
| KcasTheorems.ExecuteOutcome | common/kcas/kcas_reuse_impl.h:450-462 | What execute returned is the decision of its operation; after success its tag is nowhere in memory |
| KcasTheorems.FailedOperationCouldNotSucceed | common/kcas/kcas_reuse_impl.h:371-430 | A FAILED operation had an instant, while undecided, at which one of its words differed from its old value for users |
| KcasTheorems.MismatchIsReal | common/kcas/kcas_reuse_impl.h:385-399 | A mismatch is noted only at a step at which the operation is undecided and one of its words differs |
| KcasTheorems.ReadReturnsLogical | common/kcas/kcas_reuse_impl.h:464-474 | readPtr returns the user-visible value of the word at the instant it returns |
| KcasTheorems.LockedEntriesArePrefix | common/kcas/kcas_reuse_impl.h:371-430 | While an operation is undecided the entries it has locked are a prefix of its address order |
| KcasTheorems.SkippedEntryIsLocked | common/kcas/kcas_reuse_impl.h:361-384 | Every helper that skips entry 0 finds it locked, or the operation decided |
| KcasTheorems.HelpingAscends | common/kcas/kcas_reuse_impl.h:385-399 | Nested helping of undecided operations is blocked at strictly increasing addresses |
| KcasTheorems.CopiesAreUntorn | common/kcas/kcas_reuse_impl.h:108-128 | A descriptor copied word by word that passes its sequence check holds exactly the words of the operation the tag names, for k-CAS and RDCSS descriptors |
| KcasAbandoned.TagStaysIffAbandoned | common/kcas/kcas_reuse_impl.h:361-430 | In every reachable state, the tag of an operation whose slot has moved on stays in its word in every continuation if and only if no activation that is unlocking for the operation is at that entry or before it |
| KcasAbandoned.AbandonedTagIsPermanent | common/kcas/kcas_reuse_impl.h:361-430 | Being abandoned in this sense is kept by every continuation: nobody starts to unlock for the operation again |
| KcasAbandoned.ReaderNeverReturns | common/kcas/kcas_reuse_impl.h:464-474 | A thread in readPtr of a word with an abandoned tag is still in that call after every continuation |
| KcasWitness.AbandonedTagIsReached | common/kcas/kcas_reuse_impl.h:296-462 | A run from an initial state that ends with the tag of a FAILED operation abandoned in memory, its owner having returned false; the tag is there in every continuation |
| KcasWitness.ReaderIsStuck | common/kcas/kcas_reuse_impl.h:464-474 | A readPtr of that word called at the end of that run is under way after every continuation |
| KcasTheorems.RunInv | common/kcas/kcas_reuse_impl.h:296-497 | The invariant holds in every reachable state |
| KcasSort.Sort | common/kcas/kcas_reuse_impl.h:432-448 | The entries come out in ascending order of address and are a permutation of what went in |
| KcasSort.DistinctIsStrict | common/kcas/kcas_reuse_impl.h:432-456 | Entries come out of the sort strictly ascending exactly when they were for different addresses |
| KcasSort.SortedIsExecutable | common/kcas/kcas_reuse_impl.h:450-456 | A descriptor with sorted entries is one the protocol's execute admits exactly when its addresses are valid and different |
| ScxTheorems.EveryStepIsLawful | common/scx_provider.h:94-131 | In every reachable state, a step changes at most one field, that of an SCX in progress with all nodes frozen, from its old to its new value; freezes nodes only for an SCX in progress; and first sets allFrozen while every listed node holds the tag |
| ScxCalls.ScxIsOneUpdate | common/scx_provider.h:94-223 | A call of scxExecute, among any steps of others: it returns true, the field its caller named went from the given old to the given new value at one step, with no other field, and exactly the nodes listed with the flag set are finalized for it; or it returns false, no step was its effect, and another SCX had frozen a listed node since its LLX |
| ScxCalls.PublishesDescription | common/scx_provider.h:195-216 | Executing publishes an operation with exactly the values, field, nodes, flags and handles last written into the record |
| ScxCalls.FinalizesExactly | common/scx_provider.h:118-123 | A COMMITTED SCX has finalized a listed node if and only if the flag for it was set |
| ScxCalls.MarkedWasFlagged | common/scx_provider.h:118-123 | A node is marked only for an SCX with all nodes frozen that lists it with the flag set |
| ScxCalls.LlxReports | common/scx_provider.h:167-189 | The step that ends an LLX reports about its node: FINALIZED exactly if it first read the mark, and then the node is finalized; otherwise FAILED or the handle and all fields at that instant |
| ScxAlone.LlxAlone | common/scx_provider.h:167-189 | An LLX that runs alone on an unmarked node whose last SCX is decided returns its snapshot |
| ScxAlone.ScxAlone | common/scx_provider.h:94-131 | An SCX whose owner runs alone with all handles current commits and returns true |
| ScxTheorems.HelpersAgree | common/scx_provider.h:94-131 | With allFrozen set, all listed nodes hold the tag until COMMITTED and the SCX is never ABORTED; a decision never changes |
| ScxTheorems.TakesEffectOnce | common/scx_provider.h:94-131 | In every run the update of a COMMITTED SCX happens exactly once, that of an ABORTED one never |
| ScxTheorems.ExecuteOutcome | common/scx_provider.h:211-223 | scxExecute returns the decision of its SCX |
| ScxTheorems.LlxIsAtomic | common/scx_provider.h:167-189 | What a successful LLX copied field by field is the node's fields at the instant it returns, with the handle it read, and the node is not marked then |
| ScxTheorems.LinksStayCurrent | common/scx_provider.h:167-189 | As long as a node's handle is the one an LLX returned, its fields are what that LLX returned |
| ScxTheorems.FinalizedIsTrue | common/scx_provider.h:167-189 | An LLX that returns FINALIZED does so for a node that is finalized |
| ScxTheorems.FinalizedForEver | common/scx_provider.h:94-131 | A finalized node stays finalized, with the same fields and the same handle, in every continuation |
| ScxTheorems.CommittedFinalizes | common/scx_provider.h:94-131 | Every node a COMMITTED SCX was asked to finalize is finalized |
| ScxTheorems.CopiesAreUntorn | common/descriptors/descriptors_impl.h:87-112 | A record copied word by word that passes its sequence check holds the words of the SCX the handle names |
| ScxAborts.AbortedIsJustified | common/scx_provider.h:94-116 | In every run, an SCX that is ABORTED has a listed node that another SCX froze after the LLX that gave the handle for it had returned |
| ScxTheorems.StepKeeps | common/scx_provider.h:94-223 | Every action of every thread keeps the invariant |
| ScxEffects.FreezeEffect | common/scx_provider.h:96-105 | The freezing compare-and-swap, by any helper, keeps the invariant; it succeeds only for an SCX in progress |
| ScxEffects.UpdateEffect | common/scx_provider.h:122-126 | The update compare-and-swap keeps the invariant |
| DcssTheorems.DcssIsAtomic | common/dcss/dcss_impl.h:26-159 | A DCSS that succeeded had an instant with addr1 equal to old1 and its tag installed and undecided; addr2 is held from then on, turns from old2 to new2 at exactly one later step, and no dcssRead of it and no dcssPtr failing at it returns in between |
| DcssCalls.DcssIsOneStep | common/dcss/dcss_impl.h:26-159 | A call of dcssPtr, among any steps of others: on success both comparisons with the given values held at one instant, and the second word turned to the given new value at one later step, nobody being told its value in between; on failure the comparison it blames failed at some instant, with the value reported |
| DcssCalls.DcssReports | common/dcss/dcss_impl.h:48-159 | The step that ends dcssPtr reports about its own operation: success exactly if it succeeded, failure at addr1 exactly if it failed, failure at addr2 exactly if its tag was never installed, with the value found |
| DcssCalls.ReadReports | common/dcss/dcss_impl.h:161-177 | The step that ends dcssRead reports the user-visible value of its word at that instant |
| DcssCalls.PublishesDescription | common/dcss/dcss_impl.h:124-135 | dcssPtr publishes an operation with exactly the five words last written |
| DcssCalls.DcssAlone | common/dcss/dcss_impl.h:124-159 | A dcssPtr that runs alone on a user value writes exactly if both comparisons hold, and says which one failed |
| DcssTheorems.DecisionHadWitness | common/dcss/dcss_impl.h:26-46 | A DCSS is decided succeeded, or failed, only after an instant with its tag installed and undecided at which addr1 equalled, or differed from, old1 |
| DcssTheorems.EveryStepIsLawful | common/dcss/dcss_impl.h:26-159 | Words change for their users only when one undecided DCSS succeeds, and then in one word, from old2 to new2 |
| DcssTheorems.FailureHasNoEffect | common/dcss/dcss_impl.h:54-64 | A DCSS that has not succeeded never took effect |
| DcssTheorems.RemovalWrites | common/dcss/dcss_impl.h:48-64 | Whoever removes the tag writes new2 after success and old2 after failure, and nobody removes it undecided |
| DcssTheorems.TagNeverReturns | common/dcss/dcss_impl.h:26-159 | Once removed, the tag is never in memory again |
| DcssTheorems.HelpersAgree | common/dcss/dcss_impl.h:38-64 | Every thread about to finish an operation whose tag is installed carries the one decision, even if it read the state of a later operation |
| DcssTheorems.CopiesAreUntorn | common/descriptors/descriptors_impl2.h:127-148 | A copy that passes its sequence check holds the five words of the operation the tag names |
| DcssTheorems.ExecuteOutcome | common/dcss/dcss_impl.h:124-159 | What dcssPtr reports: the decision, with the tag gone, or that the tag was never installed because addr2 differed |
| DcssTheorems.ReadReturnsLogical | common/dcss/dcss_impl.h:161-177 | dcssRead returns, and a failure at addr2 reports, the user-visible value at that step |
| Dcss.StepKeeps | common/descriptors/descriptors_impl2.h:79-104 | Every action keeps the invariant; in particular the state compare-and-swap and its retries |
| RangeQuery.TimesMatchLinearization | common/rq/rq_dcssp.h:247-390 | A set itime, or dtime, is below a query's time exactly when the insertion, or deletion, linearized before the query's increment |
| RangeUpdates.UpdatesAreSwaps | common/rq/rq_dcssp.h:275-385 | In every run, a step that inserts or deletes nodes or changes a word is the DCSS of one update, finds the timestamp and the word as compared, at a CAS with the given old value, gives the word the given new value, changes no other word, and inserts and deletes exactly the nodes of the update |
| RangeUpdates.DcssDecides | common/rq/rq_dcssp.h:298-385 | The DCSS succeeds exactly if it finds both values; an update at a CAS gives up exactly if it finds another value in its word, and every other failure is tried again |
| RangeUpdates.UpdateAlone | common/rq/rq_dcssp.h:275-385 | Alone, an update at a CAS succeeds exactly if its word has the given old value, and one at a write succeeds |
| RangeUpdates.StampsAreSet | common/rq/rq_dcssp.h:310-311 | In every run, an inserted or deleted node has its stamp unless its own update has yet to set it |
| RangeQuery.QueryTimeIsItsIncrement | common/rq/rq_dcssp.h:388-391 | A query's time is new, and is the one its own increment produced |
| RangeQuery.DeletedNodesStayVisible | common/rq/rq_dcssp.h:211-243 | A node whose deletion has linearized is announced by its deleter or in its deleter's bag, at every step |
| RangeReads.NoDeletedNodeIsMissed | common/rq/rq_dcssp.h:683-737 | Reading each thread's announcements one at a time and its bag afterwards, in a run that goes on meanwhile, finds every node whose deletion had linearized when the reading began |
| RangeReads.QueryFindsDeleted | common/rq/rq_dcssp.h:610-737 | A whole query in a run that goes on: every node whose deletion linearized between its increment and the end of its traversal is among the announcements it reads or the nodes its scans visit |
| RangeReads.VisitedAfterIncrement | common/rq/rq_dcssp.h:711-737 | What a scan visits was deleted after the query's increment, with a stamp up to the end of its traversal |
| RangeReads.ScanThread | common/rq/rq_dcssp.h:695-737 | The scan of a thread's retired nodes, newest first, is such a scan |
| RangeReads.NoneOfThreadMissed | common/rq/rq_dcssp.h:684-693 | Of one thread, it finds every node the thread had deleted when the number of its announcements was read |
| RangeQuery.RetiredInOrder | common/rq/rq_dcssp.h:278-391 | A thread's retired nodes are stamped, with deletion timestamps that never decrease along the order of retirement |
| RangeQuery.EarlyExitIsSound | common/rq/rq_dcssp.h:711-737 | Any bag holding some of a thread's retired nodes is ordered for the scan, and what the early exit skips was deleted before the query |
| RangeQuery.ScanBag | common/rq/rq_dcssp.h:711-737 | The scan with its skip and its early exit visits, in order and each once, exactly the positions stamped from the query's time to the end of the traversal in an ordered bag, and exactly those unset or stamped up to the end in any other |
| RangeQuery.StepKeeps | common/rq/rq_dcssp.h:211-391 | Every step of an update or a query keeps the invariant, and stamps and histories only grow |
| Debra.NeverReclaimedEarly | common/recordmgr/reclaimer_debra.h:223-456 | In every run, an object retired at or after the announcement of an operation still under way is neither in a free list nor in the pool; only retired objects ever are |
| Debra.EpochIsHeldBack | common/recordmgr/reclaimer_debra.h:344-450 | While a thread is inside an operation the epoch is at most one increment past its value at the thread's announcement, however stale the announcement |
| Debra.SafeBagsCoverOperation | common/recordmgr/reclaimer_debra.h:122-133 | Everything retired during an operation under way has been rotated at most twice by its retirer and is in the bags getSafeBlockbags returns |
| Debra.BagsByRotation | common/recordmgr/reclaimer_debra.h:122-133 | The bags getSafeBlockbags names hold exactly the objects in bags whose retirer has since rotated at most twice, up to whole rounds of the nine bags; the bag the next rotation frees is not among them |
| Debra.ObjectsFlow | common/recordmgr/reclaimer_debra.h:223-456 | A retired object goes to the retirer's current bag, from the freed bag with a rotation to the free list, from there one at a time to the pool, and by no other step |
| Debra.MovedIsUnreachable | common/recordmgr/reclaimer_debra.h:223-318 | Whatever the bag being freed holds was retired before every operation under way, at least six rotations ago |
| Debra.RetiredObjectsAreConserved | common/recordmgr/reclaimer_debra.h:223-318 | Each retired object is in exactly one of the bag of its rotation, its retirer's free list and the pool |
| Debra.ScanStaysInRange | common/recordmgr/reclaimer_debra.h:400-446 | The incremental scan never indexes past the threads |
| Debra.StepKeeps | common/recordmgr/reclaimer_debra.h:223-456 | Every action of every thread keeps the invariant |
| TokenRing.OneToken | common/recordmgr/reclaimer_token1.h:298-372 | In every run of all four variants at most one thread holds the token, and none while a thread is handing it over |
| TokenRing.NeverReclaimedEarly | common/recordmgr/reclaimer_token1.h:210-382 | In every run of all four variants, an object is reclaimed only after every other thread has begun a new operation since its retirement |
| TokenRing.TokenIsFair | common/recordmgr/reclaimer_token1.h:298-372 | The number of times the token has left any two threads differs by at most one |
| TokenRing.OldBagIsUnreachable | common/recordmgr/reclaimer_token1.h:210-275 | Whatever a thread takes from its old bag was retired before every thread outside startOp was last in it |
| TokenRing.RetiredObjectsAreConserved | common/recordmgr/reclaimer_token1.h:210-382 | Each retired object is in its retirer's bags or reclaimed, never both |
| TokenRing.ObjectsFlow | common/recordmgr/reclaimer_token1.h:210-382 | Which steps retire an object, and which hand one to the pool, from the old bag or the free list |
| TokenRing.StepKeeps | common/recordmgr/reclaimer_token1.h:210-382 | Every action of every thread keeps the invariant |
| Probing.EvenProbesPermute | common/rq/hashlist.h:112-122 | On capacity 2^k, every slot is looked at by exactly one of the first 2^k even probe steps |
| Probing.EvenProbesDiffer | common/rq/hashlist.h:112-122 | Two even steps below 2 * 2^k that look at the same slot are the same step |
| Probing.ProbeStep | common/rq/hashlist.h:112-122 | Masking at each step gives the probe sequence of cumulative squares |
| HashList.SearchEndsIffRoom | common/rq/hashlist.h:112-122 | From each hash value, a search for an absent element ends exactly when a slot is empty |
| HashList.ReturnsIff | common/rq/hashlist.h:112-122 | findIx returns exactly when there are fewer nodes than slots or the element is in the table |
| HashList.RoomIffTwo | common/rq/hashlist.h:125-150 | After every sequence of insertions and clearings there are fewer nodes than slots, if and only if the initial capacity is at least 2 |
| HashList.SearchesEnd | common/rq/hashlist.h:112-173 | From initial capacity 2 or more every search ends, whatever was inserted and cleared before; from capacity 1, after the first insertion, exactly the search for the inserted element |
| HashList.FullOfOne | common/rq/hashlist.h:112-122 | In a table of capacity 1 with a node in it, a search for another element ends from no hash value |
| HashList.RoomLeft | common/rq/hashlist.h:125-139 | A table with fewer nodes than slots has an empty slot |
| HashList.HashTable.FindIx | common/rq/hashlist.h:112-122 | At any capacity, wherever the search ends at all, it takes fewer than 2 * capacity steps and ends at the node with the element, or, exactly if there is none, at the empty slot where it belongs |
| HashList.PutKeeps | common/rq/hashlist.h:161-173 | Filling the slot where a search ended leaves every node where its own search ends |
| HashList.HashTable.InsertNode | common/rq/hashlist.h:161-173 | The table holds one node more, after doubling and rehashing exactly if the load rule asks for it |
| HashList.HashTable.TryExpand | common/rq/hashlist.h:125-139 | Afterwards the table has an empty slot and holds the same nodes, at double capacity exactly if it was at least half full; the insertions nested in it never expand again |
| HashList.HashTable.Clear | common/rq/hashlist.h:175-197 | Emptying through the list's stored indices leaves the same empty table as emptying every slot |
| HashList.HashList.Insert | common/rq/hashlist.h:264-282 | The set gains the element and nothing else; an element already there changes nothing |
| HashList.HashList.AlwaysReturns | common/rq/hashlist.h:125-127 | A list made with capacity 2 or more may be asked for any element at any time |
| HashList.HashList.Contains | common/rq/hashlist.h:260-262 | True exactly for the elements of the set |
| HashList.HashList.Clear | common/rq/hashlist.h:231-246 | The set is empty and every node is kept for reuse, the list's own first |
| HashList.HashList.AllocateNode | common/rq/hashlist.h:211-220 | A free node is used again before a new one is made, and the set does not change |
| BagView.BagIsStack | common/recordmgr/blockbag.h:154-227 | A bag built by any sequence of add and remove is visited in reverse order of insertion |
| BagView.AddPushes | common/recordmgr/blockbag.h:366-382 | add keeps the block invariants and puts the object first in iteration order |
| BagView.RemovePops | common/recordmgr/blockbag.h:453-475 | remove keeps the block invariants and takes the object first in iteration order |
| BagView.AddThenRemove | common/recordmgr/blockbag.h:366-475 | remove after add gives the object back and restores the bag |
| BagView.GiveConserves | common/recordmgr/blockbag.h:542-565 | removeFullBlock keeps the block invariants, takes a full block and loses no object |
| BagView.FastSize | common/recordmgr/blockbag.h:672-674 | The block count and the head's size give the number of objects |
| BlockBag.Bag.Add | common/recordmgr/blockbag.h:366-382 | The linked blocks after add hold what the view after add says |
| BlockBag.Bag.Remove | common/recordmgr/blockbag.h:453-475 | The linked blocks after remove, and the object, are what the view after remove says |
| BlockBag.Bag.RemoveFullBlock | common/recordmgr/blockbag.h:542-565 | A full block is unlinked exactly when there are at least two, and otherwise nothing changes |
| BlockBag.Bag.AddFullBlock | common/recordmgr/blockbag.h:566-579 | The block is the new tail |
| BlockBag.Bag.AppendMoveFullBlocks | common/recordmgr/blockbag.h:621-649 | The blocks after any given block of the other bag become the last ones of this bag, both bags stay valid and both counts are right |
| BlockBag.Bag.AppendMoveAll | common/recordmgr/blockbag.h:650-659 | All objects move, the other bag is empty, and the new iteration order is given exactly |
| BlockBag.Bag.ComputeSize | common/recordmgr/blockbag.h:660-668 | Counts the objects |
| BlockBag.Bag.ComputeSizeFast | common/recordmgr/blockbag.h:672-674 | Counts the objects, so equals ComputeSize |
| BlockBag.Bag.Traverse | common/recordmgr/blockbag.h:154-227 | An iterator from begin to end visits every object exactly once, in the bag's order, whether or not the head block is empty |
| SharedPool.EveryObjectInOnePlace | common/recordmgr/lockfreeblockbag.h:57-83 | In every run an object is handed out and in no block, or in exactly one position of exactly one block, and that block in exactly one position of the shared stack, of one thread's bag, or carried by one thread |
| SharedPool.NoneLost | common/recordmgr/pool_perthread_and_shared.h:31-111 | No step loses an object, and only a refill adds one |
| SharedPool.GetHandsOutOne | common/recordmgr/pool_perthread_and_shared.h:85-88 | A get that ends has handed out exactly one object, which was in the thread's own bag |
| SharedPool.OnlyPutsTakeBack | common/recordmgr/pool_perthread_and_shared.h:89-111 | Handed-out objects are taken back by puts, one each, and by full blocks brought in, and by nothing else |
| SharedPool.PopStackOk | common/recordmgr/lockfreeblockbag.h:57-72 | A pop that finds the head tag unchanged takes the head of the chain and leaves its rest, whatever happened to the block since `next` was read |
| SharedPool.PushStackOk | common/recordmgr/lockfreeblockbag.h:73-83 | A push that finds the head tag unchanged makes the block the head of the chain |
| SharedPool.StepKeeps | common/recordmgr/pool_perthread_and_shared.h:31-111 | Every step of every give and take keeps the invariant, with block numbers used again |
| TreeStats.Stats.ComputeStats | common/tree_stats.h:48-71 | The recursion adds, at each depth up to the limit, the rows of the tree's level at that depth, and the keys of those levels |
| TreeStats.Partition | common/tree_stats.h:104-160 | The breadth-first search ends with one whole level of the tree, in order: a level with at least the threshold of nodes, or the root |
| TreeStats.Stats.Sequential | common/tree_stats.h:74-92 | Every row and the key sum are those of the tree's levels |
| TreeStats.Stats.Parallel | common/tree_stats.h:94-193 | For every tree below the maximal height and every threshold, the same rows and the same key sum as the sequential constructor |
| ParallelStats.EveryOrderIsSequential | common/tree_stats.h:165-192 | Wherever the tree is cut, and in whatever order the atomic additions of the subtrees' iterations interleave, every counter comes to that of the whole tree |
| ParallelStats.EveryOrderAdds | common/tree_stats.h:165-181 | In every order of the additions, a counter grows by what the whole level of subtrees contributes to it |
| TreeStats.RowCounts | common/tree_stats.h:48-71 | A row is the number of internal nodes and of leaves of the level at its depth, and the keys in them |
| TreeStats.SumCounts | common/tree_stats.h:48-71 | The key sum is the sum of the keys of the levels |
| TreeStats.RowOfLevel | common/tree_stats.h:165-181 | Depth c + d of a tree is depth d of its subtrees at depth c |
| TreeStats.SumOfLevel | common/tree_stats.h:165-192 | The keys above a cut and the keys of the subtrees below it are all the keys |

## Left out

- Weak memory ordering: all models are sequentially consistent.
- Sequence-number, timestamp and counter wrap-around, and progress beyond the ascending-address argument and calls that run
  alone.
- k-CAS with hardware transactions, with path validation (`kcas_validate.h`), and `kcas_lock_free_casword` wrappers.
- In the k-CAS model the copied `seqBits` word is represented by the sequence number in the tag; entries are filled in
  ascending order of address, which `KcasSort` provides; values are untagged and addresses distinct.
- In the SCX model nodes are never reclaimed, and the usage rule is built in: handles come from the thread's last successful
  LLX of each listed node, the field lies in a listed node, the new value has never been in it.
- What linearize_update returns: an update of `RangeQuery` has no result besides its effect.
- DCSS with payloads (`dcss_plus_impl.h`), `helpProcess`, and reading another thread's descriptor that is not found in
  memory; with it `__traversal_try_add` of the range query provider.
- RangeQuery.StepKeeps: models data structures whose physical and logical deletion coincide, because a separate logical
  deletion is a second update without announcement; a DCSS is one atomic step, as `DcssTheorems.DcssIsAtomic` justifies.
- RangeReads.QueryFindsDeleted: a bag is read at one instant; a bag that is rotated or reclaimed meanwhile is not
  modelled here, but see `Debra.SafeBagsCoverOperation`.
- In DEBRA and the token ring a bag is a set of objects: the full blocks a rotation moves are any subset of the bag. DEBRA is
  modelled with deamortized freeing and one `initThread` per thread; several record types per thread are left out.
- Debra.BagsByRotation: objects that a rotation leaves in a bag, because it moves full blocks only, come round with the
  bag, so the count of rotations is up to whole rounds; it is exact for objects in a bag for less than nine.
- Debra.StepKeeps: an object stands for one allocation of a record, so it is retired at most once and not used again after
  it has been reclaimed; the read-only form of `startOp`, which skips the scan and is compiled out, is absent.
- TokenRing.StepKeeps: likewise an object is retired at most once and never used again; `startOp` ignores its read-only flag.
- HashList.HashList.Insert: may be called only where the search in it returns, which `HashList.ReturnsIff` makes exact, as
  a call that does not return has no outcome to state.
- HashList is modelled for every mixing function, so the mixing of 4- and 8-byte elements is left out; so are `destroy` and
  the overflow of `i*i` in 32 bits.
- BlockBag.Bag.Add: the used part of a block's array is a sequence, and blocks come from `new`; the pool of spare blocks,
  `blockbag_iterator::erase` and `clearWithoutFreeingElements` are left out.
- SharedPool leaves the links inside a thread's own bag to `BlockBag`, so a load of `next` through a head that is no longer
  current returns any value; `addMoveAll` is a sequence of its actions.
- TreeStats.Stats.Parallel: the loop over subtrees runs in index order; `ParallelStats` treats every other order of its
  atomic additions. The getters and the printing are left out.
- `lockfreeblockstack.h`, `pool_numa.h`, `hashset`, `rlu.cpp`, `urcu_impl.h`, locks, allocators and the benchmark driver.
