# Dafny model of installd cache eviction, app data handling and dumpstate protocols

A Dafny model of the parts of Android's `frameworks/native` commands that keep
state over many steps, with proofs of what they promise.

* **Cache eviction (installd).** A tracker per UID walks its cache directories,
  builds items with raw parent pointers, sorts them, and a greedy scheduler pops
  and purges items from whichever tracker is most over its quota.
  `Fts` gives directory walks as event lists of finite trees. `CacheLoad`,
  `CacheFacts` and `CacheOrder` are the walk, what its items mean and the sort
  order, and `CacheMix` mixes the items of several walks. `CacheItems` is the
  same on objects. `CachePurge`, `CacheEvict` and `CacheListing` are what purging
  does to the files, for one walk and for all of a tracker's. `Bounce` is the
  scheduler as a state machine, `FreeCache` the loop on tracker objects, proved
  to take that machine's steps, and `FullEviction` puts everything together.
* **Locks (installd).** `LockRegistry` is the reference-counted map of weak
  mutexes behind the user and package locks.
* **Other walks and app data (installd).** `GidFixup`, `ExternalSize` and
  `Snapshot` are the GID repair, the manual storage measurements and the
  snapshot/clear/restore sequence with calls that may fail part way.
* **dexopt (installd).** `DexOptStatus` is the lock-protected cancellation object
  and the interleaved calls that consult it; `MoveAb` is the A/B artifact move.
* **dumpstate.** `DumpPool`, `TaskQueue` and `Consent` are the worker pool, the
  queue of zip tasks and the user-consent protocol under every interleaving;
  `ZipTasks` is the pool and the queue together, with their shutdown.
  `Progress` is the progress estimate, its reports and its saved average.

Code that loops or updates fields is modelled by methods and classes. Protocols
between threads are state machines whose steps are what one thread does under
its lock; the objects' locked sections are methods that take one such step each,
and theorems are about every state of every run.

## What was found

* The item comparator returns `left->directory` for equal keys, so it is not a
  strict order at directories (`CacheOrder.ComparatorStrictness`). The order the
  eviction needs does not depend on that (`CacheItems.SortItems`).
* The bounce loop may stop while other trackers are over quota, because the test
  of the active tracker comes before the swap (`Bounce.StopsCleanExactly`).
* A symbolic link named `Android` lets the OBB deduction exceed the total
  (`ExternalSize.DeductionIsCovered`).
* Restoring does not give back a missing directory when no snapshot directory
  exists, and brings an older CE snapshot of the same id back when CE data was
  missing (`Snapshot.DeComesBackExactly`, `Snapshot.CeComesBackExactly`). The DE
  snapshot includes the caches, because it is taken before they are cleared.
* When DE data cannot be restored after CE data was, the CE data and the CE
  snapshot are both gone and no repetition brings them back
  (`Snapshot.AppData.RestoreAppDataSnapshot`, `Snapshot.RepeatExactly`).
* A failing A/B move is not all-or-nothing (`MoveAb.WholeExactly`).
* Two approvals can copy the screenshot twice, if approvals may copy it early
  (`Consent.ScreenshotCopiedOnce`).
* An invalid stats line still enters the next average
  (`Progress.LeavesNoTraceExactly`), a count of -1 makes saving divide by zero
  (`Progress.SavedExactly`), and after 1000 bugreports the saved average is never
  used again (`Progress.EstimateGivesUp`).
* A task that is still running while the pool shuts down can post another, which
  then never starts (`DumpPool.LatePost`).

## Model

| member | source | states |
|---|---|---|
| `CacheLoad.WalkCollects` | cmds/installd/CacheTracker.cpp:97-162 | for every finite tree the one-pass walk, with its slots, swallowing and bubbling, collects exactly the items of the recursive definition, in order, and ends outside any group |
| `CacheLoad.WalkNeverFaults` | cmds/installd/CacheTracker.cpp:145-160 | at no event of any walk is an item missing where the code dereferences one, and `fts_read` never ends inside a group (the CHECK holds) |
| `CacheFacts.WalkDescribes` | cmds/installd/CacheTracker.cpp:115-160 | each item's `modified` is the maximum mtime of its whole subtree, its `tombstone` says whether it or a directory above is marked, no group lies above it, and its parent is the item of the directory holding it, collected earlier |
| `CacheFacts.WalkPartitions` | cmds/installd/CacheTracker.cpp:121-143 | every entry below the root is accounted for by exactly one item: its own, or the topmost group at or above it |
| `CacheFacts.WalkConservesSize` | cmds/installd/CacheTracker.cpp:131-139 | item sizes add up to the sizes of all entries below the root, each once |
| `CacheOrder.ComparatorStrictness` | cmds/installd/CacheTracker.cpp:175-185 | the item comparator is asymmetric at a rank exactly when the rank is not a directory's |
| `CacheOrder.ComparatorAgrees` | cmds/installd/CacheTracker.cpp:175-185 | in both directions the comparator agrees with the key (modified descending, level ascending) |
| `CacheOrder.AboveIsNewer` | cmds/installd/CacheTracker.cpp:145-186 | an item above another has a strictly smaller key |
| `CacheOrder.EvictionOrder` | cmds/installd/CacheTracker.cpp:164-188 | in any order sorted on the key, with items of other walks mixed in, an item stands before every item below it |
| `CacheItems.CacheItem.constructor` | cmds/installd/CacheItem.cpp:33-50 | a new item inherits group and tombstone through its parent pointer and is named by its name or, without parent, by its path |
| `CacheItems.Track` | cmds/installd/CacheTracker.cpp:115-126 | the object created for an entry, with its marks, is the one the value walk adds |
| `CacheItems.Gain` | cmds/installd/CacheTracker.cpp:137-138 | one swallowed entry changes exactly one object's size and time |
| `CacheItems.Swallow` | cmds/installd/CacheTracker.cpp:127-141 | the inner loop reads up to the group's own last visit and leaves the objects as the value walk does |
| `CacheItems.BubbleUp` | cmds/installd/CacheTracker.cpp:145-159 | bubbling through raw pointers updates the parent's object and no other |
| `CacheItems.LoadItemsFrom` | cmds/installd/CacheTracker.cpp:97-162 | the loop on objects builds new objects that stand, field by field and pointer by pointer, for the items of the walk |
| `CacheItems.BuildPath` | cmds/installd/CacheItem.cpp:59-67 | the pointer chase terminates, dereferences only items still owned, and concatenates the names from the root down |
| `CacheItems.BuildsWalkedPath` | cmds/installd/CacheItem.cpp:59-67 | the path built from the pointers is the path the walk saw |
| `CacheItems.Insert` | cmds/installd/CacheTracker.cpp:186 | stable insertion with this comparator keeps a key-sorted permutation |
| `CacheItems.InsertionSort` | cmds/installd/CacheTracker.cpp:186 | insertion alone, as a stable sort treats short ranges, gives a key-sorted permutation |
| `CacheItems.Merge` | cmds/installd/CacheTracker.cpp:186 | merging two key-sorted runs, the second going first only where this comparator says so, gives a key-sorted permutation of both |
| `CacheItems.SortItems` | cmds/installd/CacheTracker.cpp:186 | halving, sorting and merging gives a key-sorted permutation, although the comparator is no strict weak order |
| `CacheItems.SortedParentsFirst` | cmds/installd/CacheTracker.cpp:174-188 | after sorting, every item's parent object stands before it |
| `CacheItems.ChainOwned` | cmds/installd/CacheItem.cpp:59-67 | for the last item of such a vector the whole parent chain is in the vector |
| `CacheItems.WalkHasParents` | cmds/installd/CacheTracker.cpp:97-162 | the objects of a walk contain the parents they point to, which have strictly smaller keys |
| `CacheItems.CacheTracker.LoadAll` | cmds/installd/CacheTracker.cpp:168-171 | walking several roots yields the objects of each walk in turn |
| `CacheItems.CacheTracker.LoadItems` | cmds/installd/CacheTracker.cpp:164-188 | the items are a permutation of all walks' objects, sorted on the key, parents first, and depict one by one a sorted rearrangement of all walks' items |
| `CacheItems.CacheTracker.EnsureItems` | cmds/installd/CacheTracker.cpp:190-197 | loads once; afterwards the tracker's invariant holds: parents first, and each item names the path of an entry of one of its walks, complete and sorted when loaded |
| `CacheItems.CacheTracker.Evict` | cmds/installd/InstalldNativeService.cpp:2252-2258 | popping the last item keeps the invariant, and its path, built from pointers into what is left, is that of the entry loaded at its position |
| `CachePurge.PurgeDirectory` | cmds/installd/CacheItem.cpp:80-118 | the loop computes the fold over the events, file system and result |
| `CachePurge.Purge` | cmds/installd/CacheItem.cpp:69-134 | an item is purged as the eviction takes it: a directory by the walk, anything else by one call on its path alone |
| `CachePurge.SweepTree` | cmds/installd/CacheItem.cpp:80-118 | the fold leaves of a tree exactly the recursive remainder, touches nothing outside it, and fails only if something remains |
| `CachePurge.StayMeans` | cmds/installd/CacheItem.cpp:82-117 | the remainder is exactly the regular files with a tombstone directory above, emptied, and the directories leading to one |
| `CachePurge.PurgeDirectoryKeeps` | cmds/installd/CacheItem.cpp:69-134 | purging a directory item keeps exactly those entries and nothing outside changes; it returns 0 exactly when its path is gone |
| `CachePurge.OneRootLeaves` | cmds/installd/CacheItem.cpp:69-134 | purging all items of one walk, below first, leaves the root and exactly the regular files under a tombstone, emptied, with the directories leading to them |
| `CacheMix.PopOrder` | cmds/installd/CacheTracker.cpp:168-188 | popping a sorted vector that mixes the items of any number of walks from the back takes every walk's items, each once, and everything below an item before it |
| `CacheEvict.PurgeFindsItsPath` | cmds/installd/CacheItem.cpp:69-79 | in such an eviction over all of a tracker's roots, when an item's turn comes its path still exists |
| `CacheEvict.PurgeAllLeaves` | cmds/installd/CacheItem.cpp:69-134 | purging everything in pop order leaves under each root of the tracker just what tombstones keep, swallowed by a group or not |
| `CacheListing.EvictionExists` | cmds/installd/CacheItem.cpp:69-134 | every pop order has a complete eviction: whatever was purged so far, the next directory can still be listed |
| `FullEviction.PopsInReverse` | cmds/installd/InstalldNativeService.cpp:2219-2277 | when a call with DEFY_QUOTA is not stopped by a measurement, every tracker's entries are popped each once, in the reverse of their sorted order |
| `FullEviction.ClearsEveryRoot` | cmds/installd/InstalldNativeService.cpp:2219-2277 | then such purges exist, and all of them leave under every root of every tracker just what tombstones keep |
| `FullEviction.FreeDefyingQuotas` | cmds/installd/InstalldNativeService.cpp:2089-2294 | a call with DEFY_QUOTA that no measurement stops is such a complete run |
| `Bounce.RatioIsOverQuota` | cmds/installd/CacheTracker.cpp:199-205 | for a positive quota the truncated test `ratio >= 10000` is exactly `used >= quota`, also for negative usage |
| `Bounce.RatioRounds` | cmds/installd/CacheTracker.cpp:199-205 | the ratio is used / quota in units of 1/10000, rounded toward zero, and 0 without a quota |
| `Bounce.RunInv` | cmds/installd/InstalldNativeService.cpp:2206-2276 | the invariant of every run: queued ratios are current, books balance, lists are popped from the back, quotas are respected |
| `Bounce.PurgesAreGreedy` | cmds/installd/InstalldNativeService.cpp:2234-2260 | at every purge no queued tracker's ratio has moved since it was pushed, and the purged tracker's ratio is at least that of every queued one; in terms of usage and quota, it is at least as far over quota up to 1/10000 |
| `Bounce.DefyingQuotaPurgesAll` | cmds/installd/InstalldNativeService.cpp:2222-2276 | with DEFY_QUOTA, leaving the loop other than on a measurement that meets the target means every tracker was loaded and every item popped exactly once, from the back |
| `Bounce.BooksBalance` | cmds/installd/InstalldNativeService.cpp:2252-2276 | at every moment `cacheUsed` is the initial value less the sizes popped, and `needed` is the target less the last measured free space less the sizes popped since; leaving as freed rests on a measurement in the loop |
| `Bounce.StopsAtTarget` | cmds/installd/InstalldNativeService.cpp:2264-2275 | unless the target is defied, until a measurement meets it more is needed, so every purge starts with more needed, and the first measurement that meets the target ends the run |
| `Bounce.MeasuresExactly` | cmds/installd/InstalldNativeService.cpp:2264-2275 | the disk is measured at exactly those purges with which the sizes popped since the last measurement first reach what was missing then; never when the target is defied |
| `Bounce.EndsFor` | cmds/installd/InstalldNativeService.cpp:2222-2276 | a run ends on a measurement that meets the target, at an active tracker below its quota, or with every tracker loaded and every item popped |
| `Bounce.QuotaIsRespected` | cmds/installd/InstalldNativeService.cpp:2225-2262 | without DEFY_QUOTA a tracker starting below quota is never purged, and a purged one stays no lower than its quota less its last purged item |
| `Bounce.AtMostOneBelowQuota` | cmds/installd/InstalldNativeService.cpp:2225-2262 | at most one purged tracker is below its quota in any state of any run |
| `Bounce.OthersStayAsTheyBegan` | cmds/installd/InstalldNativeService.cpp:2225-2262 | without DEFY_QUOTA every tracker but the active one is at or over quota exactly when it began so, at an exit as at any moment |
| `Bounce.StopsCleanExactly` | cmds/installd/InstalldNativeService.cpp:2225-2245 | without DEFY_QUOTA every run that stops for the quota leaves no queued tracker at or over its own, exactly when at most one began so |
| `Bounce.StopsTooEarly` | cmds/installd/InstalldNativeService.cpp:2225-2245 | a run with two trackers at twice their quota that stops with one of them untouched |
| `Bounce.StepsGetSmaller` | cmds/installd/InstalldNativeService.cpp:2222-2276 | every turn lowers the measure (unloaded trackers, items left, live trackers, active missing or beaten), whatever the disk reports |
| `FreeCache.Top` | cmds/installd/InstalldNativeService.cpp:2211-2216 | the queue's top is an entry with the largest recorded ratio |
| `FreeCache.FindBetter` | cmds/installd/InstalldNativeService.cpp:2232-2235 | `nextBetter` on the objects is the scheduler's test |
| `FreeCache.EnsureChosen` | cmds/installd/InstalldNativeService.cpp:2242-2243 | loading the chosen tracker's objects is the scheduler's load |
| `FreeCache.PickNext` | cmds/installd/InstalldNativeService.cpp:2236-2242 | push, top and pop on the objects' ratios give a topmost tracker of the scheduler's queue |
| `FreeCache.SwapIn` | cmds/installd/InstalldNativeService.cpp:2236-2245 | push, top, pop and load on the objects are one swap step of the scheduler |
| `FreeCache.PopLast` | cmds/installd/InstalldNativeService.cpp:2252-2260 | one tracker loses its last item and its size; the path named is that of the entry loaded at that position |
| `FreeCache.PurgeLast` | cmds/installd/InstalldNativeService.cpp:2252-2260 | among all trackers only the active one changes, and the path to purge is named unless NOOP |
| `FreeCache.PurgeOne` | cmds/installd/InstalldNativeService.cpp:2251-2275 | one purge with its re-measurement is one pop step of the scheduler: it measures exactly if the item popped should be enough, stops exactly if the disk's next report meets the target, and otherwise goes on with what is still needed |
| `FreeCache.Turn` | cmds/installd/InstalldNativeService.cpp:2223-2276 | each turn of the loop body takes exactly one step of the scheduler |
| `FreeCache.Prepare` | cmds/installd/InstalldNativeService.cpp:2206-2217 | the populated queue is an initial state of the scheduler |
| `FreeCache.Round` | cmds/installd/InstalldNativeService.cpp:2223-2276 | a turn extends the run, and the measure falls unless the loop stops |
| `FreeCache.Rounds` | cmds/installd/InstalldNativeService.cpp:2222-2276 | the turns end, and then the loop stopped or nothing is active or queued |
| `FreeCache.BounceLoop` | cmds/installd/InstalldNativeService.cpp:2219-2277 | the loop terminates, what it did is a complete run of the scheduler on the successive reports of the disk, measured when due and only until the target is met, and the k-th path purged is that of the entry logged as the k-th purge; none with NOOP |
| `FreeCache.Call` | cmds/installd/InstalldNativeService.cpp:2089-2294 | which measurement the answer rests on, and the status exactly in terms of it; nothing is touched when the space already suffices, and otherwise what was done is a complete run on the disk's reports, with the paths purged, that stops at the first report in the loop that meets the target |
| `LockRegistry.EntriesMatchHolders` | cmds/installd/InstalldNativeService.cpp:319-375 | in every reachable state a key is in the map exactly while a live holder for it exists, and all its live holders share one mutex |
| `LockRegistry.MutualExclusion` | cmds/installd/InstalldNativeService.cpp:319-398 | two guards holding a key exclusively belong to one thread, and are one guard unless the mutex is recursive |
| `LockRegistry.WriterExcludesReaders` | cmds/installd/InstalldNativeService.cpp:377-398 | an exclusive guard of a key excludes every shared guard of it |
| `LockRegistry.LocksExactly` | cmds/installd/InstalldNativeService.cpp:366-388 | in every reachable state a thread can lock a key exclusively exactly when nobody shares it and nobody else has it, itself only with a recursive mutex, and share it exactly when nobody has it exclusively |
| `LockRegistry.UnlocksAlways` | cmds/installd/InstalldNativeService.cpp:367-369 | a guard can always be dropped |
| `LockRegistry.Registry.constructor` | cmds/installd/InstalldNativeService.cpp:319-324 | an empty registry |
| `LockRegistry.Registry.Expired` | cmds/installd/InstalldNativeService.cpp:360 | a weak pointer has expired exactly when no holder refers to its mutex |
| `LockRegistry.Registry.ConstructHolder` | cmds/installd/InstalldNativeService.cpp:326-338 | the constructor's critical section is one step of the registry |
| `LockRegistry.Registry.MoveHolder` | cmds/installd/InstalldNativeService.cpp:339-345 | moving a holder is one step, after which the new one keeps the mutex alive, the old one does not, and the same mutexes are alive |
| `LockRegistry.Registry.DestroyHolder` | cmds/installd/InstalldNativeService.cpp:346-363 | the destructor is one step: the entry goes exactly when the last holder of the key does |
| `DumpPool.TasksStartInOrder` | cmds/dumpstate/DumpPool.cpp:166-180 | tasks start in the order posted, each at most once, and before shutdown none is lost |
| `DumpPool.NoLostWakeup` | cmds/dumpstate/DumpPool.h:154-170 | with spurious wakeups and any interleaving, as many workers are awake as there are tasks, up to all of them |
| `DumpPool.NothingStartsAfterShutdown` | cmds/dumpstate/DumpPool.cpp:56-73 | once shutdown is set it stays set, nothing starts any more and no worker waits; what running tasks still post stays queued, in order |
| `DumpPool.DroppedAtShutdown` | cmds/dumpstate/DumpPool.cpp:56-65 | the shutdown drops what is queued: afterwards the queue holds just what was posted since |
| `DumpPool.JoinedMeansGone` | cmds/dumpstate/DumpPool.cpp:67-70 | the pool is joined only after its shutdown and with every worker gone |
| `DumpPool.WorkersRunStartedTasks` | cmds/dumpstate/DumpPool.cpp:75-89 | in every state there are at most four workers, each running a task that was started, no two the same |
| `DumpPool.LatePost` | cmds/dumpstate/DumpPool.h:165-169 | a run in which a task posts after shutdown and the pool is joined with it still queued |
| `DumpPool.StartsExactly` | cmds/dumpstate/DumpPool.h:165-169 | from any reachable state a task just posted can still start in some continuation exactly when the pool was not shut down at the post |
| `DumpPool.ShutdownCompletes` | cmds/dumpstate/DumpPool.cpp:56-73 | after shutdown some worker can step until all can be joined, and every worker step brings the join closer |
| `DumpPool.Pool.StartThreads` | cmds/dumpstate/DumpPool.cpp:75-89 | starts the requested workers, at most four, in one step |
| `DumpPool.Pool.PostTask` | cmds/dumpstate/DumpPool.h:165-169 | the locked section is one post step, shut down or not: the task joins the back and one waiter, if any, is notified |
| `DumpPool.Pool.LoopTurn` | cmds/dumpstate/DumpPool.cpp:166-180 | each time a worker holds the lock it takes one step: leaves, waits, or takes the front task |
| `DumpPool.Pool.StopWorkers` | cmds/dumpstate/DumpPool.cpp:56-65 | drops what is queued and wakes every waiter in one step, once, and only if there are threads |
| `TaskQueue.InvokedExactlyOnce` | cmds/dumpstate/TaskQueue.cpp:23-36 | with concurrent runs and adds, what was invoked is what was added less what still waits, in order, each once |
| `TaskQueue.InvokedAsBegun` | cmds/dumpstate/TaskQueue.cpp:27-36 | whatever else happens in between, a task taken and finished by a call of run(do_cancel) is invoked once, with that flag; its file is removed, and zipped exactly when the run does not cancel |
| `ZipTasks.AddsExactly` | cmds/dumpstate/dumpstate.cpp:3518-3533 | a zip entry can be added exactly while the main thread works or a pool worker runs a task |
| `ZipTasks.RunsExactly` | cmds/dumpstate/dumpstate.cpp:3076-3084 | another thread can begin a run of the queue, cancelling or not, exactly while the queue exists |
| `ZipTasks.NobodyAddsAfterJoin` | cmds/dumpstate/dumpstate.cpp:3508-3516 | with entries added by the main thread and by tasks running on pool workers, none is added once ShutdownDumpPool has joined the pool |
| `ZipTasks.NothingLeftAfterShutdown` | cmds/dumpstate/dumpstate.cpp:3508-3533 | after its drain, and after the run of the queue's destructor, every added task was invoked exactly once; its file is removed unless another run still has it in hand, and was zipped exactly when not cancelled |
| `ZipTasks.ShutdownCancels` | cmds/dumpstate/dumpstate.cpp:3508-3516 | a task that waits when only the runs of the shutdown are left is never zipped, and in the end its file is removed |
| `ZipTasks.ShutdownGoesOn` | cmds/dumpstate/dumpstate.cpp:3508-3516 | in every state of every run the shutdown can begin, join once the workers are gone, and end each of its runs once the queue is empty |
| `TaskQueue.Queue.constructor` | cmds/dumpstate/TaskQueue.h:48-54 | an empty, open queue |
| `TaskQueue.Queue.BeginRun` | cmds/dumpstate/TaskQueue.cpp:27-28 | a call of run is one begin step |
| `TaskQueue.Queue.AddTask` | cmds/dumpstate/TaskQueue.h:48-54 | the locked section is one add step |
| `TaskQueue.Queue.RunTurn` | cmds/dumpstate/TaskQueue.cpp:27-32 | the loop's test and pop are one step: take the front task, or return when there is none |
| `TaskQueue.Queue.Invoke` | cmds/dumpstate/dumpstate.cpp:3520-3525 | the task zips its file unless cancelled and removes it in either case |
| `TaskQueue.Queue.RunOne` | cmds/dumpstate/TaskQueue.cpp:29-34 | one turn of the loop invokes the front task with the flag of the run |
| `TaskQueue.Queue.Run` | cmds/dumpstate/TaskQueue.cpp:27-36 | alone, run(do_cancel) empties the queue in order, removes every file, and zips all of them or, when cancelling, none |
| `TaskQueue.Queue.Shutdown` | cmds/dumpstate/dumpstate.cpp:3512-3515 | the drain and the destructor leave nothing queued and zip nothing |
| `Consent.SharesOnlyWithConsent` | cmds/dumpstate/dumpstate.cpp:3541-3601 | for every timing of the callbacks the caller's files are written only after an approval, or for a shell caller |
| `Consent.CallbackIsNeverNull` | cmds/dumpstate/dumpstate.cpp:3457-3480 | the callback object exists wherever it is read without a null check |
| `Consent.ScreenshotCopiedOnce` | cmds/dumpstate/dumpstate.cpp:744-782 | for what the caller asked, no run with at most n approvals copies the screenshot twice, exactly when n is at most one or no approval may copy early (no consent needed, no screenshot wanted, or none taken early) |
| `Consent.TwoCopies` | cmds/dumpstate/dumpstate.cpp:747-770 | in every configuration with early copies, a run with two approvals that copies it twice |
| `Consent.StatusMeans` | cmds/dumpstate/dumpstate.cpp:3541-3601 | once past asking, the main thread does what the callback said at its last look: a denial is reported exactly if it said denied, a timeout exactly if there was no answer even at the second look, and the report is shared exactly on an approval |
| `Consent.CallbackHoldsLastAnswer` | cmds/dumpstate/dumpstate.cpp:747-777 | the callback holds the last answer given, or that there is none |
| `Consent.SuccessMeansShared` | cmds/dumpstate/dumpstate.cpp:3572-3588 | a caller told OK has the report, and the screenshot if wanted; one told of a denial or a timeout has no report; the report is never written twice |
| `Consent.SomebodyGoesOn` | cmds/dumpstate/dumpstate.cpp:3541-3601 | in every state of every run the main thread can go on, unless it waits for the lock of an approval, which can go on |
| `Consent.Retrieve` | cmds/dumpstate/dumpstate.cpp:2994-3039 | polling ends, writes exactly on an approval, and times out only after 30 seconds without an answer |
| `Consent.Session.OnReportApproved` | cmds/dumpstate/dumpstate.cpp:747-770 | an approval takes its steps in order: result, decision, early copy |
| `Consent.Session.OnReportDenied` | cmds/dumpstate/dumpstate.cpp:772-777 | a denial is one step |
| `Consent.Session.constructor` | cmds/dumpstate/dumpstate.cpp:744-745 | the protocol's start |
| `Consent.Session.AskForConsent` | cmds/dumpstate/dumpstate.cpp:3544-3550 | the first look at the result is one step; a shell caller needs none |
| `Consent.Session.AskOnceMore` | cmds/dumpstate/dumpstate.cpp:3563 | so is the second |
| `Consent.Session.ActOnConsent` | cmds/dumpstate/dumpstate.cpp:3565-3597 | acting on the result is one step, which writes the report exactly on an approval and reports a denial or a timeout exactly for those results |
| `GidFixup.VisitEntry` | cmds/installd/InstalldNativeService.cpp:1480-1558 | one turn of the loop is one step of the walk |
| `GidFixup.FixupUser` | cmds/installd/InstalldNativeService.cpp:1480-1559 | the loop with skipping and inherited GIDs yields the recursively fixed tree |
| `GidFixup.WalkFixesUser` | cmds/installd/InstalldNativeService.cpp:1480-1559 | the fold over the events computes the recursive meaning for every tree, with and without FORCE |
| `GidFixup.FixupIsIdempotent` | cmds/installd/InstalldNativeService.cpp:1463-1564 | fixing up twice is fixing up once, with and without FORCE |
| `GidFixup.FixupDecides` | cmds/installd/InstalldNativeService.cpp:1506-1557 | nothing appears or disappears, level 0 and 1 stay, and a deeper entry moves to the GID wanted, the owner's cache GID below the cache directories (by name or inode) and the owner's UID elsewhere, exactly when its GID is the app's but another and, without FORCE, so is that of every entry between it and its package directory; a directory moving to the cache GID gets mode 02771, and nothing else changes |
| `GidFixup.ForcedFixupReachesAll` | cmds/installd/InstalldNativeService.cpp:1463-1564 | with FORCE every directory, file or link whose GID is its parent's owner or that owner's cache GID ends with the package's cache GID below its cache directories and its UID elsewhere, with mode 02771 exactly for directories that moved to the cache GID of the parent's owner; everything else is unchanged |
| `ExternalSize.CollectStats` | cmds/installd/InstalldNativeService.cpp:2520-2560 | code is what lies in directories Android/obb/x, cache what lies in directories Android/data/x/cache; code and data add up to the whole tree and cache is within data |
| `ExternalSize.StatsPartition` | cmds/installd/InstalldNativeService.cpp:2520-2560 | the same of the fold over the events, each total as the size of a set of entries given by their paths |
| `ExternalSize.Extension` | cmds/installd/InstalldNativeService.cpp:3027-3029 | what follows the last dot of a name, or nothing when there is none |
| `ExternalSize.CategorizeMeans` | cmds/installd/InstalldNativeService.cpp:3025-3036 | a name is in a category exactly if the table gives that category to what follows its last dot |
| `ExternalSize.MeasureParts` | cmds/installd/InstalldNativeService.cpp:3011-3055 | the loop computes the fold |
| `ExternalSize.SizesPartition` | cmds/installd/InstalldNativeService.cpp:3011-3055 | total is every entry's size, app everything strictly below Android, each category the matching regular files elsewhere; app, audio, video and image never overlap |
| `ExternalSize.ObbIsPart` | cmds/installd/InstalldNativeService.cpp:3057-3060 | unless Android is a symbolic link, the OBB size is that of the entries at or below Android/obb |
| `ExternalSize.MeasureObb` | cmds/installd/InstalldNativeService.cpp:3057-3060 | finding Android/obb and walking it gives that size, or what a symbolic link named Android leads to |
| `ExternalSize.ObbWithinApp` | cmds/installd/InstalldNativeService.cpp:3057-3063 | unless Android is a symbolic link, the OBB size is within the app size |
| `ExternalSize.DeductionIsCovered` | cmds/installd/InstalldNativeService.cpp:3057-3065 | the total after OBB deduction covers audio, video and image together, whatever a link leads to, exactly when Android is not a symbolic link |
| `ExternalSize.NegativeTotal` | cmds/installd/InstalldNativeService.cpp:3057-3065 | a concrete tree whose reported total is negative |
| `ExternalSize.MeasureTree` | cmds/installd/utils.cpp:467-518 | without filters, every entry of the tree is counted once |
| `ExternalSize.GetExternalSize` | cmds/installd/InstalldNativeService.cpp:3011-3065 | the six numbers returned, as sizes of parts of the tree; unless Android is a symbolic link, obb is the part at or below Android/obb and the total is all the rest |
| `Snapshot.AppData.ClearAppData` | cmds/installd/InstalldNativeService.cpp:1184-1226 | both storages are tried; only entries below the scope are lost, on success all of them, for each of the three scopes, and it succeeds exactly when no call fails |
| `Snapshot.AppData.SnapshotDe` | cmds/installd/InstalldNativeService.cpp:1623-1649 | taken exactly when no call fails, and then the DE snapshot is the DE data, or an emptied older one when there is no data; a failed copy is deleted again |
| `Snapshot.AppData.SnapshotCe` | cmds/installd/InstalldNativeService.cpp:1677-1711 | taken exactly when no call fails, and then the CE snapshot is the CE data; a failed copy or inode lookup is undone |
| `Snapshot.AppData.SnapshotAppData` | cmds/installd/InstalldNativeService.cpp:1581-1714 | what a snapshot may change: data loses cache entries only, each snapshot is as said, and DE is copied before caches are cleared; it succeeds when no call fails, and on failure no fragment of a copy is left unless its deletion failed |
| `Snapshot.AppData.RestoreCe` | cmds/installd/InstalldNativeService.cpp:1758-1766 | copying back over cleared data gives exactly the snapshot, which is then dropped; both happen exactly when no call fails |
| `Snapshot.AppData.RestoreDe` | cmds/installd/InstalldNativeService.cpp:1768-1783 | the same for DE |
| `Snapshot.AppData.RestoreAppDataSnapshot` | cmds/installd/InstalldNativeService.cpp:1716-1787 | what a restore may change; it succeeds and drops the snapshots exactly when no call fails, does nothing when no requested snapshot exists, keeps the snapshots when it fails early, and loses both the CE data and its snapshot when DE fails after CE was restored; whether a failed restore can be repeated |
| `Snapshot.RoundTrip` | cmds/installd/InstalldNativeService.cpp:1581-1787 | snapshot, any app writes, restore, all successful: DE data is back as at the start, CE data as copied, with just what lay below its two cache directories lost and used snapshots gone unless their unchecked deletion failed |
| `Snapshot.UncachedExactly` | cmds/installd/InstalldNativeService.cpp:1184-1226 | without its caches a directory holds everything that lies below neither cache directory |
| `Snapshot.DeComesBackExactly` | cmds/installd/InstalldNativeService.cpp:1640-1643 | DE contents come back after every successful restore, whatever was written, exactly when there was DE data or some snapshot directory makes the restore clear it |
| `Snapshot.CeComesBackExactly` | cmds/installd/InstalldNativeService.cpp:1651-1656 | CE contents come back exactly when there was CE data, or the older CE snapshot is empty, or there is none and DE makes the restore clear CE |
| `Snapshot.StaleSnapshot` | cmds/installd/InstalldNativeService.cpp:1651-1656 | both calls, all their calls succeeding, on a device without CE data bring an earlier snapshot back |
| `Snapshot.NothingRestored` | cmds/installd/InstalldNativeService.cpp:1734-1741 | both calls on a device without DE data leave what the app wrote in between |
| `Snapshot.RestoreIsFinal` | cmds/installd/InstalldNativeService.cpp:1734-1741 | once the snapshots are dropped another restore has no effect |
| `Snapshot.RepeatExactly` | cmds/installd/InstalldNativeService.cpp:1734-1783 | after any restore, another that succeeds gives back what the first was to restore exactly when, for each storage, what it would leave (the snapshot if there is one, nothing if only the other storage has one, else the data as it is) is what the first snapshot held |
| `Snapshot.Cycle` | cmds/installd/InstalldNativeService.cpp:1581-1787 | the round trip on one object, which succeeds whenever no call fails |
| `DexOptStatus.DexOptStatus.constructor` | cmds/installd/dexopt.cpp:143-152 | not blocked, nothing registered, nothing killed |
| `DexOptStatus.DexOptStatus.CheckCancellationAndFork` | cmds/installd/dexopt.cpp:96-108 | cancelled exactly when blocked, and then nothing is forked; otherwise a positive pid is registered |
| `DexOptStatus.DexOptStatus.CheckIfKilledAndRemove` | cmds/installd/dexopt.cpp:112-119 | says whether the pid was killed and removes it from both sets |
| `DexOptStatus.DexOptStatus.ControlBlocking` | cmds/installd/dexopt.cpp:128-141 | blocking kills exactly the registered children and moves them to the killed set; unblocking keeps both sets |
| `DexOptStatus.ChildrenAreAccountedFor` | cmds/installd/dexopt.cpp:90-152 | in every state of every run nothing is registered while blocked, and a started, not yet removed child is registered or killed, never both |
| `DexOptStatus.CallSince` | cmds/installd/dexopt.cpp:1803-1807 | a call is there from the moment it came in |
| `DexOptStatus.CompletedExactly` | cmds/installd/dexopt.cpp:1994-2050 | in every run an ended call is completed exactly if its compiler exited with 0 and the result was committed, or its analyser said there is nothing to compile; a secondary dex file is compiled only if its analyser wants that or the caller forces it |
| `DexOptStatus.OutcomeExactly` | cmds/installd/dexopt.cpp:1803-2008 | every ended call ended by what it met at one moment since it came in: not completed exactly if it found dexopt blocked, or if its child died by SIGKILL and was killed by dexopt; failed or completed as the exit says |
| `DexOptStatus.CallsGoOn` | cmds/installd/dexopt.cpp:1803-2008 | a call is never stuck: its next look ends it while dexopt is blocked, else it reaches its next phase, forks, and collects any exit |
| `DexOptStatus.KilledCompile` | cmds/installd/dexopt.cpp:128-141 | a run in which blocking kills a compiler and its call ends as not completed |
| `DexOptStatus.ProcessResult` | cmds/installd/dexopt.cpp:1389-1437 | which exit codes of the analyser are valid, and which of them ask for compilation |
| `DexOptStatus.AfterAnalyser` | cmds/installd/dexopt.cpp:1733-1772 | from the wait status of the analyser: cancelled exactly if it died by SIGKILL and was killed by dexopt, else failed unless it exited with a valid code, and compiling exactly if needed, or forced with the file there |
| `DexOptStatus.AfterCompiler` | cmds/installd/dexopt.cpp:1994-2050 | from the wait status of the compiler: completed exactly if it exited with 0 and the result was committed, not completed exactly if it died by SIGKILL and was killed by dexopt |
| `DexOptStatus.Conclude` | cmds/installd/dexopt.cpp:1733-2050 | both on the wait status are what the interleaved calls do on the exit |
| `DexOptStatus.NotCompletedMeansBlocked` | cmds/installd/dexopt.cpp:1994-2005 | a call reports not-completed only if dexopt was blocked at some moment during that call, also through the secondary-dex child |
| `MoveAb.Slots.UnlinkAndRename` | cmds/installd/dexopt.cpp:2304-2329 | moves the B file over the A file, or leaves B alone; without failing calls it succeeds exactly when A is not a special file |
| `MoveAb.Slots.MovePath` | cmds/installd/dexopt.cpp:2331-2361 | one artifact moved or not, and the B file gone either way unless calls fail |
| `MoveAb.Slots.Move` | cmds/installd/dexopt.cpp:2363-2427 | on success A's oat and vdex are what B's were and the image is B's, absent, or the old one if it could not be deleted; without failing calls success means that both could be moved |
| `MoveAb.WholeExactly` | cmds/installd/dexopt.cpp:2399-2426 | without failing calls oat and vdex stay a pair, both new or both old, exactly unless the oat file could be moved and the vdex file could not, with both differing |
| `MoveAb.TornMove` | cmds/installd/dexopt.cpp:2399-2426 | a B slot without vdex file leaves the new oat file beside the old vdex file |
| `Progress.StatsRoundTrip` | cmds/dumpstate/dumpstate.cpp:3728-3757 | the stats line printed by Save is read back by Load as the same two numbers |
| `Progress.NoNumberNoRuns` | cmds/dumpstate/dumpstate.cpp:3716-3735 | a stats file that does not begin with a number counts no runs and gives the default estimate |
| `Progress.Progress.constructor` | cmds/dumpstate/dumpstate.cpp:3689-3741 | the estimate loaded from any file content is positive, the stored average if it is in range and 5000 otherwise |
| `Progress.Progress.Inc` | cmds/dumpstate/dumpstate.cpp:3763-3775 | negative deltas are ignored; a maximum that is passed grows by the factor, rounded down, and covers the progress |
| `Progress.Progress.Save` | cmds/dumpstate/dumpstate.cpp:3743-3757 | the new line holds one run more than was read and the average over all of them, rounded down; there is none exactly when -1 runs were read, which makes the source divide by zero |
| `Progress.SavedExactly` | cmds/dumpstate/dumpstate.cpp:3743-3757 | a number of bugreports can all be saved exactly when the count on file does not pass through -1 |
| `Progress.AlwaysSavedExactly` | cmds/dumpstate/dumpstate.cpp:3743-3757 | however many follow, exactly when the count on file is not negative |
| `Progress.MinusOneRuns` | cmds/dumpstate/dumpstate.cpp:3743-3746 | a stats file that makes the next save divide by zero |
| `Progress.LeavesNoTraceExactly` | cmds/dumpstate/dumpstate.cpp:3731-3746 | what is on file leaves no trace in the next average exactly when it counts no runs, valid or not |
| `Progress.InvalidLineCounts` | cmds/dumpstate/dumpstate.cpp:3731-3746 | a line rejected as out of range that still enters the next average |
| `Progress.GrowthFactorMatters` | cmds/dumpstate/dumpstate.cpp:3769 | a maximum that has just grown covers the progress exactly when the growth factor is at least one |
| `Progress.UpdateKeepsGood` | cmds/dumpstate/dumpstate.cpp:4438-4481 | one update keeps progress within the maximum, which never falls, and the reports rising within 0..100 |
| `Progress.ReportsExactly` | cmds/dumpstate/dumpstate.cpp:4450-4464 | an update reports exactly if reports are asked for and none was positive yet or a whole percent was gained; what it reports is the progress in percent of the maximum, rounded down |
| `Progress.ReportsRise` | cmds/dumpstate/dumpstate.cpp:4438-4481 | over any updates the maximum covers the progress, which is the sum of the deltas that count, and reported percentages are in 0..100 and strictly increase once positive |
| `Progress.Dumpstate.UpdateProgress` | cmds/dumpstate/dumpstate.cpp:4438-4481 | the method reports exactly as the specification does |
| `Progress.AverageIsClose` | cmds/dumpstate/dumpstate.cpp:3710-3757 | after n bugreports the stats file holds n and an average that is at most the true mean of their progress and at most (n - 1) / 2 below it |
| `Progress.EstimateGivesUp` | cmds/dumpstate/dumpstate.cpp:3731-3738 | a bugreport starts from the saved average exactly while at most 1000 were saved and it is in range; after more the estimate is the default for good |

## Left out

- File-system errors during walks (FTS_DNR, FTS_ERR, FTS_NS), concurrent changes to a tree being walked, and mount points inside it (FTS_XDEV).
- Purging a symbolic link marked by a tombstone truncates the link's target; the model empties the entry itself. Failing unlink and truncate calls are not modelled.
- Creating the trackers (directory scan, UID mapping, quotas from quotactl) and the old eviction logic; a tracker's roots and figures are inputs.
- CacheEvict: the roots a tracker walks are taken to be different directories, none inside another, and nothing else changes the files during an eviction.
- `std::stable_sort` is modelled as halving and merging with insertion for ranges of at most two items, and `std::priority_queue` as a map from trackers to the ratio each had when pushed, whose top is any entry with the largest one.
- 64-bit wrap-around and the narrowing of the cache ratio to `int`: integers are unbounded.
- Interleavings are explored by the state machines on values, not by the classes; what compilers and memory do to accesses outside a lock is not captured. Deadlock freedom of the granular locks is not claimed: the source takes user and package locks in both orders.
- LockRegistry: guards are assumed to be released before their holder is moved or destroyed, as scoping in the macros ensures.
- DumpPool: starting a stopped pool again is not modelled. Temporary files and durations are left out.
- ZipTasks: a run of the queue on another thread begins only while the queue exists; the unlocked use of the pointer to it is not modelled.
- GidFixup: one user directory at a time, chown and chmod succeed, and the expected GID of a package's children is computed at their visit rather than in a pass over all children before it, from the same stat and extended attributes.
- ExternalSize: the extension table is an arbitrary function, and the quota-based measurements are left out.
- Snapshot: the flags for external storage, the attributes of the package directory itself, and the removal of inode attributes after a full clear; the names of the CE cache directories, which the source finds by inode, are inputs.
- DexOptStatus: a pid is not reused before its child is removed, as the source assumes; how the result is committed, and what dex2oat writes, is left out beyond whether it succeeds.
- Consent: what happens to the temporary files after a denial or a timeout is left out.
- MoveAb: paths and slot suffixes are taken as valid, and a symbolic link counts as what it leads to.
- Progress: arithmetic is exact, where the source goes through `float`; numbers read from the stats file are not truncated to 32 bits.
- `chown_app_dir`, `destroyAppDataSnapshot`, `restorecon` and the profile and package management calls, which would add simpler walks of the same kind.
- Command-line handling, section lists, logging and the vibrator, GL, input and bugreportz tools.
