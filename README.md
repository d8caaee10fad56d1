# FilePreloader: the cache and scheduling bookkeeping, in Dafny

FilePreloader is an Android library that fetches metadata for the files of
a directory before the user opens it. For each element type it keeps two
things:

- a map from folder path to a `PreloadedFolder`, which holds the results
  loaded so far and how many results to expect;
- a `UniqueQueue` of folder paths. It records how recently each folder was
  registered and decides which folders are evicted once the map grows too
  large.

This project models that bookkeeping with every critical section run
atomically and one after another:

- `common.dfy`: shared types. It has `Result` with the two exceptions the
  code throws, `Option` for Kotlin's `null`, the constants `DIVIDER`,
  `PRIORITY_NOW` and `PRIORITY_FUTURE`, and the `FileSystem` oracle. The
  oracle gives a directory's listing, its listing of directories only, and
  a path's parent, each of which may be `null`.
- `preloaded_folder.dfy`: `PreloadedFolder` as a class over a `set`.
  `IsComplete` holds exactly when the set's size equals the expected count.
- `linked_queue.dfy`, `queue_index.dfy` and `unique_queue.dfy`:
  `UniqueQueue`, i.e. the hand-written doubly linked list, its path to node
  index, and the class holding both.
  - Nodes are numbered, and their `next`, `last` and `data` fields are
    tables indexed by node number.
  - Ghost layouts describe the linked nodes, the "pending" old tails that
    `last` still reaches, and the popped nodes.
  - Every operation is proved against `AfterAdd`, `AfterRemove` and
    `EvictionOrder` on path sequences.
  - The list's defects are reproduced, not repaired. Unlinking never moves
    `first` or `last`. `remove()` never clears the index. Popping the only
    node leaves `last` set.
- `unique_priority_queue.dfy`: `UniquePriorityBlockingQueue`.
  - It cancels a duplicate's queued copies.
  - `poll` returns a least-priority unit.
  - `clear` keeps `containedCheck`, and `isNotEmpty` consults only
    `containedCheck`.
- `preloaded_manager.dfy`: `PreloadedManager`, the per-type registry of
  maps, delete queues and mutexes.
- `cache.dfy`: one type's cache as values (`Cache`), i.e. each folder's
  expected size plus the delete queue's paths. It covers:
  - what registration, eviction (`cleanOldEntries`) and `loadFolder` do to
    the cache;
  - the units `loadFrom` sends, as `SentUnit` values. A `SentUnit` is the
    source's `PreloadableUnit(future, priority)` described by what its
    future yields (folder, item, result) and how it is started. The
    `PreloadableUnit` of `unique_priority_queue.dfy` keeps the future as an
    object, because that queue's deduplication compares futures;
  - the eviction policy, proved as lemmas.
- `loader.dfy`: `Loader`, whose methods change the heap objects. Each is
  proved equal to the `Cache` functions.
- `processor.dfy`: the earlier single-global `Processor` with its
  `PRELOAD_LIST` and `PRELOADED_MAP`. It is specified by functions on
  `Globals` values, and the class methods are proved against them.
- `specialized_preloader.dfy`: `SpecializedPreloader`, i.e. the delegations
  and the three-way decision of `load`.

Some behaviours of the source are proved here rather than assumed:

- Re-adding the path at the tail of the delete queue leaves it both pending
  and at the head. It is then evicted twice: once first, once last
  (`ReAddedOldestIsEvictedTwice`, `ReAddOldestIsEvictedFirst`).
- A path that is registered while it is still waiting in the delete queue
  can be evicted by the cleanup its own registration starts. This happens
  when its earlier entry was evicted through a pending copy.
  `FreshFolderSurvives` proves survival only when the path is not queued.
- Adding a unit twice to `UniquePriorityBlockingQueue` and polling once
  makes the queue report itself empty while a copy still waits
  (`DuplicateHidesWaitingUnit`).
- In `Processor`, `work()` never removes its loaders, so every later run
  fetches for all of them again. With a fetcher whose results compare by
  value, the rerun changes nothing (`RunTwice`). With the identity-equal
  `DataContainer` results that a constructor fetcher builds, each rerun
  adds a copy per loader and leaves every non-empty folder incomplete
  (`PastCountNeverComplete`).

Two places where the model follows the code rather than what a reader
might expect:

- `loadFolder` overwrites the entry without an eviction check, so the map
  can pass `PRELOADED_MAP_MAXIMUM`.
- `UniquePriorityBlockingQueue.clear` clears the queue twice and never
  clears `containedCheck`.

## Model

| member | source | states |
|---|---|---|
| Common.ChildInjective | lib/src/main/java/com/amaze/filepreloaderlibrary/Loader.kt:61 | a child path is never its folder, and two names give the same child path exactly when they are equal |
| Common.AppendAll | lib/src/main/java/com/amaze/filepreloaderlibrary/PreloadedManager.kt:43-45 | appending a folder's set adds exactly its elements, once each, to the list |
| PreloadedFolders.PreloadedFolder.constructor | lib/src/main/java/com/amaze/filepreloaderlibrary/PreloadedFolder.kt:8 | a new folder holds nothing and expects the count it was given, which is fixed |
| PreloadedFolders.PreloadedFolder.Add | lib/src/main/java/com/amaze/filepreloaderlibrary/PreloadedFolder.kt:9-11 | returns true exactly when the element was absent; the set gains it; the size grows by one exactly when it returns true |
| PreloadedFolders.PreloadedFolder.IsComplete | lib/src/main/java/com/amaze/filepreloaderlibrary/PreloadedFolder.kt:13-15 | complete exactly at the expected count: a negative count is never reached, and an empty folder is complete only when it expects nothing |
| PreloadedFolders.PreloadedFolder.PastCountNeverComplete | lib/src/main/java/com/amaze/filepreloaderlibrary/PreloadedFolder.kt:9-15 | no capacity is enforced: adding new results to a complete folder takes its size past the expected count, and it is no longer complete |
| PreloadedFolders.EmptyListingIsComplete | lib/src/main/java/com/amaze/filepreloaderlibrary/PreloadedFolder.kt:8-15 | a folder constructed with 0 is complete at once |
| PreloadedFolders.CompletionIsExact | lib/src/main/java/com/amaze/filepreloaderlibrary/PreloadedFolder.kt:9-15 | with count 2: a duplicate add returns false and leaves it incomplete; the second distinct result completes it; a third makes it incomplete |
| LinkedQueues.AddFirstKeeps | lib/src/main/java/com/amaze/filepreloaderlibrary/UniqueQueue.kt:38-44 | `addFirst` makes a fresh node for the path, makes it `first`, changes no other node's path, and keeps the queue in shape with the new node heading the list |
| LinkedQueues.RemoveLastKeeps | lib/src/main/java/com/amaze/filepreloaderlibrary/UniqueQueue.kt:46-55 | `remove()` throws NoSuchElementException when `last` is null; otherwise it returns the path at `last`; when that node has a predecessor, the predecessor becomes `last` with `next` cleared; popping the only node clears `first` but keeps `last` |
| LinkedQueues.UnlinkKeeps | lib/src/main/java/com/amaze/filepreloaderlibrary/UniqueQueue.kt:57-60 | `remove(n)` joins n's neighbours and never moves `first` or `last`; an unlinked tail stays reachable from `last` as a pending node |
| LinkedQueues.ClearKeeps | lib/src/main/java/com/amaze/filepreloaderlibrary/UniqueQueue.kt:64-67 | `clear()` drops both ends, leaving the queue in shape, empty and with no list |
| LinkedQueues.AddFirstShape | lib/src/main/java/com/amaze/filepreloaderlibrary/UniqueQueue.kt:38-44 | the new node's `next` is the old head and the old head's `last` is the new node, so the doubly linked shape is kept |
| LinkedQueues.PopShape | lib/src/main/java/com/amaze/filepreloaderlibrary/UniqueQueue.kt:48-50 | popping a node that points back moves `last` to its predecessor and clears that node's `next`, keeping the shape |
| LinkedQueues.UnlinkShape | lib/src/main/java/com/amaze/filepreloaderlibrary/UniqueQueue.kt:57-60 | unlinking a linked or popped node keeps every linked node reachable from `first`, in order, without it |
| QueueIndexes.AddMembers | lib/src/main/java/com/amaze/filepreloaderlibrary/UniqueQueue.kt:12-19 | after `add(p)`, the linked paths are the old ones plus p, p heads them, p occurs once, and they stay distinct |
| QueueIndexes.RemoveFollowsOrder | lib/src/main/java/com/amaze/filepreloaderlibrary/UniqueQueue.kt:26 | `remove()` returns the first path of the eviction order and leaves the rest of it, or throws NoSuchElementException when the order is empty |
| QueueIndexes.HeadIsEvictedLast | lib/src/main/java/com/amaze/filepreloaderlibrary/UniqueQueue.kt:38-55 | a path put at the head is evicted after every other path |
| QueueIndexes.ReAddedOldestIsEvictedTwice | lib/src/main/java/com/amaze/filepreloaderlibrary/UniqueQueue.kt:15-16 | re-adding the tail's path makes it pending and the head, so it is evicted right after the pending paths and again at the end |
| QueueIndexes.MoveToFront | lib/src/main/java/com/amaze/filepreloaderlibrary/UniqueQueue.kt:13-18 | after `add`, the index maps the path to the new head node and keeps every other path on its node, linked or popped |
| QueueIndexes.AddKeeps | lib/src/main/java/com/amaze/filepreloaderlibrary/UniqueQueue.kt:12-19 | `add` on a queue in good order keeps it in good order; the new node heads the list and the path's old node is unlinked |
| QueueIndexes.AddUnlinked | lib/src/main/java/com/amaze/filepreloaderlibrary/UniqueQueue.kt:13-16 | adding a path that is not linked unlinks nothing: the list grows by one node in front and the old order is kept behind it |
| QueueIndexes.AddLinked | lib/src/main/java/com/amaze/filepreloaderlibrary/UniqueQueue.kt:15-16 | adding a linked path unlinks its old node; the other nodes keep their relative order |
| QueueIndexes.AddData | lib/src/main/java/com/amaze/filepreloaderlibrary/UniqueQueue.kt:13-16 | the paths after `add`: the path heads the old ones; an interior old place is removed; an old place at the tail joins the pending paths |
| QueueIndexes.RemoveKeeps | lib/src/main/java/com/amaze/filepreloaderlibrary/UniqueQueue.kt:26 | `remove()` keeps the queue and index in good order, except that popping the only linked node leaves `last` behind; the index is not changed |
| QueueIndexes.RemoveData | lib/src/main/java/com/amaze/filepreloaderlibrary/UniqueQueue.kt:46-55 | the paths after `remove()` and the path returned are those of `AfterRemove` |
| QueueIndexes.Locate | lib/src/main/java/com/amaze/filepreloaderlibrary/UniqueQueue.kt:15 | the index finds a path's node in the list exactly when the path is linked, at the path's position |
| UniqueQueues.UniqueQueue.IsEmpty | lib/src/main/java/com/amaze/filepreloaderlibrary/UniqueQueue.kt:28 | true exactly when `last` is null; on a queue in good order, exactly when nothing is left to evict |
| UniqueQueues.UniqueQueue.ContentsDistinct | lib/src/main/java/com/amaze/filepreloaderlibrary/UniqueQueue.kt:12-19 | a queue in good order never links a path twice |
| UniqueQueues.UniqueQueue.Add | lib/src/main/java/com/amaze/filepreloaderlibrary/UniqueQueue.kt:12-19 | keeps good order; the index maps the path to the new `first` node; the linked and pending paths are `AfterAdd` of the old ones |
| UniqueQueues.UniqueQueue.Remove | lib/src/main/java/com/amaze/filepreloaderlibrary/UniqueQueue.kt:26 | returns the next path of the eviction order (or NoSuchElementException) and keeps the index; after popping the only node the queue is out of order and not empty; a popped path stays indexed |
| UniqueQueues.UniqueQueue.Clear | lib/src/main/java/com/amaze/filepreloaderlibrary/UniqueQueue.kt:21-24 | empties the list and the index; afterwards `isEmpty()` holds |
| UniqueQueues.ReAddOldestIsEvictedFirst | lib/src/main/java/com/amaze/filepreloaderlibrary/UniqueQueue.kt:12-19 | adding a, b and then a again gives the evictions a, b, a |
| UniqueQueues.PopOnlyPathStaysNonEmpty | lib/src/main/java/com/amaze/filepreloaderlibrary/UniqueQueue.kt:48-53 | after one add and one remove, `isEmpty()` is still false |
| UniqueQueues.PoppedPathStaysIndexed | lib/src/main/java/com/amaze/filepreloaderlibrary/UniqueQueue.kt:26 | a path returned by `remove()` is still in the index |
| UniquePriorityQueues.LeastIndex | lib/src/main/java/com/amaze/filepreloaderlibrary/UniquePriorityBlockingQueue.kt:29 | the position of a unit whose priority is least in the queue, the first such one |
| UniquePriorityQueues.UniquePriorityBlockingQueue.Add | lib/src/main/java/com/amaze/filepreloaderlibrary/UniquePriorityBlockingQueue.kt:14-26 | the unit is always queued, duplicates included; it is recorded as seen; its future ends up cancelled exactly when it already was or an equal unit was both seen and still queued |
| UniquePriorityQueues.UniquePriorityBlockingQueue.Poll | lib/src/main/java/com/amaze/filepreloaderlibrary/UniquePriorityBlockingQueue.kt:28-32 | returns None on an empty queue; otherwise takes out one unit of least priority (as a multiset) and forgets it was seen |
| UniquePriorityQueues.UniquePriorityBlockingQueue.Clear | lib/src/main/java/com/amaze/filepreloaderlibrary/UniquePriorityBlockingQueue.kt:34-37 | the queue is emptied and the seen set is left as it was |
| UniquePriorityQueues.UniquePriorityBlockingQueue.QueuedSeenIsNotEmpty | lib/src/main/java/com/amaze/filepreloaderlibrary/UniquePriorityBlockingQueue.kt:39 | `isNotEmpty()` reads the seen set: while every queued unit is still seen, a queue holding a unit reports itself non-empty (the two scenarios below show the converse fails and the premise can break) |
| UniquePriorityQueues.DuplicateHidesWaitingUnit | lib/src/main/java/com/amaze/filepreloaderlibrary/UniquePriorityBlockingQueue.kt:14-39 | adding a unit twice cancels its future; after one poll the queue reports itself empty while one copy still waits |
| UniquePriorityQueues.ClearedStillNotEmpty | lib/src/main/java/com/amaze/filepreloaderlibrary/UniquePriorityBlockingQueue.kt:34-39 | after `clear`, `isNotEmpty()` is true and `poll` returns nothing |
| UniquePriorityQueues.SameFutureOtherPriorityNotCancelled | lib/src/main/java/com/amaze/filepreloaderlibrary/UniquePriorityBlockingQueue.kt:15-23 | units with one future but different priorities are unequal, so neither is cancelled |
| PreloadedManagers.PreloadedManager.Add | lib/src/main/java/com/amaze/filepreloaderlibrary/PreloadedManager.kt:25-28 | installs a fresh empty queue, a fresh empty map and a fresh mutex for the type, replacing earlier ones; every other type's entry and mutex are unchanged |
| PreloadedManagers.AddThenLookUp | lib/src/main/java/com/amaze/filepreloaderlibrary/PreloadedManager.kt:25-85 | after `add(clazz)` every lookup of `clazz` succeeds, with a new empty folder map, a new delete queue with nothing to evict and a new mutex; the lookups of every other type answer as before |
| PreloadedManagers.PreloadedManager.LookUpsAgree | lib/src/main/java/com/amaze/filepreloaderlibrary/PreloadedManager.kt:61-85 | while every entry has its mutex, the folder-map, delete-queue and mutex lookups succeed or fail together, exactly for a type that was added, and fail only with NullPointerException |
| PreloadedManagers.PreloadedManager.GetAllLoaded | lib/src/main/java/com/amaze/filepreloaderlibrary/PreloadedManager.kt:38-50 | as a multiset, the list is every element of every folder of every type, counted once per folder |
| PreloadedManagers.AppendClasses | lib/src/main/java/com/amaze/filepreloaderlibrary/PreloadedManager.kt:41-47 | the outer loop over the types adds every folder's elements of every type |
| PreloadedManagers.AppendFolders | lib/src/main/java/com/amaze/filepreloaderlibrary/PreloadedManager.kt:42-46 | the inner loop over one type's folders adds each folder's elements |
| Caches.RemoveNEffect | lib/src/main/java/com/amaze/filepreloaderlibrary/Loader.kt:128-131 | `n` pops of the delete queue consume the first `n` paths of its eviction order and leave the rest |
| Caches.CleanEffect | lib/src/main/java/com/amaze/filepreloaderlibrary/Loader.kt:127-133 | `cleanOldEntries` drops exactly the entries of the paths it pops; kept entries keep their size and stay queued |
| Caches.EvictionHasRoom | lib/src/main/java/com/amaze/filepreloaderlibrary/Loader.kt:43-45 | once the map passes 40000 entries, the queue holds more than the 10001 paths cleanup pops, so its early `break` never happens |
| Caches.InsertAndEvictEffect | lib/src/main/java/com/amaze/filepreloaderlibrary/Loader.kt:43-44 | insertion then eviction keeps the old entries plus the new one, minus the first 10001 queued paths exactly when the map passed the maximum |
| Caches.RegisterEffect | lib/src/main/java/com/amaze/filepreloaderlibrary/Loader.kt:40-45 | registration of an absent folder: it is first in the linked queue and last to evict; the entries are the old ones plus it, minus the evicted paths; sizes are kept; every entry stays queued |
| Caches.RegisterKeepsTracked | lib/src/main/java/com/amaze/filepreloaderlibrary/Loader.kt:40-45 | registration keeps every registered folder waiting in the delete queue |
| Caches.AddKeepsOrder | lib/src/main/java/com/amaze/filepreloaderlibrary/Loader.kt:45 | queueing a path keeps every path of the eviction order and ends the order with that path |
| Caches.FreshFolderSurvives | lib/src/main/java/com/amaze/filepreloaderlibrary/Loader.kt:43-45 | a folder whose path is not still queued survives the cleanup its own registration starts, with its listing's size |
| Caches.NoEvictionBelowMaximum | lib/src/main/java/com/amaze/filepreloaderlibrary/Loader.kt:44 | while the map stays at or below 40000 entries, registration only adds the new entry |
| Caches.StepKeepsTracked | lib/src/main/java/com/amaze/filepreloaderlibrary/Loader.kt:39-52 | a guarded registration block keeps every entry queued, whether it registers or not |
| Caches.OverwriteEffect | lib/src/main/java/com/amaze/filepreloaderlibrary/Loader.kt:115-118 | `loadFolder` replaces the entry with the listing's size and queues the path, with no eviction; the map grows by one only for a new folder |
| Caches.LoadFromPriorities | lib/src/main/java/com/amaze/filepreloaderlibrary/Loader.kt:34-96 | the target folder's units have `PRIORITY_NOW` and fill the target; every child and parent unit has `PRIORITY_FUTURE` and starts lazily; each unit fetches an item `folder/name` of the folder it fills |
| Caches.ChildrenPriorities | lib/src/main/java/com/amaze/filepreloaderlibrary/Loader.kt:59-75 | every unit of the children block has `PRIORITY_FUTURE`, starts lazily, and fetches an item `folder/name` of the folder it fills |
| Caches.SentEffect | lib/src/main/java/com/amaze/filepreloaderlibrary/Loader.kt:147-151 | each unit sent for a listing fills the folder at the given priority, starts eagerly exactly at `PRIORITY_NOW` and fetches an entry of the folder; two units fetch the same item exactly when their names are equal |
| Caches.Children | lib/src/main/java/com/amaze/filepreloaderlibrary/Loader.kt:59-75 | the children block keeps every entry queued |
| Caches.ParentStep | lib/src/main/java/com/amaze/filepreloaderlibrary/Loader.kt:79-92 | the parent block, when there is a parent, keeps every entry queued |
| Caches.LoadFrom | lib/src/main/java/com/amaze/filepreloaderlibrary/Loader.kt:34-96 | `loadFrom` keeps every entry queued |
| Loaders.PopOnce | lib/src/main/java/com/amaze/filepreloaderlibrary/Loader.kt:129-130 | one pass of the cleanup: pop the next path of the order and drop its entry |
| Loaders.CleanOldEntries | lib/src/main/java/com/amaze/filepreloaderlibrary/Loader.kt:127-133 | on a queue longer than the passes, the queue is popped 10001 times and the map loses exactly the popped paths |
| Loaders.InsertAndClean | lib/src/main/java/com/amaze/filepreloaderlibrary/Loader.kt:43-44 | the cache after inserting a fresh folder is `InsertAndEvict` of the old one |
| Loaders.Register | lib/src/main/java/com/amaze/filepreloaderlibrary/Loader.kt:43-45 | the cache after registration is `Register` of the old one |
| Loaders.RegisterFolder | lib/src/main/java/com/amaze/filepreloaderlibrary/Loader.kt:39-52 | a guarded registration block changes the cache as `Step` says and sends its units |
| Loaders.OverwriteEntry | lib/src/main/java/com/amaze/filepreloaderlibrary/Loader.kt:115-118 | a fresh empty folder with no listener replaces the entry, and the cache is `Overwrite` of the old one |
| Loaders.LoadFromEntry | lib/src/main/java/com/amaze/filepreloaderlibrary/Loader.kt:34-96 | both producers change the cache as `LoadFrom` says and send its high- and low-priority units |
| Loaders.LoadNeighbours | lib/src/main/java/com/amaze/filepreloaderlibrary/Loader.kt:57-95 | the low-priority producer follows `Neighbours` |
| Loaders.LoadParent | lib/src/main/java/com/amaze/filepreloaderlibrary/Loader.kt:79-92 | the parent block follows `ParentStep` |
| Loaders.LoadChildren | lib/src/main/java/com/amaze/filepreloaderlibrary/Loader.kt:59-75 | the children loop follows `Children` |
| Loaders.SendAll | lib/src/main/java/com/amaze/filepreloaderlibrary/Loader.kt:110-112 | the send loop produces `Sent`: one unit per name, in order |
| Loaders.Loader.LoadFrom | lib/src/main/java/com/amaze/filepreloaderlibrary/Loader.kt:34-96 | NullPointerException without an entry; otherwise the cache and both unit lists are `LoadFrom` of the old cache |
| Loaders.Loader.LoadFolder | lib/src/main/java/com/amaze/filepreloaderlibrary/Loader.kt:104-122 | NullPointerException without an entry; otherwise one `PRIORITY_NOW` unit per listed name, and the cache is `Overwrite` of the old one with the listing's size |
| Loaders.Loader.Clear | lib/src/main/java/com/amaze/filepreloaderlibrary/Loader.kt:138-142 | NullPointerException without an entry; otherwise the map and the delete queue are empty |
| Loaders.Loader.GetLoaded | lib/src/main/java/com/amaze/filepreloaderlibrary/Loader.kt:159-165 | NullPointerException without a mutex or entry; None exactly when the path has no entry; otherwise whether the folder is complete, and its results as a multiset |
| Loaders.Loader.SetCompletionListener | lib/src/main/java/com/amaze/filepreloaderlibrary/Loader.kt:171-181 | NullPointerException without a mutex or entry; with no entry for the path the listener is called at once with null; otherwise it is stored on the folder and not called |
| Processors.LoadersEffect | lib/src/main/java/com/amaze/filepreloaderlibrary/Processor.kt:103-105 | each queued loader runs the caller's fetcher on an entry of the folder, never the folder itself; two fetch the same file exactly when their names are equal |
| Processors.LoadedResults | lib/src/main/java/com/amaze/filepreloaderlibrary/Processor.kt:175-178 | `load()` of a queued loader is its folder paired with the fetcher's result for its file, so the loaders of a listing bring the folder the fetcher's result for every listed entry |
| Processors.RunLoaded | lib/src/main/java/com/amaze/filepreloaderlibrary/Processor.kt:160-169 | running the loaders keeps the set of folder paths |
| Processors.RunOk | lib/src/main/java/com/amaze/filepreloaderlibrary/Processor.kt:160-169 | `work()` succeeds exactly when every queued loader's folder has an entry; otherwise it throws NullPointerException |
| Processors.RunCollects | lib/src/main/java/com/amaze/filepreloaderlibrary/Processor.kt:160-169 | a successful `work()` adds to each folder exactly the results of its own loaders |
| Processors.FailSticks | lib/src/main/java/com/amaze/filepreloaderlibrary/Processor.kt:162-166 | once the run throws on a prefix of the list, the loaders after it change nothing |
| Processors.RunTwice | lib/src/main/java/com/amaze/filepreloaderlibrary/Processor.kt:160-169 | `work()` leaves its loaders queued, so a second run fetches for all of them again; for a fetcher whose results compare by value, that rerun changes nothing (see "## Left out" for identity-equal results) |
| Processors.InstallEffect | lib/src/main/java/com/amaze/filepreloaderlibrary/Processor.kt:103-106 | registering a folder queues exactly its loaders and gives it an empty entry of the listing's size, replacing any earlier one |
| Processors.WorkEffect | lib/src/main/java/com/amaze/filepreloaderlibrary/Processor.kt:98-110 | `work(unit)` throws on a null listing and changes nothing; otherwise the fresh entry collects all results queued for it, and each other folder collects its own |
| Processors.ChildrenFail | lib/src/main/java/com/amaze/filepreloaderlibrary/Processor.kt:65-75 | the subfolder block throws NullPointerException exactly when a listed directory without an entry has a null listing |
| Processors.ChildrenKeep | lib/src/main/java/com/amaze/filepreloaderlibrary/Processor.kt:65-75 | the subfolder block keeps every entry and queued loader, and only adds |
| Processors.WorkFromEffect | lib/src/main/java/com/amaze/filepreloaderlibrary/Processor.kt:61-90 | `workFrom` keeps every existing entry's size; it throws exactly when a new subfolder has a null listing or there is no parent; otherwise every queued loader has filled its folder |
| Processors.RunLoaders | lib/src/main/java/com/amaze/filepreloaderlibrary/Processor.kt:160-169 | the loop adds each loader's result to its folder in order and stops at the first missing folder, as `RunLoaded` says |
| Processors.Processor.AddToProcess | lib/src/main/java/com/amaze/filepreloaderlibrary/Processor.kt:123-125 | appends one loader for the unit into the folder, and changes nothing else |
| Processors.Processor.Enqueue | lib/src/main/java/com/amaze/filepreloaderlibrary/Processor.kt:103-105 | appends `Loaders` of the listing, in order |
| Processors.Processor.Install | lib/src/main/java/com/amaze/filepreloaderlibrary/Processor.kt:103-106 | the globals become `Installed` of the old ones, with a fresh folder object for the path |
| Processors.Processor.WorkAll | lib/src/main/java/com/amaze/filepreloaderlibrary/Processor.kt:160-169 | the globals and the outcome are `Run` of the old globals |
| Processors.Processor.Work | lib/src/main/java/com/amaze/filepreloaderlibrary/Processor.kt:98-110 | the globals and the outcome are `Worked` of the old globals |
| Processors.Processor.RegisterChildren | lib/src/main/java/com/amaze/filepreloaderlibrary/Processor.kt:65-75 | the globals and the outcome are `ChildrenRegistered` of the old globals |
| Processors.Processor.RegisterParent | lib/src/main/java/com/amaze/filepreloaderlibrary/Processor.kt:77-85 | the globals and the outcome are `ParentRegistered` of the old globals |
| Processors.Processor.WorkFrom | lib/src/main/java/com/amaze/filepreloaderlibrary/Processor.kt:61-90 | the globals and the outcome are `WorkedFrom` of the old globals |
| Processors.Processor.CleanUp | lib/src/main/java/com/amaze/filepreloaderlibrary/Processor.kt:115-118 | both the loader list and the folder map are empty |
| Processors.Processor.GetLoaded | lib/src/main/java/com/amaze/filepreloaderlibrary/Processor.kt:132-138 | None exactly when the path has no entry; otherwise completeness and the folder's results as a multiset |
| Processors.Processor.GetAllData | lib/src/main/java/com/amaze/filepreloaderlibrary/Processor.kt:147-153 | as a multiset, every result of every folder, counted once per folder |
| SpecializedPreloaders.WithDividerEffect | lib/src/main/java/com/amaze/filepreloaderlibrary/SpecializedPreloader.kt:50-51 | the path ends with the divider; a path already ending in it is kept, and any other gains exactly one; applying it twice is applying it once |
| SpecializedPreloaders.FallbackMatchesPreload | lib/src/main/java/com/amaze/filepreloaderlibrary/SpecializedPreloader.kt:49-60 | for a path without a trailing divider, listed the same with one, the fallback delivers one result per unit `preload` would send, the i-th being that unit's result for `path/name` |
| SpecializedPreloaders.SpecializedPreloader.PreloadFrom | lib/src/main/java/com/amaze/filepreloaderlibrary/SpecializedPreloader.kt:22-24 | hands the path and its fetcher to `loadFrom`: the cache and units follow `LoadFrom` |
| SpecializedPreloaders.SpecializedPreloader.Preload | lib/src/main/java/com/amaze/filepreloaderlibrary/SpecializedPreloader.kt:29-31 | hands the path and its fetcher to `loadFolder`: the units are `Sent` and the cache is `Overwrite` |
| SpecializedPreloaders.SpecializedPreloader.Clear | lib/src/main/java/com/amaze/filepreloaderlibrary/SpecializedPreloader.kt:69 | hands over to the loader's `clear`: the cache is emptied |
| SpecializedPreloaders.SpecializedPreloader.Load | lib/src/main/java/com/amaze/filepreloaderlibrary/SpecializedPreloader.kt:36-62 | a complete folder delivers its results; an incomplete one stores the null-rejecting listener and delivers nothing yet, and only then may the entry change; an unregistered path delivers the fallback listing, leaving the cache alone |

## Left out

- Concurrency is left out: coroutines, `produce`/`send` channels, `Mutex.withLock`, `synchronized`, `runOnUiThread` and the actual running or cancelling of `Deferred` futures. Each critical section runs atomically, and the two producers of `loadFrom` run one after the other, target folder first.
- The newer `Processor(clazz)` that `Loader` hands its units to is not part of this model. Its `workHighPriority`/`workLowPriority` are modelled as returning the units sent, and its `clear` is omitted from `Loader.Clear`.
- `FilePreloader.kt`, `KFile.kt`, `Native.kt`, the JNI sources, the Android activities, `DebugLog` and logging are left out. Listing, directory listing and parent lookup are the `FileSystem` oracle, whose results may be null.
- Paths are taken as already normalised. `File.path`, `absolutePath` and the `KFile` path are the string itself, and a child path is `folder + "/" + name` even at the root.
- `UniqueQueue.toString` is left out; it is a debugging aid.
- The inner `Queue` and its `Node`s are values with node-number tables, not heap objects, so aliasing between nodes is not modelled beyond those tables. `UniqueQueue` itself is a class whose methods update its fields.
- The listener that `Loader` attaches to a folder lives in a `ListenedFolder` wrapper next to the folder, because the `PreloadedFolder` class the model follows has no such field. The listener is never called, since no completion hook exists in that class. `setCompletionListener` stores the caller's listener itself; the program's wrapper, which converts the results to a list and logs, is elided.
- `PreloadedManager` is modelled over one element type for every `ClassName`; the source's registry holds a different element type per class, which Dafny's type system cannot index by a run-time class.
- Processors.RunTwice: the fetcher is a pure function and results compare by value, so a rerun of the loaders adds nothing. The program's `DataContainer` (and `FileMetadata`) define no `equals`, so its `HashSet` compares results by identity, and a fetcher such as a constructor reference returns a new object on each call; there a rerun adds one result per loader and un-completes every non-empty folder. Result identity is not modelled anywhere.
- Iteration order of `HashMap`/`HashSet` is unspecified, so `getAllLoaded`, `getAllData` and `getLoaded` are stated as multisets.
- The comparator of `PriorityBlockingQueue` is not shown. Units are taken to be ordered by ascending `priority`, and `Poll` may return any unit of least priority (the model takes the first).
- The `Processor`'s launched jobs throw instead of returning; their exceptions are modelled as `Fail` results.
- Loaders.CleanOldEntries: is specified only on a queue holding more paths than its passes, the only way registration calls it (`Caches.EvictionHasRoom`). Its early `break` on an empty queue is written, but unreachable at that call site.
- Loaders.Register: states that each entry afterwards is an old entry or a fresh object, not that the fresh folder is empty.
- Loaders.RegisterFolder: states that each entry afterwards is an old entry or a fresh object, not that the fresh folder is empty.
- Loaders.Loader.LoadFrom: states that each entry afterwards is an old entry or a fresh object, not that the fresh folders are empty.
- UniqueQueues.UniqueQueue.Remove: after popping the only linked node, the queue is no longer in good order, so no later operation is specified on it. The model only states that it reports itself non-empty.
