/**
 * `Loader`: registers folders in its type's folder map and delete queue
 * (both held by the `PreloadedManager`), evicts the oldest entries once the
 * map grows past its maximum, and sends one unit per listed file to the
 * processor. Every method is specified by the value-level cache of
 * `Caches`: the map's sizes and the queue's order.
 */
module Loaders {
  import opened Common
  import opened PreloadedFolders
  import opened QueueIndexes
  import opened UniqueQueues
  import opened PreloadedManagers
  import opened Caches

  /** The size each entry of a folder map expects. */
  function SizesOf<D>(entries: map<string, ListenedFolder<D>>): (r: map<string, int>)
    ensures r.Keys == entries.Keys
    ensures forall k :: k in r ==> r[k] == entries[k].folder.foldersToContain
  {
    map k | k in entries :: entries[k].folder.foldersToContain
  }

  /** The value of one type's cache: each entry's expected size, and the delete queue's paths. */
  ghost function Abs<D>(fm: FoldersMap<D>, dq: UniqueQueue): Cache
    reads fm, dq
  {
    Cache(SizesOf(fm.entries), dq.Contents(), dq.Pending())
  }

  /** The delete queue is in shape and every entry of the map waits in it. */
  ghost predicate EntryOk<D>(fm: FoldersMap<D>, dq: UniqueQueue)
    reads fm, dq
  {
    dq.Valid() && Abs(fm, dq).Tracked()
  }

  /** The set of the paths in `s`. */
  function Members(s: seq<string>): (r: set<string>)
    ensures forall x :: x in r <==> x in s
  {
    set x | x in s
  }

  lemma AppendAssoc<T>(a: seq<T>, b: seq<T>, c: seq<T>)
    ensures a + (b + c) == (a + b) + c
  {
  }

  /** Taking the first `i + 1` paths adds path `i` to the first `i`. */
  lemma MembersStep(s: seq<string>, i: nat)
    requires i < |s|
    ensures Members(s[..i + 1]) == Members(s[..i]) + {s[i]}
  {
    assert s[..i + 1] == s[..i] + [s[i]];
  }

  /** Dropping two sets of keys one after the other drops their union. */
  lemma WithoutBoth<K, V>(m: map<K, V>, a: set<K>, b: set<K>)
    ensures m - a - b == m - (a + b)
  {
  }

  /** Putting an entry in a folder map puts its size in the sizes. */
  lemma SizesInsert<D>(entries: map<string, ListenedFolder<D>>, k: string, f: ListenedFolder<D>)
    ensures SizesOf(entries[k := f]) == SizesOf(entries)[k := f.folder.foldersToContain]
  {
  }

  /** Dropping a set of paths from a folder map drops them from its sizes. */
  lemma SizesWithout<D>(entries: map<string, ListenedFolder<D>>, gone: set<string>)
    ensures SizesOf(entries - gone) == SizesOf(entries) - gone
  {
  }

  /**
   * Pass `i` of `cleanOldEntries` on a queue whose order was `o` and whose
   * map was `e` before the passes, when at least two paths are left: pop
   * the next path of the order and drop its entry.
   */
  method PopOnce<D(==)>(fm: FoldersMap<D>, dq: UniqueQueue, ghost c: seq<string>, ghost p: seq<string>,
                        ghost e: map<string, ListenedFolder<D>>, ghost i: nat)
    requires dq.Valid() && NoDuplicates(c) && i + 2 <= |EvictionOrder(p, c)|
    requires (dq.Contents(), dq.Pending()) == RemoveN(c, p, i)
    requires fm.entries == e - Members(EvictionOrder(p, c)[..i])
    modifies fm, dq
    ensures dq.Valid()
    ensures (dq.Contents(), dq.Pending()) == RemoveN(c, p, i + 1)
    ensures fm.entries == e - Members(EvictionOrder(p, c)[..i + 1])
  {
    ghost var o := EvictionOrder(p, c);
    RemoveNEffect(c, p, i);
    RemoveFollowsOrder(dq.Contents(), dq.Pending());
    var popped := dq.Remove();
    fm.entries := fm.entries - {popped.value};
    WithoutBoth(e, Members(o[..i]), {o[i]});
    MembersStep(o, i);
  }

  /**
   * `cleanOldEntries()`: for `i in 0..PRELOADED_MAP_MAXIMUM / 4`, pop the
   * queue and drop the popped path from the map, stopping if the queue is
   * empty. Registration only calls it on a queue longer than the number of
   * passes, where it never reaches that stop: the queue ends up popped
   * `CLEAN_COUNT` times and the map without those paths.
   */
  method CleanOldEntries<D(==)>(fm: FoldersMap<D>, dq: UniqueQueue)
    requires dq.Valid() && |dq.Order()| > CLEAN_COUNT
    modifies fm, dq
    ensures dq.Valid()
    ensures (dq.Contents(), dq.Pending()) == RemoveN(old(dq.Contents()), old(dq.Pending()), CLEAN_COUNT)
    ensures fm.entries == old(fm.entries) - Members(old(dq.Order())[..CLEAN_COUNT])
  {
    ghost var c0, p0, e0 := dq.Contents(), dq.Pending(), fm.entries;
    dq.ContentsDistinct();
    assert Members(EvictionOrder(p0, c0)[..0]) == {};
    for i := 0 to CLEAN_COUNT
      invariant dq.Valid()
      invariant (dq.Contents(), dq.Pending()) == RemoveN(c0, p0, i)
      invariant fm.entries == e0 - Members(EvictionOrder(p0, c0)[..i])
    {
      RemoveNEffect(c0, p0, i);
      if dq.IsEmpty() {
        break;
      }
      PopOnce(fm, dq, c0, p0, e0, i);
    }
  }

  /**
   * The insertion and eviction of a registration: put a fresh folder of
   * `size` elements under `folder`, then evict when the map has grown past
   * the maximum.
   */
  method InsertAndClean<D(==)>(fm: FoldersMap<D>, dq: UniqueQueue, folder: string, size: int)
    returns (f: ListenedFolder<D>)
    requires EntryOk(fm, dq) && folder !in fm.entries
    modifies fm, dq
    ensures dq.Valid()
    ensures Abs(fm, dq) == InsertAndEvict(old(Abs(fm, dq)), folder, size)
    ensures fresh(f)
    ensures forall k :: k in fm.entries ==>
      (k in old(fm.entries) && fm.entries[k] == old(fm.entries[k])) || (k == folder && fm.entries[k] == f)
  {
    ghost var c := Abs(fm, dq);
    ghost var inserted := c.(sizes := c.sizes[folder := size]);
    f := new ListenedFolder(size);
    SizesInsert(fm.entries, folder, f);
    fm.entries := fm.entries[folder := f];
    assert |fm.entries| == |inserted.sizes| by {
      assert fm.entries.Keys == inserted.sizes.Keys;
    }
    if |fm.entries| > PRELOADED_MAP_MAXIMUM {
      EvictionHasRoom(c, folder, size);
      ghost var e1 := fm.entries;
      CleanOldEntries(fm, dq);
      SizesWithout(e1, Members(c.Order()[..CLEAN_COUNT]));
    }
  }

  /**
   * One guarded registration block of `loadFrom`: when the map has no
   * entry for `folder`, list it, insert a fresh folder of that size, evict
   * if the map is now too large, queue the folder, and send one unit per
   * listed name.
   */
  method RegisterFolder<D(==)>(fm: FoldersMap<D>, dq: UniqueQueue, folder: string, fs: FileSystem,
                               fetcher: string -> D, priority: int)
    returns (units: seq<SentUnit<D>>)
    requires EntryOk(fm, dq)
    modifies fm, dq
    ensures EntryOk(fm, dq)
    ensures (Abs(fm, dq), units) == Step(old(Abs(fm, dq)), folder, fs, fetcher, priority)
    ensures forall k :: k in fm.entries ==>
      || (k in old(fm.entries) && fm.entries[k] == old(fm.entries[k]))
      || fresh(fm.entries[k])
  {
    if folder in fm.entries {
      return [];
    }
    var subfiles := OrEmpty(fs.list(folder));
    var _ := Register(fm, dq, folder, |subfiles|);
    units := SendAll(folder, subfiles, fetcher, priority);
  }

  /**
   * The map and queue half of `loadFolder`: a fresh, empty folder expecting
   * `size` subfolders replaces whatever `folder` had, and `folder` is queued.
   */
  method OverwriteEntry<D(==)>(fm: FoldersMap<D>, dq: UniqueQueue, folder: string, size: int)
    returns (f: ListenedFolder<D>)
    requires EntryOk(fm, dq)
    modifies fm, dq
    ensures EntryOk(fm, dq)
    ensures Abs(fm, dq) == Overwrite(old(Abs(fm, dq)), folder, size)
    ensures fresh(f) && f.folder.elements == {} && f.listener == None
    ensures fm.entries == old(fm.entries)[folder := f]
  {
    ghost var c := Abs(fm, dq);
    OverwriteEffect(c, folder, size);
    f := new ListenedFolder(size);
    SizesInsert(fm.entries, folder, f);
    fm.entries := fm.entries[folder := f];
    dq.Add(folder);
  }

  /** Registration of a folder the map does not hold: insert, evict if needed, queue. */
  method Register<D(==)>(fm: FoldersMap<D>, dq: UniqueQueue, folder: string, size: int)
    returns (f: ListenedFolder<D>)
    requires EntryOk(fm, dq) && folder !in fm.entries
    modifies fm, dq
    ensures EntryOk(fm, dq)
    ensures Abs(fm, dq) == Caches.Register(old(Abs(fm, dq)), folder, size)
    ensures fresh(f)
    ensures forall k :: k in fm.entries ==>
      (k in old(fm.entries) && fm.entries[k] == old(fm.entries[k])) || (k == folder && fm.entries[k] == f)
  {
    ghost var c := Abs(fm, dq);
    f := InsertAndClean(fm, dq, folder, size);
    dq.Add(folder);
    RegisterKeepsTracked(c, folder, size);
  }

  /** Both producers of `loadFrom`, the target folder's first. */
  method LoadFromEntry<D(==)>(fm: FoldersMap<D>, dq: UniqueQueue, path: string, fs: FileSystem, fetcher: string -> D)
    returns (high: seq<SentUnit<D>>, low: seq<SentUnit<D>>)
    requires EntryOk(fm, dq)
    modifies fm, dq
    ensures EntryOk(fm, dq)
    ensures (Abs(fm, dq), high, low) == LoadFrom(old(Abs(fm, dq)), path, fs, fetcher)
    ensures forall k :: k in fm.entries ==>
      || (k in old(fm.entries) && fm.entries[k] == old(fm.entries[k]))
      || fresh(fm.entries[k])
  {
    // Load current folder
    high := RegisterFolder(fm, dq, path, fs, fetcher, PRIORITY_NOW);
    ghost var mid := fm.entries;
    // Load children folders, then the parent folder
    low := LoadNeighbours(fm, dq, path, fs, fetcher);
    forall k | k in fm.entries && !(k in mid && fm.entries[k] == mid[k])
      ensures fresh(fm.entries[k])
    {
    }
  }

  /** The second producer of `loadFrom`: its children block, then its parent block. */
  method LoadNeighbours<D(==)>(fm: FoldersMap<D>, dq: UniqueQueue, path: string, fs: FileSystem, fetcher: string -> D)
    returns (low: seq<SentUnit<D>>)
    requires EntryOk(fm, dq)
    modifies fm, dq
    ensures EntryOk(fm, dq)
    ensures (Abs(fm, dq), low) == Neighbours(old(Abs(fm, dq)), path, fs, fetcher)
    ensures forall k :: k in fm.entries ==>
      || (k in old(fm.entries) && fm.entries[k] == old(fm.entries[k]))
      || fresh(fm.entries[k])
  {
    var dirs := OrEmpty(fs.listDirectories(path));
    var children := LoadChildren(fm, dq, path, dirs, fs, fetcher);
    ghost var mid := fm.entries;
    var parent := LoadParent(fm, dq, path, fs, fetcher);
    low := children + parent;
    forall k | k in fm.entries && !(k in mid && fm.entries[k] == mid[k])
      ensures fresh(fm.entries[k])
    {
    }
  }

  /** The parent block of `loadFrom`: a guarded registration of the parent, when there is one. */
  method LoadParent<D(==)>(fm: FoldersMap<D>, dq: UniqueQueue, path: string, fs: FileSystem, fetcher: string -> D)
    returns (sent: seq<SentUnit<D>>)
    requires EntryOk(fm, dq)
    modifies fm, dq
    ensures EntryOk(fm, dq)
    ensures (Abs(fm, dq), sent) == ParentStep(old(Abs(fm, dq)), path, fs, fetcher)
    ensures forall k :: k in fm.entries ==>
      || (k in old(fm.entries) && fm.entries[k] == old(fm.entries[k]))
      || fresh(fm.entries[k])
  {
    match fs.parent(path)
    case None =>
      sent := [];
    case Some(parent) =>
      sent := RegisterFolder(fm, dq, parent, fs, fetcher, PRIORITY_FUTURE);
  }

  /** The children block of `loadFrom`: a guarded registration per listed directory name. */
  method LoadChildren<D(==)>(fm: FoldersMap<D>, dq: UniqueQueue, dir: string, dirs: seq<string>, fs: FileSystem, fetcher: string -> D)
    returns (low: seq<SentUnit<D>>)
    requires EntryOk(fm, dq)
    modifies fm, dq
    ensures EntryOk(fm, dq)
    ensures (Abs(fm, dq), low) == Children(old(Abs(fm, dq)), dir, dirs, fs, fetcher)
    ensures forall k :: k in fm.entries ==>
      || (k in old(fm.entries) && fm.entries[k] == old(fm.entries[k]))
      || fresh(fm.entries[k])
  {
    ghost var goal := Children(Abs(fm, dq), dir, dirs, fs, fetcher);
    low := [];
    assert dirs[0..] == dirs;
    for i := 0 to |dirs|
      invariant EntryOk(fm, dq)
      invariant goal.0 == Children(Abs(fm, dq), dir, dirs[i..], fs, fetcher).0
      invariant goal.1 == low + Children(Abs(fm, dq), dir, dirs[i..], fs, fetcher).1
      invariant forall k :: k in fm.entries ==>
        || (k in old(fm.entries) && fm.entries[k] == old(fm.entries[k]))
        || fresh(fm.entries[k])
    {
      ghost var mid := fm.entries;
      low := LoadChild(fm, dq, dir, dirs, i, fs, fetcher, goal, low);
      forall k | k in fm.entries && !(k in mid && fm.entries[k] == mid[k])
        ensures fresh(fm.entries[k])
      {
      }
    }
    NoChildren(Abs(fm, dq), dir, dirs[|dirs|..], fs, fetcher, goal, low);
  }

  /** Once no directory is left, the children block has reached its goal. */
  lemma NoChildren<D>(c: Cache, dir: string, names: seq<string>, fs: FileSystem, fetcher: string -> D,
                      goal: (Cache, seq<SentUnit<D>>), low: seq<SentUnit<D>>)
    requires c.Tracked() && names == []
    requires goal.0 == Children(c, dir, names, fs, fetcher).0
    requires goal.1 == low + Children(c, dir, names, fs, fetcher).1
    ensures goal == (c, low)
  {
    assert low + [] == low;
  }

  /** One pass of the children block: register the next directory and append its units. */
  method LoadChild<D(==)>(fm: FoldersMap<D>, dq: UniqueQueue, dir: string, dirs: seq<string>, i: nat, fs: FileSystem,
                          fetcher: string -> D, ghost goal: (Cache, seq<SentUnit<D>>), low: seq<SentUnit<D>>)
    returns (low': seq<SentUnit<D>>)
    requires EntryOk(fm, dq) && i < |dirs|
    requires goal.0 == Children(Abs(fm, dq), dir, dirs[i..], fs, fetcher).0
    requires goal.1 == low + Children(Abs(fm, dq), dir, dirs[i..], fs, fetcher).1
    modifies fm, dq
    ensures EntryOk(fm, dq)
    ensures goal.0 == Children(Abs(fm, dq), dir, dirs[i + 1..], fs, fetcher).0
    ensures goal.1 == low' + Children(Abs(fm, dq), dir, dirs[i + 1..], fs, fetcher).1
    ensures forall k :: k in fm.entries ==>
      || (k in old(fm.entries) && fm.entries[k] == old(fm.entries[k]))
      || fresh(fm.entries[k])
  {
    ghost var prev := Abs(fm, dq);
    var sent := RegisterFolder(fm, dq, Child(dir, dirs[i]), fs, fetcher, PRIORITY_FUTURE);
    ghost var rest := Children(Abs(fm, dq), dir, dirs[i + 1..], fs, fetcher);
    assert dirs[i..][0] == dirs[i] && dirs[i..][1..] == dirs[i + 1..];
    assert Children(prev, dir, dirs[i..], fs, fetcher) == (rest.0, sent + rest.1);
    AppendAssoc(low, sent, rest.1);
    low' := low + sent;
  }

  /** The units sent for the listing `names` of `folder`: one per name, in order. */
  method SendAll<D>(folder: string, names: seq<string>, fetcher: string -> D, priority: int)
    returns (units: seq<SentUnit<D>>)
    ensures units == Sent(folder, names, fetcher, priority)
  {
    units := [];
    for i := 0 to |names|
      invariant units == Sent(folder, names[..i], fetcher, priority)
    {
      units := units + [ToPreloadable(folder, Child(folder, names[i]), fetcher, priority)];
    }
    assert names[..|names|] == names;
  }

  class Loader<D(==)> {
    const clazz: ClassName
    /** The registry every lookup goes through (`PreloadedManager` is a global object). */
    const manager: PreloadedManager<D>

    constructor (clazz: ClassName, manager: PreloadedManager<D>)
      ensures this.clazz == clazz && this.manager == manager
    {
      this.clazz := clazz;
      this.manager := manager;
    }

    /** `getPreloadMap(clazz)` and `getDeleteQueue(clazz)` succeed. */
    predicate HasEntry()
      reads manager
    {
      clazz in manager.preloadedObjectsMap
    }

    /** `getPreloadMapMutex(clazz)` succeeds. */
    predicate HasMutex()
      reads manager
    {
      clazz in manager.preloadedObjectMutexMap
    }

    function Folders(): FoldersMap<D>
      requires HasEntry()
      reads manager
    {
      manager.preloadedObjectsMap[clazz].preloadedFoldersMap
    }

    function Queue(): UniqueQueue
      requires HasEntry()
      reads manager
    {
      manager.preloadedObjectsMap[clazz].deleteQueue
    }

    /** The objects this type's operations change. */
    ghost function Entry(): set<object>
      reads manager
    {
      if HasEntry() then {Folders(), Queue()} else {}
    }

    ghost predicate Valid()
      reads manager, Entry()
    {
      && manager.Paired()
      && (HasEntry() ==> EntryOk(Folders(), Queue()))
    }

    /** The cache of this type, as values. */
    ghost function State(): Cache
      requires HasEntry()
      reads manager, Entry()
    {
      Abs(Folders(), Queue())
    }

    /**
     * `loadFrom(ProcessUnit(path, fetcher))`: the cache goes as `LoadFrom`
     * says; the result holds the units sent to the high-priority and the
     * low-priority channels. Without a mutex or an entry for the type,
     * both producers throw NullPointerException and nothing changes.
     */
    method LoadFrom(path: string, fetcher: string -> D, fs: FileSystem)
      returns (r: Result<(seq<SentUnit<D>>, seq<SentUnit<D>>)>)
      requires Valid()
      modifies Entry()
      ensures Valid()
      ensures !HasEntry() ==> r == Fail(NullPointerException)
      ensures HasEntry() ==>
        r.Ok? && (State(), r.value.0, r.value.1) == Caches.LoadFrom(old(State()), path, fs, fetcher)
      ensures HasEntry() ==> forall k :: k in Folders().entries ==>
        || (k in old(Folders().entries) && Folders().entries[k] == old(Folders().entries[k]))
        || fresh(Folders().entries[k])
    {
      var mutex := manager.GetPreloadMapMutex(clazz);
      var fm := manager.GetPreloadMap(clazz);
      var dq := manager.GetDeleteQueue(clazz);
      if mutex.Fail? || fm.Fail? || dq.Fail? {
        return Fail(NullPointerException);
      }
      var high, low := LoadFromEntry(fm.value, dq.value, path, fs, fetcher);
      r := Ok((high, low));
    }

    /**
     * `loadFolder(ProcessUnit(path, fetcher))`: send a unit for every listed
     * name and overwrite the folder's entry with a fresh one, queueing the
     * folder; no eviction check. Without a mutex or an entry: NullPointerException.
     */
    method LoadFolder(path: string, fetcher: string -> D, fs: FileSystem)
      returns (r: Result<seq<SentUnit<D>>>)
      requires Valid()
      modifies Entry()
      ensures Valid()
      ensures !HasEntry() ==> r == Fail(NullPointerException)
      ensures HasEntry() ==>
        var names := OrEmpty(fs.list(path));
        && r == Ok(Sent(path, names, fetcher, PRIORITY_NOW))
        && State() == Overwrite(old(State()), path, |names|)
        && fresh(Folders().entries[path]) && Folders().entries[path].folder.elements == {}
        && Folders().entries[path].listener == None
      ensures HasEntry() ==> forall k :: k in Folders().entries && k != path ==>
        k in old(Folders().entries) && Folders().entries[k] == old(Folders().entries[k])
    {
      var fileList := OrEmpty(fs.list(path));
      var units := SendAll(path, fileList, fetcher, PRIORITY_NOW);
      var mutex := manager.GetPreloadMapMutex(clazz);
      var fmr := manager.GetPreloadMap(clazz);
      var dqr := manager.GetDeleteQueue(clazz);
      if mutex.Fail? || fmr.Fail? || dqr.Fail? {
        return Fail(NullPointerException);
      }
      var _ := OverwriteEntry(fmr.value, dqr.value, path, |fileList|);
      r := Ok(units);
    }

    /**
     * `clear()`: empty the map and the delete queue (the processor's own
     * clear is not part of this model). Without an entry: NullPointerException.
     */
    method Clear() returns (r: Result<()>)
      requires Valid()
      modifies Entry()
      ensures Valid()
      ensures !HasEntry() ==> r == Fail(NullPointerException)
      ensures HasEntry() ==>
        (r == Ok(()) && Folders().entries == map[] && Queue().index == map[] && State() == Cache(map[], [], []))
    {
      var fm := manager.GetPreloadMap(clazz);
      if fm.Fail? {
        return Fail(fm.error);
      }
      fm.value.entries := map[];
      var dq := manager.GetDeleteQueue(clazz);
      dq.value.Clear();
      r := Ok(());
    }

    /**
     * `getLoaded(path)`: None when the map has no entry for `path`,
     * otherwise whether the folder is complete and its results, in some
     * order. Without a mutex or an entry: NullPointerException.
     */
    method GetLoaded(path: string) returns (r: Result<Option<(bool, seq<D>)>>)
      ensures !(HasMutex() && HasEntry()) ==> r == Fail(NullPointerException)
      ensures HasMutex() && HasEntry() ==> r.Ok? && (r.value.Some? <==> path in Folders().entries)
      ensures r.Ok? && r.value.Some? ==>
        && HasEntry() && path in Folders().entries
        && r.value.value.0 == Folders().entries[path].folder.IsComplete()
        && multiset(r.value.value.1) == multiset(Folders().entries[path].folder.elements)
    {
      var mutex := manager.GetPreloadMapMutex(clazz);
      if mutex.Fail? {
        return Fail(mutex.error);
      }
      var fm := manager.GetPreloadMap(clazz);
      if fm.Fail? {
        return Fail(fm.error);
      }
      if path !in fm.value.entries {
        return Ok(None);
      }
      var completeSet := fm.value.entries[path].folder;
      var list := AppendAll([], completeSet.elements);
      r := Ok(Some((completeSet.IsComplete(), list)));
    }

    /**
     * `setCompletionListener(path, listener)`: when the map has no entry for
     * `path` the listener is called at once with null (its outcome is
     * returned); otherwise it is stored on the folder and not called. The
     * program stores a wrapper that calls the listener on the results as a
     * list and then logs; the model stores the listener itself, since the
     * wrapper is never called here.
     * Without a mutex or an entry: NullPointerException.
     */
    method SetCompletionListener(path: string, listener: Listener<D>) returns (r: Result<Option<Result<seq<D>>>>)
      modifies if HasMutex() && HasEntry() && path in Folders().entries then {Folders().entries[path]} else {}
      ensures !(HasMutex() && HasEntry()) ==> r == Fail(NullPointerException)
      ensures HasMutex() && HasEntry() && path !in Folders().entries ==> r == Ok(Some(listener(None)))
      ensures HasMutex() && HasEntry() && path in Folders().entries ==>
        r == Ok(None) && Folders().entries[path].listener == Some(listener)
    {
      var mutex := manager.GetPreloadMapMutex(clazz);
      if mutex.Fail? {
        return Fail(mutex.error);
      }
      var fm := manager.GetPreloadMap(clazz);
      if fm.Fail? {
        return Fail(fm.error);
      }
      if path !in fm.value.entries {
        r := Ok(Some(listener(None)));
      } else {
        fm.value.entries[path].listener := Some(listener);
        r := Ok(None);
      }
    }
  }
}
