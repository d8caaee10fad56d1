/**
 * What `Loader` does to one type's cache, on values: the folder map seen
 * as path -> expected size, and the delete queue seen as its linked and
 * pending paths. Registration of an absent folder, eviction of the oldest
 * paths once the map passes `PRELOADED_MAP_MAXIMUM`, the overwrite done by
 * `loadFolder`, and the units each registration emits.
 */
module Caches {
  import opened Common
  import opened QueueIndexes

  /** The map size above which registration evicts old entries. */
  const PRELOADED_MAP_MAXIMUM: int := 4 * 10000

  /** `cleanOldEntries` pops for `i in 0..PRELOADED_MAP_MAXIMUM / 4`, both ends included. */
  const CLEAN_COUNT: int := PRELOADED_MAP_MAXIMUM / 4 + 1

  /**
   * One type's cache: the size each registered folder expects, and the
   * delete queue's linked paths (most recent first) and pending paths.
   */
  datatype Cache = Cache(sizes: map<string, int>, contents: seq<string>, pending: seq<string>)
  {
    /** The paths the delete queue gives back, in order. */
    function Order(): seq<string>
    {
      EvictionOrder(pending, contents)
    }

    /** Every registered folder is still waiting in the delete queue. */
    predicate Tracked()
    {
      && NoDuplicates(contents)
      && forall k :: k in sizes ==> k in Order()
    }
  }

  /** What `n` calls of `remove()` leave of the linked and pending paths. */
  function RemoveN(c: seq<string>, p: seq<string>, n: nat): (r: (seq<string>, seq<string>))
    decreases n
  {
    if n == 0 then (c, p)
    else
      var (c1, p1) := RemoveN(c, p, n - 1);
      var (c2, p2, _) := AfterRemove(c1, p1);
      (c2, p2)
  }

  /**
   * `n` passes of `cleanOldEntries` on a queue that gives at least `n`
   * paths: pop them, and drop the entry of each popped path.
   */
  function Clean(c: Cache, n: nat): (r: Cache)
    requires n <= |c.Order()|
  {
    var (contents, pending) := RemoveN(c.contents, c.pending, n);
    Cache(c.sizes - (set x | x in c.Order()[..n]), contents, pending)
  }

  /**
   * Registration of a folder the map does not hold: insert its entry,
   * evict when the map now passes the maximum, then queue the folder.
   */
  function Register(c: Cache, folder: string, size: int): (r: Cache)
    requires c.Tracked() && folder !in c.sizes
  {
    var cleaned := InsertAndEvict(c, folder, size);
    var (contents, pending) := AfterAdd(cleaned.contents, cleaned.pending, folder);
    cleaned.(contents := contents, pending := pending)
  }

  /** The first half of a registration: insert the entry, then evict if the map passed the maximum. */
  function InsertAndEvict(c: Cache, folder: string, size: int): (r: Cache)
    requires c.Tracked() && folder !in c.sizes
  {
    var inserted := c.(sizes := c.sizes[folder := size]);
    if |inserted.sizes| > PRELOADED_MAP_MAXIMUM then
      EvictionHasRoom(c, folder, size);
      Clean(inserted, CLEAN_COUNT)
    else inserted
  }

  /** `loadFolder`: replace the folder's entry and queue it, with no eviction. */
  function Overwrite(c: Cache, folder: string, size: int): (r: Cache)
  {
    var (contents, pending) := AfterAdd(c.contents, c.pending, folder);
    Cache(c.sizes[folder := size], contents, pending)
  }

  /** How a unit's future is started. */
  datatype Start = Default | Lazy

  /**
   * A unit sent to the processor: the `PreloadableUnit(future, priority)`
   * made by `toPreloadable`, described by what its future yields rather
   * than by the future object. The future yields `ProcessedUnit(folder,
   * result)`, where `result` is the fetcher applied to `item`, and is
   * started as `start` says.
   */
  datatype SentUnit<D> = SentUnit(folder: string, item: string, result: D, priority: int, start: Start)

  /** `toPreloadable(folder, ProcessUnit(item, fetcher), priority)` */
  function ToPreloadable<D>(folder: string, item: string, fetcher: string -> D, priority: int): (r: SentUnit<D>)
    ensures r.folder == folder && r.item == item && r.result == fetcher(item) && r.priority == priority
    ensures r.start == Default <==> priority == PRIORITY_NOW
  {
    SentUnit(folder, item, fetcher(item), priority, if priority == PRIORITY_NOW then Default else Lazy)
  }

  /** The units sent for the listing `names` of `folder`, one per name, in listing order. */
  function Sent<D>(folder: string, names: seq<string>, fetcher: string -> D, priority: int): (r: seq<SentUnit<D>>)
    ensures |r| == |names|
    ensures forall i :: 0 <= i < |names| ==> r[i] == ToPreloadable(folder, Child(folder, names[i]), fetcher, priority)
  {
    seq(|names|, i requires 0 <= i < |names| => ToPreloadable(folder, Child(folder, names[i]), fetcher, priority))
  }

  /**
   * Every unit sent for a listing fills `folder` at the given priority,
   * started eagerly exactly at `PRIORITY_NOW`, with the fetcher's result
   * for an entry of `folder`; two units fetch the same item exactly when
   * their names are equal, so a listing without repeats sends every item
   * once.
   */
  lemma SentEffect<D>(folder: string, names: seq<string>, fetcher: string -> D, priority: int)
    ensures var r := Sent(folder, names, fetcher, priority);
      && (forall u :: u in r ==>
            && u.folder == folder && u.priority == priority && u.result == fetcher(u.item)
            && (u.start == Default <==> priority == PRIORITY_NOW)
            && exists name :: u.item == Child(folder, name) && u.item != folder)
      && (forall i, j :: 0 <= i < |r| && 0 <= j < |r| ==> (r[i].item == r[j].item <==> names[i] == names[j]))
      && (NoDuplicates(names) ==> NoDuplicates(r))
  {
    var r := Sent(folder, names, fetcher, priority);
    forall u | u in r
      ensures exists name :: u.item == Child(folder, name) && u.item != folder
    {
      var i :| 0 <= i < |r| && r[i] == u;
      ChildInjective(folder, names[i], names[i]);
    }
    forall i, j | 0 <= i < |r| && 0 <= j < |r|
      ensures r[i].item == r[j].item <==> names[i] == names[j]
    {
      ChildInjective(folder, names[i], names[j]);
    }
  }

  /**
   * One guarded registration block of `loadFrom`: nothing happens when the
   * map holds `folder`; otherwise it is registered, sized by its listing (a
   * null listing counts as empty), and one unit per listed name is sent.
   */
  function Step<D>(c: Cache, folder: string, fs: FileSystem, fetcher: string -> D, priority: int)
    : (r: (Cache, seq<SentUnit<D>>))
    requires c.Tracked()
  {
    var names := OrEmpty(fs.list(folder));
    if folder in c.sizes then (c, []) else (Register(c, folder, |names|), Sent(folder, names, fetcher, priority))
  }

  /** The children block of `loadFrom`: one step per listed directory name, in order. */
  function Children<D>(c: Cache, dir: string, names: seq<string>, fs: FileSystem, fetcher: string -> D)
    : (r: (Cache, seq<SentUnit<D>>))
    requires c.Tracked()
    ensures r.0.Tracked()
    decreases |names|
  {
    if names == [] then (c, [])
    else
      var (c1, sent) := Step(c, Child(dir, names[0]), fs, fetcher, PRIORITY_FUTURE);
      StepKeepsTracked(c, Child(dir, names[0]), fs, fetcher, PRIORITY_FUTURE);
      var (c2, rest) := Children(c1, dir, names[1..], fs, fetcher);
      (c2, sent + rest)
  }

  /** The parent block of `loadFrom`: a step for the parent, when there is one. */
  function ParentStep<D>(c: Cache, path: string, fs: FileSystem, fetcher: string -> D)
    : (r: (Cache, seq<SentUnit<D>>))
    requires c.Tracked()
    ensures r.0.Tracked()
  {
    match fs.parent(path)
    case None => (c, [])
    case Some(parent) =>
      StepKeepsTracked(c, parent, fs, fetcher, PRIORITY_FUTURE);
      Step(c, parent, fs, fetcher, PRIORITY_FUTURE)
  }

  /**
   * `loadFrom(ProcessUnit(path, fetcher))`, its two producers run one after
   * the other: the new cache, the high-priority units (target folder) and
   * the low-priority units (children, then parent).
   */
  function LoadFrom<D>(c: Cache, path: string, fs: FileSystem, fetcher: string -> D)
    : (r: (Cache, seq<SentUnit<D>>, seq<SentUnit<D>>))
    requires c.Tracked()
    ensures r.0.Tracked()
  {
    var (c1, high) := Step(c, path, fs, fetcher, PRIORITY_NOW);
    StepKeepsTracked(c, path, fs, fetcher, PRIORITY_NOW);
    var (c2, low) := Neighbours(c1, path, fs, fetcher);
    (c2, high, low)
  }

  /** The low-priority producer of `loadFrom`: the children block, then the parent block. */
  function Neighbours<D>(c: Cache, path: string, fs: FileSystem, fetcher: string -> D)
    : (r: (Cache, seq<SentUnit<D>>))
    requires c.Tracked()
    ensures r.0.Tracked()
  {
    var (c1, children) := Children(c, path, OrEmpty(fs.listDirectories(path)), fs, fetcher);
    var (c2, parent) := ParentStep(c1, path, fs, fetcher);
    (c2, children + parent)
  }

  // ---------------------------------------------------------------------
  // Eviction

  /** `remove()` keeps the linked paths free of duplicates. */
  lemma RemoveKeepsDistinct(c: seq<string>, p: seq<string>)
    requires NoDuplicates(c)
    ensures NoDuplicates(AfterRemove(c, p).0)
  {
    if p == [] && c != [] {
      var c' := AfterRemove(c, p).0;
      assert c' == c[..|c| - 1];
      assert forall i, j :: 0 <= i < j < |c'| ==> c'[i] == c[i] && c'[j] == c[j];
    }
  }

  /**
   * `n` calls of `remove()` on a queue that gives at least `n` paths pop
   * its first `n` paths: the queue goes on with the rest of its order.
   */
  lemma {:induction false} RemoveNEffect(c: seq<string>, p: seq<string>, n: nat)
    requires NoDuplicates(c) && n <= |EvictionOrder(p, c)|
    ensures NoDuplicates(RemoveN(c, p, n).0)
    ensures EvictionOrder(RemoveN(c, p, n).1, RemoveN(c, p, n).0) == EvictionOrder(p, c)[n..]
    decreases n
  {
    if n != 0 {
      RemoveNEffect(c, p, n - 1);
      var (c1, p1) := RemoveN(c, p, n - 1);
      RemoveFollowsOrder(c1, p1);
      RemoveKeepsDistinct(c1, p1);
      var o := EvictionOrder(p, c);
      assert o[n - 1..][1..] == o[n..];
    }
  }

  /**
   * `n` passes of `cleanOldEntries` drop exactly the entries of the first
   * `n` paths of the order; the queue goes on with the rest of the order,
   * and every entry kept keeps its size and is still queued.
   */
  lemma {:induction false} CleanEffect(c: Cache, n: nat)
    requires NoDuplicates(c.contents) && n <= |c.Order()|
    ensures var r := Clean(c, n);
      && r.Order() == c.Order()[n..]
      && (forall k :: k in r.sizes <==> k in c.sizes && k !in c.Order()[..n])
      && (forall k :: k in r.sizes ==> r.sizes[k] == c.sizes[k])
      && (forall k :: k in r.sizes && k in c.Order() ==> k in r.Order())
      && NoDuplicates(r.contents)
  {
    RemoveNEffect(c.contents, c.pending, n);
    var o := c.Order();
    var r := Clean(c, n);
    forall k | k in r.sizes && k in o
      ensures k in r.Order()
    {
      var i :| 0 <= i < |o| && o[i] == k;
      if i >= n {
        assert o[n..][i - n] == k;
      }
    }
  }

  /** A set drawn from a sequence is no larger than the sequence. */
  lemma {:induction false} SetOfSeqSize<T>(ks: set<T>, s: seq<T>)
    requires forall k :: k in ks ==> k in s
    ensures |ks| <= |s|
    decreases |s|
  {
    if s != [] {
      var t := s[1..];
      var rest := ks - {s[0]};
      forall k | k in rest
        ensures k in t
      {
        var i :| 0 <= i < |s| && s[i] == k;
        assert i != 0;
        assert t[i - 1] == k;
      }
      SetOfSeqSize(rest, t);
    }
  }

  /**
   * When registration evicts, the queue holds more paths than the pops of
   * `cleanOldEntries`: every key but the new one is queued, and there are
   * more than `PRELOADED_MAP_MAXIMUM` keys. So the loop never meets an
   * empty queue and never pops the queue's only node.
   */
  lemma EvictionHasRoom(c: Cache, folder: string, size: int)
    requires c.Tracked() && folder !in c.sizes
    requires |c.sizes[folder := size]| > PRELOADED_MAP_MAXIMUM
    ensures |c.Order()| > CLEAN_COUNT
  {
    SetOfSeqSize(c.sizes.Keys, c.Order());
    assert c.sizes[folder := size].Keys == c.sizes.Keys + {folder};
  }

  // ---------------------------------------------------------------------
  // Registration

  /**
   * The insertion half of a registration: the entries kept are the old
   * ones and the new folder, minus the `CLEAN_COUNT` paths first in
   * eviction order when the map passed the maximum; sizes are kept, and
   * every old entry kept is still queued.
   */
  lemma InsertAndEvictEffect(c: Cache, folder: string, size: int)
    requires c.Tracked() && folder !in c.sizes
    ensures |c.sizes| + 1 > PRELOADED_MAP_MAXIMUM ==> |c.Order()| > CLEAN_COUNT
    ensures var r := InsertAndEvict(c, folder, size);
      var evicted := if |c.sizes| + 1 > PRELOADED_MAP_MAXIMUM then c.Order()[..CLEAN_COUNT] else [];
      && NoDuplicates(r.contents)
      && (forall k :: k in r.sizes <==> (k in c.sizes || k == folder) && k !in evicted)
      && (folder in r.sizes ==> r.sizes[folder] == size)
      && (forall k :: k in r.sizes && k != folder ==> r.sizes[k] == c.sizes[k] && k in r.Order())
  {
    var inserted := c.(sizes := c.sizes[folder := size]);
    assert |inserted.sizes| == |c.sizes| + 1 by {
      assert inserted.sizes.Keys == c.sizes.Keys + {folder};
    }
    if |inserted.sizes| > PRELOADED_MAP_MAXIMUM {
      EvictionHasRoom(c, folder, size);
      CleanEffect(inserted, CLEAN_COUNT);
      var r := Clean(inserted, CLEAN_COUNT);
      var o := c.Order();
      forall k | k in r.sizes && k != folder
        ensures k in r.Order()
      {
        assert k in o;
        var i :| 0 <= i < |o| && o[i] == k;
        assert o[CLEAN_COUNT..][i - CLEAN_COUNT] == k;
      }
    }
  }

  /**
   * Registration of a folder the map does not hold: the map passed the
   * maximum exactly when the queue holds more than `CLEAN_COUNT` paths to
   * evict; afterwards the folder is first in the linked queue and last in
   * eviction order, the entries kept are the old ones and the new folder
   * minus the evicted paths, sizes are kept, and every entry is queued.
   */
  lemma RegisterEffect(c: Cache, folder: string, size: int)
    requires c.Tracked() && folder !in c.sizes
    ensures |c.sizes| + 1 > PRELOADED_MAP_MAXIMUM ==> |c.Order()| > CLEAN_COUNT
    ensures var r := Register(c, folder, size);
      var evicted := if |c.sizes| + 1 > PRELOADED_MAP_MAXIMUM then c.Order()[..CLEAN_COUNT] else [];
      && r.Tracked()
      && r.contents != [] && r.contents[0] == folder
      && r.Order() != [] && r.Order()[|r.Order()| - 1] == folder
      && (forall k :: k in r.sizes <==> (k in c.sizes || k == folder) && k !in evicted)
      && (folder in r.sizes ==> r.sizes[folder] == size)
      && (forall k :: k in r.sizes && k != folder ==> r.sizes[k] == c.sizes[k])
  {
    InsertAndEvictEffect(c, folder, size);
    var cleaned := InsertAndEvict(c, folder, size);
    AddMembers(cleaned.contents, cleaned.pending, folder);
    AddKeepsOrder(cleaned.contents, cleaned.pending, folder);
  }

  /** Registration keeps every entry queued. */
  lemma RegisterKeepsTracked(c: Cache, folder: string, size: int)
    requires c.Tracked() && folder !in c.sizes
    ensures Register(c, folder, size).Tracked()
  {
    RegisterEffect(c, folder, size);
  }

  /**
   * `add(path)` keeps every path of the order in the order, and ends it
   * with `path`.
   */
  lemma AddKeepsOrder(c: seq<string>, p: seq<string>, path: string)
    requires NoDuplicates(c)
    ensures var (c', p') := AfterAdd(c, p, path);
      && (forall y :: y in EvictionOrder(p, c) ==> y in EvictionOrder(p', c'))
      && EvictionOrder(p', c') != [] && EvictionOrder(p', c')[|EvictionOrder(p', c')| - 1] == path
  {
    var (c', p') := AfterAdd(c, p, path);
    AddMembers(c, p, path);
    assert c' == [c'[0]] + c'[1..];
    HeadIsEvictedLast(p', c'[1..], path);
    forall y | y in EvictionOrder(p, c)
      ensures y in EvictionOrder(p', c')
    {
      if y in p {
        assert p <= p';
      } else {
        var r := Reverse(c);
        var i :| 0 <= i < |r| && r[i] == y;
        assert c[|c| - 1 - i] == y;
        assert y in c';
        var j :| 0 <= j < |c'| && c'[j] == y;
        assert Reverse(c')[|c'| - 1 - j] == y;
      }
    }
  }

  /**
   * A freshly registered folder survives its own registration whenever
   * its path was not still waiting in the delete queue. A path that is
   * absent from the map but still queued (its entry was evicted through
   * an earlier, pending copy) can be evicted by the very cleanup its
   * registration triggers.
   */
  lemma {:induction false} FreshFolderSurvives(c: Cache, folder: string, size: int)
    requires c.Tracked() && folder !in c.sizes && folder !in c.Order()
    ensures folder in Register(c, folder, size).sizes
    ensures Register(c, folder, size).sizes[folder] == size
  {
    RegisterEffect(c, folder, size);
  }

  /** Below the maximum, registration evicts nothing. */
  lemma {:induction false} NoEvictionBelowMaximum(c: Cache, folder: string, size: int)
    requires c.Tracked() && folder !in c.sizes && |c.sizes| < PRELOADED_MAP_MAXIMUM
    ensures Register(c, folder, size).sizes == c.sizes[folder := size]
  {
    RegisterEffect(c, folder, size);
  }

  /** A step keeps every registered folder queued, registered or not. */
  lemma StepKeepsTracked<D>(c: Cache, folder: string, fs: FileSystem, fetcher: string -> D, priority: int)
    requires c.Tracked()
    ensures Step(c, folder, fs, fetcher, priority).0.Tracked()
  {
    if folder !in c.sizes {
      RegisterEffect(c, folder, |OrEmpty(fs.list(folder))|);
    }
  }

  /**
   * `loadFolder` overwrites the entry and queues the folder without ever
   * evicting: the map grows by one for a new folder, so it can pass the
   * maximum.
   */
  lemma OverwriteEffect(c: Cache, folder: string, size: int)
    requires c.Tracked()
    ensures var r := Overwrite(c, folder, size);
      && r.Tracked()
      && r.sizes == c.sizes[folder := size]
      && |r.sizes| == |c.sizes| + (if folder in c.sizes then 0 else 1)
      && r.contents != [] && r.contents[0] == folder
  {
    AddMembers(c.contents, c.pending, folder);
    AddKeepsOrder(c.contents, c.pending, folder);
    if folder in c.sizes {
      assert c.sizes[folder := size].Keys == c.sizes.Keys;
    } else {
      assert c.sizes[folder := size].Keys == c.sizes.Keys + {folder};
    }
  }

  // ---------------------------------------------------------------------
  // Units

  /**
   * `loadFrom` sends the target folder's units eagerly at `PRIORITY_NOW`,
   * and every child and parent unit lazily at `PRIORITY_FUTURE`; each unit
   * fetches an item of the folder it fills.
   */
  lemma {:induction false} LoadFromPriorities<D>(c: Cache, path: string, fs: FileSystem, fetcher: string -> D)
    requires c.Tracked()
    ensures var (_, high, low) := LoadFrom(c, path, fs, fetcher);
      && (forall u :: u in high ==> u.folder == path && u.priority == PRIORITY_NOW && u.start == Default)
      && (forall u :: u in low ==> u.priority == PRIORITY_FUTURE && u.start == Lazy)
      && (forall u :: u in high + low ==> exists name :: u.item == Child(u.folder, name) && u.result == fetcher(u.item))
  {
    var (c1, high) := Step(c, path, fs, fetcher, PRIORITY_NOW);
    StepKeepsTracked(c, path, fs, fetcher, PRIORITY_NOW);
    ChildrenPriorities(c1, path, OrEmpty(fs.listDirectories(path)), fs, fetcher);
    var (_, h, low) := LoadFrom(c, path, fs, fetcher);
    forall u | u in high + low
      ensures exists name :: u.item == Child(u.folder, name) && u.result == fetcher(u.item)
    {
      var i :| 0 <= i < |high + low| && (high + low)[i] == u;
      if i < |high| {
        var names := OrEmpty(fs.list(path));
        assert u == ToPreloadable(path, Child(path, names[i]), fetcher, PRIORITY_NOW);
      }
    }
  }

  lemma {:induction false} ChildrenPriorities<D>(c: Cache, dir: string, names: seq<string>, fs: FileSystem, fetcher: string -> D)
    requires c.Tracked()
    ensures forall u :: u in Children(c, dir, names, fs, fetcher).1 ==>
      && u.priority == PRIORITY_FUTURE && u.start == Lazy
      && exists name :: u.item == Child(u.folder, name) && u.result == fetcher(u.item)
    decreases |names|
  {
    if names != [] {
      var (c1, sent) := Step(c, Child(dir, names[0]), fs, fetcher, PRIORITY_FUTURE);
      StepKeepsTracked(c, Child(dir, names[0]), fs, fetcher, PRIORITY_FUTURE);
      ChildrenPriorities(c1, dir, names[1..], fs, fetcher);
    }
  }
}
