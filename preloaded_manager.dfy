/**
 * The per-type registry (`PreloadedManager`): for every element type (here
 * a `ClassName`) one `ProcessorData` — a delete queue and a folder map —
 * and one mutex. `Loader` looks its type's entry up on every call.
 */
module PreloadedManagers {
  import opened Common
  import opened PreloadedFolders
  import opened UniqueQueues

  /** The `Class<out DataContainer>` that keys every table, by its name. */
  type ClassName = string

  /**
   * What a completion listener does with what it is given: `Ok(list)` when
   * it delivers `list`, `Fail(e)` when it throws `e`.
   */
  type Listener<!D> = Option<seq<D>> -> Result<seq<D>>

  /** A folder together with the completion listener a `Loader` may attach to it. */
  class ListenedFolder<D(==)> {
    const folder: PreloadedFolder<D>
    var listener: Option<Listener<D>>

    constructor (foldersToContain: int)
      ensures fresh(folder) && folder.foldersToContain == foldersToContain && folder.elements == {}
      ensures listener == None
    {
      folder := new PreloadedFolder(foldersToContain);
      listener := None;
    }
  }

  /** `PreloadedFoldersMap<D>`: folder path -> folder, changed in place. */
  class FoldersMap<D(==)> {
    var entries: map<string, ListenedFolder<D>>

    constructor ()
      ensures entries == map[]
    {
      entries := map[];
    }
  }

  datatype ProcessorData<D(==)> = ProcessorData(deleteQueue: UniqueQueue, preloadedFoldersMap: FoldersMap<D>)

  class Mutex {
    constructor ()
    {
    }
  }

  /** What each folder of `fm` holds, by path. */
  ghost function FolderContents<D>(fm: FoldersMap<D>): (r: map<string, multiset<D>>)
    reads fm, set p | p in fm.entries :: fm.entries[p].folder
    ensures r.Keys == fm.entries.Keys
  {
    map p | p in fm.entries :: multiset(fm.entries[p].folder.elements)
  }

  class PreloadedManager<D(==)> {
    var preloadedObjectsMap: map<ClassName, ProcessorData<D>>
    var preloadedObjectMutexMap: map<ClassName, Mutex>

    constructor ()
      ensures preloadedObjectsMap == map[] && preloadedObjectMutexMap == map[] && Paired()
    {
      preloadedObjectsMap, preloadedObjectMutexMap := map[], map[];
    }

    /** Every type has an entry exactly when it has a mutex: `add` is the only way either is made. */
    predicate Paired()
      reads this
    {
      preloadedObjectsMap.Keys == preloadedObjectMutexMap.Keys
    }

    /** `add(clazz)`: a fresh, empty entry and a fresh mutex for `clazz`, replacing any earlier ones. */
    method Add(clazz: ClassName)
      modifies this
      ensures clazz in preloadedObjectsMap && clazz in preloadedObjectMutexMap
      ensures old(Paired()) ==> Paired()
      ensures var d := preloadedObjectsMap[clazz];
        && fresh(d.deleteQueue) && fresh(d.preloadedFoldersMap) && fresh(preloadedObjectMutexMap[clazz])
        && d.deleteQueue.Valid() && d.deleteQueue.Order() == [] && d.deleteQueue.index == map[]
        && d.preloadedFoldersMap.entries == map[]
      ensures forall c :: c != clazz ==>
        && (c in preloadedObjectsMap <==> c in old(preloadedObjectsMap))
        && (c in preloadedObjectsMap ==> preloadedObjectsMap[c] == old(preloadedObjectsMap)[c])
        && (c in preloadedObjectMutexMap <==> c in old(preloadedObjectMutexMap))
        && (c in preloadedObjectMutexMap ==> preloadedObjectMutexMap[c] == old(preloadedObjectMutexMap)[c])
    {
      var q := new UniqueQueue();
      var m := new FoldersMap();
      var mutex := new Mutex();
      preloadedObjectsMap := preloadedObjectsMap[clazz := ProcessorData(q, m)];
      preloadedObjectMutexMap := preloadedObjectMutexMap[clazz := mutex];
    }

    /** `get(clazz)`: the entry for `clazz`, or None (`null`) when it was never added. */
    function Get(clazz: ClassName): (r: Option<ProcessorData<D>>)
      reads this
      ensures r.Some? <==> clazz in preloadedObjectsMap
      ensures r.Some? ==> r.value == preloadedObjectsMap[clazz]
    {
      if clazz in preloadedObjectsMap then Some(preloadedObjectsMap[clazz]) else None
    }

    /** `getMutex(clazz)`: the mutex for `clazz`, or None. */
    function GetMutex(clazz: ClassName): (r: Option<Mutex>)
      reads this
      ensures r.Some? <==> clazz in preloadedObjectMutexMap
      ensures r.Some? ==> r.value == preloadedObjectMutexMap[clazz]
    {
      if clazz in preloadedObjectMutexMap then Some(preloadedObjectMutexMap[clazz]) else None
    }

    /** `getPreloadMap(clazz)`: the entry's folder map; NullPointerException without an entry. */
    function GetPreloadMap(clazz: ClassName): (r: Result<FoldersMap<D>>)
      reads this
      ensures r == Fail(NullPointerException) <==> Get(clazz).None?
      ensures r.Ok? ==> r.value == Get(clazz).value.preloadedFoldersMap
    {
      match Get(clazz)
      case None => Fail(NullPointerException)
      case Some(data) => Ok(data.preloadedFoldersMap)
    }

    /** `getDeleteQueue(clazz)`: the entry's delete queue; NullPointerException without an entry. */
    function GetDeleteQueue(clazz: ClassName): (r: Result<UniqueQueue>)
      reads this
      ensures r == Fail(NullPointerException) <==> Get(clazz).None?
      ensures r.Ok? ==> r.value == Get(clazz).value.deleteQueue
    {
      match Get(clazz)
      case None => Fail(NullPointerException)
      case Some(data) => Ok(data.deleteQueue)
    }

    /** `getPreloadMapMutex(clazz)`: the mutex; NullPointerException without one. */
    function GetPreloadMapMutex(clazz: ClassName): (r: Result<Mutex>)
      reads this
      ensures r == Fail(NullPointerException) <==> GetMutex(clazz).None?
      ensures r.Ok? ==> r.value == GetMutex(clazz).value
    {
      match GetMutex(clazz)
      case None => Fail(NullPointerException)
      case Some(m) => Ok(m)
    }

    /**
     * While every entry has its mutex, the three lookups a `Loader` makes
     * succeed or fail together, and fail only with NullPointerException,
     * exactly for a type that was never added.
     */
    lemma LookUpsAgree(clazz: ClassName)
      requires Paired()
      ensures GetPreloadMap(clazz).Ok? <==> GetDeleteQueue(clazz).Ok?
      ensures GetPreloadMap(clazz).Ok? <==> GetPreloadMapMutex(clazz).Ok?
      ensures GetPreloadMap(clazz).Ok? <==> clazz in preloadedObjectsMap
      ensures GetPreloadMap(clazz).Fail? ==>
        && GetPreloadMap(clazz).error == NullPointerException
        && GetDeleteQueue(clazz).error == NullPointerException
        && GetPreloadMapMutex(clazz).error == NullPointerException
    {
    }

    /** For each type, what each of its folders holds. */
    ghost function ContentsPerClass(): (r: map<ClassName, map<string, multiset<D>>>)
      reads this, set c | c in preloadedObjectsMap :: preloadedObjectsMap[c].preloadedFoldersMap
      reads set c, p | c in preloadedObjectsMap && p in preloadedObjectsMap[c].preloadedFoldersMap.entries
        :: preloadedObjectsMap[c].preloadedFoldersMap.entries[p].folder
      ensures r.Keys == preloadedObjectsMap.Keys
    {
      map c | c in preloadedObjectsMap :: FolderContents(preloadedObjectsMap[c].preloadedFoldersMap)
    }

    /**
     * `getAllLoaded()`: every element of every folder of every type, in
     * the (unspecified) iteration order of the maps and sets.
     */
    method GetAllLoaded() returns (dataList: seq<D>)
      ensures multiset(dataList) == Total(ContentsPerClass())
    {
      dataList := AppendClasses(preloadedObjectsMap, ContentsPerClass());
    }
  }

  /**
   * `add(clazz)` and then the lookups of `clazz`: they all succeed, with a
   * new empty folder map, a new delete queue with nothing to evict, and a
   * new mutex; the lookups of every other type answer as before.
   */
  method AddThenLookUp<D(==)>(m: PreloadedManager<D>, clazz: ClassName)
    returns (folders: Result<FoldersMap<D>>, queue: Result<UniqueQueue>, mutex: Result<Mutex>)
    modifies m
    ensures folders.Ok? && fresh(folders.value) && folders.value.entries == map[]
    ensures queue.Ok? && fresh(queue.value) && queue.value.Valid() && queue.value.Order() == []
    ensures mutex.Ok? && fresh(mutex.value)
    ensures forall c :: c != clazz ==>
      && m.GetPreloadMap(c) == old(m.GetPreloadMap(c))
      && m.GetDeleteQueue(c) == old(m.GetDeleteQueue(c))
      && m.GetPreloadMapMutex(c) == old(m.GetPreloadMapMutex(c))
  {
    m.Add(clazz);
    folders := m.GetPreloadMap(clazz);
    queue := m.GetDeleteQueue(clazz);
    mutex := m.GetPreloadMapMutex(clazz);
  }

  /** The loop of `getAllLoaded()` over the types of `data`, type by type. */
  method AppendClasses<D(==)>(data: map<ClassName, ProcessorData<D>>, ghost perClass: map<ClassName, map<string, multiset<D>>>)
    returns (r: seq<D>)
    requires perClass.Keys == data.Keys
    requires forall c :: c in data ==> perClass[c].Keys == data[c].preloadedFoldersMap.entries.Keys
    requires forall c, p :: c in data && p in data[c].preloadedFoldersMap.entries ==>
      perClass[c][p] == multiset(data[c].preloadedFoldersMap.entries[p].folder.elements)
    ensures multiset(r) == Total(perClass)
  {
    r := [];
    var classes := data.Keys;
    ghost var totals := map c | c in perClass :: Sum(perClass[c], perClass[c].Keys);
    while classes != {}
      invariant classes <= data.Keys
      invariant multiset(r) + Sum(totals, classes) == Total(perClass)
      decreases classes
    {
      var c :| c in classes;
      SumPick(totals, classes, c);
      r := AppendFolders(r, data[c].preloadedFoldersMap, perClass[c]);
      classes := classes - {c};
    }
  }

  /** Every result of every folder of every type, counted once per folder holding it. */
  ghost function Total<D>(perClass: map<ClassName, map<string, multiset<D>>>): multiset<D>
  {
    Sum(map c | c in perClass :: Sum(perClass[c], perClass[c].Keys), perClass.Keys)
  }

  /** Appends the elements of every folder of `fm`, folder by folder. */
  method AppendFolders<D(==)>(r: seq<D>, fm: FoldersMap<D>, ghost contents: map<string, multiset<D>>) returns (r': seq<D>)
    requires contents.Keys == fm.entries.Keys
    requires forall p :: p in fm.entries ==> contents[p] == multiset(fm.entries[p].folder.elements)
    ensures multiset(r') == multiset(r) + Sum(contents, contents.Keys)
  {
    r' := r;
    var paths := fm.entries.Keys;
    while paths != {}
      invariant paths <= fm.entries.Keys
      invariant multiset(r') + Sum(contents, paths) == multiset(r) + Sum(contents, contents.Keys)
      decreases paths
    {
      var p :| p in paths;
      SumPick(contents, paths, p);
      r' := AppendAll(r', fm.entries[p].folder.elements);
      paths := paths - {p};
    }
  }
}
