/**
 * The earlier, single-global design of the preloader (`Processor.kt`): a
 * list of pending loaders (`PRELOAD_LIST`) and a map from folder path to
 * `PreloadedFolder` (`PRELOADED_MAP`). `work(unit)` and `workFrom(unit)`
 * queue one loader per file and register the folders; the top-level
 * `work()` then runs every queued loader and adds its result to the folder
 * the loader belongs to. Loaders are never taken off the list.
 */
module Processors {
  import opened Common
  import opened PreloadedFolders

  /** `ProcessUnit = Pair<String, (String) -> DataContainer>`: a file path and the fetcher to apply to it. */
  datatype ProcessUnit<D> = ProcessUnit(path: string, fetcher: string -> D)

  /** `ProcessedUnit = Pair<String, DataContainer>`: the folder a result belongs to, and the result. */
  datatype ProcessedUnit<D> = ProcessedUnit(folder: string, data: D)

  /** `Loader(path, unit)`: the file `unit.path`, whose result goes to the folder `path`. */
  datatype Loader<D> = Loader(path: string, unit: ProcessUnit<D>)
  {
    /** `load()`: the folder key paired with the fetcher's result for the file. */
    function Load(): ProcessedUnit<D>
    {
      ProcessedUnit(path, unit.fetcher(unit.path))
    }
  }

  // ---------------------------------------------------------------------
  // The two globals as values

  /** A `PreloadedFolder` as a value: its expected count and its results. */
  datatype Folder<D> = Folder(size: int, elements: set<D>)

  /** `PRELOAD_LIST` and `PRELOADED_MAP`, as values. */
  datatype Globals<D> = Globals(list: seq<Loader<D>>, folders: map<string, Folder<D>>)
  {
    /** Every queued loader's folder has an entry in the map. */
    predicate Covered()
    {
      forall i :: 0 <= i < |list| ==> list[i].path in folders
    }
  }

  /** The loaders queued for `folder`: one per listed name, in listing order, for the file `folder/name`. */
  function Loaders<D>(folder: string, names: seq<string>, fetcher: string -> D): (r: seq<Loader<D>>)
    ensures |r| == |names|
    ensures forall i :: 0 <= i < |names| ==> r[i].path == folder && r[i].unit.path == Child(folder, names[i])
  {
    seq(|names|, i requires 0 <= i < |names| => Loader(folder, ProcessUnit(Child(folder, names[i]), fetcher)))
  }

  /**
   * The loaders queued for a listing each run the caller's fetcher on an
   * entry of `folder`, never on the folder itself; two of them fetch the
   * same file exactly when their names are equal.
   */
  lemma LoadersEffect<D>(folder: string, names: seq<string>, fetcher: string -> D)
    ensures var r := Loaders(folder, names, fetcher);
      && (forall i :: 0 <= i < |r| ==> r[i].unit.fetcher == fetcher && r[i].unit.path != folder)
      && (forall i, j :: 0 <= i < |r| && 0 <= j < |r| ==> (r[i].unit.path == r[j].unit.path <==> names[i] == names[j]))
  {
    var r := Loaders(folder, names, fetcher);
    forall i, j | 0 <= i < |r| && 0 <= j < |r|
      ensures r[i].unit.path != folder
      ensures r[i].unit.path == r[j].unit.path <==> names[i] == names[j]
    {
      ChildInjective(folder, names[i], names[j]);
    }
  }

  /** Queue a loader for every listed name of `folder`, then put a fresh, empty folder for it in the map. */
  function Installed<D>(s: Globals<D>, folder: string, names: seq<string>, fetcher: string -> D): Globals<D>
  {
    Globals(s.list + Loaders(folder, names, fetcher), s.folders[folder := Folder(|names|, {})])
  }

  /**
   * The subfolder block of `workFrom`: every listed directory without an
   * entry is installed; iterating over a null listing of one of them
   * throws NullPointerException, leaving what was done so far.
   */
  function ChildrenRegistered<D>(s: Globals<D>, dir: string, names: seq<string>, fs: FileSystem, fetcher: string -> D)
    : (r: (Globals<D>, Result<()>))
    decreases |names|
  {
    if names == [] then (s, Ok(()))
    else
      var child := Child(dir, names[0]);
      if child in s.folders then ChildrenRegistered(s, dir, names[1..], fs, fetcher)
      else match fs.list(child)
        case None => (s, Fail(NullPointerException))
        case Some(sub) => ChildrenRegistered(Installed(s, child, sub, fetcher), dir, names[1..], fs, fetcher)
  }

  /**
   * The parent block of `workFrom`: without a parent, `File.parentFile` is
   * null and listing it throws; a parent without an entry and with a
   * listing is installed; otherwise nothing happens.
   */
  function ParentRegistered<D>(s: Globals<D>, dir: string, fs: FileSystem, fetcher: string -> D): (r: (Globals<D>, Result<()>))
  {
    match fs.parent(dir)
    case None => (s, Fail(NullPointerException))
    case Some(parent) =>
      if parent in s.folders then (s, Ok(()))
      else match fs.list(parent)
        case None => (s, Ok(()))
        case Some(names) => (Installed(s, parent, names, fetcher), Ok(()))
  }

  /**
   * The top-level `work()` on the folders: run the loaders in list order,
   * adding each result to its folder; a loader whose folder has no entry
   * throws NullPointerException (`!!`) and stops the run there.
   */
  function RunLoaded<D>(folders: map<string, Folder<D>>, list: seq<Loader<D>>): (r: (map<string, Folder<D>>, Result<()>))
    ensures r.0.Keys == folders.Keys
    decreases |list|
  {
    if list == [] then (folders, Ok(()))
    else
      var (f, res) := RunLoaded(folders, list[..|list| - 1]);
      var done := list[|list| - 1].Load();
      if res.Fail? then (f, res)
      else if done.folder !in f then (f, Fail(NullPointerException))
      else (f[done.folder := f[done.folder].(elements := f[done.folder].elements + {done.data})], Ok(()))
  }

  function Run<D>(s: Globals<D>): (Globals<D>, Result<()>)
  {
    var (f, r) := RunLoaded(s.folders, s.list);
    (s.(folders := f), r)
  }

  /** `work(unit)`: a null listing throws at once; otherwise install the folder, overwriting any entry, and run. */
  function Worked<D>(s: Globals<D>, path: string, fs: FileSystem, fetcher: string -> D): (Globals<D>, Result<()>)
  {
    match fs.list(path)
    case None => (s, Fail(NullPointerException))
    case Some(names) => Run(Installed(s, path, names, fetcher))
  }

  /** `workFrom(unit)`: the subfolders, then the parent, then the run; each stops at its exception. */
  function WorkedFrom<D>(s: Globals<D>, dir: string, fs: FileSystem, fetcher: string -> D): (Globals<D>, Result<()>)
  {
    var (s1, r1) := ChildrenRegistered(s, dir, OrEmpty(fs.listDirectories(dir)), fs, fetcher);
    if r1.Fail? then (s1, r1)
    else
      var (s2, r2) := ParentRegistered(s1, dir, fs, fetcher);
      if r2.Fail? then (s2, r2) else Run(s2)
  }

  /**
   * `load()` of the loaders queued for a listing: each yields `folder`
   * paired with the fetcher's result for its file, so what they bring to
   * `folder` is the fetcher's result for every listed entry.
   */
  lemma {:induction false} LoadedResults<D>(folder: string, names: seq<string>, fetcher: string -> D)
    ensures forall i :: 0 <= i < |names| ==>
      Loaders(folder, names, fetcher)[i].Load() == ProcessedUnit(folder, fetcher(Child(folder, names[i])))
    ensures Fetched(Loaders(folder, names, fetcher), folder) == set n | n in names :: fetcher(Child(folder, n))
  {
    var l := Loaders(folder, names, fetcher);
    forall x | x in set n | n in names :: fetcher(Child(folder, n))
      ensures x in Fetched(l, folder)
    {
      var n :| n in names && x == fetcher(Child(folder, n));
      var i :| 0 <= i < |names| && names[i] == n;
      assert l[i].path == folder && l[i].Load().data == x;
    }
  }

  /** The results of the loaders of `list` that belong to `folder`. */
  ghost function Fetched<D>(list: seq<Loader<D>>, folder: string): set<D>
  {
    set i | 0 <= i < |list| && list[i].path == folder :: list[i].Load().data
  }

  // ---------------------------------------------------------------------
  // Properties of the specification

  lemma FetchedLast<D>(list: seq<Loader<D>>, folder: string)
    requires list != []
    ensures Fetched(list, folder) == Fetched(list[..|list| - 1], folder)
      + (if list[|list| - 1].path == folder then {list[|list| - 1].Load().data} else {})
  {
    var init := list[..|list| - 1];
    forall x | x in Fetched(list, folder)
      ensures x in Fetched(init, folder) + (if list[|list| - 1].path == folder then {list[|list| - 1].Load().data} else {})
    {
      var i :| 0 <= i < |list| && list[i].path == folder && list[i].Load().data == x;
      if i < |init| {
        assert init[i] == list[i];
      }
    }
    forall x | x in Fetched(init, folder)
      ensures x in Fetched(list, folder)
    {
      var i :| 0 <= i < |init| && init[i].path == folder && init[i].Load().data == x;
      assert list[i] == init[i];
    }
  }

  /**
   * `work()` succeeds exactly when every queued loader's folder has an
   * entry; otherwise it throws NullPointerException.
   */
  lemma {:induction false} RunOk<D>(folders: map<string, Folder<D>>, list: seq<Loader<D>>)
    ensures RunLoaded(folders, list).1 == Ok(()) <==> forall i :: 0 <= i < |list| ==> list[i].path in folders
    ensures RunLoaded(folders, list).1 != Ok(()) ==> RunLoaded(folders, list).1 == Fail(NullPointerException)
    decreases |list|
  {
    if list != [] {
      var init := list[..|list| - 1];
      RunOk(folders, init);
      assert forall i :: 0 <= i < |init| ==> init[i] == list[i];
    }
  }

  /** When `work()` succeeds, each folder gains the results of its own loaders and nothing else. */
  lemma {:induction false} RunCollects<D>(folders: map<string, Folder<D>>, list: seq<Loader<D>>)
    requires forall i :: 0 <= i < |list| ==> list[i].path in folders
    ensures forall p :: p in folders ==>
      RunLoaded(folders, list).0[p] == folders[p].(elements := folders[p].elements + Fetched(list, p))
    decreases |list|
  {
    if list != [] {
      var init, last := list[..|list| - 1], list[|list| - 1];
      assert forall i :: 0 <= i < |init| ==> init[i] == list[i];
      RunCollects(folders, init);
      RunOk(folders, init);
      var f := RunLoaded(folders, init).0;
      var done := last.Load();
      assert RunLoaded(folders, list).0 == f[done.folder := f[done.folder].(elements := f[done.folder].elements + {done.data})];
      forall p | p in folders
        ensures RunLoaded(folders, list).0[p] == folders[p].(elements := folders[p].elements + Fetched(list, p))
      {
        FetchedLast(list, p);
      }
    }
  }

  /**
   * Once the run has failed on a prefix of the list, the rest of the list
   * changes nothing.
   */
  lemma {:induction false} FailSticks<D>(folders: map<string, Folder<D>>, list: seq<Loader<D>>, n: nat)
    requires n <= |list| && RunLoaded(folders, list[..n]).1.Fail?
    ensures RunLoaded(folders, list) == RunLoaded(folders, list[..n])
    decreases |list| - n
  {
    if n < |list| {
      var init := list[..|list| - 1];
      assert init[..n] == list[..n];
      FailSticks(folders, init, n);
    } else {
      assert list[..n] == list;
    }
  }

  /**
   * `work()` leaves the loaders on the list, so a second call runs them
   * all again. In this model the fetcher is a function and results compare
   * by value, so every result fetched again is already in its folder and
   * the second run changes nothing. In the program a fetcher may build a
   * new object per call, and `DataContainer` has no `equals` of its own;
   * there each rerun adds one more result per loader and takes every
   * non-empty folder past its count (`PastCountNeverComplete`).
   */
  lemma RunTwice<D>(s: Globals<D>)
    requires s.Covered()
    ensures Run(s).1 == Ok(())
    ensures Run(Run(s).0) == Run(s)
  {
    var s1 := Run(s).0;
    RunOk(s.folders, s.list);
    RunCollects(s.folders, s.list);
    RunOk(s1.folders, s1.list);
    RunCollects(s1.folders, s1.list);
    var s2 := Run(s1).0;
    assert s2.folders == s1.folders by {
      forall p | p in s1.folders
        ensures s2.folders[p] == s1.folders[p]
      {
        assert s1.folders[p].elements == s.folders[p].elements + Fetched(s.list, p);
      }
    }
  }

  /**
   * Installing a folder queues exactly its loaders, gives it an empty entry
   * of the listing's size (replacing any earlier one), and keeps the
   * loaders covered.
   */
  lemma InstallEffect<D>(s: Globals<D>, folder: string, names: seq<string>, fetcher: string -> D)
    requires s.Covered()
    ensures var r := Installed(s, folder, names, fetcher);
      && r.Covered()
      && r.list[..|s.list|] == s.list && |r.list| == |s.list| + |names|
      && r.folders.Keys == s.folders.Keys + {folder}
      && r.folders[folder] == Folder(|names|, {})
      && forall p :: p in s.folders && p != folder ==> r.folders[p] == s.folders[p]
  {
    var r := Installed(s, folder, names, fetcher);
    forall i | 0 <= i < |r.list|
      ensures r.list[i].path in r.folders
    {
      if i < |s.list| {
        assert r.list[i] == s.list[i];
      } else {
        assert r.list[i] == Loaders(folder, names, fetcher)[i - |s.list|];
      }
    }
  }

  /**
   * `work(unit)` on a listed folder never throws when the loaders were
   * covered: the folder's fresh entry collects the results of every loader
   * queued for it, earlier ones included, and every other folder gains the
   * results of its own loaders. A null listing throws and changes nothing.
   */
  lemma WorkEffect<D>(s: Globals<D>, path: string, fs: FileSystem, fetcher: string -> D)
    requires s.Covered()
    ensures fs.list(path).None? ==> Worked(s, path, fs, fetcher) == (s, Fail(NullPointerException))
    ensures fs.list(path).Some? ==>
      var names := fs.list(path).value;
      var (r, res) := Worked(s, path, fs, fetcher);
      && res == Ok(())
      && r.Covered()
      && r.list == s.list + Loaders(path, names, fetcher)
      && r.folders.Keys == s.folders.Keys + {path}
      && r.folders[path] == Folder(|names|, Fetched(r.list, path))
      && forall p :: p in s.folders && p != path ==>
           r.folders[p] == s.folders[p].(elements := s.folders[p].elements + Fetched(r.list, p))
  {
    if fs.list(path).Some? {
      var names := fs.list(path).value;
      var i := Installed(s, path, names, fetcher);
      InstallEffect(s, path, names, fetcher);
      RunOk(i.folders, i.list);
      RunCollects(i.folders, i.list);
    }
  }

  /** Listed directory `i` has no entry among `known` and a null listing. */
  predicate NullChild(known: set<string>, dir: string, names: seq<string>, fs: FileSystem, i: int)
  {
    0 <= i < |names| && Child(dir, names[i]) !in known && fs.list(Child(dir, names[i])).None?
  }

  /**
   * The subfolder block throws NullPointerException exactly when some
   * listed directory without an entry has a null listing.
   */
  lemma {:induction false} ChildrenFail<D>(s: Globals<D>, dir: string, names: seq<string>, fs: FileSystem, fetcher: string -> D)
    ensures var res := ChildrenRegistered(s, dir, names, fs, fetcher).1;
      && (res.Fail? <==> exists i :: NullChild(s.folders.Keys, dir, names, fs, i))
      && (res.Fail? ==> res == Fail(NullPointerException))
    decreases |names|
  {
    if names != [] {
      var child, rest := Child(dir, names[0]), names[1..];
      if child in s.folders || fs.list(child).Some? {
        var s1 := if child in s.folders then s else Installed(s, child, fs.list(child).value, fetcher);
        ChildrenFail(s1, dir, rest, fs, fetcher);
        assert s1.folders.Keys == s.folders.Keys + {child};
        forall i | 0 <= i < |rest|
          ensures NullChild(s1.folders.Keys, dir, rest, fs, i) <==> NullChild(s.folders.Keys, dir, names, fs, i + 1)
        {
          assert rest[i] == names[i + 1];
        }
        if exists i :: NullChild(s.folders.Keys, dir, names, fs, i) {
          var i :| NullChild(s.folders.Keys, dir, names, fs, i);
          assert NullChild(s1.folders.Keys, dir, rest, fs, i - 1);
        }
      } else {
        assert NullChild(s.folders.Keys, dir, names, fs, 0);
      }
    }
  }

  /**
   * The subfolder block only adds entries: it keeps every existing entry
   * and every queued loader, and keeps the loaders covered.
   */
  lemma {:induction false} ChildrenKeep<D>(s: Globals<D>, dir: string, names: seq<string>, fs: FileSystem, fetcher: string -> D)
    requires s.Covered()
    ensures var r := ChildrenRegistered(s, dir, names, fs, fetcher).0;
      && r.Covered()
      && |s.list| <= |r.list| && r.list[..|s.list|] == s.list
      && s.folders.Keys <= r.folders.Keys
      && forall p :: p in s.folders ==> r.folders[p] == s.folders[p]
    decreases |names|
  {
    if names != [] {
      var child, rest := Child(dir, names[0]), names[1..];
      if child in s.folders {
        ChildrenKeep(s, dir, rest, fs, fetcher);
      } else if fs.list(child).Some? {
        var s1 := Installed(s, child, fs.list(child).value, fetcher);
        InstallEffect(s, child, fs.list(child).value, fetcher);
        ChildrenKeep(s1, dir, rest, fs, fetcher);
        var r := ChildrenRegistered(s1, dir, rest, fs, fetcher).0;
        assert r.list[..|s.list|] == r.list[..|s1.list|][..|s.list|];
      }
    }
  }

  /**
   * `workFrom(unit)` keeps every existing entry's size, and on covered
   * loaders throws exactly when a new subfolder has a null listing or the
   * folder has no parent; when it does not throw, every queued loader has
   * run into its folder.
   */
  lemma WorkFromEffect<D>(s: Globals<D>, dir: string, fs: FileSystem, fetcher: string -> D)
    requires s.Covered()
    ensures var dirs := OrEmpty(fs.listDirectories(dir));
      var (r, res) := WorkedFrom(s, dir, fs, fetcher);
      && (res.Fail? <==>
            || (exists i :: NullChild(s.folders.Keys, dir, dirs, fs, i))
            || fs.parent(dir).None?)
      && (res.Fail? ==> res.error == NullPointerException)
      && r.Covered()
      && |s.list| <= |r.list| && r.list[..|s.list|] == s.list
      && s.folders.Keys <= r.folders.Keys
      && (forall p :: p in s.folders ==> r.folders[p].size == s.folders[p].size)
      && (res.Ok? ==> forall p :: p in r.folders ==> Fetched(r.list, p) <= r.folders[p].elements)
  {
    var dirs := OrEmpty(fs.listDirectories(dir));
    ChildrenFail(s, dir, dirs, fs, fetcher);
    ChildrenKeep(s, dir, dirs, fs, fetcher);
    var (s1, r1) := ChildrenRegistered(s, dir, dirs, fs, fetcher);
    if r1.Ok? {
      var (s2, r2) := ParentRegistered(s1, dir, fs, fetcher);
      if fs.parent(dir).Some? && fs.parent(dir).value !in s1.folders && fs.list(fs.parent(dir).value).Some? {
        InstallEffect(s1, fs.parent(dir).value, fs.list(fs.parent(dir).value).value, fetcher);
        assert s2.list[..|s.list|] == s2.list[..|s1.list|][..|s.list|];
      }
      if r2.Ok? {
        RunOk(s2.folders, s2.list);
        RunCollects(s2.folders, s2.list);
      }
    }
  }

  // ---------------------------------------------------------------------
  // The globals as an object

  /** No folder object is shared by two paths. */
  predicate Distinct<D>(m: map<string, PreloadedFolder<D>>)
  {
    forall p, q :: p in m && q in m && p != q ==> m[p] != m[q]
  }

  /** The folders of `m`, as values. */
  ghost function Folders<D>(m: map<string, PreloadedFolder<D>>): (r: map<string, Folder<D>>)
    reads m.Values
    ensures r.Keys == m.Keys
  {
    map p | p in m :: Folder(m[p].foldersToContain, m[p].elements)
  }

  /** Putting an empty folder in the map puts its value in the folders. */
  lemma FoldersUpdate<D>(m: map<string, PreloadedFolder<D>>, k: string, f: PreloadedFolder<D>)
    requires f.elements == {}
    ensures Folders(m[k := f]) == Folders(m)[k := Folder(f.foldersToContain, {})]
  {
  }

  /**
   * The loop of the top-level `work()`: load each loader in order and add
   * the result to its folder, throwing at the first loader without one.
   */
  method RunLoaders<D>(m: map<string, PreloadedFolder<D>>, list: seq<Loader<D>>, ghost f0: map<string, Folder<D>>)
    returns (r: Result<()>)
    requires Distinct(m) && f0.Keys == m.Keys
    requires forall p :: p in m ==> f0[p] == Folder(m[p].foldersToContain, m[p].elements)
    modifies m.Values
    ensures r == RunLoaded(f0, list).1
    ensures forall p :: p in m ==> Folder(m[p].foldersToContain, m[p].elements) == RunLoaded(f0, list).0[p]
  {
    for i := 0 to |list|
      invariant RunLoaded(f0, list[..i]).1 == Ok(())
      invariant forall p :: p in m ==> Folder(m[p].foldersToContain, m[p].elements) == RunLoaded(f0, list[..i]).0[p]
    {
      var done := list[i].Load();
      assert list[..i + 1][..i] == list[..i];
      if done.folder !in m {
        FailSticks(f0, list, i + 1);
        return Fail(NullPointerException);
      }
      var _ := m[done.folder].Add(done.data);
    }
    assert list[..|list|] == list;
    r := Ok(());
  }

  class Processor<D(==)> {
    var preloadList: seq<Loader<D>>
    var preloadedMap: map<string, PreloadedFolder<D>>

    constructor ()
      ensures preloadList == [] && preloadedMap == map[]
    {
      preloadList, preloadedMap := [], map[];
    }

    ghost function State(): Globals<D>
      reads this, preloadedMap.Values
    {
      Globals(preloadList, Folders(preloadedMap))
    }

    /** Distinct folder objects, and every queued loader's folder has an entry. */
    ghost predicate Valid()
      reads this
    {
      && Distinct(preloadedMap)
      && forall i :: 0 <= i < |preloadList| ==> preloadList[i].path in preloadedMap
    }

    /** `addToProcess(path, unit)`: queue a loader for `unit` into folder `path`. */
    method AddToProcess(path: string, unit: ProcessUnit<D>)
      modifies this
      ensures preloadList == old(preloadList) + [Loader(path, unit)] && preloadedMap == old(preloadedMap)
    {
      preloadList := preloadList + [Loader(path, unit)];
    }

    /** The loop of `work(unit)` and `workFrom(unit)` over a listing: one `addToProcess` per name. */
    method Enqueue(folder: string, names: seq<string>, fetcher: string -> D)
      modifies this
      ensures preloadList == old(preloadList) + Loaders(folder, names, fetcher) && preloadedMap == old(preloadedMap)
    {
      for i := 0 to |names|
        invariant preloadList == old(preloadList) + Loaders(folder, names[..i], fetcher)
        invariant preloadedMap == old(preloadedMap)
      {
        assert Loaders(folder, names[..i + 1], fetcher) == Loaders(folder, names[..i], fetcher) + [Loader(folder, ProcessUnit(Child(folder, names[i]), fetcher))];
        AddToProcess(folder, ProcessUnit(Child(folder, names[i]), fetcher));
      }
      assert names[..|names|] == names;
    }

    /** The registration of one folder: queue its files' loaders, then put a fresh folder in the map. */
    method Install(folder: string, names: seq<string>, fetcher: string -> D)
      requires Valid()
      modifies this
      ensures Valid()
      ensures State() == Installed(old(State()), folder, names, fetcher)
      ensures fresh(preloadedMap[folder]) && preloadedMap == old(preloadedMap)[folder := preloadedMap[folder]]
    {
      ghost var s := State();
      Enqueue(folder, names, fetcher);
      var f := new PreloadedFolder(|names|);
      assert Folders(preloadedMap) == s.folders;
      FoldersUpdate(preloadedMap, folder, f);
      preloadedMap := preloadedMap[folder := f];
      InstallEffect(s, folder, names, fetcher);
    }

    /** The top-level `work()`, over this object's list and map. */
    method WorkAll() returns (r: Result<()>)
      requires Valid()
      modifies preloadedMap.Values
      ensures Valid()
      ensures (State(), r) == Run(old(State()))
    {
      ghost var f0 := State().folders;
      r := RunLoaders(preloadedMap, preloadList, f0);
      assert Folders(preloadedMap) == RunLoaded(f0, preloadList).0;
    }

    /** `work(unit)`: see `Work`. */
    method Work(path: string, fetcher: string -> D, fs: FileSystem) returns (r: Result<()>)
      requires Valid()
      modifies this, preloadedMap.Values
      ensures Valid()
      ensures (State(), r) == Worked(old(State()), path, fs, fetcher)
    {
      var fileList := fs.list(path);
      if fileList.None? {
        return Fail(NullPointerException);
      }
      Install(path, fileList.value, fetcher);
      r := WorkAll();
    }

    /** The subfolder block of `workFrom`. */
    method RegisterChildren(dir: string, names: seq<string>, fs: FileSystem, fetcher: string -> D) returns (r: Result<()>)
      requires Valid()
      modifies this
      ensures Valid()
      ensures (State(), r) == ChildrenRegistered(old(State()), dir, names, fs, fetcher)
      ensures forall p :: p in preloadedMap ==>
        (p in old(preloadedMap) && preloadedMap[p] == old(preloadedMap)[p]) || fresh(preloadedMap[p])
    {
      ghost var goal := ChildrenRegistered(State(), dir, names, fs, fetcher);
      for i := 0 to |names|
        invariant Valid()
        invariant goal == ChildrenRegistered(State(), dir, names[i..], fs, fetcher)
        invariant forall p :: p in preloadedMap ==>
          (p in old(preloadedMap) && preloadedMap[p] == old(preloadedMap)[p]) || fresh(preloadedMap[p])
      {
        var child := Child(dir, names[i]);
        if child !in preloadedMap {
          var subfiles := fs.list(child);
          if subfiles.None? {
            return Fail(NullPointerException);
          }
          Install(child, subfiles.value, fetcher);
        }
        assert names[i..][1..] == names[i + 1..];
      }
      r := Ok(());
    }

    /** The parent block of `workFrom`. */
    method RegisterParent(dir: string, fs: FileSystem, fetcher: string -> D) returns (r: Result<()>)
      requires Valid()
      modifies this
      ensures Valid()
      ensures (State(), r) == ParentRegistered(old(State()), dir, fs, fetcher)
      ensures forall p :: p in preloadedMap ==>
        (p in old(preloadedMap) && preloadedMap[p] == old(preloadedMap)[p]) || fresh(preloadedMap[p])
    {
      var parent := fs.parent(dir);
      if parent.None? {
        return Fail(NullPointerException);
      }
      if parent.value !in preloadedMap {
        var parentFileList := fs.list(parent.value);
        if parentFileList.Some? {
          Install(parent.value, parentFileList.value, fetcher);
        }
      }
      r := Ok(());
    }

    /** `workFrom(unit)`: see `WorkFrom`. */
    method WorkFrom(path: string, fetcher: string -> D, fs: FileSystem) returns (r: Result<()>)
      requires Valid()
      modifies this, preloadedMap.Values
      ensures Valid()
      ensures (State(), r) == WorkedFrom(old(State()), path, fs, fetcher)
    {
      r := RegisterChildren(path, OrEmpty(fs.listDirectories(path)), fs, fetcher);
      if r.Fail? {
        return;
      }
      r := RegisterParent(path, fs, fetcher);
      if r.Fail? {
        return;
      }
      r := WorkAll();
    }

    /** `cleanUp()`: drop every loader and every folder. */
    method CleanUp()
      modifies this
      ensures Valid()
      ensures preloadList == [] && preloadedMap == map[] && State() == Globals([], map[])
    {
      preloadList := [];
      preloadedMap := map[];
    }

    /** `getLoaded(path)`: None without an entry; otherwise whether it is complete, and its results in some order. */
    method GetLoaded(path: string) returns (r: Option<(bool, seq<D>)>)
      ensures r.None? <==> path !in preloadedMap
      ensures r.Some? ==>
        && r.value.0 == (|preloadedMap[path].elements| == preloadedMap[path].foldersToContain)
        && multiset(r.value.1) == multiset(preloadedMap[path].elements)
    {
      if path !in preloadedMap {
        return None;
      }
      var completeSet := preloadedMap[path];
      var list := AppendAll([], completeSet.elements);
      r := Some((completeSet.IsComplete(), list));
    }

    /** `getAllData()`: every result of every folder, folder after folder. */
    method GetAllData() returns (r: seq<D>)
      ensures multiset(r) == Sum(Contents(preloadedMap), preloadedMap.Keys)
    {
      r := AppendEach([], preloadedMap, Contents(preloadedMap));
    }
  }

  /** The results of each folder of `m`, as multisets. */
  ghost function Contents<D>(m: map<string, PreloadedFolder<D>>): (r: map<string, multiset<D>>)
    reads m.Values
    ensures r.Keys == m.Keys
  {
    map p | p in m :: multiset(m[p].elements)
  }

  /** Appends the results of every folder of `m`, folder by folder. */
  method AppendEach<D>(r: seq<D>, m: map<string, PreloadedFolder<D>>, ghost contents: map<string, multiset<D>>)
    returns (r': seq<D>)
    requires contents.Keys == m.Keys
    requires forall p :: p in m ==> contents[p] == multiset(m[p].elements)
    ensures multiset(r') == multiset(r) + Sum(contents, contents.Keys)
  {
    r' := r;
    var paths := m.Keys;
    while paths != {}
      invariant paths <= m.Keys
      invariant multiset(r') + Sum(contents, paths) == multiset(r) + Sum(contents, contents.Keys)
      decreases paths
    {
      var p :| p in paths;
      SumPick(contents, paths, p);
      r' := AppendAll(r', m[p].elements);
      paths := paths - {p};
    }
  }
}
