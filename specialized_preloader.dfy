/**
 * The per-type front end (`SpecializedPreloader`): it holds the element
 * type, the fetcher and a `Loader` for that type, hands `preloadFrom`,
 * `preload` and `clear` to the loader, and answers `load` in one of three
 * ways: the folder's results when it is complete, a completion listener
 * when it is still loading, or a direct listing and fetch when the folder
 * was never registered.
 */
module SpecializedPreloaders {
  import opened Common
  import opened PreloadedManagers
  import opened Caches
  import opened Loaders

  /** What `load` hands to its callback: a list now, or later through a completion listener. */
  datatype Delivery<D> = Delivered(list: seq<D>) | Listening

  /**
   * The completion listener `load` attaches: a null list throws
   * NullPointerException, anything else is delivered as it is.
   */
  function NullRejecting<D>(delivered: Option<seq<D>>): (r: Result<seq<D>>)
    ensures r == Fail(NullPointerException) <==> delivered.None?
    ensures delivered.Some? ==> r == Ok(delivered.value)
  {
    match delivered
    case None => Fail(NullPointerException)
    case Some(list) => Ok(list)
  }

  /** `if (!path.endsWith(DIVIDER)) path += DIVIDER` */
  function WithDivider(path: string): (r: string)
  {
    if |path| > 0 && path[|path| - 1] == '/' then path else path + DIVIDER
  }

  /**
   * The path ends with exactly one added divider at most: a path already
   * ending in one is kept, any other gets one appended, and doing it
   * twice is doing it once.
   */
  lemma WithDividerEffect(path: string)
    ensures var r := WithDivider(path);
      && |r| > 0 && r[|r| - 1] == '/'
      && r[..|path|] == path
      && (|path| > 0 && path[|path| - 1] == '/' ==> r == path)
      && (!(|path| > 0 && path[|path| - 1] == '/') ==> |r| == |path| + 1)
      && WithDivider(r) == r
  {
  }

  /**
   * The fallback of `load` for a folder the map does not hold: list the
   * path with its divider and apply the fetcher to `path + name` for each
   * listed name, in listing order; a null listing gives an empty list.
   */
  function Fallback<D>(path: string, fs: FileSystem, fetcher: string -> D): (r: seq<D>)
  {
    var dir := WithDivider(path);
    var names := OrEmpty(fs.list(dir));
    seq(|names|, i requires 0 <= i < |names| => fetcher(dir + names[i]))
  }

  /**
   * One result per listed name, in order, each the fetcher's result for
   * the divided path followed by the name; nothing without a listing.
   */
  lemma FallbackEffect<D>(path: string, fs: FileSystem, fetcher: string -> D)
    ensures var dir := WithDivider(path);
      var r := Fallback(path, fs, fetcher);
      && (fs.list(dir).None? ==> r == [])
      && (fs.list(dir).Some? ==>
            && |r| == |fs.list(dir).value|
            && forall i :: 0 <= i < |r| ==> r[i] == fetcher(dir + fs.list(dir).value[i]))
  {
  }

  /**
   * The fallback of `load` delivers what `preload` would have brought into
   * the folder: for a path without a trailing divider, listed the same with
   * one, the fallback has one result per unit `loadFolder` sends, and the
   * i-th is the result of the i-th unit, whatever the unit's priority.
   */
  lemma FallbackMatchesPreload<D>(path: string, fs: FileSystem, fetcher: string -> D, priority: int)
    requires !(|path| > 0 && path[|path| - 1] == '/')
    requires fs.list(path + DIVIDER) == fs.list(path)
    ensures var r := Fallback(path, fs, fetcher);
      var sent := Sent(path, OrEmpty(fs.list(path)), fetcher, priority);
      && |r| == |sent|
      && forall i :: 0 <= i < |r| ==> r[i] == sent[i].result && sent[i].item == WithDivider(path) + fs.list(path).value[i]
  {
    assert WithDivider(path) == path + DIVIDER;
  }

  class SpecializedPreloader<D(==)> {
    const clazz: ClassName
    const fetcher: string -> D
    const loader: Loaders.Loader<D>

    /** `SpecializedPreloader(clazz, fetcher)` with its own `Loader(clazz)` over the registry. */
    constructor (clazz: ClassName, fetcher: string -> D, manager: PreloadedManager<D>)
      ensures this.clazz == clazz && this.fetcher == fetcher
      ensures fresh(loader) && loader.clazz == clazz && loader.manager == manager
    {
      this.clazz := clazz;
      this.fetcher := fetcher;
      loader := new Loaders.Loader(clazz, manager);
    }

    /** `preloadFrom(path)`: `loader.loadFrom(ProcessUnit(path, fetcher))`. */
    method PreloadFrom(path: string, fs: FileSystem)
      returns (r: Result<(seq<SentUnit<D>>, seq<SentUnit<D>>)>)
      requires loader.Valid()
      modifies loader.Entry()
      ensures loader.Valid()
      ensures !loader.HasEntry() ==> r == Fail(NullPointerException)
      ensures loader.HasEntry() ==>
        r.Ok? && (loader.State(), r.value.0, r.value.1) == Caches.LoadFrom(old(loader.State()), path, fs, fetcher)
    {
      r := loader.LoadFrom(path, fetcher, fs);
    }

    /** `preload(path)`: `loader.loadFolder(ProcessUnit(path, fetcher))`. */
    method Preload(path: string, fs: FileSystem) returns (r: Result<seq<SentUnit<D>>>)
      requires loader.Valid()
      modifies loader.Entry()
      ensures loader.Valid()
      ensures !loader.HasEntry() ==> r == Fail(NullPointerException)
      ensures loader.HasEntry() ==>
        var names := OrEmpty(fs.list(path));
        && r == Ok(Sent(path, names, fetcher, PRIORITY_NOW))
        && loader.State() == Overwrite(old(loader.State()), path, |names|)
    {
      r := loader.LoadFolder(path, fetcher, fs);
    }

    /** `clear()`: `loader.clear()`. */
    method Clear() returns (r: Result<()>)
      requires loader.Valid()
      modifies loader.Entry()
      ensures loader.Valid()
      ensures !loader.HasEntry() ==> r == Fail(NullPointerException)
      ensures loader.HasEntry() ==> r == Ok(()) && loader.State() == Cache(map[], [], [])
    {
      r := loader.Clear();
    }

    /**
     * `load(activity, path, getList)`: what the callback receives. A
     * complete folder delivers its results; an incomplete one gets a
     * completion listener and delivers nothing yet; an unregistered path
     * is listed and fetched directly, leaving the cache alone.
     */
    method Load(path: string, fs: FileSystem) returns (r: Result<Delivery<D>>)
      modifies if loader.HasMutex() && loader.HasEntry() && path in loader.Folders().entries
          && !loader.Folders().entries[path].folder.IsComplete()
        then {loader.Folders().entries[path]} else {}
      ensures !(loader.HasMutex() && loader.HasEntry()) ==> r == Fail(NullPointerException)
      ensures loader.HasMutex() && loader.HasEntry() && path !in loader.Folders().entries ==>
        r == Ok(Delivered(Fallback(path, fs, fetcher)))
      ensures loader.HasMutex() && loader.HasEntry() && path in loader.Folders().entries ==>
        var folder := loader.Folders().entries[path].folder;
        && (folder.IsComplete() ==> r.Ok? && r.value.Delivered? && multiset(r.value.list) == multiset(folder.elements))
        && (!folder.IsComplete() ==> r == Ok(Listening) && loader.Folders().entries[path].listener == Some(NullRejecting))
    {
      var t := loader.GetLoaded(path);
      if t.Fail? {
        return Fail(t.error);
      }
      match t.value {
      case Some((complete, list)) =>
        if complete {
          return Ok(Delivered(list));
        }
        var s := loader.SetCompletionListener(path, NullRejecting);
        if s.Fail? {
          return Fail(s.error);
        }
        // Had the folder gone, the listener would have been called with
        // null, and `NullRejecting` throws on null.
        r := if s.value.None? then Ok(Listening) else Fail(NullPointerException);
      case None =>
        r := Ok(Delivered(Fallback(path, fs, fetcher)));
      }
    }
  }
}
