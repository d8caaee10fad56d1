/**
 * The path -> node index of `UniqueQueue`, and what `add` and `remove` do
 * to the list and the index together: the paths they leave linked and
 * pending (`AfterAdd`, `AfterRemove`) and the order in which paths are
 * evicted (`EvictionOrder`). The index keeps naming popped nodes, because
 * `remove()` never deletes from it.
 */
module QueueIndexes {
  import opened Common
  import opened LinkedQueues

  /**
   * `index` maps each linked path to its node, and every other path it knows
   * to a popped node; linked and popped nodes are apart.
   */
  ghost predicate IndexOk(index: map<string, NodeId>, ns: seq<NodeId>, stale: set<NodeId>, paths: map<NodeId, string>)
  {
    && (forall s {:trigger s in stale} :: s in stale ==> s !in ns)
    && (forall p {:trigger p in index} :: p in index ==>
          index[p] in paths && paths[index[p]] == p && (index[p] in ns || index[p] in stale))
    && (forall i :: 0 <= i < |ns| ==> ns[i] in paths && paths[ns[i]] in index && index[paths[ns[i]]] == ns[i])
  }

  /** Without duplicates among the nodes, an index in good order never lists a path twice. */
  lemma IndexOkDistinct(index: map<string, NodeId>, ns: seq<NodeId>, stale: set<NodeId>, paths: map<NodeId, string>)
    requires IndexOk(index, ns, stale, paths) && NoDuplicates(ns)
    ensures NoDuplicates(Data(paths, ns))
  {
    var c := Data(paths, ns);
    forall i, j | 0 <= i < j < |c|
      ensures c[i] != c[j]
    {
      assert c[i] == paths[ns[i]] && c[j] == paths[ns[j]];
      assert index[c[i]] == ns[i] && index[c[j]] == ns[j];
    }
  }

  /**
   * `rest` is `ns` without the node at `k`, or all of `ns` when `k` is -1:
   * position `i` of `rest` holds `ns[Skip(k, i)]`.
   */
  ghost predicate Drops(ns: seq<NodeId>, k: int, rest: seq<NodeId>)
  {
    && -1 <= k < |ns|
    && |rest| == (if k == -1 then |ns| else |ns| - 1)
    && forall i :: 0 <= i < |rest| ==> rest[i] == ns[Skip(k, i)]
  }

  function Skip(k: int, i: int): int
  {
    if k == -1 || i < k then i else i + 1
  }

  lemma DropsSlices(ns: seq<NodeId>, k: int)
    requires -1 <= k < |ns|
    ensures Drops(ns, k, if k == -1 then ns else ns[..k] + ns[k + 1..])
  {
  }

  /** A popped node is not among the nodes linked after `add`. */
  lemma FrontStale(index: map<string, NodeId>, ns: seq<NodeId>, stale: set<NodeId>, paths: map<NodeId, string>,
                   n: NodeId, k: int, rest: seq<NodeId>)
    requires IndexOk(index, ns, stale, paths) && n !in stale && Drops(ns, k, rest)
    ensures forall st {:trigger st in stale} :: st in stale ==> st !in [n] + rest
  {
    forall st | st in stale
      ensures st !in [n] + rest
    {
      forall i | 0 <= i < |rest|
        ensures rest[i] != st
      {
        assert rest[i] == ns[Skip(k, i)];
      }
    }
  }

  /** After `add`, every indexed path names its own node, linked or popped. */
  lemma FrontIndexed(index: map<string, NodeId>, ns: seq<NodeId>, stale: set<NodeId>, paths: map<NodeId, string>,
                     n: NodeId, path: string, k: int, rest: seq<NodeId>)
    requires IndexOk(index, ns, stale, paths) && Drops(ns, k, rest)
    requires n in paths && paths[n] == path
    requires k != -1 ==> path in index && index[path] == ns[k]
    ensures forall p {:trigger p in index[path := n]} :: p in index[path := n] ==>
      && index[path := n][p] in paths && paths[index[path := n][p]] == p
      && (index[path := n][p] in [n] + rest || index[path := n][p] in stale)
  {
    var index' := index[path := n];
    forall p | p in index'
      ensures index'[p] in paths && paths[index'[p]] == p && (index'[p] in [n] + rest || index'[p] in stale)
    {
      if p != path && index[p] in ns {
        var m :| 0 <= m < |ns| && ns[m] == index[p];
        assert m != k;
        var q := if k == -1 || m < k then m else m - 1;
        assert rest[q] == ns[Skip(k, q)] == index[p];
      }
    }
  }

  /** After `add`, every linked node is the one indexed for its path. */
  lemma FrontLinked(index: map<string, NodeId>, ns: seq<NodeId>, stale: set<NodeId>, paths: map<NodeId, string>,
                    n: NodeId, path: string, k: int, rest: seq<NodeId>)
    requires IndexOk(index, ns, stale, paths) && NoDuplicates(ns) && Drops(ns, k, rest)
    requires n in paths && paths[n] == path
    requires k == -1 ==> path !in index || index[path] in stale
    requires k != -1 ==> path in index && index[path] == ns[k]
    ensures forall i :: 0 <= i < |[n] + rest| ==>
      && ([n] + rest)[i] in paths && paths[([n] + rest)[i]] in index[path := n]
      && index[path := n][paths[([n] + rest)[i]]] == ([n] + rest)[i]
  {
    var nw, index' := [n] + rest, index[path := n];
    forall i | 0 <= i < |nw|
      ensures nw[i] in paths && paths[nw[i]] in index' && index'[paths[nw[i]]] == nw[i]
    {
      if i > 0 {
        var m := Skip(k, i - 1);
        assert nw[i] == rest[i - 1] == ns[m] && m != k;
        assert paths[ns[m]] != path;
      }
    }
  }

  /**
   * What `add` does to the index when it is in good order: the new node `n`
   * for `path` goes in front, and the node at `k` (the one indexed for the
   * path, if linked; -1 otherwise) leaves the list `rest`.
   */
  lemma MoveToFront(index: map<string, NodeId>, ns: seq<NodeId>, stale: set<NodeId>, paths: map<NodeId, string>,
                    n: NodeId, path: string, k: int, rest: seq<NodeId>)
    requires IndexOk(index, ns, stale, paths)
    requires NoDuplicates(ns) && n !in stale && n in paths && paths[n] == path
    requires k == -1 ==> path !in index || index[path] in stale
    requires k != -1 ==> 0 <= k < |ns| && path in index && index[path] == ns[k]
    requires rest == if k == -1 then ns else ns[..k] + ns[k + 1..]
    ensures IndexOk(index[path := n], [n] + rest, stale, paths)
  {
    DropsSlices(ns, k);
    FrontStale(index, ns, stale, paths, n, k, rest);
    FrontIndexed(index, ns, stale, paths, n, path, k, rest);
    FrontLinked(index, ns, stale, paths, n, path, k, rest);
  }

  /** The paths after `add` moved the node at `k` (or none, for -1) to the front. */
  lemma MoveToFrontData(paths: map<NodeId, string>, ns: seq<NodeId>, n: NodeId, k: int, rest: seq<NodeId>)
    requires -1 <= k < |ns|
    requires rest == if k == -1 then ns else ns[..k] + ns[k + 1..]
    ensures Data(paths, [n] + rest) == Data(paths, [n]) + (if k == -1 then Data(paths, ns) else Data(paths, ns)[..k] + Data(paths, ns)[k + 1..])
  {
  }

  lemma Splice(n: NodeId, ns: seq<NodeId>, k: nat)
    requires k < |ns|
    ensures ([n] + ns)[..k + 1] + ([n] + ns)[k + 2..] == [n] + (ns[..k] + ns[k + 1..])
  {
    assert ([n] + ns)[..k + 1] == [n] + ns[..k];
    assert ([n] + ns)[k + 2..] == ns[k + 1..];
  }

  lemma DistinctTail(n: NodeId, ns: seq<NodeId>)
    requires forall i, j :: 0 <= i < j < |[n] + ns| ==> ([n] + ns)[i] != ([n] + ns)[j]
    ensures NoDuplicates(ns) && n !in ns
  {
    forall i | 0 <= i < |ns|
      ensures ns[i] != n
    {
      assert ([n] + ns)[0] == n && ([n] + ns)[i + 1] == ns[i];
    }
    forall i, j | 0 <= i < j < |ns|
      ensures ns[i] != ns[j]
    {
      assert ([n] + ns)[i + 1] == ns[i] && ([n] + ns)[j + 1] == ns[j];
    }
  }

  /** `s` back to front. */
  function Reverse<T>(s: seq<T>): (r: seq<T>)
    ensures |r| == |s|
    ensures forall i :: 0 <= i < |s| ==> r[i] == s[|s| - 1 - i]
  {
    if s == [] then [] else Reverse(s[1..]) + [s[0]]
  }

  /**
   * The order in which repeated `remove()` calls return paths: the pending
   * paths first, then the linked paths from the oldest to the newest.
   */
  function EvictionOrder(pending: seq<string>, contents: seq<string>): (r: seq<string>)
  {
    pending + Reverse(contents)
  }

  /**
   * What `add(path)` makes of the linked paths `c` and the pending paths
   * `p`: `path` goes to the head and its old place is dropped, except that
   * an old place at the tail joins the pending paths, as `last` stays there.
   */
  function AfterAdd(c: seq<string>, p: seq<string>, path: string): (seq<string>, seq<string>)
  {
    if path !in c then ([path] + c, p)
    else if path != c[|c| - 1] then ([path] + Without(c, path), p)
    else ([path] + c[..|c| - 1], p + [path])
  }

  /**
   * What `remove()` makes of the linked paths `c` and the pending paths
   * `p`, and what it returns: the first pending path, else the tail.
   */
  function AfterRemove(c: seq<string>, p: seq<string>): (seq<string>, seq<string>, Result<string>)
  {
    if p != [] then (c, p[1..], Ok(p[0]))
    else if c == [] then (c, p, Fail(NoSuchElementException))
    else (c[..|c| - 1], [], Ok(c[|c| - 1]))
  }

  /** After `add(path)` the linked paths are the old ones plus `path`, which heads them. */
  lemma AddMembers(c: seq<string>, p: seq<string>, path: string)
    requires NoDuplicates(c)
    ensures var (c', p') := AfterAdd(c, p, path);
      && c' != [] && c'[0] == path && NoDuplicates(c')
      && (forall y :: y in c' <==> y in c || y == path)
  {
    var (c', p') := AfterAdd(c, p, path);
    if path !in c {
    } else if path != c[|c| - 1] {
      var k :| 0 <= k < |c| && c[k] == path;
      WithoutAt(c, k);
      forall y
        ensures y in c' <==> y in c || y == path
      {
        WithoutMembers(c, path, y);
      }
    } else {
      forall y | y in c
        ensures y in c'
      {
        var i :| 0 <= i < |c| && c[i] == y;
        if i < |c| - 1 {
          assert c'[i + 1] == y;
        }
      }
    }
  }

  /**
   * `remove()` returns the paths in `EvictionOrder`: the first one, leaving
   * the rest, or fails when there is none.
   */
  lemma RemoveFollowsOrder(c: seq<string>, p: seq<string>)
    ensures var (c', p', r) := AfterRemove(c, p);
      var o := EvictionOrder(p, c);
      && (o == [] ==> r == Fail(NoSuchElementException))
      && (o != [] ==> r == Ok(o[0]) && EvictionOrder(p', c') == o[1..])
  {
    if p == [] && c != [] {
      assert Reverse(c)[1..] == Reverse(c[..|c| - 1]);
    }
  }

  /** A path put at the head of the list is evicted after every other. */
  lemma {:induction false} HeadIsEvictedLast(pending: seq<string>, contents: seq<string>, p: string)
    ensures EvictionOrder(pending, [p] + contents) == EvictionOrder(pending, contents) + [p]
  {
    assert ([p] + contents)[1..] == contents;
  }


  /**
   * Re-adding the oldest path `p` makes it pending as well as the head: it is
   * evicted right after the paths already pending, and once more at the end.
   */
  lemma {:induction false} ReAddedOldestIsEvictedTwice(pending: seq<string>, contents: seq<string>, p: string)
    requires contents != [] && p == contents[|contents| - 1]
    ensures var o := EvictionOrder(pending + [p], [p] + contents[..|contents| - 1]);
      && |o| == |pending| + |contents| + 1
      && o[..|pending|] == pending
      && o[|pending|] == p && o[|o| - 1] == p
  {
    var c := contents[..|contents| - 1];
    HeadIsEvictedLast(pending + [p], c, p);
  }

  /** A fresh node leaves an index in good order as it was. */
  lemma IndexOkNewNode(index: map<string, NodeId>, ns: seq<NodeId>, stale: set<NodeId>,
                       paths: map<NodeId, string>, n: NodeId, path: string)
    requires IndexOk(index, ns, stale, paths) && n !in paths
    ensures IndexOk(index, ns, stale, paths[n := path])
  {
  }

  /**
   * Where the index puts `path` in the list: its position when the indexed
   * node is linked, -1 when the path is not indexed or its node was popped.
   * Linked paths are distinct, so that position is where `path` is.
   */
  lemma Locate(q: Queue, l: Layout, index: map<string, NodeId>, path: string) returns (k: int)
    requires QueueOk(q, l) && IndexOk(index, l.nodes, l.stale, q.paths)
    ensures k == -1 ==> path !in index || index[path] in l.stale
    ensures k != -1 ==> 0 <= k < |l.nodes| && path in index && index[path] == l.nodes[k]
    ensures NoDuplicates(l.nodes) && NoDuplicates(Data(q.paths, l.nodes))
    ensures path in Data(q.paths, l.nodes) <==> k != -1
    ensures k != -1 ==> Data(q.paths, l.nodes)[k] == path
  {
    var c, ns := Data(q.paths, l.nodes), l.nodes;
    k := -1;
    if path in index && index[path] !in l.stale {
      k :| 0 <= k < |ns| && ns[k] == index[path];
    }
    assert NoDuplicates(ns);
    IndexOkDistinct(index, ns, l.stale, q.paths);
    if path in c {
      var j :| 0 <= j < |c| && c[j] == path;
      assert c[j] == q.paths[ns[j]];
      assert index[path] == ns[j];
    }
    if k != -1 {
      assert c[k] == q.paths[ns[k]];
    }
  }

  /** The inner queue after `add(path)`, and the node `n` made for `path`. */
  function AddToQueue(q: Queue, index: map<string, NodeId>, path: string): (r: (Queue, NodeId))
    requires path in index ==> index[path] in q.nexts && index[path] in q.lasts
  {
    var (q1, n) := q.AddFirst(path);
    if path in index then (q1.Unlink(index[path]), n) else (q1, n)
  }

  /**
   * What `add(path)` does to a queue in good order, and the list it then
   * holds, `l'`: `path` heads it, its old node is unlinked, and the index
   * names the new node. When the old node was the tail it becomes pending.
   */
  lemma AddKeeps(q: Queue, l: Layout, index: map<string, NodeId>, path: string) returns (l': Layout)
    requires QueueOk(q, l) && IndexOk(index, l.nodes, l.stale, q.paths)
    ensures path in index ==> index[path] in q.nexts && index[path] in q.lasts
    ensures var (q', n) := AddToQueue(q, index, path);
      && QueueOk(q', l') && IndexOk(index[path := n], l'.nodes, l'.stale, q'.paths)
      && q'.first == Some(n)
    ensures var (q', n) := AddToQueue(q, index, path);
      var c, p := Data(q.paths, l.nodes), Data(q.paths, l.pending);
      (Data(q'.paths, l'.nodes), Data(q'.paths, l'.pending)) == AfterAdd(c, p, path)
  {
    var ns := l.nodes;
    var k := Locate(q, l, index, path);
    var n := q.count;
    var rest := if k == -1 then ns else ns[..k] + ns[k + 1..];
    if k == -1 {
      l' := AddUnlinked(q, l, index, path);
    } else {
      l' := AddLinked(q, l, index, path, k);
    }
    AddAfter(q.paths, ns, l.pending, n, path, k, rest);
  }

  /** `add(path)` of a path the list does not hold: no node, or a popped one, is unlinked. */
  lemma AddUnlinked(q: Queue, l: Layout, index: map<string, NodeId>, path: string) returns (l': Layout)
    requires QueueOk(q, l) && IndexOk(index, l.nodes, l.stale, q.paths)
    requires path !in index || index[path] in l.stale
    ensures path in index ==> index[path] in q.nexts && index[path] in q.lasts
    ensures l' == Layout([q.count] + l.nodes, l.pending, l.stale)
    ensures var (q', n) := AddToQueue(q, index, path);
      && n == q.count && n !in q.paths && q'.paths == q.paths[n := path]
      && QueueOk(q', l') && IndexOk(index[path := n], l'.nodes, l'.stale, q'.paths)
      && q'.first == Some(n)
  {
    var ns := l.nodes;
    AddFirstKeeps(q, l, path);
    var (q1, n) := q.AddFirst(path);
    l' := Layout([n] + ns, l.pending, l.stale);
    DistinctTail(n, ns);
    IndexOkNewNode(index, ns, l.stale, q.paths, n, path);
    MoveToFront(index, ns, l.stale, q1.paths, n, path, -1, ns);
    if path in index {
      UnlinkKeeps(q1, l', index[path], -1);
    }
  }

  /** `add(path)` of a path the list holds at `k`: that node is unlinked. */
  lemma AddLinked(q: Queue, l: Layout, index: map<string, NodeId>, path: string, k: int) returns (l': Layout)
    requires QueueOk(q, l) && IndexOk(index, l.nodes, l.stale, q.paths)
    requires 0 <= k < |l.nodes| && path in index && index[path] == l.nodes[k]
    ensures index[path] in q.nexts && index[path] in q.lasts
    ensures var n := q.count;
      l' == Layout([n] + (l.nodes[..k] + l.nodes[k + 1..]),
                   if k == |l.nodes| - 1 then l.pending + [l.nodes[k]] else l.pending, l.stale)
    ensures var (q', n) := AddToQueue(q, index, path);
      && n == q.count && n !in q.paths && q'.paths == q.paths[n := path]
      && QueueOk(q', l') && IndexOk(index[path := n], l'.nodes, l'.stale, q'.paths)
      && q'.first == Some(n)
  {
    var ns := l.nodes;
    AddFirstKeeps(q, l, path);
    var (q1, n) := q.AddFirst(path);
    var rest := ns[..k] + ns[k + 1..];
    var l1 := Layout([n] + ns, l.pending, l.stale);
    DistinctTail(n, ns);
    IndexOkNewNode(index, ns, l.stale, q.paths, n, path);
    MoveToFront(index, ns, l.stale, q1.paths, n, path, k, rest);
    UnlinkKeeps(q1, l1, index[path], k + 1);
    Splice(n, ns, k);
    l' := Layout([n] + rest, if k == |ns| - 1 then l.pending + [ns[k]] else l.pending, l.stale);
  }

  /** The paths held after `add(path)` are those of `AfterAdd`. */
  lemma AddAfter(paths: map<NodeId, string>, ns: seq<NodeId>, pending: seq<NodeId>, n: NodeId, path: string,
                 k: int, rest: seq<NodeId>)
    requires n !in paths && (forall i :: 0 <= i < |ns| ==> ns[i] in paths) && (forall i :: 0 <= i < |pending| ==> pending[i] in paths)
    requires NoDuplicates(Data(paths, ns))
    requires path in Data(paths, ns) <==> k != -1
    requires -1 <= k < |ns| && (k != -1 ==> Data(paths, ns)[k] == path)
    requires rest == if k == -1 then ns else ns[..k] + ns[k + 1..]
    ensures var c, p := Data(paths, ns), Data(paths, pending);
      var paths' := paths[n := path];
      (Data(paths', [n] + rest), Data(paths', if 0 <= k == |ns| - 1 then pending + [ns[k]] else pending))
        == AfterAdd(c, p, path)
  {
    var c := Data(paths, ns);
    DataFresh(paths, ns, n, path);
    DataFresh(paths, pending, n, path);
    AddData(paths[n := path], ns, pending, n, path, k, rest, c);
  }

  /** A node outside the run does not change its paths. */
  lemma DataFresh(paths: map<NodeId, string>, ns: seq<NodeId>, n: NodeId, path: string)
    requires n !in paths && forall i :: 0 <= i < |ns| ==> ns[i] in paths
    ensures Data(paths[n := path], ns) == Data(paths, ns)
  {
  }

  /**
   * The paths after `add`: `path` at the head of what was linked, less its
   * old place; an old place at the tail joins the pending paths.
   */
  lemma AddData(paths: map<NodeId, string>, ns: seq<NodeId>, pending: seq<NodeId>, n: NodeId, path: string,
                k: int, rest: seq<NodeId>, c: seq<string>)
    requires -1 <= k < |ns| && rest == (if k == -1 then ns else ns[..k] + ns[k + 1..])
    requires n in paths && paths[n] == path && Data(paths, ns) == c && NoDuplicates(c)
    requires k != -1 ==> c[k] == path
    ensures k == -1 ==> Data(paths, [n] + rest) == [path] + c
    ensures 0 <= k < |ns| - 1 ==> Data(paths, [n] + rest) == [path] + Without(c, path)
    ensures 0 <= k == |ns| - 1 ==>
      && Data(paths, [n] + rest) == [path] + c[..|c| - 1]
      && Data(paths, pending + [ns[k]]) == Data(paths, pending) + [path]
  {
    MoveToFrontData(paths, ns, n, k, rest);
    if 0 <= k == |ns| - 1 {
      assert c[..k] + c[k + 1..] == c[..|c| - 1];
    } else if k != -1 {
      WithoutAt(c, k);
    }
  }

  /** The list left after `remove()`: see `RemoveLastKeeps`. */
  ghost function Popped(l: Layout): Layout
  {
    if l.pending != [] then Layout(l.nodes, l.pending[1..], l.stale + {l.pending[0]})
    else if |l.nodes| >= 2 then Layout(l.nodes[..|l.nodes| - 1], [], l.stale + {l.nodes[|l.nodes| - 1]})
    else Layout([], [], l.stale)
  }

  /** Popping a pending node, which is not linked, leaves an index in good order. */
  lemma PopPendingIndex(index: map<string, NodeId>, ns: seq<NodeId>, stale: set<NodeId>, paths: map<NodeId, string>, x: NodeId)
    requires IndexOk(index, ns, stale, paths) && x !in ns
    ensures IndexOk(index, ns, stale + {x}, paths)
  {
  }

  /** Popping the tail leaves an index in good order: the tail's path now names a popped node. */
  lemma PopTailIndex(index: map<string, NodeId>, ns: seq<NodeId>, stale: set<NodeId>, paths: map<NodeId, string>)
    requires IndexOk(index, ns, stale, paths) && ns != [] && NoDuplicates(ns)
    ensures IndexOk(index, ns[..|ns| - 1], stale + {ns[|ns| - 1]}, paths)
  {
    var ns', x := ns[..|ns| - 1], ns[|ns| - 1];
    assert x !in ns' by {
      forall i | 0 <= i < |ns'|
        ensures ns'[i] != x
      {
        assert ns'[i] == ns[i];
      }
    }
    forall p | p in index
      ensures index[p] in ns' || index[p] in stale + {x}
    {
      if index[p] in ns && index[p] != x {
        var i :| 0 <= i < |ns| && ns[i] == index[p];
        assert ns'[i] == index[p];
      }
    }
  }

  /**
   * What `remove()` does to a queue in good order: the queue keeps its
   * shape and the index its good order, except that popping the only linked
   * node leaves `last` behind.
   */
  lemma RemoveKeeps(q: Queue, l: Layout, index: map<string, NodeId>)
    requires QueueOk(q, l) && IndexOk(index, l.nodes, l.stale, q.paths)
    ensures q.last.Some? ==> q.last.value in q.lasts && q.last.value in q.paths
    ensures var (q', r) := q.RemoveLast();
      && q'.paths == q.paths
      && (l.pending == [] && l.nodes == [] ==> r == Fail(NoSuchElementException) && q' == q && Popped(l) == l)
      && (l.pending != [] || |l.nodes| >= 2 ==>
            QueueOk(q', Popped(l)) && IndexOk(index, Popped(l).nodes, Popped(l).stale, q'.paths))
      && (l.pending != [] ==> r == Ok(q.paths[l.pending[0]]))
      && (l.pending == [] && l.nodes != [] ==> r == Ok(q.paths[l.nodes[|l.nodes| - 1]]))
      && (l.pending == [] && |l.nodes| == 1 ==> q'.last != None)
  {
    RemoveLastKeeps(q, l);
    var ns, ps := l.nodes, l.pending;
    if ps != [] {
      PopPendingIndex(index, ns, l.stale, q.paths, ps[0]);
    } else if |ns| >= 2 {
      PopTailIndex(index, ns, l.stale, q.paths);
    }
  }

  /** The paths of the list left by `remove()`, and the path it returns, are those of `AfterRemove`. */
  lemma RemoveData(paths: map<NodeId, string>, l: Layout)
    requires l.pending != [] ==> l.pending[0] in paths
    requires l.nodes != [] ==> l.nodes[|l.nodes| - 1] in paths
    ensures var (c', p', r) := AfterRemove(Data(paths, l.nodes), Data(paths, l.pending));
      && Data(paths, Popped(l).nodes) == c' && Data(paths, Popped(l).pending) == p'
      && (l.pending != [] ==> r == Ok(paths[l.pending[0]]))
      && (l.pending == [] && l.nodes != [] ==> r == Ok(paths[l.nodes[|l.nodes| - 1]]))
      && (l.pending == [] && l.nodes == [] ==> r == Fail(NoSuchElementException))
  {
    var ns, ps := l.nodes, l.pending;
    if ps != [] {
      assert Data(paths, ps[1..]) == Data(paths, ps)[1..];
    } else if |ns| >= 2 {
      assert Data(paths, ns[..|ns| - 1]) == Data(paths, ns)[..|ns| - 1];
    }
  }
}
