/**
 * The inner queue of `UniqueQueue`: a hand-written doubly linked list of
 * nodes, each holding a path and its `next` and `last` neighbours.
 *
 * Nodes are numbered, and the queue keeps each node's `next`, `last` and
 * `data` fields in tables keyed by that number, so a node number plays the
 * part of a reference to a node. A `Layout` describes the list: `nodes`,
 * the nodes linked from `first`; `pending`, the old tails that `last`
 * still walks back through (see `PendingOk`); and `stale`, the nodes
 * `remove()` has popped.
 */
module LinkedQueues {
  import opened Common

  /** A node number; `None` plays the part of `null`. */
  type NodeId = nat

  /** The paths held by a run of nodes, in order. */
  function Data(paths: map<NodeId, string>, ns: seq<NodeId>): (r: seq<string>)
  {
    seq(|ns|, i requires 0 <= i < |ns| => if ns[i] in paths then paths[ns[i]] else "")
  }

  /*
   * The shape of the inner queue, over `nx` and `lt`, the `next` and
   * `last` fields of the nodes.
   */

  /** `nodes` are distinct and doubly linked from `first`. */
  ghost predicate ListOk(nx: map<NodeId, Option<NodeId>>, lt: map<NodeId, Option<NodeId>>,
                         first: Option<NodeId>, nodes: seq<NodeId>)
  {
    && (forall i :: 0 <= i < |nodes| ==> nodes[i] in nx && nodes[i] in lt)
    && (forall i, j :: 0 <= i < j < |nodes| ==> nodes[i] != nodes[j])
    && first == (if nodes == [] then None else Some(nodes[0]))
    && (nodes != [] ==> lt[nodes[0]] == None && nx[nodes[|nodes| - 1]] == None)
    && (forall i :: 0 <= i < |nodes| - 1 ==> nx[nodes[i]] == Some(nodes[i + 1]))
    && (forall i :: 0 < i < |nodes| ==> lt[nodes[i]] == Some(nodes[i - 1]))
  }

  /** A popped node points nowhere forward, and neither does the node it points back to. */
  ghost predicate StaleOk(nx: map<NodeId, Option<NodeId>>, lt: map<NodeId, Option<NodeId>>,
                          nodes: seq<NodeId>, stale: set<NodeId>)
  {
    forall s :: s in stale ==>
      && s in nx && s in lt && s !in nodes && nx[s] == None
      && (lt[s].Some? ==> lt[s].value in nx && nx[lt[s].value] == None)
  }

  /**
   * Where `last` points. Unlinking the tail does not move `last`, so `last`
   * walks back through the unlinked old tails, `pending`, before it reaches
   * the tail of `nodes`; each of them points nowhere forward.
   */
  ghost predicate PendingOk(nx: map<NodeId, Option<NodeId>>, lt: map<NodeId, Option<NodeId>>,
                            last: Option<NodeId>, nodes: seq<NodeId>, pending: seq<NodeId>, stale: set<NodeId>)
  {
    && (forall i :: 0 <= i < |pending| ==>
          pending[i] in nx && pending[i] in lt && pending[i] !in stale && pending[i] !in nodes
          && nx[pending[i]] == None)
    && (forall i, j :: 0 <= i < j < |pending| ==> pending[i] != pending[j])
    && (forall i :: 0 <= i < |pending| - 1 ==> lt[pending[i]] == Some(pending[i + 1]))
    && (pending != [] ==> nodes != [] && lt[pending[|pending| - 1]] == Some(nodes[|nodes| - 1]))
    && last == (if pending != [] then Some(pending[0]) else if nodes == [] then None else Some(nodes[|nodes| - 1]))
  }

  ghost predicate Shape(nx: map<NodeId, Option<NodeId>>, lt: map<NodeId, Option<NodeId>>,
                        first: Option<NodeId>, last: Option<NodeId>,
                        nodes: seq<NodeId>, pending: seq<NodeId>, stale: set<NodeId>)
  {
    ListOk(nx, lt, first, nodes) && StaleOk(nx, lt, nodes, stale) && PendingOk(nx, lt, last, nodes, pending, stale)
  }

  /** `m` with the field of node `x`, if there is one, set to `y`: the source's `x?.f = y`. */
  function Relinked(m: map<NodeId, Option<NodeId>>, x: Option<NodeId>, y: Option<NodeId>): (r: map<NodeId, Option<NodeId>>)
  {
    if x.None? then m else m[x.value := y]
  }

  /** `addFirst` links a new node `n` in front of `first`. */
  lemma AddFirstShape(nx: map<NodeId, Option<NodeId>>, lt: map<NodeId, Option<NodeId>>,
                      first: Option<NodeId>, last: Option<NodeId>,
                      nodes: seq<NodeId>, pending: seq<NodeId>, stale: set<NodeId>, n: NodeId)
    requires Shape(nx, lt, first, last, nodes, pending, stale) && n !in nx && n !in lt
    ensures Shape(nx[n := first], Relinked(lt[n := None], first, Some(n)),
                  Some(n), if last == None then Some(n) else last, [n] + nodes, pending, stale)
  {
    var nx', lt' := nx[n := first], Relinked(lt[n := None], first, Some(n));
    var ns := [n] + nodes;
    assert forall i :: 0 < i < |ns| ==> ns[i] == nodes[i - 1];
    assert ListOk(nx', lt', Some(n), ns);
  }

  /** `remove()` when the node `l` at `last` points back at another: `l` is popped. */
  lemma PopShape(nx: map<NodeId, Option<NodeId>>, lt: map<NodeId, Option<NodeId>>, first: Option<NodeId>, l: NodeId,
                 nodes: seq<NodeId>, pending: seq<NodeId>, stale: set<NodeId>)
    requires Shape(nx, lt, first, Some(l), nodes, pending, stale)
    requires l in lt && lt[l].Some?
    ensures pending == [] ==> 2 <= |nodes|
    ensures Shape(nx[lt[l].value := None], lt, first, lt[l],
                  if pending != [] then nodes else nodes[..|nodes| - 1],
                  if pending != [] then pending[1..] else [], stale + {l})
  {
    var p := lt[l].value;
    if pending != [] {
      assert p == if |pending| > 1 then pending[1] else nodes[|nodes| - 1];
      assert nx[p := None] == nx;
    } else {
      PopTailShape(nx, lt, first, nodes, stale);
    }
  }

  /** `remove()` when nothing is pending: the tail of `nodes` is popped. */
  lemma PopTailShape(nx: map<NodeId, Option<NodeId>>, lt: map<NodeId, Option<NodeId>>, first: Option<NodeId>,
                     nodes: seq<NodeId>, stale: set<NodeId>)
    requires nodes != [] && Shape(nx, lt, first, Some(nodes[|nodes| - 1]), nodes, [], stale)
    requires lt[nodes[|nodes| - 1]].Some?
    ensures |nodes| >= 2 && lt[nodes[|nodes| - 1]] == Some(nodes[|nodes| - 2])
    ensures var p := nodes[|nodes| - 2];
      Shape(nx[p := None], lt, first, Some(p), nodes[..|nodes| - 1], [], stale + {nodes[|nodes| - 1]})
  {
    var l, ns := nodes[|nodes| - 1], nodes[..|nodes| - 1];
    assert |nodes| >= 2;
    var p := nodes[|nodes| - 2];
    var nx' := nx[p := None];
    assert forall i :: 0 <= i < |ns| ==> ns[i] == nodes[i] && ns[i] != l;
    assert forall i :: 0 <= i < |ns| - 1 ==> nx'[ns[i]] == nx[ns[i]];
    assert ListOk(nx', lt, first, ns);
    assert StaleOk(nx', lt, ns, stale + {l});
  }

  /**
   * `remove(n)` of `v`, the node at `k` of `nodes` (never the head), or a
   * popped node when `k` is -1: its neighbours are joined.
   */
  lemma UnlinkShape(nx: map<NodeId, Option<NodeId>>, lt: map<NodeId, Option<NodeId>>,
                    first: Option<NodeId>, last: Option<NodeId>,
                    nodes: seq<NodeId>, pending: seq<NodeId>, stale: set<NodeId>, v: NodeId, k: int)
    requires Shape(nx, lt, first, last, nodes, pending, stale)
    requires (k == -1 && v in stale) || (0 < k < |nodes| && nodes[k] == v)
    ensures v in nx && v in lt
    ensures lt[v].Some? ==> lt[v].value in nx
    ensures nx[v].Some? ==> nx[v].value in lt
    ensures Shape(Relinked(nx, lt[v], nx[v]), Relinked(lt, nx[v], lt[v]),
                  first, last,
                  if k == -1 then nodes else nodes[..k] + nodes[k + 1..],
                  if 0 < k == |nodes| - 1 then pending + [v] else pending,
                  stale)
  {
    if k == -1 {
      assert Relinked(nx, lt[v], nx[v]) == nx && Relinked(lt, nx[v], lt[v]) == lt;
    } else {
      assert lt[v] == Some(nodes[k - 1]);
      assert nx[v] == (if k + 1 < |nodes| then Some(nodes[k + 1]) else None);
      UnlinkList(nx, lt, first, nodes, v, k);
      UnlinkStale(nx, lt, nodes, stale, v, k);
      UnlinkPending(nx, lt, last, nodes, pending, stale, v, k);
    }
  }

  lemma UnlinkList(nx: map<NodeId, Option<NodeId>>, lt: map<NodeId, Option<NodeId>>,
                   first: Option<NodeId>, nodes: seq<NodeId>, v: NodeId, k: int)
    requires ListOk(nx, lt, first, nodes) && 0 < k < |nodes| && nodes[k] == v
    ensures ListOk(Relinked(nx, lt[v], nx[v]), Relinked(lt, nx[v], lt[v]), first, nodes[..k] + nodes[k + 1..])
  {
    assert lt[v] == Some(nodes[k - 1]);
    if k == |nodes| - 1 {
      assert nodes[..k] + nodes[k + 1..] == nodes[..k];
      UnlinkListTail(nx, lt, first, nodes);
    } else {
      UnlinkListMiddle(nx, lt, first, nodes, k);
    }
  }

  /** Unlinking the tail of `nodes` leaves the nodes before it linked. */
  lemma UnlinkListTail(nx: map<NodeId, Option<NodeId>>, lt: map<NodeId, Option<NodeId>>,
                       first: Option<NodeId>, nodes: seq<NodeId>)
    requires ListOk(nx, lt, first, nodes) && |nodes| >= 2
    ensures ListOk(nx[nodes[|nodes| - 2] := None], lt, first, nodes[..|nodes| - 1])
  {
    var ns, nx' := nodes[..|nodes| - 1], nx[nodes[|nodes| - 2] := None];
    assert forall i :: 0 <= i < |ns| ==> ns[i] == nodes[i];
    assert forall i :: 0 <= i < |ns| - 1 ==> nx'[ns[i]] == nx[ns[i]];
  }

  /** Unlinking a node inside `nodes` joins its neighbours. */
  lemma UnlinkListMiddle(nx: map<NodeId, Option<NodeId>>, lt: map<NodeId, Option<NodeId>>,
                         first: Option<NodeId>, nodes: seq<NodeId>, k: int)
    requires ListOk(nx, lt, first, nodes) && 0 < k < |nodes| - 1
    ensures ListOk(nx[nodes[k - 1] := Some(nodes[k + 1])], lt[nodes[k + 1] := Some(nodes[k - 1])],
                   first, nodes[..k] + nodes[k + 1..])
  {
    var ns := nodes[..k] + nodes[k + 1..];
    var nx', lt' := nx[nodes[k - 1] := Some(nodes[k + 1])], lt[nodes[k + 1] := Some(nodes[k - 1])];
    assert forall i :: 0 <= i < |ns| ==> ns[i] == (if i < k then nodes[i] else nodes[i + 1]);
    forall i | 0 <= i < |ns| - 1
      ensures nx'[ns[i]] == Some(ns[i + 1])
    {
      if i != k - 1 {
        assert ns[i] != nodes[k - 1];
      }
    }
    forall i | 0 < i < |ns|
      ensures lt'[ns[i]] == Some(ns[i - 1])
    {
      if i != k {
        assert ns[i] != nodes[k + 1];
      }
    }
    assert forall i, j :: 0 <= i < j < |ns| ==> ns[i] != ns[j];
    assert ns[|ns| - 1] == nodes[|nodes| - 1];
  }

  lemma UnlinkStale(nx: map<NodeId, Option<NodeId>>, lt: map<NodeId, Option<NodeId>>,
                    nodes: seq<NodeId>, stale: set<NodeId>, v: NodeId, k: int)
    requires 0 < k < |nodes| && nodes[k] == v
    requires ListOk(nx, lt, Some(nodes[0]), nodes) && StaleOk(nx, lt, nodes, stale)
    ensures StaleOk(Relinked(nx, lt[v], nx[v]), Relinked(lt, nx[v], lt[v]), nodes[..k] + nodes[k + 1..], stale)
  {
    var ns := nodes[..k] + nodes[k + 1..];
    var nx', lt' := nx[nodes[k - 1] := nx[v]], Relinked(lt, nx[v], lt[v]);
    assert lt[v] == Some(nodes[k - 1]) && nx[nodes[k - 1]] == Some(v);
    assert forall i :: 0 <= i < |ns| ==> ns[i] == (if i < k then nodes[i] else nodes[i + 1]);
    forall s | s in stale
      ensures s in nx' && s in lt' && s !in ns && nx'[s] == None
      ensures lt'[s].Some? ==> lt'[s].value in nx' && nx'[lt'[s].value] == None
    {
      assert s != nodes[k - 1];
      assert k + 1 < |nodes| ==> s != nodes[k + 1];
      assert lt'[s] == lt[s];
    }
  }

  lemma UnlinkPending(nx: map<NodeId, Option<NodeId>>, lt: map<NodeId, Option<NodeId>>, last: Option<NodeId>,
                      nodes: seq<NodeId>, pending: seq<NodeId>, stale: set<NodeId>, v: NodeId, k: int)
    requires 0 < k < |nodes| && nodes[k] == v
    requires ListOk(nx, lt, Some(nodes[0]), nodes) && StaleOk(nx, lt, nodes, stale)
    requires PendingOk(nx, lt, last, nodes, pending, stale)
    ensures PendingOk(Relinked(nx, lt[v], nx[v]), Relinked(lt, nx[v], lt[v]), last,
                      nodes[..k] + nodes[k + 1..], if k == |nodes| - 1 then pending + [v] else pending, stale)
  {
    assert lt[v] == Some(nodes[k - 1]);
    if k == |nodes| - 1 {
      assert nodes[..k] + nodes[k + 1..] == nodes[..k];
      UnlinkPendingTail(nx, lt, last, nodes, pending, stale);
    } else {
      UnlinkPendingMiddle(nx, lt, last, nodes, pending, stale, k);
    }
  }

  /** Unlinking the tail of `nodes` makes it the last of the pending old tails. */
  lemma UnlinkPendingTail(nx: map<NodeId, Option<NodeId>>, lt: map<NodeId, Option<NodeId>>, last: Option<NodeId>,
                          nodes: seq<NodeId>, pending: seq<NodeId>, stale: set<NodeId>)
    requires |nodes| >= 2
    requires ListOk(nx, lt, Some(nodes[0]), nodes) && StaleOk(nx, lt, nodes, stale)
    requires PendingOk(nx, lt, last, nodes, pending, stale)
    ensures PendingOk(nx[nodes[|nodes| - 2] := None], lt, last, nodes[..|nodes| - 1], pending + [nodes[|nodes| - 1]], stale)
  {
    var k := |nodes| - 1;
    var v, p := nodes[k], nodes[k - 1];
    var ns, ps, nx' := nodes[..k], pending + [v], nx[p := None];
    assert v !in stale && v !in pending && v !in ns;
    assert lt[v] == Some(p) && nx[v] == None;
    assert forall i :: 0 <= i < |pending| ==> ps[i] == pending[i] && pending[i] != p;
    assert forall i :: 0 <= i < |ps| ==> ps[i] in nx' && ps[i] in lt && ps[i] !in stale && ps[i] !in ns && nx'[ps[i]] == None;
    assert forall i, j :: 0 <= i < j < |ps| ==> ps[i] != ps[j];
    assert forall i :: 0 <= i < |ps| - 1 ==> lt[ps[i]] == Some(ps[i + 1]);
    assert lt[ps[|ps| - 1]] == Some(ns[|ns| - 1]);
    assert last == Some(ps[0]);
  }

  /** Unlinking a node inside `nodes` leaves the pending old tails as they were. */
  lemma UnlinkPendingMiddle(nx: map<NodeId, Option<NodeId>>, lt: map<NodeId, Option<NodeId>>, last: Option<NodeId>,
                            nodes: seq<NodeId>, pending: seq<NodeId>, stale: set<NodeId>, k: int)
    requires 0 < k < |nodes| - 1
    requires ListOk(nx, lt, Some(nodes[0]), nodes)
    requires PendingOk(nx, lt, last, nodes, pending, stale)
    ensures PendingOk(nx[nodes[k - 1] := Some(nodes[k + 1])], lt[nodes[k + 1] := Some(nodes[k - 1])], last,
                      nodes[..k] + nodes[k + 1..], pending, stale)
  {
    var ns := nodes[..k] + nodes[k + 1..];
    var nx', lt' := nx[nodes[k - 1] := Some(nodes[k + 1])], lt[nodes[k + 1] := Some(nodes[k - 1])];
    assert forall x :: x in ns ==> x in nodes;
    assert ns[|ns| - 1] == nodes[|nodes| - 1];
    assert forall i :: 0 <= i < |pending| ==> pending[i] != nodes[k - 1] && pending[i] != nodes[k + 1];
    assert forall i :: 0 <= i < |pending| ==>
      pending[i] in nx' && pending[i] in lt' && pending[i] !in ns && nx'[pending[i]] == None;
    assert forall i :: 0 <= i < |pending| - 1 ==> lt'[pending[i]] == Some(pending[i + 1]);
    assert pending != [] ==> lt'[pending[|pending| - 1]] == Some(ns[|ns| - 1]);
  }

  /**
   * The inner `Queue` together with its nodes: the fields `first` and
   * `last`, and the fields `next`, `last` and `data` of every node, kept
   * in tables by node number. `count` is how many nodes were made, so a
   * new node takes a number no node had before.
   */
  datatype Queue = Queue(first: Option<NodeId>, last: Option<NodeId>,
                         nexts: map<NodeId, Option<NodeId>>, lasts: map<NodeId, Option<NodeId>>,
                         paths: map<NodeId, string>, count: nat)
  {
    /** The source's `isEmpty()`: only `last` is consulted. */
    predicate IsEmpty()
    {
      last == None
    }

    /** `addFirst(path)`: a new node `n`, linked in front of `first`. */
    function AddFirst(path: string): (r: (Queue, NodeId))
    {
      var n := count;
      var last' := if last == None then Some(n) else last;
      (Queue(Some(n), last', nexts[n := first], Relinked(lasts[n := None], first, Some(n)), paths[n := path], count + 1),
       n)
    }

    /**
     * `remove()`: the node at `last` is popped and its path returned. When
     * that node points back at another, `last` moves there and that node's
     * `next` is cleared; otherwise only `first` is cleared, and `last` keeps
     * pointing at the popped node.
     */
    function RemoveLast(): (r: (Queue, Result<string>))
      requires last.Some? ==> last.value in lasts && last.value in paths
    {
      match last
      case None => (this, Fail(NoSuchElementException))
      case Some(n) =>
        var back := lasts[n];
        if back != None then (this.(last := back, nexts := Relinked(nexts, back, None)), Ok(paths[n]))
        else (this.(first := None), Ok(paths[n]))
    }

    /** `remove(n)`: the neighbours of `v` are joined around it; `first` and `last` stay. */
    function Unlink(v: NodeId): (r: Queue)
      requires v in nexts && v in lasts
    {
      var before, after := lasts[v], nexts[v];
      this.(nexts := Relinked(nexts, before, after), lasts := Relinked(lasts, after, before))
    }

    /** `clear()`: only `first` and `last` are dropped; the nodes themselves are left as they are. */
    function Clear(): (r: Queue)
    {
      this.(first := None, last := None)
    }
  }

  /** The list a queue holds, as the ghost description the shape predicates use. */
  datatype Layout = Layout(nodes: seq<NodeId>, pending: seq<NodeId>, stale: set<NodeId>)

  /** An empty queue: both ends null, no nodes yet. */
  const EmptyQueue: Queue := Queue(None, None, map[], map[], map[], 0)

  /** `q` holds the list `l`: every node has all three fields, numbers are below `count`. */
  ghost predicate QueueOk(q: Queue, l: Layout)
  {
    && (forall id :: id in q.nexts ==> id in q.paths)
    && (forall id :: id in q.lasts ==> id in q.paths)
    && (forall id :: id in q.paths ==> id < q.count)
    && Shape(q.nexts, q.lasts, q.first, q.last, l.nodes, l.pending, l.stale)
  }

  /** `addFirst` keeps the queue in shape, puts a fresh node for `path` at the head and changes no other path. */
  lemma AddFirstKeeps(q: Queue, l: Layout, path: string)
    requires QueueOk(q, l)
    ensures var (q', n) := q.AddFirst(path);
      && n !in q.paths && q'.paths == q.paths[n := path] && q'.first == Some(n)
      && QueueOk(q', Layout([n] + l.nodes, l.pending, l.stale))
  {
    var n := q.count;
    AddFirstShape(q.nexts, q.lasts, q.first, q.last, l.nodes, l.pending, l.stale, n);
  }

  /**
   * What `remove()` returns and leaves: the first pending node if there is
   * one, else the tail. Popping the only node keeps `last`, so the queue
   * stays non-empty though nothing is linked.
   */
  lemma RemoveLastKeeps(q: Queue, l: Layout)
    requires QueueOk(q, l)
    ensures q.last.Some? ==> q.last.value in q.lasts && q.last.value in q.paths
    ensures var (q', r) := q.RemoveLast();
      && q'.paths == q.paths
      && (l.pending != [] ==>
            && r == Ok(q.paths[l.pending[0]])
            && QueueOk(q', Layout(l.nodes, l.pending[1..], l.stale + {l.pending[0]})))
      && (l.pending == [] && l.nodes == [] ==> r == Fail(NoSuchElementException) && q' == q)
      && (l.pending == [] && |l.nodes| >= 2 ==>
            && r == Ok(q.paths[l.nodes[|l.nodes| - 1]])
            && QueueOk(q', Layout(l.nodes[..|l.nodes| - 1], [], l.stale + {l.nodes[|l.nodes| - 1]})))
      && (l.pending == [] && |l.nodes| == 1 ==>
            && r == Ok(q.paths[l.nodes[0]])
            && q'.first == None && q'.last == q.last && q'.last != None)
  {
    var ns, ps := l.nodes, l.pending;
    if ps != [] || |ns| >= 2 {
      var n := q.last.value;
      if ps != [] {
        assert n == ps[0] && q.lasts[n] == if |ps| > 1 then Some(ps[1]) else Some(ns[|ns| - 1]);
      } else {
        assert n == ns[|ns| - 1] && q.lasts[n] == Some(ns[|ns| - 2]);
      }
      PopShape(q.nexts, q.lasts, q.first, n, ns, ps, l.stale);
    }
  }

  /**
   * Unlinking the node at `k` of the list (never the head), or a popped node
   * when `k` is -1, keeps the queue in shape. An unlinked tail is not
   * dropped from `last`'s reach: it becomes pending.
   */
  lemma UnlinkKeeps(q: Queue, l: Layout, v: NodeId, k: int)
    requires QueueOk(q, l)
    requires (k == -1 && v in l.stale) || (0 < k < |l.nodes| && l.nodes[k] == v)
    ensures v in q.nexts && v in q.lasts
    ensures q.Unlink(v).paths == q.paths && q.Unlink(v).first == q.first && q.Unlink(v).last == q.last
    ensures QueueOk(q.Unlink(v), Layout(if k == -1 then l.nodes else l.nodes[..k] + l.nodes[k + 1..],
                                         if 0 < k == |l.nodes| - 1 then l.pending + [v] else l.pending,
                                         l.stale))
  {
    UnlinkShape(q.nexts, q.lasts, q.first, q.last, l.nodes, l.pending, l.stale, v, k);
  }

  /** After `clear()` the queue is in shape, empty, and holds no list. */
  lemma ClearKeeps(q: Queue, l: Layout)
    requires QueueOk(q, l)
    ensures QueueOk(q.Clear(), Layout([], [], {})) && q.Clear().IsEmpty()
  {
  }
}
