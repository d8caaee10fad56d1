/**
 * The recency queue of cached folder paths (`UniqueQueue`): the linked
 * list of `LinkedQueues`, whose head is the most recently added path, plus
 * a path -> node index. `Add` moves a path to the head, `Remove` pops the
 * path at `last`, the one the cache evicts next.
 */
module UniqueQueues {
  import opened Common
  import opened LinkedQueues
  import opened QueueIndexes

  class UniqueQueue {
    var queue: Queue
    var index: map<string, NodeId>  // the source's `map` field
    ghost var layout: Layout

    /**
     * The queue is in shape; the index maps each linked path to its node,
     * and every other path it still knows to a node that `Remove` popped.
     */
    ghost predicate Valid()
      reads this
    {
      && QueueOk(queue, layout)
      && IndexOk(index, layout.nodes, layout.stale, queue.paths)
    }

    /** The linked paths, most recent first. */
    ghost function Contents(): seq<string>
      reads this
    {
      Data(queue.paths, layout.nodes)
    }

    /** The paths of the pending old tails, in the order `Remove` returns them. */
    ghost function Pending(): seq<string>
      reads this
    {
      Data(queue.paths, layout.pending)
    }

    /** The paths repeated `Remove` calls return, in order. */
    ghost function Order(): seq<string>
      reads this
    {
      EvictionOrder(Pending(), Contents())
    }

    constructor ()
      ensures Valid() && Contents() == [] && Pending() == [] && index == map[]
    {
      queue, index := EmptyQueue, map[];
      layout := Layout([], [], {});
    }

    /** `isEmpty()`: true exactly when the inner queue's `last` is null. */
    function IsEmpty(): (r: bool)
      reads this
      ensures r <==> queue.last == None
      ensures Valid() ==> (r <==> Order() == [])
    {
      queue.IsEmpty()
    }

    /** A valid queue never links a path twice. */
    lemma ContentsDistinct()
      requires Valid()
      ensures NoDuplicates(Contents())
    {
      assert NoDuplicates(layout.nodes);
      IndexOkDistinct(index, layout.nodes, layout.stale, queue.paths);
    }

    /**
     * `add(path)`: put a new node for `path` at the head, unlink the node the
     * index held for it, and index the new node. When that old node was the
     * tail, `last` is not moved: the old node becomes pending.
     */
    method Add(path: string)
      requires Valid()
      modifies this
      ensures Valid()
      ensures queue.first.Some? && index == old(index)[path := queue.first.value]
      ensures (Contents(), Pending()) == AfterAdd(old(Contents()), old(Pending()), path)
    {
      ghost var l := AddKeeps(queue, layout, index, path);
      var (q, n) := AddToQueue(queue, index, path);
      queue, index, layout := q, index[path := n], l;
    }

    /**
     * `remove()`: pop and return the next path in `Order()`. The path stays
     * in the index. Popping the only node leaves `last` set, so the queue
     * still reports itself non-empty.
     */
    method Remove() returns (r: Result<string>)
      requires Valid()
      modifies this
      ensures index == old(index)
      ensures (Contents(), Pending(), r) == AfterRemove(old(Contents()), old(Pending()))
      ensures old(Pending()) != [] || |old(Contents())| != 1 ==> Valid()
      ensures old(Pending()) == [] && |old(Contents())| == 1 ==> !IsEmpty()
      ensures old(Pending()) == [] && old(Contents()) != [] ==> r.value in index
    {
      RemoveKeeps(queue, layout, index);
      RemoveData(queue.paths, layout);
      var (q, res) := queue.RemoveLast();
      queue, r, layout := q, res, Popped(layout);
    }

    /** `clear()`: empty both the list and the index. */
    method Clear()
      requires Valid()
      modifies this
      ensures Valid()
      ensures Contents() == [] && Pending() == [] && index == map[] && IsEmpty()
    {
      ClearKeeps(queue, layout);
      queue, index := queue.Clear(), map[];
      layout := Layout([], [], {});
    }
  }

  /** Adds "a", then "b", to a new queue. */
  method AddAB() returns (q: UniqueQueue)
    ensures fresh(q) && q.Valid()
    ensures q.Contents() == ["b", "a"] && q.Pending() == [] && "a" in q.index
  {
    q := new UniqueQueue();
    q.Add("a");
    assert q.Contents() == ["a"];
    q.Add("b");
  }

  /** Adds "a", then "b", then "a" again to a new queue. */
  method AddABA() returns (q: UniqueQueue)
    ensures fresh(q) && q.Valid()
    ensures q.Contents() == ["a", "b"] && q.Pending() == ["a"]
  {
    q := AddAB();
    q.Add("a");
  }

  /**
   * Re-adding the oldest path: "a" was just made the most recent, yet it is
   * the first path evicted, and it is evicted again after "b".
   */
  method ReAddOldestIsEvictedFirst() returns (evicted: seq<Result<string>>)
    ensures evicted == [Ok("a"), Ok("b"), Ok("a")]
  {
    var q := AddABA();
    var r1 := q.Remove();
    var r2 := q.Remove();
    var r3 := q.Remove();
    evicted := [r1, r2, r3];
  }

  /** Popping the only path leaves the queue reporting itself non-empty. */
  method PopOnlyPathStaysNonEmpty() returns (r: Result<string>, empty: bool)
    ensures r == Ok("a") && !empty
  {
    var q := new UniqueQueue();
    q.Add("a");
    r := q.Remove();
    empty := q.IsEmpty();
  }

  /** A popped path is still in the index. */
  method PoppedPathStaysIndexed() returns (r: Result<string>, indexed: bool)
    ensures r == Ok("a") && indexed
  {
    var q := AddAB();
    r := q.Remove();
    indexed := "a" in q.index;
  }
}
