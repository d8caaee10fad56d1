/**
 * The queue of pending fetches (`UniquePriorityBlockingQueue`): a priority
 * queue of units, least `priority` first, plus a side set `containedCheck`
 * of units seen. Adding a unit that is already in the set cancels the
 * futures of the equal units still queued.
 *
 * A unit is a data class, so two units are equal when they hold the same
 * future object and the same priority.
 */
module UniquePriorityQueues {
  import opened Common

  /** A pending fetch; only whether it was asked to cancel is modelled. */
  class Deferred {
    var cancelled: bool

    constructor ()
      ensures !cancelled
    {
      cancelled := false;
    }
  }

  datatype PreloadableUnit = PreloadableUnit(future: Deferred, priority: int)

  /** The position of the first unit of least priority in a non-empty queue. */
  function LeastIndex(q: seq<PreloadableUnit>): (i: nat)
    requires q != []
    ensures i < |q|
    ensures forall j :: 0 <= j < |q| ==> q[i].priority <= q[j].priority
    ensures forall j :: 0 <= j < i ==> q[j].priority > q[i].priority
  {
    if |q| == 1 then 0
    else
      var k := LeastIndex(q[1..]);
      if q[0].priority <= q[k + 1].priority then 0 else k + 1
  }

  /** Taking out position `i` takes one copy of `q[i]` out of the multiset. */
  lemma RemoveAt<T>(q: seq<T>, i: nat)
    requires i < |q|
    ensures multiset(q[..i] + q[i + 1..]) == multiset(q) - multiset{q[i]}
  {
    assert q == q[..i] + [q[i]] + q[i + 1..];
  }

  class UniquePriorityBlockingQueue {
    /** `preloadPriorityQueue`, in the order the units were added. */
    var queue: seq<PreloadableUnit>
    var containedCheck: set<PreloadableUnit>

    constructor ()
      ensures queue == [] && containedCheck == {}
    {
      queue := [];
      containedCheck := {};
    }

    /**
     * `add(element)`: if an equal unit was seen, cancel the future of every
     * queued unit equal to it (they all share `element.future`); otherwise
     * record it as seen. Either way the unit is queued.
     */
    method Add(element: PreloadableUnit)
      modifies this, element.future
      ensures queue == old(queue) + [element]
      ensures containedCheck == old(containedCheck) + {element}
      ensures element.future.cancelled <==>
        old(element.future.cancelled) || (element in old(containedCheck) && element in old(queue))
    {
      if element in containedCheck {
        var i := 0;
        while i < |queue|
          invariant 0 <= i <= |queue|
          invariant queue == old(queue) && containedCheck == old(containedCheck)
          invariant element.future.cancelled <==> old(element.future.cancelled) || element in queue[..i]
        {
          if queue[i] == element {
            queue[i].future.cancelled := true;
          }
          assert queue[..i + 1] == queue[..i] + [queue[i]];
          i := i + 1;
        }
        assert queue[..i] == queue;
      } else {
        containedCheck := containedCheck + {element};
      }
      queue := queue + [element];
    }

    /**
     * `poll()`: take out a unit of least priority and forget it was seen,
     * or return None when nothing is queued.
     */
    method Poll() returns (r: Option<PreloadableUnit>)
      modifies this
      ensures old(queue) == [] ==> r == None && queue == [] && containedCheck == old(containedCheck)
      ensures old(queue) != [] ==>
        && r.Some? && r.value in old(queue)
        && (forall e :: e in old(queue) ==> r.value.priority <= e.priority)
        && multiset(queue) == multiset(old(queue)) - multiset{r.value}
        && containedCheck == old(containedCheck) - {r.value}
    {
      if queue == [] {
        return None;
      }
      var i := LeastIndex(queue);
      r := Some(queue[i]);
      RemoveAt(queue, i);
      queue := queue[..i] + queue[i + 1..];
      containedCheck := containedCheck - {r.value};
    }

    /** `clear()`: empties the queue (twice); the seen set is kept. */
    method Clear()
      modifies this
      ensures queue == [] && containedCheck == old(containedCheck)
    {
      queue := [];
      queue := [];
    }

    /** `isNotEmpty()`: consults the seen set, not the queue. */
    predicate IsNotEmpty()
      reads this
    {
      containedCheck != {}
    }

    /**
     * While every queued unit is still in the seen set, a queue holding a
     * unit reports itself non-empty; the scenarios below show that the
     * converse fails and that the premise does not last.
     */
    lemma QueuedSeenIsNotEmpty()
      requires forall u :: u in queue ==> u in containedCheck
      ensures queue != [] ==> IsNotEmpty()
    {
      if queue != [] {
        assert queue[0] in containedCheck;
      }
    }
  }

  /**
   * Adding a unit twice cancels the shared future; the first poll then
   * forgets the unit, so the queue reports itself empty while the second
   * copy is still waiting.
   */
  method DuplicateHidesWaitingUnit() returns (cancelled: bool, notEmpty: bool, waiting: nat)
    ensures cancelled && !notEmpty && waiting == 1
  {
    var q := new UniquePriorityBlockingQueue();
    var d := new Deferred();
    var u := PreloadableUnit(d, PRIORITY_NOW);
    q.Add(u);
    q.Add(u);
    cancelled := d.cancelled;
    var r := q.Poll();
    assert multiset(q.queue) == multiset{u};
    notEmpty := q.IsNotEmpty();
    waiting := |q.queue|;
  }

  /** After `clear` nothing is queued, yet the queue still reports itself non-empty. */
  method ClearedStillNotEmpty() returns (notEmpty: bool, polled: Option<PreloadableUnit>)
    ensures notEmpty && polled == None
  {
    var q := new UniquePriorityBlockingQueue();
    var d := new Deferred();
    q.Add(PreloadableUnit(d, PRIORITY_FUTURE));
    q.Clear();
    notEmpty := q.IsNotEmpty();
    polled := q.Poll();
  }

  /** Units with the same future but different priorities are not equal: nothing is cancelled. */
  method SameFutureOtherPriorityNotCancelled() returns (cancelled: bool, queued: nat)
    ensures !cancelled && queued == 2
  {
    var q := new UniquePriorityBlockingQueue();
    var d := new Deferred();
    q.Add(PreloadableUnit(d, PRIORITY_FUTURE));
    q.Add(PreloadableUnit(d, PRIORITY_NOW));
    cancelled := d.cancelled;
    queued := |q.queue|;
  }
}
