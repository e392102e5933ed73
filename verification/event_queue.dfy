/**
  The engine's FIFO of events: `push` appends, `pop` removes and returns the
  front and fails on an empty queue, `empty` and `size` observe it.
*/
module EventQueue {
  import opened Wrappers
  import opened Events

  /** The exception `pop` raises on an empty queue. */
  datatype QueueError = QueueEmpty

  class Queue {
    /** The queued events, front first. */
    var items: seq<Event>

    /** A new queue is empty. */
    constructor ()
      ensures items == []
    {
      items := [];
    }

    /** Appends `ev` at the back; nothing else changes. */
    method Push(ev: Event)
      modifies this
      ensures items == old(items) + [ev]
      ensures Apply(old(items), PushCall(ev)) == Trace(items, [])
    {
      items := items + [ev];
    }

    /**
      Removes and returns the front event. On an empty queue it fails with
      `QueueEmpty` and leaves the queue as it was.
    */
    method Pop() returns (r: Result<Event, QueueError>)
      modifies this
      ensures old(items) == [] ==> r == Failure(QueueEmpty) && items == old(items)
      ensures old(items) != [] ==> r == Success(old(items)[0]) && items == old(items)[1..]
      ensures old(items) != [] ==> old(items) == [r.value] + items
      ensures Apply(old(items), PopCall) == Trace(items, [r])
    {
      if Empty() {
        return Failure(QueueEmpty);
      }
      var ev := items[0];
      items := items[1..];
      r := Success(ev);
    }

    /** True exactly when no event is queued. */
    function Empty(): (b: bool)
      reads this
      ensures b <==> Size() == 0
    {
      |items| == 0
    }

    /** The number of queued events. */
    function Size(): (n: nat)
      reads this
      ensures n == 0 <==> items == []
    {
      |items|
    }
  }

  /** One call on the queue, for reasoning about a run of calls. */
  datatype Call = PushCall(ev: Event) | PopCall

  /** Queue contents after some calls, and what each `pop` among them produced, in call order. */
  datatype Trace = Trace(queue: seq<Event>, popped: seq<Result<Event, QueueError>>)

  /** The events a call pushes: its event for a push, none for a pop. */
  function PushedBy(c: Call): seq<Event>
  {
    if c.PushCall? then [c.ev] else []
  }

  /**
    One call from contents `q`, with the transitions `Push` and `Pop`
    promise: what it delivered followed by what is left is `q` followed by
    what it pushed, and a failed pop happens only on an empty queue.
  */
  function Apply(q: seq<Event>, c: Call): (t: Trace)
    ensures Delivered(t.popped) + t.queue == q + PushedBy(c)
    ensures |t.popped| == if c.PopCall? then 1 else 0
    ensures c.PopCall? ==> (t.popped[0] == Failure(QueueEmpty) <==> q == [])
  {
    match c
    case PushCall(ev) => Trace(q + [ev], [])
    case PopCall =>
      if q == [] then Trace(q, [Failure(QueueEmpty)])
      else
        assert q == [q[0]] + q[1..];
        Trace(q[1..], [Success(q[0])])
  }

  /** Runs `calls` from the queue contents `q`, one call after another. */
  function Run(q: seq<Event>, calls: seq<Call>): (t: Trace)
    ensures |t.popped| == |Pops(calls)|
    decreases |calls|
  {
    if calls == [] then Trace(q, [])
    else
      var first := Apply(q, calls[0]);
      var t := Run(first.queue, calls[1..]);
      Trace(t.queue, first.popped + t.popped)
  }

  /** The events pushed by `calls`, in call order. */
  function Pushed(calls: seq<Call>): seq<Event>
  {
    if calls == [] then [] else PushedBy(calls[0]) + Pushed(calls[1..])
  }

  /** The `pop` calls among `calls`. */
  function Pops(calls: seq<Call>): seq<Call>
  {
    if calls == [] then []
    else (if calls[0].PopCall? then [calls[0]] else []) + Pops(calls[1..])
  }

  /** The events that successful pops returned, in order. */
  function Delivered(popped: seq<Result<Event, QueueError>>): seq<Event>
  {
    if popped == [] then []
    else (if popped[0].Success? then [popped[0].value] else []) + Delivered(popped[1..])
  }

  /** What two runs of pops deliver, one after the other. */
  lemma {:induction false} DeliveredAppend(a: seq<Result<Event, QueueError>>, b: seq<Result<Event, QueueError>>)
    ensures Delivered(a + b) == Delivered(a) + Delivered(b)
    decreases |a|
  {
    if a != [] {
      assert (a + b)[1..] == a[1..] + b;
      DeliveredAppend(a[1..], b);
    } else {
      assert a + b == b;
    }
  }

  /**
    FIFO: whatever the interleaving of pushes and pops, the events delivered
    by successful pops followed by what is still queued are exactly the
    starting contents followed by the pushed events, in push order.
  */
  lemma {:induction false} RunIsFifo(q: seq<Event>, calls: seq<Call>)
    ensures Delivered(Run(q, calls).popped) + Run(q, calls).queue == q + Pushed(calls)
    decreases |calls|
  {
    if calls != [] {
      var first := Apply(q, calls[0]);
      var t := Run(first.queue, calls[1..]);
      RunIsFifo(first.queue, calls[1..]);
      DeliveredAppend(first.popped, t.popped);
      Concatenate(Delivered(first.popped), first.queue, Delivered(t.popped), t.queue,
                  q, PushedBy(calls[0]), Pushed(calls[1..]));
    }
  }

  /**
    Chaining two FIFO steps: if the first delivered `d1` and left `q1` from
    `q` and its pushes `p1`, and the second delivered `d2` and left `q2` from
    `q1` and its pushes `p2`, together they delivered `d1 + d2` and left `q2`
    from `q` and `p1 + p2`.
  */
  lemma Concatenate(d1: seq<Event>, q1: seq<Event>, d2: seq<Event>, q2: seq<Event>,
                    q: seq<Event>, p1: seq<Event>, p2: seq<Event>)
    requires d1 + q1 == q + p1
    requires d2 + q2 == q1 + p2
    ensures (d1 + d2) + q2 == q + (p1 + p2)
  {
    calc {
      (d1 + d2) + q2;
      d1 + (d2 + q2);
      d1 + (q1 + p2);
      (d1 + q1) + p2;
      (q + p1) + p2;
    }
  }

  /** Hence the size is the starting size plus the pushes minus the successful pops. */
  lemma RunSize(q: seq<Event>, calls: seq<Call>)
    ensures |Run(q, calls).queue| == |q| + |Pushed(calls)| - |Delivered(Run(q, calls).popped)|
  {
    RunIsFifo(q, calls);
    assert |Delivered(Run(q, calls).popped) + Run(q, calls).queue| == |q + Pushed(calls)|;
  }

  /** A failed pop is one made on an empty queue, and it changes nothing. */
  lemma FailedPopOnlyWhenEmpty(q: seq<Event>, calls: seq<Call>)
    requires calls != [] && calls[0] == PopCall
    ensures |Run(q, calls).popped| > 0
    ensures Run(q, calls).popped[0] == Failure(QueueEmpty) <==> q == []
    ensures q == [] ==> Run(q, calls).queue == Run(q, calls[1..]).queue
  {
    var first := Apply(q, calls[0]);
    assert Run(q, calls).popped[0] == first.popped[0];
  }

  /** Pushing onto an empty queue and popping returns that event and leaves the queue empty. */
  lemma PushThenPop(ev: Event)
    ensures Run([], [PushCall(ev), PopCall]) == Trace([], [Success(ev)])
  {
    var calls := [PushCall(ev), PopCall];
    assert calls[1..] == [PopCall];
    assert [PopCall][1..] == [];
    assert Run([ev], [PopCall]) == Trace([], [Success(ev)]);
  }
}
