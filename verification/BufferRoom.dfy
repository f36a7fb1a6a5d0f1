/** The buffered recorder's queue, its admission rule, and delivery in chunks. */
module BufferRoom {
  import opened Common

  type Event = nat

  /**
   The state behind the room's mutex. `retained` is the count the flusher last reported, and
   `generation` numbers the channel that waiters sleep on: an earlier channel has been closed.
   */
  datatype Room = Room(capacity: nat, queue: seq<Event>, retained: nat, waiting: int, generation: nat)

  predicate HasRoom(r: Room) {
    |r.queue| + r.retained < r.capacity
  }

  function Sent(r: Room, ev: Event): Room {
    r.(queue := r.queue + [ev])
  }

  function Woken(r: Room): Room {
    if r.waiting == 0 || !HasRoom(r) then r else r.(generation := r.generation + 1)
  }

  function Retaining(r: Room, count: nat): Room {
    Woken(r.(retained := count))
  }

  datatype Admission = Admitted | RefusedRetained | MustWait

  /** The room as an object: every method body runs under its mutex. */
  class BufferRoom {
    const capacity: nat
    var queue: seq<Event>
    var retained: nat
    var waiting: int
    var generation: nat

    constructor (capacity: nat)
      ensures Value() == Room(capacity, [], 0, 0, 0)
    {
      this.capacity := capacity;
      queue, retained, waiting, generation := [], 0, 0, 0;
    }

    function Value(): Room
      reads this
    {
      Room(capacity, queue, retained, waiting, generation)
    }

    method TryAdmit(ev: Event) returns (ok: bool)
      modifies this
      ensures ok == HasRoom(old(Value()))
      ensures Value() == if ok then Sent(old(Value()), ev) else old(Value())
      ensures old(|queue|) <= capacity ==> |queue| <= capacity
    {
      if |queue| + retained >= capacity {
        return false;
      }
      queue := queue + [ev];
      ok := true;
    }

    /**
     A full room either refuses, because only a delivery can open it, or registers a waiter on the
     current channel.
     */
    method AdmitOrWait(ev: Event) returns (result: Admission, channel: nat)
      modifies this
      ensures result == if HasRoom(old(Value())) then Admitted else if old(retained) > 0 then RefusedRetained
              else MustWait
      ensures Value() == match result
                         case Admitted => Sent(old(Value()), ev)
                         case RefusedRetained => old(Value())
                         case MustWait => old(Value()).(waiting := old(waiting) + 1)
      ensures channel == generation
    {
      channel := generation;
      if |queue| + retained < capacity {
        queue := queue + [ev];
        return Admitted, channel;
      }
      if retained > 0 {
        return RefusedRetained, channel;
      }
      waiting := waiting + 1;
      result := MustWait;
    }

    method StopWaiting()
      modifies this`waiting
      ensures waiting == old(waiting) - 1
    {
      waiting := waiting - 1;
    }

    method Dequeued()
      modifies this`generation
      ensures Value() == Woken(old(Value()))
    {
      Wake();
    }

    method SetRetained(count: nat)
      modifies this`retained, this`generation
      ensures Value() == Retaining(old(Value()), count)
    {
      retained := count;
      Wake();
    }

    method Wake()
      modifies this`generation
      ensures Value() == Woken(old(Value()))
    {
      if waiting == 0 || |queue| + retained >= capacity {
        return;
      }
      generation := generation + 1;
    }
  }

  // ---- Delivery ----

  /** What the inner recorder refuses of a chunk: any sub-collection of it. */
  ghost predicate RefusesPart(refuse: seq<Event> -> seq<Event>) {
    forall chunk :: multiset(refuse(chunk)) <= multiset(chunk)
  }

  /** Chunk by chunk; the first refusal ends the attempt, with the refused events before the untried ones. */
  function Undelivered(events: seq<Event>, batchSize: nat, refuse: seq<Event> -> seq<Event>): seq<Event>
    requires batchSize > 0
  {
    if events == [] then []
    else
      var end := Min(batchSize, |events|);
      var lost := refuse(events[..end]);
      if lost == [] then Undelivered(events[end..], batchSize, refuse) else lost + events[end..]
  }

  /** An attempt makes nothing up: what it leaves undelivered is part of what it was given. */
  lemma {:induction false} UndeliveredIsPart(events: seq<Event>, batchSize: nat, refuse: seq<Event> -> seq<Event>)
    requires batchSize > 0 && RefusesPart(refuse)
    ensures multiset(Undelivered(events, batchSize, refuse)) <= multiset(events)
  {
    if events != [] {
      var end := Min(batchSize, |events|);
      assert events == events[..end] + events[end..];
      if refuse(events[..end]) == [] {
        UndeliveredIsPart(events[end..], batchSize, refuse);
      }
    }
  }

  method DeliverAll(events: seq<Event>, batchSize: nat, refuse: seq<Event> -> seq<Event>) returns (failed: seq<Event>)
    requires batchSize > 0
    ensures failed == Undelivered(events, batchSize, refuse)
  {
    var start := 0;
    while start < |events|
      invariant 0 <= start <= |events|
      invariant Undelivered(events, batchSize, refuse) == Undelivered(events[start..], batchSize, refuse)
    {
      var end := Min(start + batchSize, |events|);
      assert events[start..][..end - start] == events[start..end] && events[start..][end - start..] == events[end..];
      var lost := refuse(events[start..end]);
      if lost == [] {
        start := end;
        continue;
      }
      return lost + events[end..];
    }
    failed := [];
  }

  // ---- Backoff, in milliseconds ----

  const BACKOFF_MIN := 500
  const BACKOFF_MAX := 30000
  const MAX_DOUBLINGS := 16

  function Doubled(base: nat, times: nat): nat {
    if times == 0 then base else 2 * Doubled(base, times - 1)
  }

  function RetryBackoff(attempts: int): nat {
    var doublings := Min(if attempts - 1 > 0 then attempts - 1 else 0, MAX_DOUBLINGS);
    Min(Doubled(BACKOFF_MIN, doublings), BACKOFF_MAX)
  }

  lemma {:induction false} DoubledGrows(base: nat, m: nat, n: nat)
    requires m <= n
    ensures Doubled(base, m) <= Doubled(base, n)
  {
    if m < n {
      DoubledGrows(base, m, n - 1);
    }
  }

  /** Stopping the doubling at sixteen changes nothing: the wait is the doubled minimum, up to the maximum. */
  lemma BackoffIsCappedDoubling(attempts: nat)
    requires attempts > 0
    ensures RetryBackoff(attempts) == Min(Doubled(BACKOFF_MIN, attempts - 1), BACKOFF_MAX)
    ensures RetryBackoff(attempts) == if attempts < 7 then [500, 1000, 2000, 4000, 8000, 16000][attempts - 1] else 30000
  {
    assert Doubled(500, 0) == 500 && Doubled(500, 1) == 1000 && Doubled(500, 2) == 2000;
    assert Doubled(500, 3) == 4000 && Doubled(500, 4) == 8000;
    assert Doubled(500, 5) == 16000 && Doubled(500, 6) == 32000;
    if attempts > 6 {
      DoubledGrows(500, 6, attempts - 1);
      DoubledGrows(500, 6, 16);
    }
  }
}
