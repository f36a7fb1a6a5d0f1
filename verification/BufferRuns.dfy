/**
 The buffered recorder as a whole: any number of callers of Record, Close, and the flusher,
 interleaved at every lock, channel and delivery step, with an inner recorder that refuses
 any part of any chunk.
 */
module BufferRuns {
  import opened Common
  import opened BufferRoom

  type Caller = nat

  type Size = n: nat | n > 0 witness 1

  /**
   A caller of Record with a read event. `loop` is false for the first attempt and true in
   waitForRoom. Inside means holding the stop lock shared, after seeing that the buffer is open.
   */
  datatype CallerPc =
    | Idle
    | Outside(ev: Event, loop: bool)
    | Inside(ev: Event, loop: bool)
    | Leaving(next: CallerPc)
    | Sleeping(ev: Event, generation: nat)
    | StopWaiting(ev: Event, retry: bool)

  /** The callers, those the waiting counter counts, and what Close has set. */
  datatype Crowd = Crowd(pcs: map<Caller, CallerPc>, registered: set<Caller>, closed: bool)

  datatype FlusherPc = Select | Received | Flush | Hold | Deliver | Settle | Drain | DrainReceived | Backoff | Exited

  /** The flusher's own variables, and where its events went. */
  datatype Flusher = Flusher(pc: FlusherPc, stopping: bool, hand: seq<Event>, batch: seq<Event>, retained: seq<Event>,
                             attempts: nat, delivered: multiset<Event>, abandoned: multiset<Event>)

  datatype State = State(batchSize: Size, room: Room, crowd: Crowd, flusher: Flusher, admitted: multiset<Event>)

  function PcOf(w: Crowd, c: Caller): CallerPc {
    if c in w.pcs then w.pcs[c] else Idle
  }

  predicate Shared(pc: CallerPc) {
    pc.Inside? || pc.Leaving?
  }

  predicate Registered(pc: CallerPc) {
    pc.Sleeping? || pc.StopWaiting? || (pc.Leaving? && pc.next.Sleeping?)
  }

  datatype Op =
    | Start(c: Caller, ev: Event)
    | Enter(c: Caller)
    | Admit(c: Caller)
    | Leave(c: Caller, overflow: bool)
    | WakeUp(c: Caller, expired: bool)
    | Deregister(c: Caller)
    | Close
    | Flushing(step: FlusherOp)

  datatype FlusherOp =
    | Receive
    | Dequeued
    | Tick
    | FlushWaits
    | FlushDelivers
    | Report
    | Chunk(refused: seq<Event>)
    | Settled
    | Stop
    | Drained
    | Retry
    | Abandon

  // ---- Callers ----

  function Goto(w: Crowd, c: Caller, pc: CallerPc): Crowd {
    w.(pcs := w.pcs[c := pc])
  }

  function Move(s: State, c: Caller, pc: CallerPc): State {
    s.(crowd := Goto(s.crowd, c, pc))
  }

  /** tryAdmit on the first attempt, admitOrWait afterwards. */
  function AdmitStep(s: State, c: Caller, ev: Event, loop: bool): State {
    if HasRoom(s.room) then Move(s, c, Leaving(Idle)).(room := Sent(s.room, ev), admitted := s.admitted + multiset{ev})
    else if !loop then Move(s, c, Leaving(Outside(ev, true)))
    else if s.room.retained > 0 then Move(s, c, Leaving(Idle))
    else s.(crowd := Goto(s.crowd, c, Leaving(Sleeping(ev, s.room.generation))).
                      (registered := s.crowd.registered + {c}),
            room := s.room.(waiting := s.room.waiting + 1))
  }

  // ---- The flusher ----

  function ChunkStep(f: Flusher, batchSize: Size, refused: seq<Event>): Flusher {
    var end := Min(batchSize, |f.retained|);
    var chunk := f.retained[..end];
    if !(multiset(refused) <= multiset(chunk)) then f
    else
      var rest := refused + f.retained[end..];
      f.(delivered := f.delivered + (multiset(chunk) - multiset(refused)), retained := rest,
         pc := if refused == [] && rest != [] then Deliver else Settle)
  }

  /** The flusher leaves an attempt: back to its loop, or on with the shutdown. */
  function AfterAttempt(f: Flusher): FlusherPc {
    if !f.stopping then Select else if f.retained == [] then Exited else Backoff
  }

  function FlusherNext(f: Flusher, queue: seq<Event>, batchSize: Size, closed: bool, op: FlusherOp): Flusher {
    match op
    case Receive =>
      if (f.pc.Select? || f.pc.Drain?) && queue != []
      then f.(hand := [queue[0]], pc := if f.pc.Select? then Received else DrainReceived) else f
    case Dequeued =>
      if f.pc.Received? || f.pc.DrainReceived? then
        var batch := f.batch + f.hand;
        f.(hand := [], batch := batch,
           pc := if f.pc.DrainReceived? then Drain else if |batch| >= batchSize then Flush else Select)
      else f
    case Tick => if f.pc.Select? && (f.batch != [] || f.retained != []) then f.(pc := Flush) else f
    case FlushWaits =>
      if f.pc.Flush? && f.attempts > 0 then f.(retained := f.retained + f.batch, batch := [], pc := Hold) else f
    case FlushDelivers => if f.pc.Flush? then f.(retained := f.retained + f.batch, batch := [], pc := Deliver) else f
    case Report => if f.pc.Hold? then f.(pc := Select) else f
    case Chunk(refused) => if f.pc.Deliver? then ChunkStep(f, batchSize, refused) else f
    case Settled =>
      if f.pc.Settle? then f.(attempts := if f.retained == [] then 0 else f.attempts + 1, pc := AfterAttempt(f)) else f
    case Stop => if f.pc.Select? && closed then f.(pc := Drain, stopping := true) else f
    case Drained =>
      if f.pc.Drain? && queue == [] then
        f.(retained := f.retained + f.batch, batch := [], pc := if f.retained + f.batch == [] then Exited else Deliver)
      else f
    case Retry => if f.pc.Backoff? then f.(pc := Deliver) else f
    case Abandon =>
      if f.pc.Backoff? then f.(abandoned := f.abandoned + multiset(f.retained), retained := [], pc := Exited) else f
  }

  /** What the same step does to the room. A receive takes from the channel without the mutex. */
  function RoomNext(f: Flusher, r: Room, op: FlusherOp): Room {
    match op
    case Receive => if (f.pc.Select? || f.pc.Drain?) && r.queue != [] then r.(queue := r.queue[1..]) else r
    case Dequeued => if f.pc.Received? || f.pc.DrainReceived? then Woken(r) else r
    case Report => if f.pc.Hold? then Retaining(r, |f.retained|) else r
    case Settled => if f.pc.Settle? then Retaining(r, |f.retained|) else r
    case Abandon => if f.pc.Backoff? then Retaining(r, 0) else r
    case _ => r
  }

  function Step(s: State, op: Op): State {
    match op
    case Start(c, ev) => if PcOf(s.crowd, c).Idle? then Move(s, c, Outside(ev, false)) else s
    // Once the buffer is closed the event goes to the inner recorder on the caller's own path.
    case Enter(c) =>
      var pc := PcOf(s.crowd, c);
      if !pc.Outside? then s else Move(s, c, if s.crowd.closed then Idle else Inside(pc.ev, pc.loop))
    case Admit(c) => var pc := PcOf(s.crowd, c); if pc.Inside? then AdmitStep(s, c, pc.ev, pc.loop) else s
    // A full room sends the event to the overflow, if there is one, instead of waiting.
    case Leave(c, overflow) =>
      var pc := PcOf(s.crowd, c);
      if !pc.Leaving? then s else Move(s, c, if pc.next.Outside? && overflow then Idle else pc.next)
    // The channel was closed, Close ran, or the deadline or the context expired.
    case WakeUp(c, expired) =>
      var pc := PcOf(s.crowd, c);
      if pc.Sleeping? && (expired || s.crowd.closed || pc.generation < s.room.generation)
      then Move(s, c, StopWaiting(pc.ev, !expired)) else s
    case Deregister(c) =>
      var pc := PcOf(s.crowd, c);
      if !pc.StopWaiting? then s
      else s.(crowd := Goto(s.crowd, c, if pc.retry then Outside(pc.ev, true) else Idle).
                        (registered := s.crowd.registered - {c}),
              room := s.room.(waiting := s.room.waiting - 1))
    // The stop lock is exclusive: nobody is inside.
    case Close =>
      if forall c :: c in s.crowd.pcs ==> !Shared(s.crowd.pcs[c]) then s.(crowd := s.crowd.(closed := true)) else s
    case Flushing(step) =>
      s.(flusher := FlusherNext(s.flusher, s.room.queue, s.batchSize, s.crowd.closed, step),
         room := RoomNext(s.flusher, s.room, step))
  }

  function Fresh(capacity: nat, batchSize: Size): State {
    State(batchSize, Room(capacity, [], 0, 0, 0), Crowd(map[], {}, false),
          Flusher(Select, false, [], [], [], 0, multiset{}, multiset{}), multiset{})
  }

  function After(capacity: nat, batchSize: Size, ops: seq<Op>): State {
    if ops == [] then Fresh(capacity, batchSize)
    else Step(After(capacity, batchSize, ops[..|ops| - 1]), ops[|ops| - 1])
  }

  // ---- Invariants ----

  function Kept(f: Flusher): multiset<Event> {
    multiset(f.hand) + multiset(f.batch) + multiset(f.retained) + f.delivered + f.abandoned
  }

  /** Every event that was admitted is in exactly one place. */
  ghost predicate Conserved(s: State) {
    s.admitted == multiset(s.room.queue) + Kept(s.flusher)
  }

  function InHand(f: Flusher): nat {
    |f.hand| + |f.batch| + |f.retained|
  }

  ghost predicate FlusherOk(f: Flusher, batchSize: Size) {
    && |f.hand| == (if f.pc.Received? || f.pc.DrainReceived? then 1 else 0)
    && (f.pc.Drain? || f.pc.DrainReceived? || f.pc.Backoff? || f.pc.Exited? ==> f.stopping)
    && (f.stopping ==> !f.pc.Select? && !f.pc.Received? && !f.pc.Flush? && !f.pc.Hold?)
    && (f.pc.Select? || f.pc.Received? ==> |f.batch| < batchSize) && (f.pc.Flush? ==> |f.batch| <= batchSize)
    && (f.pc.Hold? || f.pc.Deliver? || f.pc.Settle? || f.pc.Backoff? || f.pc.Exited? ==> f.batch == [])
    && (f.pc.Exited? ==> f.retained == [])
  }

  /**
   Between attempts events are retained exactly when the last one failed, and only the end of
   shutdown abandons any.
   */
  ghost predicate AttemptOk(f: Flusher) {
    && (!f.pc.Exited? ==> f.abandoned == multiset{})
    && (f.pc.Flush? ==> f.batch != [] || f.retained != []) && (f.pc.Backoff? ==> f.retained != [])
    && (!f.pc.Deliver? && !f.pc.Settle? && !f.pc.Exited? ==> (f.attempts > 0 <==> f.retained != []))
  }

  /** What the room counts as retained while the queue is drained, and at the end. */
  ghost predicate CountOk(s: State) {
    && (s.flusher.pc.Drain? || s.flusher.pc.DrainReceived? ==> |s.flusher.retained| == s.room.retained)
    && (s.flusher.pc.Exited? ==> s.room.retained == 0)
  }

  /** Shutdown starts after Close, and past its drain the queue is empty. */
  ghost predicate ShutdownOk(s: State) {
    && (s.flusher.stopping ==> s.crowd.closed)
    && (s.flusher.stopping && !s.flusher.pc.Drain? && !s.flusher.pc.DrainReceived? ==> s.room.queue == [])
  }

  /** Beyond what the flusher last reported it holds at most one batch. */
  ghost predicate BoundOk(s: State) {
    && |s.room.queue| <= s.room.capacity
    && (!s.flusher.stopping ==>
          && |s.room.queue| + InHand(s.flusher) <= s.room.capacity + s.batchSize
          && InHand(s.flusher) <= s.room.retained + s.batchSize
          && (s.flusher.pc.Select? || s.flusher.pc.Received? || s.flusher.pc.Flush? ==>
              |s.flusher.retained| == s.room.retained))
  }

  ghost predicate CallerOk(w: Crowd, generation: nat, c: Caller) {
    var pc := PcOf(w, c);
    && (c in w.registered <==> Registered(pc))
    && (Shared(pc) ==> !w.closed)
    && (pc.Sleeping? ==> pc.generation <= generation)
    && (pc.Leaving? && pc.next.Sleeping? ==> pc.next.generation <= generation)
    && (pc.Leaving? ==> !Shared(pc.next) && !pc.next.StopWaiting?)
  }

  /** The counter counts the registered callers, and a caller inside keeps Close out. */
  ghost predicate CrowdOk(s: State) {
    && s.room.waiting == |s.crowd.registered|
    && forall c: Caller :: CallerOk(s.crowd, s.room.generation, c)
  }

  predicate AsleepOn(w: Crowd, generation: nat, c: Caller) {
    var pc := PcOf(w, c);
    (pc.Sleeping? && pc.generation == generation)
        || (pc.Leaving? && pc.next.Sleeping? && pc.next.generation == generation)
  }

  predicate BetweenReceiveAndDequeued(f: Flusher) {
    f.pc.Received? || f.pc.DrainReceived?
  }

  ghost predicate WakeOk(s: State) {
    forall c: Caller :: AsleepOn(s.crowd, s.room.generation, c) && HasRoom(s.room) ==>
        BetweenReceiveAndDequeued(s.flusher)
  }

  ghost predicate Inv(s: State) {
    && FlusherOk(s.flusher, s.batchSize) && ShutdownOk(s) && BoundOk(s) && CrowdOk(s) && WakeOk(s) && Conserved(s)
    && AttemptOk(s.flusher) && CountOk(s)
  }

  // ---- The flusher keeps them ----

  lemma ChunkConserves(retained: seq<Event>, refused: seq<Event>, end: nat)
    requires end <= |retained| && multiset(refused) <= multiset(retained[..end])
    ensures multiset(retained) == multiset(refused + retained[end..]) + (multiset(retained[..end]) - multiset(refused))
    ensures |refused + retained[end..]| <= |retained|
  {
    var chunk := retained[..end];
    assert retained == chunk + retained[end..];
    assert multiset(chunk) == multiset(refused) + (multiset(chunk) - multiset(refused));
    assert |multiset(chunk)| == |chunk| && |multiset(refused)| == |refused|;
  }

  lemma ChunkStepConserves(f: Flusher, batchSize: Size, refused: seq<Event>)
    ensures Kept(ChunkStep(f, batchSize, refused)) == Kept(f)
    ensures |ChunkStep(f, batchSize, refused).retained| <= |f.retained|
  {
    var end := Min(batchSize, |f.retained|);
    if multiset(refused) <= multiset(f.retained[..end]) {
      ChunkConserves(f.retained, refused, end);
    }
  }

  lemma ReceiveConserves(f: Flusher, r: Room, batchSize: Size, closed: bool)
    requires FlusherOk(f, batchSize)
    ensures multiset(RoomNext(f, r, Receive).queue) + Kept(FlusherNext(f, r.queue, batchSize, closed, Receive))
            == multiset(r.queue) + Kept(f)
  {
    if r.queue != [] {
      assert r.queue == [r.queue[0]] + r.queue[1..];
    }
  }

  lemma MovesConserve(f: Flusher, queue: seq<Event>, batchSize: Size, closed: bool, op: FlusherOp)
    requires !op.Receive? && !op.Chunk?
    ensures Kept(FlusherNext(f, queue, batchSize, closed, op)) == Kept(f)
  {
    assert multiset(f.batch + f.hand) == multiset(f.batch) + multiset(f.hand);
    assert multiset(f.retained + f.batch) == multiset(f.retained) + multiset(f.batch);
  }

  lemma FlusherConserves(s: State, op: FlusherOp)
    requires Conserved(s) && FlusherOk(s.flusher, s.batchSize)
    ensures Conserved(Step(s, Flushing(op)))
  {
    if op.Receive? {
      ReceiveConserves(s.flusher, s.room, s.batchSize, s.crowd.closed);
    } else {
      OthersConserve(s.flusher, s.room, s.batchSize, s.crowd.closed, op);
    }
  }

  lemma OthersConserve(f: Flusher, r: Room, batchSize: Size, closed: bool, op: FlusherOp)
    requires !op.Receive?
    ensures RoomNext(f, r, op).queue == r.queue && Kept(FlusherNext(f, r.queue, batchSize, closed, op)) == Kept(f)
  {
    RoomFrame(f, r, op);
    if op.Chunk? {
      ChunkStepConserves(f, batchSize, op.refused);
    } else {
      MovesConserve(f, r.queue, batchSize, closed, op);
    }
  }

  lemma FlusherStaysOk(f: Flusher, queue: seq<Event>, batchSize: Size, closed: bool, op: FlusherOp)
    requires FlusherOk(f, batchSize)
    ensures FlusherOk(FlusherNext(f, queue, batchSize, closed, op), batchSize)
  {
  }

  lemma FlusherBound(s: State, op: FlusherOp)
    requires FlusherOk(s.flusher, s.batchSize) && BoundOk(s)
    ensures BoundOk(Step(s, Flushing(op)))
  {
    if op.Chunk? {
      ChunkStepConserves(s.flusher, s.batchSize, op.refused);
    }
  }

  /** Waiters are released, or there was no new room, or the flusher has just received. */
  lemma FlusherRoom(f: Flusher, r: Room, op: FlusherOp)
    requires r.waiting != 0
    ensures var t := RoomNext(f, r, op);
            || t.generation > r.generation
            || (HasRoom(t) ==>
                  || (op.Receive? && (f.pc.Select? || f.pc.Drain?))
                  || (HasRoom(r) && !(op.Dequeued? && BetweenReceiveAndDequeued(f))))
  {
  }

  lemma RoomFrame(f: Flusher, r: Room, op: FlusherOp)
    ensures var t := RoomNext(f, r, op);
            && t.waiting == r.waiting && t.generation >= r.generation && t.capacity == r.capacity
            && (!op.Receive? ==> t.queue == r.queue)
  {
  }

  lemma FlusherWakes(s: State, op: FlusherOp)
    requires CrowdOk(s) && WakeOk(s)
    ensures CrowdOk(Step(s, Flushing(op))) && WakeOk(Step(s, Flushing(op)))
  {
    var t := Step(s, Flushing(op));
    RoomFrame(s.flusher, s.room, op);
    forall c: Caller ensures CallerOk(t.crowd, t.room.generation, c) {
      assert CallerOk(s.crowd, s.room.generation, c);
    }
    forall c: Caller | AsleepOn(t.crowd, t.room.generation, c) && HasRoom(t.room)
        ensures BetweenReceiveAndDequeued(t.flusher) {
      assert CallerOk(s.crowd, s.room.generation, c) && c in s.crowd.registered;
      FlusherRoom(s.flusher, s.room, op);
    }
  }

  // ---- The callers keep them ----

  /** A caller's step leaves the flusher alone, and the room too unless it admits or counts. */
  lemma CallerStepRoom(s: State, op: Op)
    requires !op.Flushing?
    ensures var t := Step(s, op);
            && t.flusher == s.flusher && t.batchSize == s.batchSize
            && t.room.generation == s.room.generation && t.room.capacity == s.room.capacity
                && t.room.retained == s.room.retained
            && (s.crowd.closed ==> t.crowd.closed)
            && (t.room.queue == s.room.queue ==> t.admitted == s.admitted)
            && (t.room.queue != s.room.queue ==>
                  && op.Admit? && PcOf(s.crowd, op.c).Inside? && HasRoom(s.room)
                  && t.room.queue == s.room.queue + [PcOf(s.crowd, op.c).ev]
                  && t.admitted == s.admitted + multiset{PcOf(s.crowd, op.c).ev})
  {
  }

  lemma CallerConserves(s: State, op: Op)
    requires Inv(s) && !op.Flushing?
    ensures var t := Step(s, op); Conserved(t) && BoundOk(t) && ShutdownOk(t)
  {
    CallerStepRoom(s, op);
    if op.Admit? {
      assert CallerOk(s.crowd, s.room.generation, op.c);
    }
  }

  predicate ByCaller(op: Op) {
    !op.Flushing? && !op.Close?
  }

  lemma MovedCaller(s: State, op: Op)
    requires ByCaller(op) && CallerOk(s.crowd, s.room.generation, op.c)
    ensures CallerOk(Step(s, op).crowd, s.room.generation, op.c)
  {
  }

  lemma OtherCaller(s: State, op: Op, c: Caller)
    requires ByCaller(op) && c != op.c
    ensures var w := Step(s, op).crowd;
            PcOf(w, c) == PcOf(s.crowd, c) && (c in w.registered <==> c in s.crowd.registered)
                && w.closed == s.crowd.closed
  {
  }

  lemma CounterKept(s: State, op: Op)
    requires ByCaller(op) && CallerOk(s.crowd, s.room.generation, op.c) && s.room.waiting == |s.crowd.registered|
    ensures var t := Step(s, op); t.room.waiting == |t.crowd.registered|
  {
  }

  lemma CallerKeepsCrowd(s: State, op: Op)
    requires CrowdOk(s) && !op.Flushing?
    ensures CrowdOk(Step(s, op))
  {
    var t := Step(s, op);
    CallerStepRoom(s, op);
    if op.Close? {
      forall c: Caller ensures CallerOk(t.crowd, t.room.generation, c) {
        assert CallerOk(s.crowd, s.room.generation, c);
      }
    } else {
      assert CallerOk(s.crowd, s.room.generation, op.c);
      CounterKept(s, op);
      forall c: Caller ensures CallerOk(t.crowd, t.room.generation, c) {
        if c == op.c {
          MovedCaller(s, op);
        } else {
          assert CallerOk(s.crowd, s.room.generation, c);
          OtherCaller(s, op, c);
        }
      }
    }
  }

  /** A caller goes to sleep only where there is no room. */
  lemma FallsAsleep(s: State, op: Op)
    requires ByCaller(op) && CallerOk(s.crowd, s.room.generation, op.c)
    ensures var t := Step(s, op);
            AsleepOn(t.crowd, t.room.generation, op.c) && HasRoom(t.room) ==>
                AsleepOn(s.crowd, s.room.generation, op.c) && HasRoom(s.room)
  {
  }

  lemma CallerKeepsWake(s: State, op: Op)
    requires CrowdOk(s) && WakeOk(s) && !op.Flushing?
    ensures WakeOk(Step(s, op))
  {
    var t := Step(s, op);
    CallerStepRoom(s, op);
    forall c: Caller | AsleepOn(t.crowd, t.room.generation, c) && HasRoom(t.room)
        ensures BetweenReceiveAndDequeued(t.flusher) {
      if op.Close? {
        assert AsleepOn(s.crowd, s.room.generation, c);
      } else if c == op.c {
        assert CallerOk(s.crowd, s.room.generation, c);
        FallsAsleep(s, op);
      } else {
        OtherCaller(s, op, c);
        assert AsleepOn(s.crowd, s.room.generation, c);
      }
    }
  }

  // ---- Every run ----

  lemma StepKeepsInv(s: State, op: Op)
    requires Inv(s)
    ensures Inv(Step(s, op))
  {
    if op.Flushing? {
      FlusherConserves(s, op.step);
      FlusherStaysOk(s.flusher, s.room.queue, s.batchSize, s.crowd.closed, op.step);
      FlusherBound(s, op.step);
      FlusherWakes(s, op.step);
      FlusherShutdown(s, op.step);
      FlusherAttempts(s.flusher, s.room.queue, s.batchSize, s.crowd.closed, op.step);
      FlusherCounts(s, op.step);
    } else {
      CallerConserves(s, op);
      CallerStepRoom(s, op);
      CallerKeepsCrowd(s, op);
      CallerKeepsWake(s, op);
    }
  }

  lemma FlusherAttempts(f: Flusher, queue: seq<Event>, batchSize: Size, closed: bool, op: FlusherOp)
    requires FlusherOk(f, batchSize) && AttemptOk(f)
    ensures AttemptOk(FlusherNext(f, queue, batchSize, closed, op))
  {
  }

  lemma DrainCounts(s: State, op: FlusherOp)
    requires s.flusher.pc in {Select, Drain, DrainReceived} ==> |s.flusher.retained| == s.room.retained
    ensures var t := Step(s, Flushing(op)); t.flusher.pc in {Drain, DrainReceived} ==>
            |t.flusher.retained| == t.room.retained
  {
  }

  lemma ExitCounts(s: State, op: FlusherOp)
    requires s.flusher.pc.Drain? ==> |s.flusher.retained| == s.room.retained
    requires s.flusher.pc.Exited? ==> s.room.retained == 0
    ensures var t := Step(s, Flushing(op)); t.flusher.pc.Exited? ==> t.room.retained == 0
  {
  }

  lemma FlusherCounts(s: State, op: FlusherOp)
    requires CountOk(s) && (s.flusher.pc.Select? ==> |s.flusher.retained| == s.room.retained)
    ensures CountOk(Step(s, Flushing(op)))
  {
    DrainCounts(s, op);
    ExitCounts(s, op);
  }

  lemma FlusherShutdown(s: State, op: FlusherOp)
    requires ShutdownOk(s) && FlusherOk(s.flusher, s.batchSize)
    ensures ShutdownOk(Step(s, Flushing(op)))
  {
  }

  lemma {:induction false} RunKeepsInv(capacity: nat, batchSize: Size, ops: seq<Op>)
    ensures Inv(After(capacity, batchSize, ops))
  {
    if ops != [] {
      RunKeepsInv(capacity, batchSize, ops[..|ops| - 1]);
      StepKeepsInv(After(capacity, batchSize, ops[..|ops| - 1]), ops[|ops| - 1]);
    } else {
      var s := Fresh(capacity, batchSize);
      forall c: Caller ensures CallerOk(s.crowd, s.room.generation, c) {
      }
    }
  }

  lemma {:induction false} SizesStay(capacity: nat, batchSize: Size, ops: seq<Op>)
    ensures var s := After(capacity, batchSize, ops); s.room.capacity == capacity && s.batchSize == batchSize
  {
    if ops != [] {
      var front, op := ops[..|ops| - 1], ops[|ops| - 1];
      SizesStay(capacity, batchSize, front);
      var s := After(capacity, batchSize, front);
      if op.Flushing? {
        RoomFrame(s.flusher, s.room, op.step);
      } else {
        CallerStepRoom(s, op);
      }
    }
  }

  /** Every admitted event is queued, in hand, batched, retained, delivered or abandoned, and in one of them only. */
  lemma EveryEventIsAccountedFor(capacity: nat, batchSize: Size, ops: seq<Op>)
    ensures var s := After(capacity, batchSize, ops);
            && s.admitted == multiset(s.room.queue) + multiset(s.flusher.hand) + multiset(s.flusher.batch)
                             + multiset(s.flusher.retained) + s.flusher.delivered + s.flusher.abandoned
            && (s.flusher.pc.Exited? ==> s.admitted == s.flusher.delivered + s.flusher.abandoned)
  {
    RunKeepsInv(capacity, batchSize, ops);
    var s := After(capacity, batchSize, ops);
    assert Conserved(s) && FlusherOk(s.flusher, s.batchSize) && ShutdownOk(s);
    if s.flusher.pc.Exited? {
      assert s.flusher.hand == [] && s.flusher.batch == [] && s.flusher.retained == [] && s.room.queue == [];
    }
  }

  /** The channel never overflows, so no send blocks; and until shutdown memory holds one batch beyond the capacity. */
  lemma MemoryIsBounded(capacity: nat, batchSize: Size, ops: seq<Op>)
    ensures var s := After(capacity, batchSize, ops);
            && |s.room.queue| <= capacity
            && (!s.flusher.stopping ==> |s.room.queue| + InHand(s.flusher) <= capacity + batchSize)
  {
    RunKeepsInv(capacity, batchSize, ops);
    SizesStay(capacity, batchSize, ops);
  }

  /** A waiter sleeps beside room only while the flusher is about to wake it. */
  lemma NoWakeupIsLost(capacity: nat, batchSize: Size, ops: seq<Op>, c: Caller)
    ensures var s := After(capacity, batchSize, ops);
            AsleepOn(s.crowd, s.room.generation, c) && HasRoom(s.room) ==> BetweenReceiveAndDequeued(s.flusher)
    ensures var s := After(capacity, batchSize, ops);
            AsleepOn(s.crowd, s.room.generation, c) && !s.crowd.closed ==> Step(s, WakeUp(c, false)) == s
  {
    RunKeepsInv(capacity, batchSize, ops);
  }

  lemma ClosedStep(s: State, op: Op)
    requires Inv(s) && s.crowd.closed
    ensures Step(s, op).crowd.closed && Step(s, op).admitted == s.admitted
  {
    if !op.Flushing? {
      CallerStepRoom(s, op);
      if op.Admit? {
        assert CallerOk(s.crowd, s.room.generation, op.c);
      }
    }
  }

  lemma AfterLast(capacity: nat, batchSize: Size, ops: seq<Op>, more: seq<Op>)
    requires more != []
    ensures After(capacity, batchSize, ops + more)
            == Step(After(capacity, batchSize, ops + more[..|more| - 1]), more[|more| - 1])
  {
    assert (ops + more)[..|ops + more| - 1] == ops + more[..|more| - 1];
  }

  /** Once Close has set the buffer closed, nothing is admitted, however the run goes on. */
  lemma {:induction false} ClosedAdmitsNothing(capacity: nat, batchSize: Size, ops: seq<Op>, more: seq<Op>)
    requires After(capacity, batchSize, ops).crowd.closed
    ensures var t := After(capacity, batchSize, ops + more);
            t.crowd.closed && t.admitted == After(capacity, batchSize, ops).admitted
    decreases |more|
  {
    if more == [] {
      assert ops + more == ops;
    } else {
      var front := more[..|more| - 1];
      ClosedAdmitsNothing(capacity, batchSize, ops, front);
      RunKeepsInv(capacity, batchSize, ops + front);
      AfterLast(capacity, batchSize, ops, more);
      ClosedStep(After(capacity, batchSize, ops + front), more[|more| - 1]);
    }
  }

  // ---- Delivery is never out of reach ----

  /** The flusher goes on until it has nothing left, with an inner recorder that takes everything. */
  function Onward(s: State): FlusherOp {
    match s.flusher.pc
    case Select => if s.room.queue != [] then Receive else Tick
    case Received => FlusherOp.Dequeued
    case Flush => FlushDelivers
    case Hold => Report
    case Deliver => Chunk([])
    case Settle => Settled
    case Drain => if s.room.queue != [] then Receive else Drained
    case DrainReceived => FlusherOp.Dequeued
    case Backoff => Retry
    case Exited => Tick
  }

  predicate AtRest(s: State) {
    && s.room.queue == [] && s.flusher.batch == [] && s.flusher.retained == []
    && (s.flusher.pc.Select? || s.flusher.pc.Exited?)
  }

  function Rank(f: Flusher): nat {
    match f.pc
    case Deliver => if f.retained == [] then 7 else 2
    case Settle => 6
    case Hold => 5
    case Backoff => 5
    case Select => 4
    case Flush => 3
    case Drain => 3
    case _ => 0
  }

  /** How far the events still have to go, and the flusher with them. */
  function Distance(s: State): nat {
    var f := s.flusher;
    8 * (4 * |s.room.queue| + 3 * |f.hand| + 2 * |f.batch| + |f.retained|) + Rank(f)
  }

  lemma OnwardMovesEvents(s: State)
    requires FlusherOk(s.flusher, s.batchSize) && !AtRest(s)
    requires s.flusher.pc in {Received, DrainReceived} || (s.flusher.pc in {Select, Drain} && s.room.queue != [])
    ensures Distance(Step(s, Flushing(Onward(s)))) < Distance(s)
  {
  }

  lemma OnwardDelivers(s: State)
    requires s.flusher.pc.Deliver?
    ensures Distance(Step(s, Flushing(Onward(s)))) < Distance(s)
  {
  }

  lemma OnwardMovesFlusher(s: State)
    requires FlusherOk(s.flusher, s.batchSize) && AttemptOk(s.flusher) && !AtRest(s)
    requires s.flusher.pc in {Flush, Hold, Settle, Backoff} || (s.flusher.pc in {Select, Drain} && s.room.queue == [])
    ensures Distance(Step(s, Flushing(Onward(s)))) < Distance(s)
  {
  }

  lemma OnwardGetsCloser(s: State)
    requires FlusherOk(s.flusher, s.batchSize) && AttemptOk(s.flusher) && !AtRest(s) && !s.flusher.pc.Exited?
    ensures Distance(Step(s, Flushing(Onward(s)))) < Distance(s)
  {
    if s.flusher.pc.Deliver? {
      OnwardDelivers(s);
    } else if s.flusher.pc in {Received, DrainReceived} || (s.flusher.pc in {Select, Drain} && s.room.queue != []) {
      OnwardMovesEvents(s);
    } else {
      OnwardMovesFlusher(s);
    }
  }

  lemma OnwardAbandonsNothing(s: State)
    ensures var t := Step(s, Flushing(Onward(s)));
            t.flusher.abandoned == s.flusher.abandoned && t.admitted == s.admitted && t.crowd == s.crowd
  {
  }

  /** An exited flusher has nothing left. */
  lemma ExitedIsAtRest(s: State)
    requires Inv(s) && s.flusher.pc.Exited?
    ensures AtRest(s)
  {
  }

  /** Every step of `ops` is the flusher's. */
  ghost predicate FlusherOnly(ops: seq<Op>) {
    forall i :: 0 <= i < |ops| ==> ops[i].Flushing?
  }

  /** Only the flusher has moved, and it gave nothing up. */
  ghost predicate Carried(s: State, t: State) {
    t.flusher.abandoned == s.flusher.abandoned && t.admitted == s.admitted && t.crowd == s.crowd
  }

  lemma OneOnward(s: State)
    requires Inv(s) && !AtRest(s)
    ensures var t := Step(s, Flushing(Onward(s))); Inv(t) && Distance(t) < Distance(s) && Carried(s, t)
  {
    if s.flusher.pc.Exited? {
      ExitedIsAtRest(s);
    }
    OnwardGetsCloser(s);
    OnwardAbandonsNothing(s);
    StepKeepsInv(s, Flushing(Onward(s)));
  }

  ghost function Run(s: State, more: seq<Op>): State
    decreases |more|
  {
    if more == [] then s else Run(Step(s, more[0]), more[1..])
  }

  lemma {:induction false} RunNext(s: State, ops: seq<Op>, op: Op)
    ensures Run(s, ops + [op]) == Step(Run(s, ops), op)
    decreases |ops|
  {
    if ops != [] {
      assert (ops + [op])[1..] == ops[1..] + [op];
      RunNext(Step(s, ops[0]), ops[1..], op);
    }
  }

  lemma {:induction false} RunContinues(capacity: nat, batchSize: Size, ops: seq<Op>, more: seq<Op>)
    ensures After(capacity, batchSize, ops + more) == Run(After(capacity, batchSize, ops), more)
    decreases |more|
  {
    if more == [] {
      assert ops + more == ops;
    } else {
      var front, last := more[..|more| - 1], more[|more| - 1];
      RunContinues(capacity, batchSize, ops, front);
      AfterLast(capacity, batchSize, ops, more);
      RunNext(After(capacity, batchSize, ops), front, last);
      assert more == front + [last];
    }
  }

  lemma {:induction false} RestInReach(s: State, distance: nat) returns (more: seq<Op>)
    requires Inv(s) && Distance(s) <= distance
    ensures FlusherOnly(more) && AtRest(Run(s, more)) && Carried(s, Run(s, more))
    decreases distance
  {
    if AtRest(s) {
      more := [];
    } else {
      var op := Flushing(Onward(s));
      var t := Step(s, op);
      OneOnward(s);
      var rest := RestInReach(t, distance - 1);
      more := [op] + rest;
      RunCons(s, op, rest);
    }
  }

  lemma RunCons(s: State, op: Op, rest: seq<Op>)
    ensures Run(s, [op] + rest) == Run(Step(s, op), rest)
  {
    assert ([op] + rest)[1..] == rest;
  }

  /**
   Wherever a run stands before the flusher has ended, the flusher alone can go on to a state in which every admitted
   event is delivered and every caller that slept has been woken.
   */
  lemma DeliveryIsInReach(capacity: nat, batchSize: Size, ops: seq<Op>) returns (more: seq<Op>)
    requires capacity > 0 && !After(capacity, batchSize, ops).flusher.pc.Exited?
    ensures FlusherOnly(more)
    ensures var s, t := After(capacity, batchSize, ops), After(capacity, batchSize, ops + more);
            && t.flusher.delivered == t.admitted == s.admitted && t.crowd == s.crowd
            && forall c: Caller :: !AsleepOn(t.crowd, t.room.generation, c)
  {
    var s := After(capacity, batchSize, ops);
    RunKeepsInv(capacity, batchSize, ops);
    more := RestInReach(s, Distance(s));
    RunContinues(capacity, batchSize, ops, more);
    var t := After(capacity, batchSize, ops + more);
    RunKeepsInv(capacity, batchSize, ops + more);
    SizesStay(capacity, batchSize, ops + more);
    RestMeans(t);
  }

  lemma RestMeans(t: State)
    requires Inv(t) && AtRest(t) && t.flusher.abandoned == multiset{} && t.room.capacity > 0
    ensures t.flusher.delivered == t.admitted && forall c: Caller :: !AsleepOn(t.crowd, t.room.generation, c)
  {
    assert t.flusher.hand == [];
    assert HasRoom(t.room);
  }

  // ---- An attempt is deliverAll ----

  /** The chunks of one attempt, with an inner recorder that answers by `refuse`. */
  ghost function Attempt(f: Flusher, batchSize: Size, refuse: seq<Event> -> seq<Event>): Flusher
    requires RefusesPart(refuse)
    decreases |f.retained|
  {
    var next := FlusherNext(f, [], batchSize, false, Chunk(refuse(f.retained[..Min(batchSize, |f.retained|)])));
    if f.pc.Deliver? && next.pc.Deliver? && |next.retained| < |f.retained| then Attempt(next, batchSize, refuse)
        else next
  }

  /** The interleaved attempt leaves undelivered exactly what deliverAll returns, and goes on to settle. */
  lemma {:induction false} AttemptIsDeliverAll(f: Flusher, batchSize: Size, refuse: seq<Event> -> seq<Event>)
    requires f.pc.Deliver? && f.retained != [] && RefusesPart(refuse)
    ensures var g := Attempt(f, batchSize, refuse);
            && g.pc.Settle? && g.retained == Undelivered(f.retained, batchSize, refuse)
            && g.delivered + multiset(g.retained) == f.delivered + multiset(f.retained)
    decreases |f.retained|
  {
    var end := Min(batchSize, |f.retained|);
    var refused := refuse(f.retained[..end]);
    var next := FlusherNext(f, [], batchSize, false, Chunk(refused));
    assert multiset(refused) <= multiset(f.retained[..end]);
    ChunkConserves(f.retained, refused, end);
    if refused == [] {
      assert refused + f.retained[end..] == f.retained[end..];
      if f.retained[end..] != [] {
        AttemptIsDeliverAll(next, batchSize, refuse);
      }
    }
  }

  // ---- Sleeping beside room, and being refused, do happen ----

  const IDLE_FLUSHER := Flusher(Select, false, [], [], [], 0, multiset{}, multiset{})

  lemma FirstEventQueued(x: Event) returns (ops: seq<Op>)
    ensures Run(Fresh(1, 1), ops)
            == State(1, Room(1, [x], 0, 0, 0), Crowd(map[0 := Idle], {}, false), IDLE_FLUSHER, multiset{x})
  {
    var s := Fresh(1, 1);
    ops := [Start(0, x)];
    assert Run(s, ops) == s.(crowd := Crowd(map[0 := Outside(x, false)], {}, false));
    RunNext(s, ops, Enter(0));
    ops := ops + [Enter(0)];
    assert Run(s, ops) == s.(crowd := Crowd(map[0 := Inside(x, false)], {}, false));
    RunNext(s, ops, Admit(0));
    ops := ops + [Admit(0)];
    assert Run(s, ops)
           == State(1, Room(1, [x], 0, 0, 0), Crowd(map[0 := Leaving(Idle)], {}, false), IDLE_FLUSHER, multiset{x});
    RunNext(s, ops, Leave(0, false));
    ops := ops + [Leave(0, false)];
  }

  /** A caller that finds no room. */
  lemma FirstTry(s: State, start: seq<Op>, y: Event) returns (ops: seq<Op>)
    requires Run(Fresh(1, 1), start) == s && s.crowd == Crowd(map[0 := Idle], {}, false) && !HasRoom(s.room)
    ensures Run(Fresh(1, 1), ops) == s.(crowd := Crowd(map[0 := Idle, 1 := Inside(y, true)], {}, false))
  {
    var first := Fresh(1, 1);
    RunNext(first, start, Start(1, y));
    ops := start + [Start(1, y)];
    assert Run(first, ops) == s.(crowd := Crowd(map[0 := Idle, 1 := Outside(y, false)], {}, false));
    RunNext(first, ops, Enter(1));
    ops := ops + [Enter(1)];
    assert Run(first, ops) == s.(crowd := Crowd(map[0 := Idle, 1 := Inside(y, false)], {}, false));
    RunNext(first, ops, Admit(1));
    ops := ops + [Admit(1)];
    assert Run(first, ops) == s.(crowd := Crowd(map[0 := Idle, 1 := Leaving(Outside(y, true))], {}, false));
    RunNext(first, ops, Leave(1, false));
    ops := ops + [Leave(1, false)];
    assert Run(first, ops) == s.(crowd := Crowd(map[0 := Idle, 1 := Outside(y, true)], {}, false));
    RunNext(first, ops, Enter(1));
    ops := ops + [Enter(1)];
  }

  /** The second try of the caller decides by what is retained: it sleeps, or it is refused. */
  lemma SecondTry(s: State, start: seq<Op>, y: Event) returns (ops: seq<Op>)
    requires Run(Fresh(1, 1), start) == s.(crowd := Crowd(map[0 := Idle, 1 := Inside(y, true)], {}, false))
    requires !HasRoom(s.room) && s.crowd == Crowd(map[0 := Idle], {}, false)
    ensures Run(Fresh(1, 1), ops)
            == if s.room.retained == 0
               then s.(crowd := Crowd(map[0 := Idle, 1 := Sleeping(y, s.room.generation)], {1}, false),
                       room := s.room.(waiting := s.room.waiting + 1))
               else s.(crowd := Crowd(map[0 := Idle, 1 := Idle], {}, false))
  {
    var first := Fresh(1, 1);
    RunNext(first, start, Admit(1));
    ops := start + [Admit(1)];
    var next := if s.room.retained == 0 then Sleeping(y, s.room.generation) else Idle;
    assert Run(first, ops).crowd.pcs == map[0 := Idle, 1 := Leaving(next)];
    RunNext(first, ops, Leave(1, false));
    ops := ops + [Leave(1, false)];
    assert Run(first, ops).crowd.pcs == map[0 := Idle, 1 := next];
  }

  lemma FromFresh(ops: seq<Op>)
    ensures After(1, 1, ops) == Run(Fresh(1, 1), ops)
  {
    assert [] + ops == ops;
    RunContinues(1, 1, [], ops);
  }

  /** The exception is real: between a receive and its dequeued call a caller sleeps beside room. */
  lemma SleepingBesideRoomHappens(x: Event, y: Event) returns (ops: seq<Op>)
    ensures var s := After(1, 1, ops);
            AsleepOn(s.crowd, s.room.generation, 1) && HasRoom(s.room) && s.flusher.hand == [x]
                && s.admitted == multiset{x}
  {
    var start := FirstEventQueued(x);
    var s := Run(Fresh(1, 1), start);
    var tried := FirstTry(s, start, y);
    ops := SecondTry(s, tried, y);
    RunNext(Fresh(1, 1), ops, Flushing(Receive));
    ops := ops + [Flushing(Receive)];
    FromFresh(ops);
  }

  lemma FirstDeliveryFails(x: Event) returns (ops: seq<Op>)
    ensures Run(Fresh(1, 1), ops)
            == State(1, Room(1, [], 1, 0, 0), Crowd(map[0 := Idle], {}, false),
                     IDLE_FLUSHER.(retained := [x], attempts := 1), multiset{x})
  {
    var first := Fresh(1, 1);
    var start := FirstEventQueued(x);
    var s := Run(first, start).(room := Room(1, [], 0, 0, 0));
    RunNext(first, start, Flushing(Receive));
    ops := start + [Flushing(Receive)];
    assert Run(first, ops) == s.(flusher := IDLE_FLUSHER.(pc := Received, hand := [x]));
    RunNext(first, ops, Flushing(FlusherOp.Dequeued));
    ops := ops + [Flushing(FlusherOp.Dequeued)];
    assert [] + [x] == [x];
    assert Run(first, ops) == s.(flusher := IDLE_FLUSHER.(pc := Flush, batch := [x]));
    RunNext(first, ops, Flushing(FlushDelivers));
    ops := ops + [Flushing(FlushDelivers)];
    assert Run(first, ops) == s.(flusher := IDLE_FLUSHER.(pc := Deliver, retained := [x]));
    RunNext(first, ops, Flushing(Chunk([x])));
    ops := ops + [Flushing(Chunk([x]))];
    assert [x][..1] == [x] && [x] + [x][1..] == [x];
    assert Run(first, ops) == s.(flusher := IDLE_FLUSHER.(pc := Settle, retained := [x]));
    RunNext(first, ops, Flushing(Settled));
    ops := ops + [Flushing(Settled)];
  }

  /** After one failed delivery the room is full of what is retained: a caller is refused, and the batch may wait. */
  lemma RefusalHappens(x: Event, y: Event) returns (ops: seq<Op>)
    ensures var s := After(1, 1, ops);
            && PcOf(s.crowd, 1) == Idle && s.crowd.registered == {} && s.admitted == multiset{x}
            && s.flusher.pc.Hold? && s.flusher.attempts == 1 && s.flusher.retained == [x]
  {
    var first := Fresh(1, 1);
    var start := FirstDeliveryFails(x);
    var s := Run(first, start);
    var tried := FirstTry(s, start, y);
    ops := SecondTry(s, tried, y);
    RunNext(first, ops, Flushing(Tick));
    ops := ops + [Flushing(Tick)];
    assert Run(first, ops).flusher == IDLE_FLUSHER.(pc := Flush, retained := [x], attempts := 1);
    RunNext(first, ops, Flushing(FlushWaits));
    ops := ops + [Flushing(FlushWaits)];
    assert [x] + [] == [x];
    FromFresh(ops);
  }
}
