/**
 Which records the consumer group can lose. A ledger row, a stored manifest and a completed
 transport each answer for later records of the same event without comparing them, so the
 group keeps every record exactly when each event has one source.
 */
module ConsumerLoss {
  import opened Common
  import opened Consumer
  import opened ConsumerProtocol

  // ---- A consumer that comes for one record ----

  /** No consumer is at work, and the partition has not been used. */
  predicate Quiet(s: State, q: Partition) {
    s.workers == map[] && q !in s.world.logs && q !in s.group
  }

  /** One consumer reads one record of a new partition, commits it and goes. */
  function Handle(q: Partition, rec: Record, refused: bool): seq<Step> {
    Opening(q, rec) + Deciding(refused) + [CommitBatch(0, true), Crash(0)]
  }

  function Opening(q: Partition, rec: Record): seq<Step> {
    [Produce(q, rec), Start(0), Assign(0, q), Poll(0, map[q := 1]), BeginBatch(0, q)]
  }

  function Deciding(refused: bool): seq<Step> {
    [if refused then Refused(0) else ProjectOne(0), Proceed(0), Proceed(0)]
  }

  /** What the transaction of that record writes. */
  function Written(t: Tables, q: Partition, rec: Record, refused: bool): Writes {
    Recorded(t, NO_WRITES, Key(q, 0), rec, if refused then Rejects else Project(t, rec.payload))
  }

  function Handled(s: State, q: Partition, rec: Record, refused: bool): State {
    Closed(s, q, rec, Written(s.world.tables, q, rec, refused))
  }

  function Closed(s: State, q: Partition, rec: Record, w: Writes): State {
    var t := View(s.world.tables, w);
    State(World(s.world.logs[q := [rec]], t.(offsets := t.offsets[q := 1])), s.group, map[])
  }

  function AtWork(s: State, q: Partition, rec: Record, tx: OpenTx): State {
    State(World(s.world.logs[q := [rec]], s.world.tables), s.group, map[0 := Lone(q, tx)])
  }

  function Lone(q: Partition, tx: OpenTx): Worker {
    Worker(map[q := 1], map[q := Batch(0, 1, Waiting)], Some(tx))
  }

  lemma {:induction false} RunsOn(accepts: Acceptance, s: State, steps: seq<Step>, more: seq<Step>)
    ensures RunFrom(accepts, s, steps + more) == RunFrom(accepts, RunFrom(accepts, s, steps), more)
  {
    if more == [] {
      assert steps + more == steps;
    } else {
      RunsOn(accepts, s, steps, more[..|more| - 1]);
      assert (steps + more)[..|steps + more| - 1] == steps + more[..|more| - 1];
    }
  }

  lemma RunsOne(accepts: Acceptance, s: State, step: Step)
    ensures RunFrom(accepts, s, [step]) == Apply(accepts, s, step)
  {
    assert [step][..0] == [];
  }

  lemma RunsTwo(accepts: Acceptance, s: State, a: Step, b: Step)
    ensures RunFrom(accepts, s, [a, b]) == Apply(accepts, Apply(accepts, s, a), b)
  {
    assert [a, b][..1] == [a];
    RunsOne(accepts, s, a);
  }

  lemma RunsThree(accepts: Acceptance, s: State, a: Step, b: Step, c: Step)
    ensures RunFrom(accepts, s, [a, b, c]) == Apply(accepts, Apply(accepts, Apply(accepts, s, a), b), c)
  {
    assert [a, b, c][..2] == [a, b];
    RunsTwo(accepts, s, a, b);
  }

  lemma Joins(accepts: Acceptance, s: State, q: Partition, rec: Record)
    requires Quiet(s, q)
    ensures RunFrom(accepts, s, [Produce(q, rec), Start(0), Assign(0, q)])
            == State(World(s.world.logs[q := [rec]], s.world.tables), s.group,
                map[0 := Worker(map[q := 0], map[], None)])
  {
    RunsThree(accepts, s, Produce(q, rec), Start(0), Assign(0, q));
    Arrives(accepts, s, q, rec);
    var s1 := State(World(s.world.logs[q := [rec]], s.world.tables), s.group, map[0 := Worker(map[], map[], None)]);
    assert WorkerStep(s1, 0, s1.workers[0], Assign(0, q)) == Worker(map[q := 0], map[], None);
  }

  lemma Arrives(accepts: Acceptance, s: State, q: Partition, rec: Record)
    requires Quiet(s, q)
    ensures Apply(accepts, Apply(accepts, s, Produce(q, rec)), Start(0))
            == State(World(s.world.logs[q := [rec]], s.world.tables), s.group, map[0 := Worker(map[], map[], None)])
  {
    assert [] + [rec] == [rec];
  }

  lemma Polls(accepts: Acceptance, s: State, q: Partition, rec: Record)
    ensures var s1 := State(World(s.world.logs[q := [rec]], s.world.tables), s.group,
            map[0 := Worker(map[q := 0], map[], None)]);
            RunFrom(accepts, s1, [Poll(0, map[q := 1]), BeginBatch(0, q)])
                == AtWork(s, q, rec, OpenTx(q, 0, NO_WRITES, Projecting))
  {
    var s1 := State(World(s.world.logs[q := [rec]], s.world.tables), s.group,
        map[0 := Worker(map[q := 0], map[], None)]);
    RunsTwo(accepts, s1, Poll(0, map[q := 1]), BeginBatch(0, q));
    Fetches(s1, q);
  }

  lemma Fetches(s: State, q: Partition)
    requires |LogOf(s.world.logs, q)| == 1
    ensures WorkerStep(s, 0, Worker(map[q := 0], map[], None), Poll(0, map[q := 1]))
            == Worker(map[q := 1], map[q := Batch(0, 1, Waiting)], None)
  {
    var w, fetched := Worker(map[q := 0], map[], None), map[q := 1];
    assert w.position + fetched == fetched;
    assert (map p | p in fetched :: Batch(w.position[p], fetched[p], Waiting)) == map[q := Batch(0, 1, Waiting)];
  }

  lemma Opens(accepts: Acceptance, s: State, q: Partition, rec: Record)
    requires Quiet(s, q)
    ensures RunFrom(accepts, s, Opening(q, rec)) == AtWork(s, q, rec, OpenTx(q, 0, NO_WRITES, Projecting))
  {
    Joins(accepts, s, q, rec);
    Polls(accepts, s, q, rec);
    RunsOn(accepts, s, [Produce(q, rec), Start(0), Assign(0, q)], [Poll(0, map[q := 1]), BeginBatch(0, q)]);
    assert Opening(q, rec) == [Produce(q, rec), Start(0), Assign(0, q)] + [Poll(0, map[q := 1]), BeginBatch(0, q)];
  }

  /** A step of the lone consumer. */
  lemma LoneStep(accepts: Acceptance, s: State, q: Partition, rec: Record, tx: OpenTx, step: Step, tx': OpenTx)
    requires step == ProjectOne(0) || step == Refused(0) || step == Proceed(0)
    requires WorkerStep(AtWork(s, q, rec, tx), 0, Lone(q, tx), step) == Lone(q, tx')
    ensures Apply(accepts, AtWork(s, q, rec, tx), step) == AtWork(s, q, rec, tx')
  {
    var s0 := AtWork(s, q, rec, tx);
    assert s0.workers[0 := Lone(q, tx')] == map[0 := Lone(q, tx')];
  }

  /** After the first statement: the record's rows, or the way to the dead-letter table. */
  function Tried(t: Tables, q: Partition, rec: Record, refused: bool): OpenTx {
    var outcome := if refused then Rejects else Project(t, rec.payload);
    if outcome.Adds? then OpenTx(q, 0, NO_WRITES.(rows := Overlay(NO_ROWS, outcome.rows)), Resolving)
    else OpenTx(q, 0, NO_WRITES, Verifying)
  }

  lemma Tries(accepts: Acceptance, s: State, q: Partition, rec: Record, refused: bool)
    ensures Apply(accepts, AtWork(s, q, rec, OpenTx(q, 0, NO_WRITES, Projecting)),
                  if refused then Refused(0) else ProjectOne(0))
            == AtWork(s, q, rec, Tried(s.world.tables, q, rec, refused))
  {
    var tx := OpenTx(q, 0, NO_WRITES, Projecting);
    var s0 := AtWork(s, q, rec, tx);
    if refused {
      LoneStep(accepts, s, q, rec, tx, Refused(0), Tried(s.world.tables, q, rec, true));
    } else {
      NothingWritten(s.world.tables, NO_ROWS);
      assert Projected(s0.world, tx) == Tried(s.world.tables, q, rec, false);
      assert !Waits(s0, 0, Lone(q, tx));
      LoneStep(accepts, s, q, rec, tx, ProjectOne(0), Tried(s.world.tables, q, rec, false));
    }
  }

  lemma Proceeds(accepts: Acceptance, s: State, q: Partition, rec: Record, tx: OpenTx)
    requires tx.partition == q
    ensures Apply(accepts, AtWork(s, q, rec, tx), Proceed(0))
            == AtWork(s, q, rec, if tx.next == 0 then Proceeded(World(map[q := [rec]], s.world.tables), tx) else tx)
  {
    LoneStep(accepts, s, q, rec, tx, Proceed(0),
             if tx.next == 0 then Proceeded(World(map[q := [rec]], s.world.tables), tx) else tx);
  }

  lemma Projects(accepts: Acceptance, s: State, q: Partition, rec: Record, refused: bool)
    ensures RunFrom(accepts, AtWork(s, q, rec, OpenTx(q, 0, NO_WRITES, Projecting)), Deciding(refused))
            == AtWork(s, q, rec, OpenTx(q, 1, Written(s.world.tables, q, rec, refused), Projecting))
  {
    var t := s.world.tables;
    var tx1 := Tried(t, q, rec, refused);
    var tx2 := Proceeded(World(map[q := [rec]], t), tx1);
    RunsThree(accepts, AtWork(s, q, rec, OpenTx(q, 0, NO_WRITES, Projecting)),
              if refused then Refused(0) else ProjectOne(0), Proceed(0), Proceed(0));
    Tries(accepts, s, q, rec, refused);
    Proceeds(accepts, s, q, rec, tx1);
    Proceeds(accepts, s, q, rec, tx2);
    if tx2.next == 0 {
      assert Proceeded(World(map[q := [rec]], t), tx2) == OpenTx(q, 1, Written(t, q, rec, refused), Projecting);
    }
  }

  lemma Commits(accepts: Acceptance, s: State, q: Partition, rec: Record, w: Writes)
    ensures RunFrom(accepts, AtWork(s, q, rec, OpenTx(q, 1, w, Projecting)), [CommitBatch(0, true), Crash(0)])
            == Closed(s, q, rec, w)
  {
    RunsTwo(accepts, AtWork(s, q, rec, OpenTx(q, 1, w, Projecting)), CommitBatch(0, true), Crash(0));
  }

  lemma HandledBy(accepts: Acceptance, trace: seq<Step>, q: Partition, rec: Record, refused: bool)
    requires Quiet(After(accepts, trace), q)
    ensures After(accepts, trace + Handle(q, rec, refused)) == Handled(After(accepts, trace), q, rec, refused)
  {
    var s := After(accepts, trace);
    Opens(accepts, s, q, rec);
    Projects(accepts, s, q, rec, refused);
    Commits(accepts, s, q, rec, Written(s.world.tables, q, rec, refused));
    RunsOn(accepts, s, Opening(q, rec), Deciding(refused));
    RunsOn(accepts, s, Opening(q, rec) + Deciding(refused), [CommitBatch(0, true), Crash(0)]);
    RunsOn(accepts, START, trace, Handle(q, rec, refused));
  }

  /** A record that is accepted adds its rows, and one that names no dead-letter row resolves none. */
  lemma AcceptedBy(accepts: Acceptance, trace: seq<Step>, q: Partition, p: Payload)
    requires Quiet(After(accepts, trace), q) && Project(After(accepts, trace).world.tables, p).Adds?
    ensures var s, s' := After(accepts, trace), After(accepts, trace + Handle(q, Record(p, None), false));
            && s'.world.tables == Tables(Overlay(s.world.tables.rows, Project(s.world.tables, p).rows),
                s.world.tables.completed,
                                         s.world.tables.dlq, s.world.tables.offsets[q := 1])
            && s'.world.logs == s.world.logs[q := [Record(p, None)]] && s'.group == s.group && s'.workers == map[]
  {
    HandledBy(accepts, trace, q, Record(p, None), false);
    NothingAdded(Project(After(accepts, trace).world.tables, p).rows);
    assert (After(accepts, trace).world.tables.dlq - {}) + map[] == After(accepts, trace).world.tables.dlq;
  }

  // ---- Runs that lose a record ----

  lemma Skips(s: State, q: Partition, p: Payload)
    requires q in s.world.tables.offsets && s.world.tables.offsets[q] == 1 && q in s.world.logs
    requires |s.world.logs[q]| == 1 && s.world.logs[q][0].payload == p && !Accounted(s.world.tables, p)
    ensures !NothingSkipped(s)
  {
    assert !AccountedBelow(s.world.logs, s.world.tables, q, 1);
  }

  lemma Started(accepts: Acceptance, q: Partition, p: Payload)
    requires Project(START.world.tables, p).Adds?
    ensures var s := After(accepts, Handle(q, Record(p, None), false));
            && s.world.tables == Tables(Project(START.world.tables, p).rows, map[], map[], map[q := 1])
            && s.world.logs == map[q := [Record(p, None)]] && s.group == map[] && s.workers == map[]
  {
    assert [] + Handle(q, Record(p, None), false) == Handle(q, Record(p, None), false);
    AcceptedBy(accepts, [], q, p);
    NothingWritten(START.world.tables, Project(START.world.tables, p).rows);
  }

  /** A first record that takes the place of a second, which is known and adds nothing. */
  lemma SecondIsSkipped(accepts: Acceptance, p: Payload, q: Payload)
    requires Project(START.world.tables, p).Adds?
    requires var t := Tables(Project(START.world.tables, p).rows, map[], map[], map[0 := 1]);
             Project(t, q) == Adds(NO_ROWS) && !Landed(t.rows, q)
    ensures var s := After(accepts, Handle(0, Record(p, None), false) + Handle(1, Record(q, None), false));
            && s.world.tables.offsets == map[0 := 1, 1 := 1]
            && s.world.logs == map[0 := [Record(p, None)], 1 := [Record(q, None)]]
            && !Accounted(s.world.tables, q) && !NothingSkipped(s)
  {
    var first := Handle(0, Record(p, None), false);
    Started(accepts, 0, p);
    AcceptedBy(accepts, first, 1, q);
    var s := After(accepts, first + Handle(1, Record(q, None), false));
    assert Overlay(Project(START.world.tables, p).rows, NO_ROWS) == Project(START.world.tables, p).rows;
    assert !Held(s.world.tables, q);
    Skips(s, 1, q);
  }

  lemma SendsBoth(p: Payload, q: Payload)
    ensures Sends(Handle(0, Record(p, None), false) + Handle(1, Record(q, None), false), iset{p, q})
  {
  }

  /**
   A second plain record of an event counts as projected whatever it says: the saved offset
   passes it, and it is neither in the ledger nor in a dead-letter row.
   */
  lemma SecondPlainRecordIsSkipped(accepts: Acceptance, p: Payload, q: Payload)
    requires p.Plain? && q.Plain? && p.id == q.id && p.event != q.event
    ensures var trace := Handle(0, Record(p, None), false) + Handle(1, Record(q, None), false);
            var s := After(accepts, trace);
            && Sends(trace, iset{p, q}) && s.world.tables.offsets == map[0 := 1, 1 := 1]
            && s.world.logs == map[0 := [Record(p, None)], 1 := [Record(q, None)]]
            && !Accounted(s.world.tables, q) && !NothingSkipped(s)
  {
    SendsBoth(p, q);
    SecondIsSkipped(accepts, p, q);
  }

  /** The same for a second manifest of one transport: the first one's bytes stay. */
  lemma SecondManifestIsSkipped(accepts: Acceptance, p: Payload, q: Payload)
    requires p.Manifest? && q.Manifest? && p.id == q.id && p.transport == q.transport && p.raw != q.raw
    ensures var trace := Handle(0, Record(p, None), false) + Handle(1, Record(q, None), false);
            && Sends(trace, iset{p, q}) && !Accounted(After(accepts, trace).world.tables, q)
            && !NothingSkipped(After(accepts, trace))
  {
    SendsBoth(p, q);
    SecondIsSkipped(accepts, p, q);
  }

  lemma RefusedFirst(accepts: Acceptance, q: Payload)
    ensures var s := After(accepts, Handle(0, Record(q, None), true));
            && s.world.tables == Tables(NO_ROWS, map[], map[Key(0, 0) := q], map[0 := 1])
            && s.world.logs == map[0 := [Record(q, None)]] && s.group == map[] && s.workers == map[]
  {
    var refused := Handle(0, Record(q, None), true);
    assert [] + refused == refused;
    HandledBy(accepts, [], 0, Record(q, None), true);
    NothingWritten(START.world.tables, NO_ROWS);
  }

  lemma SendsThree(p: Payload, q: Payload)
    ensures Sends(Handle(0, Record(q, None), true) + Handle(1, Record(p, None), false)
                  + Handle(2, Record(q, Some(Key(0, 0))), false), iset{p, q})
  {
  }

  /** A replay that is known adds nothing, and its dead-letter row goes. */
  lemma KnownReplay(t: Tables, q: Partition, k: Key, p: Payload)
    requires Project(t, p) == Adds(NO_ROWS) && t.dlq == map[k := p]
    ensures View(t, Written(t, q, Record(p, Some(k)), false)) == t.(dlq := map[])
  {
    NothingWritten(t, NO_ROWS);
    assert Written(t, q, Record(p, Some(k)), false) == Writes(NO_ROWS, map[], {k});
    assert (t.dlq - {k}) + map[] == map[];
  }

  /**
   The replay of a dead letter finds its event projected from another record, so its row is
   deleted although its bytes are nowhere.
   */
  lemma ReplayDeletesAnUnlandedDeadLetter(accepts: Acceptance, p: Payload, q: Payload)
    requires p.Plain? && q.Plain? && p.id == q.id && p.event != q.event
    ensures var before := Handle(0, Record(q, None), true) + Handle(1, Record(p, None), false);
            var trace := before + Handle(2, Record(q, Some(Key(0, 0))), false);
            && Sends(trace, iset{p, q}) && Held(After(accepts, before).world.tables, q)
            && !Accounted(After(accepts, trace).world.tables, q)
  {
    SendsThree(p, q);
    var refused := Handle(0, Record(q, None), true);
    var before := refused + Handle(1, Record(p, None), false);
    RefusedFirst(accepts, q);
    AcceptedBy(accepts, refused, 1, p);
    var s := After(accepts, before);
    assert s.world.tables.dlq[Key(0, 0)] == q;
    KnownReplay(s.world.tables, 2, Key(0, 0), q);
    HandledBy(accepts, before, 2, Record(q, Some(Key(0, 0))), false);
  }

  // ---- An event with two sources ----

  /** Some run of what is sent ends in `s`. */
  ghost predicate Reaches(c: Setting, s: State) {
    exists trace :: Sends(trace, c.sent) && After(c.accepts, trace) == s
  }

  ghost predicate Safe(c: Setting) {
    forall trace :: Sends(trace, c.sent) ==> NothingSkipped(After(c.accepts, trace))
  }

  lemma ReachAccepted(c: Setting, s: State, q: Partition, p: Payload) returns (s': State)
    requires Reaches(c, s) && p in c.sent && Quiet(s, q) && Project(s.world.tables, p).Adds?
    ensures Reaches(c, s') && s'.group == s.group && s'.workers == map[]
            && s'.world.logs == s.world.logs[q := [Record(p, None)]]
    ensures s'.world.tables == Tables(Overlay(s.world.tables.rows, Project(s.world.tables, p).rows),
            s.world.tables.completed,
                                      s.world.tables.dlq, s.world.tables.offsets[q := 1])
  {
    var trace :| Sends(trace, c.sent) && After(c.accepts, trace) == s;
    AcceptedBy(c.accepts, trace, q, p);
    s' := After(c.accepts, trace + Handle(q, Record(p, None), false));
    assert Sends(trace + Handle(q, Record(p, None), false), c.sent);
  }

  lemma ReachCompleted(c: Setting, s: State, id: EventId)
    requires Reaches(c, s) && s.workers == map[] && Completes(c.accepts, s.world.tables.rows, id)
    ensures Reaches(c, s.(world := s.world.(tables := Completed(s.world.tables, id))))
  {
    var trace :| Sends(trace, c.sent) && After(c.accepts, trace) == s;
    RunsOn(c.accepts, START, trace, [Complete(id)]);
    RunsOne(c.accepts, s, Complete(id));
    assert Sends(trace + [Complete(id)], c.sent) && Unlocked(s, id);
  }

  /** Exactly the first `n` parts. */
  ghost predicate PartsBelow(parts: map<PartKey, string>, id: EventId, bodies: map<nat, string>, n: nat) {
    && (forall k :: k in parts <==> k.id == id && k.index < n)
    && (forall k :: k in parts ==> k.index in bodies && parts[k] == bodies[k.index])
  }

  ghost predicate AssembledRows(r: Rows, id: EventId, source: Source, n: nat)
    requires source.FromParts?
  {
    && r.ledger == map[] && r.assemblies == map[id := source.transport] && r.headers == map[id := source.header]
    && PartsBelow(r.parts, id, source.bodies, n)
  }

  /** The manifest in partition 0 and the first `n` parts in the next ones, all stored. */
  ghost predicate Assembled(s: State, id: EventId, source: Source, n: nat)
    requires source.FromParts?
  {
    && s.workers == map[] && s.group == map[] && s.world.tables.completed == map[] && s.world.tables.dlq == map[]
    && AssembledRows(s.world.tables.rows, id, source, n)
    && (forall q :: q in s.world.logs <==> 0 <= q <= n)
    && s.world.logs[0] == [Record(Manifest(id, source.transport, source.header), None)]
    && 0 in s.world.tables.offsets && s.world.tables.offsets[0] == 1
  }

  lemma StoresManifest(c: Setting, id: EventId, source: Source) returns (s: State)
    requires Completable(c.sent, c.accepts, id, source)
    ensures Reaches(c, s) && Assembled(s, id, source, 0)
  {
    assert Sends([], c.sent) && After(c.accepts, []) == START;
    s := ReachAccepted(c, START, 0, Manifest(id, source.transport, source.header));
  }

  lemma PartAdded(t: Tables, id: EventId, source: Source, n: nat, raw: string)
    requires source.FromParts? && AssembledRows(t.rows, id, source, n) && t.completed == map[]
    requires n < source.transport.count && n in source.bodies
    ensures var p := Part(id, source.transport, n, source.bodies[n], true, raw);
            Project(t, p).Adds? && AssembledRows(Overlay(t.rows, Project(t, p).rows), id, source, n + 1)
  {
  }

  lemma StoresPart(c: Setting, s: State, id: EventId, source: Source, n: nat) returns (s': State)
    requires Completable(c.sent, c.accepts, id, source) && n < source.transport.count
    requires Reaches(c, s) && Assembled(s, id, source, n)
    ensures Reaches(c, s') && Assembled(s', id, source, n + 1)
  {
    assert n in source.bodies && HasPart(c.sent, id, source.transport, n, source.bodies[n]);
    var raw :| Part(id, source.transport, n, source.bodies[n], true, raw) in c.sent;
    PartAdded(s.world.tables, id, source, n, raw);
    s' := ReachAccepted(c, s, n + 1, Part(id, source.transport, n, source.bodies[n], true, raw));
  }

  lemma {:induction false} Assembles(c: Setting, id: EventId, source: Source, n: nat) returns (s: State)
    requires Completable(c.sent, c.accepts, id, source) && n <= source.transport.count
    ensures Reaches(c, s) && Assembled(s, id, source, n)
  {
    if n == 0 {
      s := StoresManifest(c, id, source);
    } else {
      s := Assembles(c, id, source, n - 1);
      s := StoresPart(c, s, id, source, n - 1);
    }
  }

  lemma AssembledCompletes(c: Setting, r: Rows, id: EventId, source: Source)
    requires Completable(c.sent, c.accepts, id, source) && id in r.assemblies && r.assemblies[id] == source.transport
    requires id in r.headers && r.headers[id] == source.header
             && PartsBelow(r.parts, id, source.bodies, source.transport.count)
    ensures Completes(c.accepts, r, id) && BodiesOf(r, id, source.transport.count) == source.bodies
  {
    forall i | 0 <= i < source.transport.count
        ensures PartKey(id, i) in r.parts && r.parts[PartKey(id, i)] == source.bodies[i] {
    }
    assert BodiesOf(r, id, source.transport.count) == source.bodies;
  }

  /** A plain record of an event that also comes in parts: the event is in the ledger, and the manifest is gone. */
  lemma PlainRivalLosesTheManifest(c: Setting, id: EventId, source: Source, p: Payload)
    requires Completable(c.sent, c.accepts, id, source) && p in c.sent && p.Plain? && p.id == id
    ensures !Safe(c)
  {
    var s := Assembles(c, id, source, source.transport.count);
    var s1 := ReachAccepted(c, s, source.transport.count + 1, p);
    PlainBesideAssembly(s.world.tables, id, source, p);
    AssembledCompletes(c, s1.world.tables.rows, id, source);
    ReachCompleted(c, s1, id);
    var s2 := s1.(world := s1.world.(tables := Completed(s1.world.tables, id)));
    ManifestGone(s1.world.tables, id, source, p);
    Skips(s2, 0, Manifest(id, source.transport, source.header));
  }

  lemma ManifestGone(t: Tables, id: EventId, source: Source, p: Payload)
    requires source.FromParts? && id in t.rows.assemblies && id in t.rows.headers && p.Plain? && t.dlq == map[]
    requires t.rows.ledger == map[id := FromRecord(p.event)]
    ensures !Accounted(Completed(t, id), Manifest(id, source.transport, source.header))
  {
  }

  lemma PlainBesideAssembly(t: Tables, id: EventId, source: Source, p: Payload)
    requires source.FromParts? && AssembledRows(t.rows, id, source, source.transport.count) && p.Plain? && p.id == id
    ensures Overlay(t.rows, Project(t, p).rows) == t.rows.(ledger := map[id := FromRecord(p.event)])
  {
  }

  /** A foreign message under the digest of a completed transport is accepted and dropped. */
  lemma ForeignMessageIsSkipped(c: Setting, id: EventId, source: Source, p: Payload)
    requires Completable(c.sent, c.accepts, id, source) && p in c.sent && (p.Part? || p.Manifest?) && p.id == id
    requires p.transport.digest == source.transport.digest && !PartOf(p, source)
    ensures !Safe(c)
  {
    var s := Assembles(c, id, source, source.transport.count);
    AssembledCompletes(c, s.world.tables.rows, id, source);
    ReachCompleted(c, s, id);
    var s1 := s.(world := s.world.(tables := Completed(s.world.tables, id)));
    MessageDropped(s.world.tables, id, source, p);
    var s2 := ReachAccepted(c, s1, source.transport.count + 1, p);
    Skips(s2, source.transport.count + 1, p);
  }

  lemma MessageDropped(t: Tables, id: EventId, source: Source, p: Payload)
    requires source.FromParts? && AssembledRows(t.rows, id, source, source.transport.count) && t.completed == map[]
             && t.dlq == map[]
    requires BodiesOf(t.rows, id, source.transport.count) == source.bodies && (p.Part? || p.Manifest?) && p.id == id
    requires p.transport.digest == source.transport.digest && !PartOf(p, source)
    ensures var t' := Completed(t, id);
            Project(t', p) == Adds(NO_ROWS) && Overlay(t'.rows, NO_ROWS) == t'.rows && !Accounted(t', p)
  {
    NothingAdded(Completed(t, id).rows);
  }

  lemma SafeNeedsSameContent(c: Setting)
    requires Safe(c)
    ensures SameContent(c.sent)
  {
    forall p, q | p in c.sent && q in c.sent && p.Plain? && q.Plain? && p.id == q.id ensures p.event == q.event {
      if p.event != q.event {
        SecondPlainRecordIsSkipped(c.accepts, p, q);
      }
    }
    forall p, q | p in c.sent && q in c.sent && p.Manifest? && q.Manifest? && p.id == q.id && p.transport == q.transport
      ensures p.raw == q.raw
    {
      if p.raw != q.raw {
        SecondManifestIsSkipped(c.accepts, p, q);
      }
    }
  }

  lemma SafeNeedsNoRival(c: Setting)
    requires Safe(c)
    ensures NoRival(c.sent, c.accepts)
  {
    forall id, source, p | Completable(c.sent, c.accepts, id, source) && p in c.sent && !p.Junk? && p.id == id
      ensures !p.Plain? && (p.transport.digest == source.transport.digest ==> PartOf(p, source))
    {
      if p.Plain? {
        PlainRivalLosesTheManifest(c, id, source, p);
      } else if p.transport.digest == source.transport.digest && !PartOf(p, source) {
        ForeignMessageIsSkipped(c, id, source, p);
      }
    }
  }

  /**
   No run skips a record exactly when each event has one source: its plain records say the
   same, its manifests are the same bytes, and an event that a transport completes has no
   plain record and no other message under that transport's digest.
   */
  lemma NothingIsSkippedExactlyWithOneSource(c: Setting)
    ensures Safe(c) <==> OneSource(c.sent, c.accepts)
  {
    if Safe(c) {
      SafeNeedsSameContent(c);
      SafeNeedsNoRival(c);
    }
    if OneSource(c.sent, c.accepts) {
      forall trace | Sends(trace, c.sent) ensures NothingSkipped(After(c.accepts, trace)) {
        NoRunSkipsARecord(c, trace);
      }
    }
  }

  // ---- Dead letters that go too early ----

  /** In every run what has landed stays landed, and a dead-letter row goes only once its payload has landed. */
  ghost predicate LettersWait(c: Setting) {
    forall trace, n: nat :: Sends(trace, c.sent) && n <= |trace| ==>
      Progress(After(c.accepts, trace[..n]).world.tables, After(c.accepts, trace).world.tables)
  }

  /** A run that goes on from an accounted payload to a state without it. */
  lemma LosesIt(c: Setting, trace: seq<Step>, more: seq<Step>, p: Payload)
    requires Sends(trace + more, c.sent) && Accounted(After(c.accepts, trace).world.tables, p)
    requires !Accounted(After(c.accepts, trace + more).world.tables, p)
    ensures !LettersWait(c)
  {
    var t, t' := After(c.accepts, trace).world.tables, After(c.accepts, trace + more).world.tables;
    assert (trace + more)[..|trace|] == trace;
    if Progress(t, t') {
      ProgressKeepsAccounted(t, t', p);
    }
  }

  lemma RefusedAt(accepts: Acceptance, trace: seq<Step>, q: Partition, p: Payload)
    requires Quiet(After(accepts, trace), q) && After(accepts, trace).world.tables.dlq == map[]
    ensures var s, s' := After(accepts, trace), After(accepts, trace + Handle(q, Record(p, None), true));
            && s'.world.tables == s.world.tables.(dlq := map[Key(q, 0) := p], offsets := s.world.tables.offsets[q := 1])
            && s'.world.logs == s.world.logs[q := [Record(p, None)]] && s'.group == s.group && s'.workers == map[]
  {
    HandledBy(accepts, trace, q, Record(p, None), true);
    NothingWritten(After(accepts, trace).world.tables, NO_ROWS);
  }

  lemma ReplayedAt(accepts: Acceptance, trace: seq<Step>, q: Partition, k: Key, p: Payload)
    requires Quiet(After(accepts, trace), q) && After(accepts, trace).world.tables.dlq == map[k := p]
    requires Project(After(accepts, trace).world.tables, p) == Adds(NO_ROWS)
    ensures var s' := After(accepts, trace + Handle(q, Record(p, Some(k)), false));
            s'.world.tables.rows == After(accepts, trace).world.tables.rows && s'.world.tables.dlq == map[]
  {
    HandledBy(accepts, trace, q, Record(p, Some(k)), false);
    KnownReplay(After(accepts, trace).world.tables, q, k, p);
  }

  /** A record that is known but has not landed: refused it is held, and its replay deletes the row. */
  lemma KnownRecordLosesItsLetter(c: Setting, s: State, q: Partition, p: Payload)
    requires Reaches(c, s) && p in c.sent && Quiet(s, q) && Quiet(s, q + 1) && s.world.tables.dlq == map[]
    requires Project(s.world.tables, p) == Adds(NO_ROWS) && !Landed(s.world.tables.rows, p)
    ensures !LettersWait(c)
  {
    var trace :| Sends(trace, c.sent) && After(c.accepts, trace) == s;
    var refused, replayed := Handle(q, Record(p, None), true), Handle(q + 1, Record(p, Some(Key(q, 0))), false);
    RefusedAt(c.accepts, trace, q, p);
    var t := After(c.accepts, trace + refused).world.tables;
    assert t.dlq[Key(q, 0)] == p;
    ReplayedAt(c.accepts, trace + refused, q + 1, Key(q, 0), p);
    assert Sends(trace + refused + replayed, c.sent) by {
      SendsMore(c.sent, trace, q, Record(p, None), true);
      SendsMore(c.sent, trace + refused, q + 1, Record(p, Some(Key(q, 0))), false);
    }
    LosesIt(c, trace + refused, replayed, p);
  }

  lemma SendsMore(sent: iset<Payload>, trace: seq<Step>, q: Partition, rec: Record, refused: bool)
    requires Sends(trace, sent) && rec.payload in sent
    ensures Sends(trace + Handle(q, rec, refused), sent)
  {
  }

  lemma SecondLosesItsLetter(c: Setting, p: Payload, q: Payload)
    requires p in c.sent && q in c.sent && Project(START.world.tables, p).Adds?
    requires var t := Tables(Project(START.world.tables, p).rows, map[], map[], map[0 := 1]);
             Project(t, q) == Adds(NO_ROWS) && !Landed(t.rows, q)
    ensures !LettersWait(c)
  {
    var trace := Handle(0, Record(p, None), false);
    Started(c.accepts, 0, p);
    assert [] + trace == trace;
    SendsMore(c.sent, [], 0, Record(p, None), false);
    assert Reaches(c, After(c.accepts, trace));
    KnownRecordLosesItsLetter(c, After(c.accepts, trace), 1, q);
  }

  lemma ForeignMessageLosesItsLetter(c: Setting, id: EventId, source: Source, p: Payload)
    requires Completable(c.sent, c.accepts, id, source) && p in c.sent && (p.Part? || p.Manifest?) && p.id == id
    requires p.transport.digest == source.transport.digest && !PartOf(p, source)
    ensures !LettersWait(c)
  {
    var s := Assembles(c, id, source, source.transport.count);
    AssembledCompletes(c, s.world.tables.rows, id, source);
    ReachCompleted(c, s, id);
    MessageDropped(s.world.tables, id, source, p);
    var s1 := s.(world := s.world.(tables := Completed(s.world.tables, id)));
    KnownRecordLosesItsLetter(c, s1, source.transport.count + 1, p);
  }

  /** The completion of an event that a plain record has projected drops the stored manifest. */
  lemma PlainRivalUnlandsTheManifest(c: Setting, id: EventId, source: Source, p: Payload)
    requires Completable(c.sent, c.accepts, id, source) && p in c.sent && p.Plain? && p.id == id
    ensures !LettersWait(c)
  {
    var m := Manifest(id, source.transport, source.header);
    var s := Assembles(c, id, source, source.transport.count);
    var s1 := ReachAccepted(c, s, source.transport.count + 1, p);
    PlainBesideAssembly(s.world.tables, id, source, p);
    AssembledCompletes(c, s1.world.tables.rows, id, source);
    ManifestGone(s1.world.tables, id, source, p);
    assert Landed(s1.world.tables.rows, m);
    var trace :| Sends(trace, c.sent) && After(c.accepts, trace) == s1;
    RunsOn(c.accepts, START, trace, [Complete(id)]);
    RunsOne(c.accepts, s1, Complete(id));
    assert Unlocked(s1, id);
    LosesIt(c, trace, [Complete(id)], m);
  }

  lemma LettersNeedSameContent(c: Setting)
    requires LettersWait(c)
    ensures SameContent(c.sent)
  {
    forall p, q | p in c.sent && q in c.sent && p.Plain? && q.Plain? && p.id == q.id ensures p.event == q.event {
      if p.event != q.event {
        SecondLosesItsLetter(c, p, q);
      }
    }
    forall p, q | p in c.sent && q in c.sent && p.Manifest? && q.Manifest? && p.id == q.id && p.transport == q.transport
      ensures p.raw == q.raw
    {
      if p.raw != q.raw {
        SecondLosesItsLetter(c, p, q);
      }
    }
  }

  lemma LettersNeedNoRival(c: Setting)
    requires LettersWait(c)
    ensures NoRival(c.sent, c.accepts)
  {
    forall id, source, p | Completable(c.sent, c.accepts, id, source) && p in c.sent && !p.Junk? && p.id == id
      ensures !p.Plain? && (p.transport.digest == source.transport.digest ==> PartOf(p, source))
    {
      if p.Plain? {
        PlainRivalUnlandsTheManifest(c, id, source, p);
      } else if p.transport.digest == source.transport.digest && !PartOf(p, source) {
        ForeignMessageLosesItsLetter(c, id, source, p);
      }
    }
  }

  /** Dead letters wait for their payload, and landed payloads stay, exactly when each event has one source. */
  lemma DeadLettersWaitExactlyWithOneSource(c: Setting)
    ensures LettersWait(c) <==> OneSource(c.sent, c.accepts)
  {
    if LettersWait(c) {
      LettersNeedSameContent(c);
      LettersNeedNoRival(c);
    }
    if OneSource(c.sent, c.accepts) {
      forall trace, n: nat | Sends(trace, c.sent) && n <= |trace|
        ensures Progress(After(c.accepts, trace[..n]).world.tables, After(c.accepts, trace).world.tables)
      {
        DeadLettersWaitForTheirPayload(c, trace, n);
      }
    }
  }
}
