/**
 Consumers of one group poll, project each partition batch in a transaction, wind failed
 partitions back and commit group offsets. Records arrive, assemblies complete, partitions
 move between consumers, commits are lost and consumers die at any step.
 */
module ConsumerProtocol {
  import opened Common
  import opened Consumer

  type ConsumerId = nat

  datatype Status = Waiting | Done | Broken

  /** One partition's records `from` up to `to`, as one poll returned them. */
  datatype Batch = Batch(from: nat, to: nat, status: Status)

  /** Where the batch transaction stands within projectRecord. */
  datatype Pc = Projecting | Resolving | Verifying | Recording(origin: Option<Key>)

  datatype OpenTx = OpenTx(partition: Partition, next: nat, writes: Writes, pc: Pc)

  /** `position` is the client's fetch position. A consumer between polls has no batches. */
  datatype Worker = Worker(position: map<Partition, nat>, batches: map<Partition, Batch>, tx: Option<OpenTx>)

  datatype World = World(logs: Logs, tables: Tables)

  datatype State = State(world: World, group: map<Partition, nat>, workers: map<ConsumerId, Worker>)

  datatype Step =
    | Produce(partition: Partition, record: Record)
    | Complete(event: EventId)
    | Start(id: ConsumerId)
    | Crash(id: ConsumerId)
    | Assign(id: ConsumerId, partition: Partition)
    | Revoke(id: ConsumerId, partition: Partition)
    | Poll(id: ConsumerId, fetched: map<Partition, nat>)
    | BeginBatch(id: ConsumerId, partition: Partition)
    | ProjectOne(id: ConsumerId)
    | Refused(id: ConsumerId)
    | Proceed(id: ConsumerId)
    | CommitBatch(id: ConsumerId, reported: bool)
    | FailBatch(id: ConsumerId, partition: Partition)
    | RetryBatch(id: ConsumerId)
    | FinishPoll(id: ConsumerId, acknowledged: set<Partition>)

  function LogOf(logs: Logs, p: Partition): seq<Record> {
    if p in logs then logs[p] else []
  }

  /** A partition without a committed group offset is read from its start. */
  function GroupOffset(group: map<Partition, nat>, p: Partition): nat {
    if p in group then group[p] else 0
  }

  function SetWorker(s: State, id: ConsumerId, w: Worker): State {
    s.(workers := s.workers[id := w])
  }

  predicate HasRecord(s: World, tx: OpenTx) {
    tx.next < |LogOf(s.logs, tx.partition)|
  }

  function Current(s: World, tx: OpenTx): Record
    requires HasRecord(s, tx)
  {
    LogOf(s.logs, tx.partition)[tx.next]
  }

  /** The open transaction still has a record of its batch to project. */
  predicate InBatch(s: World, w: Worker) {
    && w.tx.Some? && w.tx.value.partition in w.batches
    && w.tx.value.next < w.batches[w.tx.value.partition].to && HasRecord(s, w.tx.value)
  }

  /** projectOne in its savepoint: rows are added, or nothing because the record is known, or it is rejected. */
  function Projected(s: World, tx: OpenTx): OpenTx
    requires HasRecord(s, tx)
  {
    match Project(View(s.tables, tx.writes), Current(s, tx).payload)
    case Adds(rows) => tx.(writes := tx.writes.(rows := Overlay(tx.writes.rows, rows)), pc := Resolving)
    case Rejects => tx.(pc := Verifying)
  }

  /** A row that another open transaction has written makes this one wait. */
  ghost predicate Waits(s: State, id: ConsumerId, w: Worker)
    requires InBatch(s.world, w)
  {
    exists o :: o in s.workers && o != id && s.workers[o].tx.Some?
                && !Apart(s.workers[o].tx.value.writes.rows, Projected(s.world, w.tx.value).writes.rows)
  }

  /** The statements of projectRecord that follow. */
  function Proceeded(s: World, tx: OpenTx): OpenTx
    requires HasRecord(s, tx)
  {
    var rec := Current(s, tx);
    match tx.pc
    case Projecting => tx
    case Resolving => tx.(writes := Resolve(s.tables, tx.writes, rec), next := tx.next + 1, pc := Projecting)
    case Verifying => tx.(pc := Recording(Origin(s.tables, tx.writes, rec)))
    case Recording(origin) =>
      tx.(writes := DeadLetter(s.tables, tx.writes, Key(tx.partition, tx.next), rec.payload, origin),
          next := tx.next + 1, pc := Projecting)
  }

  function Rewound(w: Worker): map<Partition, nat> {
    map p | p in w.position :: if p in w.batches && w.batches[p].status.Broken? then w.batches[p].from
        else w.position[p]
  }

  predicate CanPoll(s: World, w: Worker, fetched: map<Partition, nat>) {
    && w.batches == map[]
    && (forall p :: p in fetched ==> p in w.position && w.position[p] < fetched[p] <= |LogOf(s.logs, p)|)
  }

  predicate CanFail(w: Worker, p: Partition) {
    p in w.batches && w.batches[p].status.Waiting? && (w.tx.Some? ==> w.tx.value.partition == p)
  }

  /** The steps a consumer takes on its own. A step that is not due changes nothing. */
  ghost function WorkerStep(s: State, id: ConsumerId, w: Worker, step: Step): Worker {
    match step
    case Assign(_, p) => w.(position := w.position[p := GroupOffset(s.group, p)])
    case Revoke(_, p) => w.(position := w.position - {p})
    case Poll(_, fetched) =>
      if CanPoll(s.world, w, fetched)
      then Worker(w.position + fetched, map p | p in fetched :: Batch(w.position[p], fetched[p], Waiting), None) else w
    case BeginBatch(_, p) =>
      if w.tx.None? && p in w.batches && w.batches[p].status.Waiting?
      then w.(tx := Some(OpenTx(p, w.batches[p].from, NO_WRITES, Projecting))) else w
    case ProjectOne(_) =>
      if InBatch(s.world, w) && w.tx.value.pc.Projecting? && !Waits(s, id, w)
      then w.(tx := Some(Projected(s.world, w.tx.value))) else w
    // The ledger refuses the statement for the record's own data.
    case Refused(_) =>
      if InBatch(s.world, w) && w.tx.value.pc.Projecting? then w.(tx := Some(w.tx.value.(pc := Verifying))) else w
    case Proceed(_) => if InBatch(s.world, w) then w.(tx := Some(Proceeded(s.world, w.tx.value))) else w
    case RetryBatch(_) => w.(tx := None)
    case FailBatch(_, p) =>
      if CanFail(w, p) then w.(tx := None, batches := w.batches[p := w.batches[p].(status := Broken)]) else w
    case _ => w
  }

  predicate ReadyToCommit(w: Worker) {
    && w.tx.Some? && w.tx.value.pc.Projecting? && w.tx.value.partition in w.batches
    && w.tx.value.next == w.batches[w.tx.value.partition].to
  }

  function CommittedWorker(w: Worker, reported: bool): Worker
    requires ReadyToCommit(w)
  {
    var p := w.tx.value.partition;
    w.(tx := None, batches := w.batches[p := w.batches[p].(status := if reported then Done else Broken)])
  }

  /** A commit can take effect and still be reported as failed. */
  function AfterCommit(s: State, id: ConsumerId, w: Worker, reported: bool): State
    requires ReadyToCommit(w)
  {
    var p := w.tx.value.partition;
    var t := View(s.world.tables, w.tx.value.writes);
    SetWorker(s.(world := s.world.(tables := t.(offsets := t.offsets[p := w.batches[p].to]))), id,
        CommittedWorker(w, reported))
  }

  predicate CanFinish(w: Worker, acknowledged: set<Partition>) {
    && w.tx.None?
    && (forall p :: p in w.batches ==> !w.batches[p].status.Waiting?)
    && acknowledged <= w.batches.Keys
    && (forall p :: p in acknowledged ==> p in w.batches && w.batches[p].status.Done?)
  }

  /** projectFetches after its loop: rewind the failed partitions, commit the others or lose the commit. */
  function Finished(s: State, id: ConsumerId, w: Worker, acknowledged: set<Partition>): State
    requires CanFinish(w, acknowledged)
  {
    SetWorker(s.(group := s.group + map p | p in acknowledged :: w.batches[p].to), id, Worker(Rewound(w), map[], None))
  }

  /** No open transaction has a row of the event. */
  ghost predicate Unlocked(s: State, event: EventId) {
    forall o :: o in s.workers && s.workers[o].tx.Some? ==> !Touches(s.workers[o].tx.value.writes.rows, event)
  }

  ghost function Apply(accepts: Acceptance, s: State, step: Step): State {
    match step
    case Produce(p, rec) => s.(world := s.world.(logs := s.world.logs[p := LogOf(s.world.logs, p) + [rec]]))
    case Complete(event) =>
      if Completes(accepts, s.world.tables.rows, event) && Unlocked(s, event)
      then s.(world := s.world.(tables := Completed(s.world.tables, event))) else s
    case Start(id) => if id in s.workers then s else SetWorker(s, id, Worker(map[], map[], None))
    case Crash(id) => s.(workers := s.workers - {id})
    case CommitBatch(id, reported) =>
      if id in s.workers && ReadyToCommit(s.workers[id]) then AfterCommit(s, id, s.workers[id], reported) else s
    case FinishPoll(id, acknowledged) =>
      if id in s.workers && CanFinish(s.workers[id], acknowledged) then Finished(s, id, s.workers[id], acknowledged)
          else s
    case _ => if step.id in s.workers then SetWorker(s, step.id, WorkerStep(s, step.id, s.workers[step.id], step))
        else s
  }

  const START := State(World(map[], Tables(NO_ROWS, map[], map[], map[])), map[], map[])

  ghost function RunFrom(accepts: Acceptance, s: State, steps: seq<Step>): State {
    if steps == [] then s else Apply(accepts, RunFrom(accepts, s, steps[..|steps| - 1]), steps[|steps| - 1])
  }

  /** The state after any interleaving of any consumers' steps. */
  ghost function After(accepts: Acceptance, trace: seq<Step>): State {
    RunFrom(accepts, START, trace)
  }

  /** Producers send nothing else. */
  ghost predicate Sends(trace: seq<Step>, sent: iset<Payload>) {
    forall step :: step in trace && step.Produce? ==> step.record.payload in sent
  }

  // ---- How a poll of one batch ends ----

  /** A consumer with the open transaction of its only batch. */
  predicate OneBatch(s: State, id: ConsumerId, p: Partition) {
    && id in s.workers && s.workers[id].tx.Some? && s.workers[id].tx.value.partition == p
    && s.workers[id].batches.Keys == {p} && p in s.workers[id].position
  }

  lemma CommitsBatch(accepts: Acceptance, s: State, id: ConsumerId, p: Partition, reported: bool)
    requires OneBatch(s, id, p) && ReadyToCommit(s.workers[id])
    ensures var b, t := s.workers[id].batches[p], Apply(accepts, s, CommitBatch(id, reported));
            && t.group == s.group && p in t.world.tables.offsets && t.world.tables.offsets[p] == b.to
            && id in t.workers && t.workers[id].position == s.workers[id].position && t.workers[id].tx.None?
            && t.workers[id].batches == map[p := b.(status := if reported then Done else Broken)]
  {
  }

  /** After a commit that was reported the tables and the group are past the batch. */
  lemma ReportedPollEnds(accepts: Acceptance, s: State, t: State, id: ConsumerId, p: Partition)
    requires OneBatch(s, id, p) && ReadyToCommit(s.workers[id]) && t == Apply(accepts, s, CommitBatch(id, true))
    ensures var b, u := s.workers[id].batches[p], Apply(accepts, t, FinishPoll(id, {p}));
            && p in u.world.tables.offsets && u.world.tables.offsets[p] == b.to && u.group == s.group[p := b.to]
            && id in u.workers && u.workers[id] == Worker(s.workers[id].position, map[], None)
  {
    CommitsBatch(accepts, s, id, p, true);
    assert (map q | q in {p} :: t.workers[id].batches[q].to) == map[p := s.workers[id].batches[p].to];
    assert Rewound(t.workers[id]) == s.workers[id].position;
  }

  /**
   After a commit that took effect but was reported as failed only the tables are past the batch: the group cannot
   follow, and the consumer goes back to the first record of the batch.
   */
  lemma UnreportedPollEnds(accepts: Acceptance, s: State, t: State, id: ConsumerId, p: Partition)
    requires OneBatch(s, id, p) && ReadyToCommit(s.workers[id]) && t == Apply(accepts, s, CommitBatch(id, false))
    ensures var b, u := s.workers[id].batches[p], Apply(accepts, t, FinishPoll(id, {}));
            && Apply(accepts, t, FinishPoll(id, {p})) == t
            && p in u.world.tables.offsets && u.world.tables.offsets[p] == b.to && u.group == s.group
            && id in u.workers && u.workers[id] == Worker(s.workers[id].position[p := b.from], map[], None)
  {
    CommitsBatch(accepts, s, id, p, false);
    assert Apply(accepts, t, FinishPoll(id, {})).group == t.group;
    assert Rewound(t.workers[id]) == s.workers[id].position[p := s.workers[id].batches[p].from];
  }

  /** A batch that fails leaves nothing behind and is read again from its first record. */
  lemma FailedPollEnds(accepts: Acceptance, s: State, id: ConsumerId, p: Partition)
    requires OneBatch(s, id, p) && s.workers[id].batches[p].status.Waiting?
    ensures var t := Apply(accepts, Apply(accepts, s, FailBatch(id, p)), FinishPoll(id, {}));
            && t.world == s.world && t.group == s.group && t.workers[id].tx.None? && t.workers[id].batches == map[]
            && t.workers[id].position == s.workers[id].position[p := s.workers[id].batches[p].from]
  {
    var u := Apply(accepts, s, FailBatch(id, p));
    assert u.workers[id].batches.Keys == {p};
  }

  // ---- The invariant ----

  /** Every record of the partition below `n` is accounted for in `t`. */
  ghost predicate AccountedBelow(logs: Logs, t: Tables, p: Partition, n: nat) {
    && n <= |LogOf(logs, p)|
    && forall o :: 0 <= o < n ==> Accounted(t, LogOf(logs, p)[o].payload)
  }

  ghost predicate BatchOk(s: World, p: Partition, b: Batch) {
    && b.from < b.to <= |LogOf(s.logs, p)|
    && AccountedBelow(s.logs, s.tables, p, if b.status.Done? then b.to else b.from)
  }

  ghost predicate PcOk(s: World, w: Worker, tx: OpenTx) {
    match tx.pc
    case Projecting => true
    case Verifying => InBatch(s, w)
    case Resolving => InBatch(s, w) && HasRecord(s, tx)
        && Landed(View(s.tables, tx.writes).rows, Current(s, tx).payload)
    case Recording(origin) =>
      InBatch(s, w) && HasRecord(s, tx) && (origin.Some? ==> KeptAt(s.logs, origin.value, Current(s, tx).payload))
  }

  /** What producers send, and which transports stream as an event. */
  datatype Setting = Setting(sent: iset<Payload>, accepts: Acceptance)

  ghost predicate TxOk(c: Setting, s: World, w: Worker, tx: OpenTx) {
    && tx.partition in w.batches && w.batches[tx.partition].status.Waiting?
    && w.batches[tx.partition].from <= tx.next <= w.batches[tx.partition].to
    && WritesOk(c.sent, c.accepts, s.logs, s.tables, tx.writes)
    && AccountedBelow(s.logs, View(s.tables, tx.writes), tx.partition, tx.next)
    && PcOk(s, w, tx)
  }

  ghost predicate PositionOk(s: World, w: Worker, p: Partition)
    requires p in w.position
  {
    || AccountedBelow(s.logs, s.tables, p, w.position[p])
    || (p in w.batches && w.position[p] == w.batches[p].to)
  }

  ghost predicate WorkerOk(c: Setting, s: World, w: Worker) {
    && (forall p :: p in w.batches ==> BatchOk(s, p, w.batches[p]))
    && (forall p :: p in w.position ==> PositionOk(s, w, p))
    && (w.tx.Some? ==> TxOk(c, s, w, w.tx.value))
  }

  ghost predicate LogsFrom(sent: iset<Payload>, logs: Logs) {
    forall p, o :: p in logs && 0 <= o < |logs[p]| ==> logs[p][o].payload in sent
  }

  ghost predicate WorldOk(c: Setting, s: World) {
    LogsFrom(c.sent, s.logs) && RowsMatchLog(s.logs, s.tables.dlq)
        && RowsOk(c.sent, c.accepts, s.tables.rows, s.tables.completed)
  }

  ghost predicate OffsetsOk(s: World, offsets: map<Partition, nat>) {
    forall p :: p in offsets ==> AccountedBelow(s.logs, s.tables, p, offsets[p])
  }

  /** Open transactions write no row in common. */
  ghost predicate TxsApart(workers: map<ConsumerId, Worker>) {
    forall id, o :: id in workers && o in workers && id != o && workers[id].tx.Some? && workers[o].tx.Some? ==>
      Apart(workers[id].tx.value.writes.rows, workers[o].tx.value.writes.rows)
  }

  ghost predicate Inv(c: Setting, s: State) {
    && WorldOk(c, s.world) && TxsApart(s.workers)
    && OffsetsOk(s.world, s.world.tables.offsets) && OffsetsOk(s.world, s.group)
    && (forall id :: id in s.workers ==> WorkerOk(c, s.world, s.workers[id]))
  }

  // ---- Every step keeps the invariant ----

  lemma BelowProgress(logs: Logs, t: Tables, t': Tables, p: Partition, n: nat)
    requires Progress(t, t') && AccountedBelow(logs, t, p, n)
    ensures AccountedBelow(logs, t', p, n)
  {
    forall o | 0 <= o < n ensures Accounted(t', LogOf(logs, p)[o].payload) {
      ProgressKeepsAccounted(t, t', LogOf(logs, p)[o].payload);
    }
  }

  /** The tables under an open batch change, and it still stands where it stood. */
  ghost predicate TxKept(c: Setting, s: World, t: Tables, w: Worker) {
    w.tx.Some? ==>
      && WritesOk(c.sent, c.accepts, s.logs, t, w.tx.value.writes)
      && Progress(View(s.tables, w.tx.value.writes), View(t, w.tx.value.writes))
  }

  lemma TxProgress(c: Setting, s: World, t: Tables, w: Worker)
    requires w.tx.Some? && TxOk(c, s, w, w.tx.value) && TxKept(c, s, t, w)
    ensures TxOk(c, s.(tables := t), w, w.tx.value)
  {
    var tx := w.tx.value;
    BelowProgress(s.logs, View(s.tables, tx.writes), View(t, tx.writes), tx.partition, tx.next);
  }

  /** Tables that make progress keep every consumer's facts. */
  lemma WorkerProgress(c: Setting, s: World, t: Tables, w: Worker)
    requires Progress(s.tables, t) && WorkerOk(c, s, w) && TxKept(c, s, t, w)
    ensures WorkerOk(c, s.(tables := t), w)
  {
    forall p | p in w.batches ensures BatchOk(s.(tables := t), p, w.batches[p]) {
      BelowProgress(s.logs, s.tables, t, p, if w.batches[p].status.Done? then w.batches[p].to else w.batches[p].from);
    }
    forall p | p in w.position ensures PositionOk(s.(tables := t), w, p) {
      if AccountedBelow(s.logs, s.tables, p, w.position[p]) {
        BelowProgress(s.logs, s.tables, t, p, w.position[p]);
      }
    }
    if w.tx.Some? {
      TxProgress(c, s, t, w);
    }
  }

  lemma OffsetsProgress(s: World, t: Tables, offsets: map<Partition, nat>)
    requires Progress(s.tables, t) && OffsetsOk(s, offsets)
    ensures OffsetsOk(s.(tables := t), offsets)
  {
    forall p | p in offsets ensures AccountedBelow(s.logs, t, p, offsets[p]) {
      BelowProgress(s.logs, s.tables, t, p, offsets[p]);
    }
  }

  /** An assembly completes under a consumer whose open batch has no row of the event. */
  lemma CompleteKeepsWorker(c: Setting, s: World, event: EventId, w: Worker)
    requires OneSource(c.sent, c.accepts) && WorldOk(c, s) && Completes(c.accepts, s.tables.rows, event)
    requires WorkerOk(c, s, w) && (w.tx.Some? ==> !Touches(w.tx.value.writes.rows, event))
    requires Progress(s.tables, Completed(s.tables, event))
    ensures WorkerOk(c, s.(tables := Completed(s.tables, event)), w)
  {
    if w.tx.Some? {
      CompleteUnder(c.sent, c.accepts, s.logs, s.tables, event, w.tx.value.writes);
    }
    WorkerProgress(c, s, Completed(s.tables, event), w);
  }

  lemma CompleteKeepsInv(c: Setting, s: State, event: EventId)
    requires OneSource(c.sent, c.accepts) && Inv(c, s)
    requires Completes(c.accepts, s.world.tables.rows, event) && Unlocked(s, event)
    ensures Inv(c, s.(world := s.world.(tables := Completed(s.world.tables, event))))
    ensures Progress(s.world.tables, Completed(s.world.tables, event))
  {
    var t, t' := s.world.tables, Completed(s.world.tables, event);
    CompleteGrows(c.sent, c.accepts, t, event);
    OffsetsProgress(s.world, t', t.offsets);
    OffsetsProgress(s.world, t', s.group);
    forall id | id in s.workers ensures WorkerOk(c, s.world.(tables := t'), s.workers[id]) {
      CompleteKeepsWorker(c, s.world, event, s.workers[id]);
    }
  }

  ghost predicate LogsGrow(logs: Logs, logs': Logs) {
    forall p :: p in logs ==> p in logs' && logs[p] <= logs'[p]
  }

  lemma GrowKeepsBelow(logs: Logs, logs': Logs, t: Tables, p: Partition, n: nat)
    requires LogsGrow(logs, logs') && AccountedBelow(logs, t, p, n)
    ensures AccountedBelow(logs', t, p, n) && LogOf(logs, p) <= LogOf(logs', p)
  {
  }

  lemma GrowKeepsLetters(logs: Logs, logs': Logs, r: Rows, w: Writes)
    requires LogsGrow(logs, logs') && LettersOk(logs, r, w)
    ensures LettersOk(logs', r, w)
  {
    forall k | k in w.puts ensures KeptAt(logs', k, w.puts[k]) {
      assert KeptAt(logs, k, w.puts[k]);
    }
  }

  lemma GrowKeepsTx(c: Setting, s: World, logs': Logs, w: Worker)
    requires LogsGrow(s.logs, logs') && w.tx.Some? && TxOk(c, s, w, w.tx.value)
    ensures TxOk(c, s.(logs := logs'), w, w.tx.value)
  {
    var tx := w.tx.value;
    GrowKeepsBelow(s.logs, logs', View(s.tables, tx.writes), tx.partition, tx.next);
    GrowKeepsLetters(s.logs, logs', View(s.tables, tx.writes).rows, tx.writes);
  }

  lemma GrowKeepsWorker(c: Setting, s: World, logs': Logs, w: Worker)
    requires LogsGrow(s.logs, logs') && WorkerOk(c, s, w)
    ensures WorkerOk(c, s.(logs := logs'), w)
  {
    forall p | p in w.batches ensures BatchOk(s.(logs := logs'), p, w.batches[p]) {
      GrowKeepsBelow(s.logs, logs', s.tables, p,
                     if w.batches[p].status.Done? then w.batches[p].to else w.batches[p].from);
    }
    forall p | p in w.position ensures PositionOk(s.(logs := logs'), w, p) {
      if AccountedBelow(s.logs, s.tables, p, w.position[p]) {
        GrowKeepsBelow(s.logs, logs', s.tables, p, w.position[p]);
      }
    }
    if w.tx.Some? {
      GrowKeepsTx(c, s, logs', w);
    }
  }

  lemma GrowKeepsOffsets(s: World, logs': Logs, offsets: map<Partition, nat>)
    requires LogsGrow(s.logs, logs') && OffsetsOk(s, offsets)
    ensures OffsetsOk(s.(logs := logs'), offsets)
  {
    forall p | p in offsets ensures AccountedBelow(logs', s.tables, p, offsets[p]) {
      GrowKeepsBelow(s.logs, logs', s.tables, p, offsets[p]);
    }
  }

  lemma ProduceKeepsInv(c: Setting, s: State, p: Partition, rec: Record)
    requires Inv(c, s) && rec.payload in c.sent
    ensures Inv(c, s.(world := s.world.(logs := s.world.logs[p := LogOf(s.world.logs, p) + [rec]])))
  {
    var logs, logs' := s.world.logs, s.world.logs[p := LogOf(s.world.logs, p) + [rec]];
    assert LogsGrow(logs, logs');
    GrowKeepsLetters(logs, logs', NO_ROWS, NO_WRITES.(puts := s.world.tables.dlq));
    GrowKeepsOffsets(s.world, logs', s.world.tables.offsets);
    GrowKeepsOffsets(s.world, logs', s.group);
    forall id | id in s.workers ensures WorkerOk(c, s.world.(logs := logs'), s.workers[id]) {
      GrowKeepsWorker(c, s.world, logs', s.workers[id]);
    }
  }

  /** Projecting the record: it lands, or it goes on to the dead-letter table. */
  lemma ProjectedOk(c: Setting, s: World, w: Worker)
    requires OneSource(c.sent, c.accepts) && WorldOk(c, s) && w.tx.Some? && TxOk(c, s, w, w.tx.value) && InBatch(s, w)
    ensures TxOk(c, s, w.(tx := Some(Projected(s, w.tx.value))), Projected(s, w.tx.value))
  {
    var tx := w.tx.value;
    var tx', p := Projected(s, tx), Current(s, tx).payload;
    if Project(View(s.tables, tx.writes), p).Adds? {
      ProjectStep(c.sent, c.accepts, s.logs, s.tables, tx.writes, p);
      BelowProgress(s.logs, View(s.tables, tx.writes), View(s.tables, tx'.writes), tx.partition, tx.next);
    }
  }

  /** The statements after the projection: the record is accounted for before the batch passes it. */
  lemma ProceededOk(c: Setting, s: World, w: Worker)
    requires WorldOk(c, s) && w.tx.Some? && TxOk(c, s, w, w.tx.value) && InBatch(s, w)
    ensures TxOk(c, s, w.(tx := Some(Proceeded(s, w.tx.value))), Proceeded(s, w.tx.value))
  {
    var tx := w.tx.value;
    var tx', rec := Proceeded(s, tx), Current(s, tx);
    var v, v' := View(s.tables, tx.writes), View(s.tables, tx'.writes);
    match tx.pc
    case Projecting =>
    case Resolving =>
      ResolveStep(c.sent, c.accepts, s.logs, s.tables, tx.writes, rec);
      PassesRecord(s.logs, v, v', tx.partition, tx.next);
    case Verifying =>
      OriginKept(s.logs, s.tables, tx.writes, rec);
    case Recording(origin) =>
      assert KeptAt(s.logs, Key(tx.partition, tx.next), rec.payload);
      DeadLetterStep(c.sent, c.accepts, s.logs, s.tables, tx.writes, Key(tx.partition, tx.next), rec.payload, origin);
      PassesRecord(s.logs, v, v', tx.partition, tx.next);
  }

  lemma PassesRecord(logs: Logs, v: Tables, v': Tables, p: Partition, n: nat)
    requires AccountedBelow(logs, v, p, n) && Progress(v, v') && n < |LogOf(logs, p)|
    requires Accounted(v, LogOf(logs, p)[n].payload) || Accounted(v', LogOf(logs, p)[n].payload)
    ensures AccountedBelow(logs, v', p, n + 1)
  {
    BelowProgress(logs, v, v', p, n);
    if Accounted(v, LogOf(logs, p)[n].payload) {
      ProgressKeepsAccounted(v, v', LogOf(logs, p)[n].payload);
    }
  }

  lemma PositionsStayOk(c: Setting, s: State, id: ConsumerId, w: Worker, step: Step)
    requires Inv(c, s) && WorkerOk(c, s.world, w)
    ensures var w' := WorkerStep(s, id, w, step); forall p :: p in w'.position ==> PositionOk(s.world, w', p)
  {
    var w' := WorkerStep(s, id, w, step);
    forall p | p in w'.position ensures PositionOk(s.world, w', p) {
      if p in w.position {
        assert PositionOk(s.world, w, p);
      }
      assert AccountedBelow(s.world.logs, s.world.tables, p, 0);
    }
  }

  lemma TransactionStaysOk(c: Setting, s: State, id: ConsumerId, w: Worker, step: Step)
    requires OneSource(c.sent, c.accepts) && Inv(c, s) && WorkerOk(c, s.world, w)
    ensures var w' := WorkerStep(s, id, w, step); w'.tx.Some? ==> TxOk(c, s.world, w', w'.tx.value)
  {
    match step
    case ProjectOne(_) =>
      if InBatch(s.world, w) {
        ProjectedOk(c, s.world, w);
      }
    case Proceed(_) =>
      if InBatch(s.world, w) {
        ProceededOk(c, s.world, w);
      }
    case BeginBatch(_, q) => NoWritesOk(c, s.world);
    case _ =>
  }

  lemma NoWritesOk(c: Setting, s: World)
    requires WorldOk(c, s)
    ensures View(s.tables, NO_WRITES) == s.tables && WritesOk(c.sent, c.accepts, s.logs, s.tables, NO_WRITES)
  {
    NothingWritten(s.tables, NO_ROWS);
  }

  lemma WorkerStepOk(c: Setting, s: State, id: ConsumerId, w: Worker, step: Step)
    requires OneSource(c.sent, c.accepts) && Inv(c, s) && WorkerOk(c, s.world, w)
    ensures WorkerOk(c, s.world, WorkerStep(s, id, w, step))
  {
    PositionsStayOk(c, s, id, w, step);
    TransactionStaysOk(c, s, id, w, step);
    var w' := WorkerStep(s, id, w, step);
    if step.Poll? {
      forall p | p in w'.batches ensures BatchOk(s.world, p, w'.batches[p]) {
        assert w' != w ==> PositionOk(s.world, w, p);
      }
    }
  }

  /** A consumer's write set changes only in projecting, and then it stays apart from the others. */
  lemma StaysApart(s: State, id: ConsumerId, step: Step)
    requires TxsApart(s.workers) && id in s.workers
    ensures TxsApart(s.workers[id := WorkerStep(s, id, s.workers[id], step)])
  {
    var w' := WorkerStep(s, id, s.workers[id], step);
    forall o | o in s.workers && o != id && w'.tx.Some? && s.workers[o].tx.Some?
      ensures Apart(w'.tx.value.writes.rows, s.workers[o].tx.value.writes.rows)
    {
    }
  }

  lemma WorkerKeepsInv(c: Setting, s: State, id: ConsumerId, step: Step)
    requires OneSource(c.sent, c.accepts) && Inv(c, s) && id in s.workers
    ensures Inv(c, SetWorker(s, id, WorkerStep(s, id, s.workers[id], step)))
  {
    WorkerStepOk(c, s, id, s.workers[id], step);
    StaysApart(s, id, step);
    WorkerChange(c, s, id, WorkerStep(s, id, s.workers[id], step));
  }

  lemma WorkerChange(c: Setting, s: State, id: ConsumerId, w: Worker)
    requires Inv(c, s) && WorkerOk(c, s.world, w) && TxsApart(s.workers[id := w])
    ensures Inv(c, SetWorker(s, id, w))
  {
  }

  /** Saved offsets decide nothing about rows. */
  lemma OffsetsAside(c: Setting, logs: Logs, t: Tables, offsets: map<Partition, nat>, w: Writes)
    requires WritesOk(c.sent, c.accepts, logs, t, w)
    ensures WritesOk(c.sent, c.accepts, logs, t.(offsets := offsets), w)
    ensures Progress(View(t, w), View(t.(offsets := offsets), w))
  {
  }

  /** Another consumer commits its batch `u` under this one. */
  lemma CommitKeepsOther(c: Setting, s: World, u: Writes, offsets: map<Partition, nat>, w: Worker)
    requires WorldOk(c, s) && WritesOk(c.sent, c.accepts, s.logs, s.tables, u) && WorkerOk(c, s, w)
    requires w.tx.Some? ==> Apart(u.rows, w.tx.value.writes.rows)
    ensures WorkerOk(c, s.(tables := View(s.tables, u).(offsets := offsets)), w)
  {
    var t := View(s.tables, u);
    CommitIsProgress(c.sent, c.accepts, s.logs, s.tables, u);
    if w.tx.Some? {
      CommitUnder(c.sent, c.accepts, s.logs, s.tables, u, w.tx.value.writes);
      OffsetsAside(c, s.logs, t, offsets, w.tx.value.writes);
    }
    WorkerProgress(c, s, t.(offsets := offsets), w);
  }

  /** The committing consumer, once the tables hold its batch. */
  lemma CommittedWorkerOk(c: Setting, s: World, t: Tables, w: Worker, reported: bool)
    requires ReadyToCommit(w) && WorkerOk(c, s, w) && Progress(s.tables, t)
    requires AccountedBelow(s.logs, t, w.tx.value.partition, w.tx.value.next)
    ensures WorkerOk(c, s.(tables := t), CommittedWorker(w, reported))
  {
    var w' := CommittedWorker(w, reported);
    assert WorkerOk(c, s, w.(tx := None));
    WorkerProgress(c, s, t, w.(tx := None));
    forall p | p in w'.position ensures PositionOk(s.(tables := t), w', p) {
      assert PositionOk(s.(tables := t), w.(tx := None), p);
    }
  }

  lemma CommitKeepsInv(c: Setting, s: State, id: ConsumerId, reported: bool)
    requires Inv(c, s) && id in s.workers && ReadyToCommit(s.workers[id])
    ensures Inv(c, AfterCommit(s, id, s.workers[id], reported))
    ensures Progress(s.world.tables, AfterCommit(s, id, s.workers[id], reported).world.tables)
  {
    var w := s.workers[id];
    var tx := w.tx.value;
    var t := View(s.world.tables, tx.writes);
    var t' := t.(offsets := t.offsets[tx.partition := tx.next]);
    assert WorkerOk(c, s.world, w);
    CommitIsProgress(c.sent, c.accepts, s.world.logs, s.world.tables, tx.writes);
    BelowProgress(s.world.logs, t, t', tx.partition, tx.next);
    OffsetsProgress(s.world, t', s.world.tables.offsets);
    OffsetsProgress(s.world, t', s.group);
    CommittedWorkerOk(c, s.world, t', w, reported);
    forall o | o in s.workers && o != id ensures WorkerOk(c, s.world.(tables := t'), s.workers[o]) {
      CommitKeepsOther(c, s.world, tx.writes, t'.offsets, s.workers[o]);
    }
  }

  lemma FinishKeepsInv(c: Setting, s: State, id: ConsumerId, acknowledged: set<Partition>)
    requires Inv(c, s) && id in s.workers && CanFinish(s.workers[id], acknowledged)
    ensures Inv(c, Finished(s, id, s.workers[id], acknowledged))
  {
    var w, s' := s.workers[id], Finished(s, id, s.workers[id], acknowledged);
    assert WorkerOk(c, s.world, w);
    forall p | p in s'.group ensures AccountedBelow(s.world.logs, s.world.tables, p, s'.group[p]) {
      if p in acknowledged {
        assert BatchOk(s.world, p, w.batches[p]);
      }
    }
    forall p | p in s'.workers[id].position ensures PositionOk(s.world, s'.workers[id], p) {
      assert PositionOk(s.world, w, p);
      if p in w.batches {
        assert BatchOk(s.world, p, w.batches[p]);
      }
    }
  }

  lemma StartKeepsInv(c: Setting, s: State, id: ConsumerId)
    requires Inv(c, s)
    ensures Inv(c, if id in s.workers then s else SetWorker(s, id, Worker(map[], map[], None)))
  {
  }

  lemma CrashKeepsInv(c: Setting, s: State, id: ConsumerId)
    requires Inv(c, s)
    ensures Inv(c, s.(workers := s.workers - {id}))
  {
  }

  /** Every step of every consumer keeps the invariant and loses nothing. */
  lemma StepKeepsInv(c: Setting, s: State, step: Step)
    requires OneSource(c.sent, c.accepts) && Inv(c, s) && (step.Produce? ==> step.record.payload in c.sent)
    ensures Inv(c, Apply(c.accepts, s, step))
    ensures Progress(s.world.tables, Apply(c.accepts, s, step).world.tables)
  {
    match step
    case Produce(p, rec) => ProduceKeepsInv(c, s, p, rec);
    case Complete(event) =>
      if Completes(c.accepts, s.world.tables.rows, event) && Unlocked(s, event) {
        CompleteKeepsInv(c, s, event);
      }
    case Start(id) => StartKeepsInv(c, s, id);
    case Crash(id) => CrashKeepsInv(c, s, id);
    case CommitBatch(id, reported) =>
      if id in s.workers && ReadyToCommit(s.workers[id]) {
        CommitKeepsInv(c, s, id, reported);
      }
    case FinishPoll(id, acknowledged) =>
      if id in s.workers && CanFinish(s.workers[id], acknowledged) {
        FinishKeepsInv(c, s, id, acknowledged);
      }
    case _ =>
      if step.id in s.workers {
        WorkerKeepsInv(c, s, step.id, step);
      }
  }

  lemma {:induction false} RunKeepsInv(c: Setting, trace: seq<Step>)
    requires OneSource(c.sent, c.accepts) && Sends(trace, c.sent)
    ensures Inv(c, After(c.accepts, trace))
  {
    if trace != [] {
      RunKeepsInv(c, trace[..|trace| - 1]);
      StepKeepsInv(c, After(c.accepts, trace[..|trace| - 1]), trace[|trace| - 1]);
    }
  }

  // ---- No run skips a record ----

  /** Everything below an offset the system relies on is accounted for, byte for byte. */
  ghost predicate NothingSkipped(s: State) {
    && OffsetsOk(s.world, s.world.tables.offsets) && OffsetsOk(s.world, s.group)
    && (forall id, p :: id in s.workers && s.workers[id].batches == map[] && p in s.workers[id].position ==>
          AccountedBelow(s.world.logs, s.world.tables, p, s.workers[id].position[p]))
  }

  /** No run of the group skips a record: not below a saved offset, a group offset or a fetch position. */
  lemma NoRunSkipsARecord(c: Setting, trace: seq<Step>)
    requires OneSource(c.sent, c.accepts) && Sends(trace, c.sent)
    ensures NothingSkipped(After(c.accepts, trace))
  {
    RunKeepsInv(c, trace);
    var s := After(c.accepts, trace);
    forall id, p | id in s.workers && s.workers[id].batches == map[] && p in s.workers[id].position
      ensures AccountedBelow(s.world.logs, s.world.tables, p, s.workers[id].position[p])
    {
      assert WorkerOk(c, s.world, s.workers[id]) && PositionOk(s.world, s.workers[id], p);
    }
  }

  /**
   Over any stretch of a run what has landed stays landed, and a dead-letter row keeps its
   payload until that payload has landed.
   */
  lemma {:induction false} DeadLettersWaitForTheirPayload(c: Setting, trace: seq<Step>, n: nat)
    requires OneSource(c.sent, c.accepts) && Sends(trace, c.sent) && n <= |trace|
    ensures Progress(After(c.accepts, trace[..n]).world.tables, After(c.accepts, trace).world.tables)
  {
    if n == |trace| {
      assert trace[..n] == trace;
    } else {
      var init := trace[..|trace| - 1];
      assert init[..n] == trace[..n];
      DeadLettersWaitForTheirPayload(c, init, n);
      RunKeepsInv(c, init);
      StepKeepsInv(c, After(c.accepts, init), trace[|trace| - 1]);
    }
  }
}
