/**
 Any number of transactions append to the ledger at the same time. Each step is one SQL
 statement, a savepoint, a rollback, a commit or a crash. A transaction sees the committed
 tables under its own writes, and a write waits while another open transaction has
 written the same key.
 */
module ChainProtocol {
  import opened Common
  import opened Ledger

  type TxId = nat

  /** Where a transaction stands inside appendChainRow. */
  datatype Pc =
    | Idle
    | Claimed(ev: Event)
    | HeadRead(ev: Event, head: Option<Head>)
    | RowInserted(ev: Event, head: Option<Head>)
    | Failed

  datatype Savepoint = Savepoint(writes: Tables, log: seq<Event>)

  /** `log` lists the events this transaction has appended, oldest first. */
  datatype Tx = Tx(writes: Tables, log: seq<Event>, saved: Option<Savepoint>, pc: Pc)

  /** `history` lists the committed events in commit order. */
  datatype State = State(committed: Tables, history: seq<Event>, txs: map<TxId, Tx>)

  datatype Step =
    | Begin
    | SetSavepoint
    | ReleaseSavepoint
    | RollbackToSavepoint
    | ClaimIdentity(ev: Event)
    | ReadHead(head: Option<Head>)
    | InsertRow
    | WriteHead
    | StatementFails
    | Commit
    | Abort

  function RowFor(ev: Event, head: Option<Head>): Row {
    RowOn(ev, if head.Some? then head.value else Head(0, NoHash))
  }

  function View(s: State, tx: Tx): Tables {
    Overlay(s.committed, tx.writes)
  }

  /**
   A head read returns the current head, or any earlier head when the statement runs
   on an older snapshot.
   */
  ghost predicate Observed(t: Tables, c: ChainKey, head: Option<Head>) {
    head.Some? ==>
      exists k :: k in t.rows && t.rows[k].event.chain == c && HeadFor(t.rows[k]) == head.value
  }

  ghost predicate Waits(s: State, id: TxId, claims: set<EventId>, rows: set<RowKey>, heads: set<ChainKey>) {
    exists o :: o in s.txs && o != id
                && !(s.txs[o].writes.claims !! claims && s.txs[o].writes.rows.Keys !! rows
                     && s.txs[o].writes.heads.Keys !! heads)
  }

  /** The transaction after a step that touches only its own write set, or None while the step is not due. */
  ghost function StepTx(s: State, id: TxId, tx: Tx, step: Step): Option<Tx> {
    match step
    case SetSavepoint =>
      if tx.pc.Idle? && tx.saved.None? then Some(tx.(saved := Some(Savepoint(tx.writes, tx.log)))) else None
    case ReleaseSavepoint => if tx.pc.Idle? && tx.saved.Some? then Some(tx.(saved := None)) else None
    case RollbackToSavepoint =>
      if tx.saved.Some? then Some(Tx(tx.saved.value.writes, tx.saved.value.log, None, Idle)) else None
    case ClaimIdentity(ev) =>
      if !tx.pc.Idle? || Waits(s, id, {ev.id}, {}, {}) then None
      else if !ev.valid || ev.id in View(s, tx).claims then Some(tx.(pc := Failed))
      else Some(tx.(writes := tx.writes.(claims := tx.writes.claims + {ev.id}), pc := Claimed(ev)))
    case ReadHead(head) =>
      if tx.pc.Claimed? && Observed(View(s, tx), tx.pc.ev.chain, head) then Some(tx.(pc := HeadRead(tx.pc.ev, head)))
          else None
    case InsertRow =>
      if !tx.pc.HeadRead? || Waits(s, id, {}, {KeyOf(tx.pc.ev)}, {}) then None
      else if KeyOf(tx.pc.ev) in View(s, tx).rows then Some(tx.(pc := Failed))
      else Some(tx.(writes := tx.writes.(rows := tx.writes.rows[KeyOf(tx.pc.ev) := RowFor(tx.pc.ev, tx.pc.head)]),
                    pc := RowInserted(tx.pc.ev, tx.pc.head)))
    case WriteHead =>
      if !tx.pc.RowInserted? || Waits(s, id, {}, {}, {tx.pc.ev.chain}) then None
      else if !CanSwap(View(s, tx), tx.pc.ev.chain, tx.pc.head) then Some(tx.(pc := Failed))
      else Some(tx.(writes := tx.writes.
                      (heads := tx.writes.heads[tx.pc.ev.chain := HeadFor(RowFor(tx.pc.ev, tx.pc.head))]),
                    log := tx.log + [tx.pc.ev], pc := Idle))
    case StatementFails => Some(tx.(pc := Failed))
    case _ => None
  }

  ghost predicate Local(s: State, id: TxId, tx: Tx, step: Step, next: Tx) {
    StepTx(s, id, tx, step) == Some(next)
  }

  /** One step of one transaction. A step that is not due changes nothing. */
  ghost function Apply(s: State, id: TxId, step: Step): State {
    if step.Begin? then (if id in s.txs then s else s.(txs := s.txs[id := Tx(EMPTY, [], None, Idle)]))
    else if id !in s.txs then s
    else
      var tx := s.txs[id];
      match step
      case Abort => s.(txs := s.txs - {id})
      case Commit =>
        if tx.pc.Idle? && tx.saved.None? then State(View(s, tx), s.history + tx.log, s.txs - {id}) else s
      case _ =>
        match StepTx(s, id, tx, step)
        case None => s
        case Some(next) => s.(txs := s.txs[id := next])
  }

  datatype Action = Action(id: TxId, step: Step)

  const START := State(EMPTY, [], map[])

  /** The state after any interleaving of any transactions' steps. */
  ghost function After(trace: seq<Action>): State {
    if trace == [] then START else Apply(After(trace[..|trace| - 1]), trace[|trace| - 1].id, trace[|trace| - 1].step)
  }

  // ---- Write sets of open transactions ----

  /** The write set left by running `log` on top of `base`. */
  function WritesOf(base: Tables, log: seq<Event>): Tables {
    if log == [] then EMPTY
    else
      var ev := log[|log| - 1];
      var w := WritesOf(base, log[..|log| - 1]);
      var row := RowOn(ev, if ev.chain in w.heads then w.heads[ev.chain] else HeadOf(base, ev.chain));
      Tables(w.claims + {ev.id}, w.rows[KeyOf(ev) := row], w.heads[ev.chain := HeadFor(row)])
  }

  /** Appending to the write set is appending to the view. */
  lemma OverlayAppend(base: Tables, w: Tables, ev: Event)
    ensures var row := RowOn(ev, if ev.chain in w.heads then w.heads[ev.chain] else HeadOf(base, ev.chain));
            Overlay(base, Tables(w.claims + {ev.id}, w.rows[KeyOf(ev) := row], w.heads[ev.chain := HeadFor(row)]))
            == Append(Overlay(base, w), ev)
  {
    var row := RowOn(ev, HeadOf(Overlay(base, w), ev.chain));
    assert base.claims + (w.claims + {ev.id}) == base.claims + w.claims + {ev.id};
    assert base.rows + w.rows[KeyOf(ev) := row] == (base.rows + w.rows)[KeyOf(ev) := row];
    assert base.heads + w.heads[ev.chain := HeadFor(row)] == (base.heads + w.heads)[ev.chain := HeadFor(row)];
  }

  lemma {:induction false} WritesAreSerial(base: Tables, log: seq<Event>)
    ensures Overlay(base, WritesOf(base, log)) == Serial(base, log)
  {
    if log == [] {
      assert Overlay(base, EMPTY) == base;
    } else {
      WritesAreSerial(base, log[..|log| - 1]);
      OverlayAppend(base, WritesOf(base, log[..|log| - 1]), log[|log| - 1]);
    }
  }

  lemma {:induction false} WritesKeys(base: Tables, log: seq<Event>)
    ensures forall i :: 0 <= i < |log| ==>
              log[i].id in WritesOf(base, log).claims && log[i].chain in WritesOf(base, log).heads
    ensures forall id :: id in WritesOf(base, log).claims ==> exists i :: 0 <= i < |log| && log[i].id == id
    ensures forall k :: k in WritesOf(base, log).rows ==> k.id in WritesOf(base, log).claims
  {
    if log != [] {
      var init := log[..|log| - 1];
      WritesKeys(base, init);
      forall id | id in WritesOf(base, log).claims ensures exists i :: 0 <= i < |log| && log[i].id == id {
        if id in WritesOf(base, init).claims {
          var i :| 0 <= i < |init| && init[i].id == id;
          assert log[i].id == id;
        } else {
          assert log[|log| - 1].id == id;
        }
      }
    }
  }

  /** Writes depend on the committed tables only through the heads they lock. */
  lemma {:induction false} WritesFrame(base: Tables, base': Tables, log: seq<Event>)
    requires forall i :: 0 <= i < |log| ==> HeadOf(base, log[i].chain) == HeadOf(base', log[i].chain)
    ensures WritesOf(base, log) == WritesOf(base', log)
  {
    if log != [] {
      var init := log[..|log| - 1];
      forall i | 0 <= i < |init| ensures HeadOf(base, init[i].chain) == HeadOf(base', init[i].chain) {
        assert init[i] == log[i];
      }
      WritesFrame(base, base', init);
      assert log[|log| - 1] in log;
    }
  }

  // ---- The invariant ----

  /** The write set of a transaction: its finished appends plus the open one. */
  function Expected(base: Tables, tx: Tx): Tables {
    var w := WritesOf(base, tx.log);
    match tx.pc
    case Idle => w
    case Failed => w
    case Claimed(ev) => w.(claims := w.claims + {ev.id})
    case HeadRead(ev, _) => w.(claims := w.claims + {ev.id})
    case RowInserted(ev, head) => w.(claims := w.claims + {ev.id}, rows := w.rows[KeyOf(ev) := RowFor(ev, head)])
  }

  ghost predicate PendingOk(base: Tables, tx: Tx) {
    match tx.pc
    case Idle => true
    case Failed => true
    case Claimed(ev) => Fresh(base, tx.log + [ev])
    case HeadRead(ev, head) => Fresh(base, tx.log + [ev]) && Observed(Serial(base, tx.log), ev.chain, head)
    case RowInserted(ev, head) => Fresh(base, tx.log + [ev]) && Observed(Serial(base, tx.log), ev.chain, head)
  }

  ghost predicate Within(v: Tables, w: Tables) {
    v.claims <= w.claims && v.rows.Keys <= w.rows.Keys && v.heads.Keys <= w.heads.Keys
  }

  ghost predicate SavedOk(base: Tables, tx: Tx) {
    tx.saved.Some? ==>
      && tx.saved.value.writes == WritesOf(base, tx.saved.value.log)
      && Fresh(base, tx.saved.value.log)
      && Within(tx.saved.value.writes, tx.writes)
  }

  ghost predicate TxOk(base: Tables, tx: Tx) {
    && SavedOk(base, tx)
    && (!tx.pc.Failed? ==> tx.writes == Expected(base, tx) && Fresh(base, tx.log) && PendingOk(base, tx))
  }

  ghost predicate Disjoint(v: Tables, w: Tables) {
    v.claims !! w.claims && v.rows.Keys !! w.rows.Keys && v.heads.Keys !! w.heads.Keys
  }

  ghost predicate Inv(s: State) {
    && s.committed == Serial(EMPTY, s.history)
    && Fresh(EMPTY, s.history)
    && (forall id :: id in s.txs ==> TxOk(s.committed, s.txs[id]))
    && (forall id, o :: id in s.txs && o in s.txs && id != o ==> Disjoint(s.txs[id].writes, s.txs[o].writes))
  }

  lemma CommittedWellFormed(s: State)
    requires Inv(s)
    ensures WellFormed(s.committed)
  {
    SerialWellFormed(EMPTY, s.history);
  }

  /** The head a winning compare-and-swap was checked against is the current head. */
  lemma SwapSeesCurrentHead(t: Tables, c: ChainKey, head: Option<Head>)
    requires WellFormed(t) && Observed(t, c, head) && CanSwap(t, c, head)
    ensures HeadOf(t, c) == if head.Some? then head.value else Head(0, NoHash)
  {
  }

  // ---- Every step keeps the invariant ----

  lemma FreshSnoc(base: Tables, log: seq<Event>, ev: Event)
    requires Fresh(base, log) && ev.id !in base.claims && ev.id !in WritesOf(base, log).claims
    ensures Fresh(base, log + [ev])
  {
    WritesKeys(base, log);
  }

  /** The head that the inserted row was built on is the chain's head in the transaction's own view. */
  lemma SwappedHeadIsOwn(base: Tables, tx: Tx)
    requires WellFormed(base) && TxOk(base, tx) && tx.pc.RowInserted?
    requires CanSwap(Overlay(base, tx.writes), tx.pc.ev.chain, tx.pc.head)
    ensures HeadOf(Serial(base, tx.log), tx.pc.ev.chain) == if tx.pc.head.Some? then tx.pc.head.value
            else Head(0, NoHash)
  {
    InsertedKeepsHeads(base, tx);
    SerialWellFormed(base, tx.log);
    HeadsDecide(Overlay(base, tx.writes), Serial(base, tx.log), tx.pc.ev.chain, tx.pc.head);
  }

  /** An inserted row changes no head yet, and the head it was built on was there to see. */
  lemma InsertedKeepsHeads(base: Tables, tx: Tx)
    requires TxOk(base, tx) && tx.pc.RowInserted?
    ensures Overlay(base, tx.writes).heads == Serial(base, tx.log).heads && Fresh(base, tx.log)
    ensures Observed(Serial(base, tx.log), tx.pc.ev.chain, tx.pc.head)
  {
    WritesAreSerial(base, tx.log);
    assert tx.writes.heads == WritesOf(base, tx.log).heads;
  }

  lemma HeadsDecide(v: Tables, t: Tables, c: ChainKey, head: Option<Head>)
    requires WellFormed(t) && Observed(t, c, head) && v.heads == t.heads && CanSwap(v, c, head)
    ensures HeadOf(t, c) == if head.Some? then head.value else Head(0, NoHash)
  {
    SwapSeesCurrentHead(t, c, head);
  }

  lemma WriteHeadKeepsTx(s: State, id: TxId, next: Tx)
    requires Inv(s) && id in s.txs && Local(s, id, s.txs[id], WriteHead, next)
    ensures TxOk(s.committed, next)
  {
    var tx, base := s.txs[id], s.committed;
    if !next.pc.Failed? {
      var ev := tx.pc.ev;
      CommittedWellFormed(s);
      SwappedHeadIsOwn(base, tx);
      WritesAreSerial(base, tx.log);
      assert (tx.log + [ev])[..|tx.log + [ev]| - 1] == tx.log;
      assert next.writes == WritesOf(base, tx.log + [ev]);
    }
  }

  lemma LocalKeepsTx(s: State, id: TxId, step: Step, next: Tx)
    requires Inv(s) && id in s.txs && Local(s, id, s.txs[id], step, next)
    ensures TxOk(s.committed, next)
  {
    var tx, base := s.txs[id], s.committed;
    match step
    case ClaimIdentity(ev) =>
      if !next.pc.Failed? {
        FreshSnoc(base, tx.log, ev);
      }
    case ReadHead(head) =>
      WritesAreSerial(base, tx.log);
      assert View(s, tx).rows == Serial(base, tx.log).rows;
    case WriteHead => WriteHeadKeepsTx(s, id, next);
    case _ =>
  }

  lemma LocalKeepsDisjoint(s: State, id: TxId, step: Step, next: Tx, o: TxId)
    requires Inv(s) && id in s.txs && Local(s, id, s.txs[id], step, next) && o in s.txs && o != id
    ensures Disjoint(next.writes, s.txs[o].writes)
  {
    assert Disjoint(s.txs[id].writes, s.txs[o].writes);
  }

  /** A commit of `w` elsewhere changes nothing an open log of `u` relies on. */
  lemma CommitFrame(base: Tables, w: Tables, u: Tables, log: seq<Event>)
    requires Disjoint(w, u) && Within(WritesOf(base, log), u) && Fresh(base, log)
    ensures WritesOf(Overlay(base, w), log) == WritesOf(base, log)
    ensures Fresh(Overlay(base, w), log)
  {
    WritesKeys(base, log);
    WritesFrame(base, Overlay(base, w), log);
  }

  lemma ObservedStays(base: Tables, w: Tables, u: Tables, log: seq<Event>, c: ChainKey, head: Option<Head>)
    requires Disjoint(w, u) && Within(WritesOf(base, log), u) && Fresh(base, log)
    requires w.rows.Keys !! base.rows.Keys && Observed(Serial(base, log), c, head)
    ensures Observed(Serial(Overlay(base, w), log), c, head)
  {
    CommitFrame(base, w, u, log);
    WritesAreSerial(base, log);
    WritesAreSerial(Overlay(base, w), log);
    if head.Some? {
      var t, t' := Serial(base, log), Serial(Overlay(base, w), log);
      var k :| k in t.rows && t.rows[k].event.chain == c && HeadFor(t.rows[k]) == head.value;
      assert k in t'.rows && t'.rows[k] == t.rows[k];
    }
  }

  /** The row keys of an open write set are new to the ledger. */
  lemma WritesAreNew(s: State, id: TxId)
    requires Inv(s) && id in s.txs && s.txs[id].pc.Idle?
    ensures s.txs[id].writes.rows.Keys !! s.committed.rows.Keys
  {
    CommittedWellFormed(s);
    WritesKeys(s.committed, s.txs[id].log);
  }

  lemma CommitKeepsTx(s: State, id: TxId, o: TxId)
    requires Inv(s) && id in s.txs && o in s.txs && o != id
    requires s.txs[id].pc.Idle?
    ensures TxOk(View(s, s.txs[id]), s.txs[o])
  {
    var base, w, u := s.committed, s.txs[id].writes, s.txs[o];
    assert Disjoint(w, u.writes);
    assert SavedOk(Overlay(base, w), u) by {
      if u.saved.Some? {
        CommitFrame(base, w, u.writes, u.saved.value.log);
      }
    }
    if !u.pc.Failed? {
      WritesAreNew(s, id);
      CommitFrame(base, w, u.writes, u.log);
      match u.pc
      case HeadRead(ev, head) => ObservedStays(base, w, u.writes, u.log, ev.chain, head);
      case RowInserted(ev, head) => ObservedStays(base, w, u.writes, u.log, ev.chain, head);
      case _ =>
    }
  }

  lemma CommitKeepsHistory(s: State, id: TxId)
    requires Inv(s) && id in s.txs && s.txs[id].pc.Idle?
    ensures View(s, s.txs[id]) == Serial(EMPTY, s.history + s.txs[id].log)
    ensures Fresh(EMPTY, s.history + s.txs[id].log)
  {
    var log := s.txs[id].log;
    WritesAreSerial(s.committed, log);
    SerialConcat(EMPTY, s.history, log);
    SerialClaims(EMPTY, s.history);
    forall i, j | 0 <= i < j < |s.history + log| ensures (s.history + log)[i].id != (s.history + log)[j].id {
      if i < |s.history| <= j {
        assert s.history[i].id in s.committed.claims;
      }
    }
  }

  lemma CommitKeepsInv(s: State, id: TxId)
    requires Inv(s) && id in s.txs && s.txs[id].pc.Idle? && s.txs[id].saved.None?
    ensures Inv(Apply(s, id, Commit))
  {
    var s' := Apply(s, id, Commit);
    CommitKeepsHistory(s, id);
    forall o | o in s'.txs ensures TxOk(s'.committed, s'.txs[o]) {
      CommitKeepsTx(s, id, o);
    }
  }

  lemma LocalKeepsInv(s: State, id: TxId, step: Step, next: Tx)
    requires Inv(s) && id in s.txs && Local(s, id, s.txs[id], step, next)
    ensures Inv(s.(txs := s.txs[id := next]))
  {
    LocalKeepsTx(s, id, step, next);
    forall o | o in s.txs && o != id ensures Disjoint(next.writes, s.txs[o].writes) {
      LocalKeepsDisjoint(s, id, step, next, o);
    }
  }

  lemma StepKeepsInv(s: State, id: TxId, step: Step)
    requires Inv(s)
    ensures Inv(Apply(s, id, step))
  {
    if step.Begin? {
      assert Fresh(s.committed, []);
    } else if id in s.txs && !step.Abort? {
      var tx := s.txs[id];
      if step.Commit? {
        if tx.pc.Idle? && tx.saved.None? {
          CommitKeepsInv(s, id);
        }
      } else if StepTx(s, id, tx, step).Some? {
        LocalKeepsInv(s, id, step, StepTx(s, id, tx, step).value);
      }
    }
  }

  lemma {:induction false} RunKeepsInv(trace: seq<Action>)
    ensures Inv(After(trace))
  {
    if trace != [] {
      RunKeepsInv(trace[..|trace| - 1]);
      StepKeepsInv(After(trace[..|trace| - 1]), trace[|trace| - 1].id, trace[|trace| - 1].step);
    }
  }

  /**
   Whatever the interleaving, the committed ledger is well formed and is the one the
   committed events would have produced one at a time.
   */
  lemma EveryRunIsSerial(trace: seq<Action>)
    ensures var s := After(trace);
            WellFormed(s.committed) && s.committed == Serial(EMPTY, s.history) && Fresh(EMPTY, s.history)
  {
    RunKeepsInv(trace);
    CommittedWellFormed(After(trace));
  }

  /** A row insert never meets the ledger's own unique index: the claim has already decided. */
  lemma ClaimDecidesInsert(trace: seq<Action>, id: TxId)
    requires id in After(trace).txs && After(trace).txs[id].pc.HeadRead?
    ensures var s := After(trace); KeyOf(s.txs[id].pc.ev) !in View(s, s.txs[id]).rows
  {
    RunKeepsInv(trace);
    InsertIsNew(After(trace), id);
  }

  lemma InsertIsNew(s: State, id: TxId)
    requires Inv(s) && id in s.txs && s.txs[id].pc.HeadRead?
    ensures KeyOf(s.txs[id].pc.ev) !in View(s, s.txs[id]).rows
  {
    var tx := s.txs[id];
    var ev := tx.pc.ev;
    assert Fresh(s.committed, tx.log + [ev]) && (tx.log + [ev])[|tx.log|] == ev;
    assert KeyOf(ev) !in s.committed.rows by {
      CommittedWellFormed(s);
    }
    assert KeyOf(ev) !in tx.writes.rows by {
      WritesKeys(s.committed, tx.log);
      forall i | 0 <= i < |tx.log| ensures tx.log[i].id != ev.id {
        assert (tx.log + [ev])[i] == tx.log[i];
      }
    }
  }

  /** Once committed, an event keeps its place in the serial order whatever follows. */
  lemma {:induction false} HistoryGrows(trace: seq<Action>, more: seq<Action>)
    ensures After(trace).history <= After(trace + more).history
    decreases |more|
  {
    if more == [] {
      assert trace + more == trace;
    } else {
      var all := trace + more;
      assert all[..|all| - 1] == trace + more[..|more| - 1];
      HistoryGrows(trace, more[..|more| - 1]);
    }
  }

  // ---- Every serial history happens ----

  ghost predicate AllValid(log: seq<Event>) {
    forall i :: 0 <= i < |log| ==> log[i].valid
  }

  ghost predicate PendingValid(pc: Pc) {
    match pc
    case Claimed(ev) => ev.valid
    case HeadRead(ev, _) => ev.valid
    case RowInserted(ev, _) => ev.valid
    case _ => true
  }

  ghost predicate OnlyValid(s: State) {
    && AllValid(s.history)
    && forall id :: id in s.txs ==>
         && AllValid(s.txs[id].log) && PendingValid(s.txs[id].pc)
         && (s.txs[id].saved.Some? ==> AllValid(s.txs[id].saved.value.log))
  }

  lemma {:induction false} RunKeepsValid(trace: seq<Action>)
    ensures OnlyValid(After(trace))
  {
    if trace != [] {
      RunKeepsValid(trace[..|trace| - 1]);
    }
  }

  lemma AfterSnoc(trace: seq<Action>, id: TxId, step: Step)
    ensures After(trace + [Action(id, step)]) == Apply(After(trace), id, step)
  {
    assert (trace + [Action(id, step)])[..|trace|] == trace;
  }

  /** Nobody but transaction 0 is open. */
  ghost predicate Alone(s: State, base: State, tx: Tx) {
    s == State(base.committed, base.history, map[0 := tx])
  }

  /** A failed statement is undone by going back to the savepoint. */
  lemma SavepointAlone(s: State, s': State)
    requires s.txs == map[]
    requires s' == Apply(Apply(Apply(Apply(Apply(s, 0, Begin), 0, SetSavepoint), 0, StatementFails), 0,
                                     RollbackToSavepoint), 0, SetSavepoint)
    ensures Alone(s', s, Tx(EMPTY, [], Some(Savepoint(EMPTY, [])), Idle))
  {
    var a := Apply(s, 0, Begin);
    assert Alone(a, s, Tx(EMPTY, [], None, Idle));
    var b := Apply(a, 0, SetSavepoint);
    assert Alone(b, s, Tx(EMPTY, [], Some(Savepoint(EMPTY, [])), Idle));
    var c := Apply(b, 0, StatementFails);
    assert Alone(c, s, Tx(EMPTY, [], Some(Savepoint(EMPTY, [])), Failed));
    assert Alone(Apply(c, 0, RollbackToSavepoint), s, Tx(EMPTY, [], None, Idle));
  }

  ghost function CurrentHead(t: Tables, c: ChainKey): Option<Head> {
    if c in t.heads then Some(t.heads[c]) else None
  }

  lemma CurrentIsObserved(t: Tables, c: ChainKey)
    requires WellFormed(t)
    ensures Observed(t, c, CurrentHead(t, c))
  {
    if c in t.heads {
      assert RowAt(t, c, HeadOf(t, c).seqNo);
    }
  }

  /** The row that an append inserts, and the write set before and after its head write. */
  ghost function AloneRow(t: Tables, ev: Event): Row {
    RowFor(ev, CurrentHead(t, ev.chain))
  }

  lemma ClaimsAlone(s: State, t: State, ev: Event, saved: Option<Savepoint>)
    requires ev.valid && ev.id !in s.committed.claims && Alone(t, s, Tx(EMPTY, [], saved, Idle))
    ensures Alone(Apply(t, 0, ClaimIdentity(ev)), s, Tx(Tables({ev.id}, map[], map[]), [], saved, Claimed(ev)))
  {
    assert EMPTY.claims + {ev.id} == {ev.id};
    assert !Waits(t, 0, {ev.id}, {}, {}) && ev.id !in View(t, t.txs[0]).claims;
  }

  lemma ReadsAlone(s: State, t: State, ev: Event, saved: Option<Savepoint>)
    requires WellFormed(s.committed) && Alone(t, s, Tx(Tables({ev.id}, map[], map[]), [], saved, Claimed(ev)))
    ensures var head := CurrentHead(s.committed, ev.chain);
            Alone(Apply(t, 0, ReadHead(head)), s, Tx(Tables({ev.id}, map[], map[]), [], saved, HeadRead(ev, head)))
  {
    assert View(t, t.txs[0]).rows == s.committed.rows;
    CurrentIsObserved(s.committed, ev.chain);
  }

  lemma InsertsAlone(s: State, t: State, ev: Event, head: Option<Head>, saved: Option<Savepoint>)
    requires WellFormed(s.committed) && ev.id !in s.committed.claims
    requires Alone(t, s, Tx(Tables({ev.id}, map[], map[]), [], saved, HeadRead(ev, head)))
    ensures Alone(Apply(t, 0, InsertRow), s,
                  Tx(Tables({ev.id}, map[KeyOf(ev) := RowFor(ev, head)], map[]), [], saved, RowInserted(ev, head)))
  {
    assert KeyOf(ev) !in View(t, t.txs[0]).rows;
  }

  lemma WritesHeadAlone(s: State, t: State, ev: Event, head: Option<Head>, row: Row, saved: Option<Savepoint>)
    requires head == CurrentHead(s.committed, ev.chain) && row == RowFor(ev, head)
    requires Alone(t, s, Tx(Tables({ev.id}, map[KeyOf(ev) := row], map[]), [], saved, RowInserted(ev, head)))
    ensures Alone(Apply(t, 0, WriteHead), s,
                  Tx(Tables({ev.id}, map[KeyOf(ev) := row], map[ev.chain := HeadFor(row)]), [ev], saved, Idle))
  {
    assert View(t, t.txs[0]).heads == s.committed.heads;
    assert [] + [ev] == [ev];
    assert !Waits(t, 0, {}, {}, {ev.chain}) && CanSwap(View(t, t.txs[0]), ev.chain, head);
  }

  lemma CommitsAlone(s: State, t: State, ev: Event, writes: Tables, saved: Savepoint)
    requires Overlay(s.committed, writes) == Append(s.committed, ev)
    requires Alone(t, s, Tx(writes, [ev], Some(saved), Idle))
    ensures Apply(Apply(t, 0, ReleaseSavepoint), 0, Commit)
            == State(Append(s.committed, ev), s.history + [ev], map[])
  {
    var b := Apply(t, 0, ReleaseSavepoint);
    assert Alone(b, s, Tx(writes, [ev], None, Idle));
    assert b.txs - {0} == map[];
  }

  /** Transaction 0 takes some steps in a row. */
  ghost function Taking(trace: seq<Action>, steps: seq<Step>): seq<Action> {
    if steps == [] then trace else Taking(trace, steps[..|steps| - 1]) + [Action(0, steps[|steps| - 1])]
  }

  ghost function Taken(s: State, steps: seq<Step>): State {
    if steps == [] then s else Apply(Taken(s, steps[..|steps| - 1]), 0, steps[|steps| - 1])
  }

  lemma {:induction false} TakingReaches(trace: seq<Action>, steps: seq<Step>)
    ensures After(Taking(trace, steps)) == Taken(After(trace), steps)
  {
    if steps != [] {
      TakingReaches(trace, steps[..|steps| - 1]);
      AfterSnoc(Taking(trace, steps[..|steps| - 1]), 0, steps[|steps| - 1]);
    }
  }

  lemma {:induction false} TakenConcat(s: State, a: seq<Step>, b: seq<Step>)
    ensures Taken(s, a + b) == Taken(Taken(s, a), b)
  {
    if b == [] {
      assert a + b == a;
    } else {
      TakenConcat(s, a, b[..|b| - 1]);
      assert (a + b)[..|a + b| - 1] == a + b[..|b| - 1];
    }
  }

  lemma TakenThree(s: State, a: Step, b: Step, c: Step)
    ensures Taken(s, [a, b, c]) == Apply(Apply(Apply(s, 0, a), 0, b), 0, c)
  {
    assert [a, b, c][..2] == [a, b] && [a, b][..1] == [a] && [a][..0] == [];
    assert Taken(s, [a]) == Apply(s, 0, a);
    assert Taken(s, [a, b]) == Apply(Apply(s, 0, a), 0, b);
  }

  lemma TakenFive(s: State)
    ensures Taken(s, [Begin, SetSavepoint, StatementFails, RollbackToSavepoint, SetSavepoint])
            == Apply(Apply(Apply(Apply(Apply(s, 0, Begin), 0, SetSavepoint), 0, StatementFails), 0,
                                 RollbackToSavepoint), 0, SetSavepoint)
  {
    var steps := [Begin, SetSavepoint, StatementFails, RollbackToSavepoint, SetSavepoint];
    assert steps[..4] == [Begin, SetSavepoint, StatementFails, RollbackToSavepoint];
    assert steps[..4][..3] == [Begin, SetSavepoint, StatementFails];
    TakenThree(s, Begin, SetSavepoint, StatementFails);
    assert Taken(s, steps[..4]) == Apply(Taken(s, [Begin, SetSavepoint, StatementFails]), 0, RollbackToSavepoint);
  }

  /** One append, in a transaction that nothing interferes with and that first recovers from a failed statement. */
  ghost function AppendSteps(t: Tables, ev: Event): seq<Step> {
    [Begin, SetSavepoint, StatementFails, RollbackToSavepoint, SetSavepoint]
    + [ClaimIdentity(ev), ReadHead(CurrentHead(t, ev.chain)), InsertRow] + [WriteHead, ReleaseSavepoint, Commit]
  }

  lemma AppendStepsAppend(s: State, ev: Event)
    requires s.txs == map[] && WellFormed(s.committed) && ev.valid && ev.id !in s.committed.claims
    ensures Taken(s, AppendSteps(s.committed, ev)) == State(Append(s.committed, ev), s.history + [ev], map[])
  {
    var first := [Begin, SetSavepoint, StatementFails, RollbackToSavepoint, SetSavepoint];
    var head := CurrentHead(s.committed, ev.chain);
    var second, third := [ClaimIdentity(ev), ReadHead(head), InsertRow], [WriteHead, ReleaseSavepoint, Commit];
    TakenFive(s);
    var a := Taken(s, first);
    SavepointAlone(s, a);
    TakenThree(a, ClaimIdentity(ev), ReadHead(head), InsertRow);
    var b := Taken(a, second);
    var saved, row := Savepoint(EMPTY, []), AloneRow(s.committed, ev);
    ClaimsAlone(s, a, ev, Some(saved));
    ReadsAlone(s, Apply(a, 0, ClaimIdentity(ev)), ev, Some(saved));
    InsertsAlone(s, Apply(Apply(a, 0, ClaimIdentity(ev)), 0, ReadHead(head)), ev, head, Some(saved));
    TakenThree(b, WriteHead, ReleaseSavepoint, Commit);
    WritesHeadAlone(s, b, ev, head, row, Some(saved));
    OverlayAlone(s.committed, ev, row);
    CommitsAlone(s, Apply(b, 0, WriteHead), ev,
                 Tables({ev.id}, map[KeyOf(ev) := row], map[ev.chain := HeadFor(row)]), saved);
    TakenConcat(s, first, second);
    TakenConcat(s, first + second, third);
  }

  lemma OverlayAlone(t: Tables, ev: Event, row: Row)
    requires row == AloneRow(t, ev)
    ensures Overlay(t, Tables({ev.id}, map[KeyOf(ev) := row], map[ev.chain := HeadFor(row)])) == Append(t, ev)
  {
  }

  lemma ReachedNext(trace: seq<Action>, log: seq<Event>, ev: Event)
    requires After(trace) == State(Serial(EMPTY, log), log, map[]) && ev.valid && Fresh(EMPTY, log + [ev])
    ensures After(Taking(trace, AppendSteps(Serial(EMPTY, log), ev)))
            == State(Append(Serial(EMPTY, log), ev), log + [ev], map[])
  {
    EveryRunIsSerial(trace);
    SerialClaims(EMPTY, log);
    forall i | 0 <= i < |log| ensures log[i].id != ev.id {
      assert (log + [ev])[i] == log[i] && (log + [ev])[|log|] == ev;
    }
    AppendStepsAppend(After(trace), ev);
    TakingReaches(trace, AppendSteps(Serial(EMPTY, log), ev));
  }

  lemma {:induction false} SerialIsReached(log: seq<Event>) returns (trace: seq<Action>)
    requires Fresh(EMPTY, log) && AllValid(log)
    ensures After(trace) == State(Serial(EMPTY, log), log, map[])
  {
    if log == [] {
      trace := [];
    } else {
      var init, ev := log[..|log| - 1], log[|log| - 1];
      trace := SerialIsReached(init);
      assert log == init + [ev];
      ReachedNext(trace, init, ev);
      trace := Taking(trace, AppendSteps(Serial(EMPTY, init), ev));
    }
  }

  ghost predicate Happens(log: seq<Event>) {
    exists trace :: After(trace).history == log
  }

  /** The histories of all runs are exactly the lists of valid events with distinct identities. */
  lemma HistoriesAreExactly(log: seq<Event>)
    ensures Happens(log) <==> AllValid(log) && forall i, j :: 0 <= i < j < |log| ==> log[i].id != log[j].id
  {
    if Happens(log) {
      var trace :| After(trace).history == log;
      EveryRunIsSerial(trace);
      RunKeepsValid(trace);
    }
    if AllValid(log) && Fresh(EMPTY, log) {
      var trace := SerialIsReached(log);
    }
  }
}
