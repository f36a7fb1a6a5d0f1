/**
 Relays that move outbox entries to the topic. Several can drain at once; a produce can fail
 before or after the broker took the record, a clear can fail before or after it took effect,
 and a relay can stop anywhere.
 */
module RelayRuns {

  type Relay = nat

  /** The key of an entry: its commit position. A later commit has a greater key. */
  type Key = nat

  /** A relay's mark (0 for none), the keys of its current batch, and how many of them the broker acknowledged. */
  datatype Drain = Drain(mark: Key, batch: seq<Key>, accepted: nat)

  const IDLE := Drain(0, [], 0)

  /**
   `appended` keys exist; `outbox` is what is still there; `topic` is what the broker has; `acked`
   is what it confirmed.
   */
  datatype State = State(appended: nat, outbox: set<Key>, topic: set<Key>, acked: set<Key>, relays: map<Relay, Drain>)

  datatype Op =
    | Append
    | GainLease
    | Read(limit: nat)
    | Produce(arrives: bool, acknowledged: bool)
    | Clear(takesEffect: bool, reported: bool)
    | Crash

  function DrainOf(s: State, r: Relay): Drain {
    if r in s.relays then s.relays[r] else IDLE
  }

  function With(s: State, r: Relay, d: Drain): State {
    s.(relays := s.relays[r := d])
  }

  /** The keys in the outbox after `mark`, in order, at most `limit` of them, below `end`. */
  function KeysFrom(outbox: set<Key>, mark: Key, limit: nat, end: Key): seq<Key>
    decreases end - mark
  {
    if mark >= end || limit == 0 then []
    else if mark + 1 in outbox then [mark + 1] + KeysFrom(outbox, mark + 1, limit - 1, end)
    else KeysFrom(outbox, mark + 1, limit, end)
  }

  function Cleared(s: State, mark: Key): State {
    s.(outbox := set k | k in s.outbox && k > mark)
  }

  /** One step of one relay, or one append. */
  function Step(s: State, r: Relay, op: Op): State {
    var d := DrainOf(s, r);
    match op
    case Append => s.(appended := s.appended + 1, outbox := s.outbox + {s.appended + 1})
    case GainLease => With(s, r, d.(mark := 0, batch := [], accepted := 0))
    case Read(limit) => With(s, r, d.(batch := KeysFrom(s.outbox, d.mark, limit, s.appended), accepted := 0))
    // The first record that is not acknowledged ends the batch.
    case Produce(arrives, acknowledged) =>
      if d.accepted >= |d.batch| then s
      else
        var key := d.batch[d.accepted];
        if acknowledged then
          With(s, r, d.(accepted := d.accepted + 1)).(topic := s.topic + {key}, acked := s.acked + {key})
        else
          With(s, r, d.(batch := d.batch[..d.accepted])).(topic := if arrives then s.topic + {key} else s.topic)
    // The mark moves only when the clear is reported to have worked.
    case Clear(takesEffect, reported) =>
      if d.accepted == 0 || d.accepted > |d.batch| || (reported && !takesEffect) then s
      else
        var last := d.batch[d.accepted - 1];
        With(if takesEffect then Cleared(s, last) else s, r, Drain(if reported then last else d.mark, [], 0))
    case Crash => With(s, r, IDLE)
  }

  datatype Action = Action(r: Relay, op: Op)

  const FRESH := State(0, {}, {}, {}, map[])

  function After(trace: seq<Action>): State {
    if trace == [] then FRESH else Step(After(trace[..|trace| - 1]), trace[|trace| - 1].r, trace[|trace| - 1].op)
  }

  // ---- Invariants ----

  /** Whatever left the outbox was acknowledged. */
  ghost predicate Kept(s: State) {
    && (forall k :: 1 <= k <= s.appended ==> k in s.outbox || k in s.acked)
    && (forall k :: k in s.outbox ==> 1 <= k <= s.appended)
    && s.acked <= s.topic
  }

  /** The batch holds every key of the outbox between the mark and its last key, and nothing is left below the mark. */
  ghost predicate DrainOk(s: State, d: Drain) {
    && d.mark <= s.appended && d.accepted <= |d.batch|
    && (forall k :: k in s.outbox ==> k > d.mark)
    && (forall i :: 0 <= i < |d.batch| ==> d.mark < d.batch[i] <= s.appended)
    && (forall i, j :: 0 <= i < j < |d.batch| ==> d.batch[i] < d.batch[j])
    && (forall i, k :: 0 <= i < |d.batch| && k in s.outbox && k <= d.batch[i] ==> k in d.batch)
    && (forall i :: 0 <= i < d.accepted ==> d.batch[i] in s.acked)
  }

  ghost predicate Inv(s: State) {
    Kept(s) && forall r: Relay :: DrainOk(s, DrainOf(s, r))
  }

  lemma {:induction false} KeysFromOk(outbox: set<Key>, mark: Key, limit: nat, end: Key)
    ensures var b := KeysFrom(outbox, mark, limit, end);
            && (forall i :: 0 <= i < |b| ==> mark < b[i] <= end && b[i] in outbox)
            && (forall i, j :: 0 <= i < j < |b| ==> b[i] < b[j])
            && (forall i, k :: 0 <= i < |b| && k in outbox && mark < k <= b[i] ==> k in b)
            && |b| <= limit
    decreases end - mark
  {
    if mark < end && limit > 0 {
      if mark + 1 in outbox {
        KeysFromOk(outbox, mark + 1, limit - 1, end);
      } else {
        KeysFromOk(outbox, mark + 1, limit, end);
      }
    }
  }

  /** Other relays' clears, acknowledgments and later appends do not disturb a batch. */
  lemma DrainStable(s: State, t: State, d: Drain)
    requires DrainOk(s, d) && s.acked <= t.acked && s.appended <= t.appended
    requires forall k :: k in t.outbox ==> k in s.outbox || k > s.appended
    ensures DrainOk(t, d)
  {
  }

  /**
   A clear takes only what was acknowledged: the outbox below the last accepted key is the accepted
   part of the batch.
   */
  lemma ClearIsCovered(s: State, d: Drain, k: Key)
    requires DrainOk(s, d) && 0 < d.accepted && k in s.outbox && k <= d.batch[d.accepted - 1]
    ensures k in d.batch[..d.accepted] && k in s.acked
  {
    assert k in d.batch;
    var i :| 0 <= i < |d.batch| && d.batch[i] == k;
    assert i < d.accepted;
    assert d.batch[..d.accepted][i] == k;
  }

  lemma StepKept(s: State, r: Relay, op: Op)
    requires Kept(s) && DrainOk(s, DrainOf(s, r))
    ensures Kept(Step(s, r, op))
  {
    var d := DrainOf(s, r);
    if op.Clear? && d.accepted > 0 {
      forall k | k in s.outbox && k <= d.batch[d.accepted - 1] ensures k in s.acked {
        ClearIsCovered(s, d, k);
      }
    }
  }

  lemma StepOwnDrain(s: State, r: Relay, op: Op)
    requires Kept(s) && DrainOk(s, DrainOf(s, r))
    ensures DrainOk(Step(s, r, op), DrainOf(Step(s, r, op), r))
  {
    var d := DrainOf(s, r);
    match op
    case Read(limit) => ReadOk(s, d, limit);
    case Produce(arrives, acknowledged) =>
      if d.accepted < |d.batch| {
        if acknowledged {
          AcceptedOk(s, Step(s, r, op), d);
        } else {
          ShorterBatchOk(s, d);
          DrainStable(s, Step(s, r, op), d.(batch := d.batch[..d.accepted]));
        }
      }
    case _ =>
  }

  lemma ReadOk(s: State, d: Drain, limit: nat)
    requires DrainOk(s, d)
    ensures DrainOk(s, d.(batch := KeysFrom(s.outbox, d.mark, limit, s.appended), accepted := 0))
  {
    KeysFromOk(s.outbox, d.mark, limit, s.appended);
  }

  lemma AcceptedOk(s: State, t: State, d: Drain)
    requires DrainOk(s, d) && d.accepted < |d.batch|
    requires t.outbox == s.outbox && t.appended == s.appended && t.acked == s.acked + {d.batch[d.accepted]}
    ensures DrainOk(t, d.(accepted := d.accepted + 1))
  {
  }

  lemma ShorterBatchOk(s: State, d: Drain)
    requires DrainOk(s, d)
    ensures DrainOk(s, d.(batch := d.batch[..d.accepted]))
  {
    var front := d.batch[..d.accepted];
    forall i, k | 0 <= i < |front| && k in s.outbox && k <= front[i] ensures k in front {
      assert k <= d.batch[i] && k in d.batch;
      var j :| 0 <= j < |d.batch| && d.batch[j] == k;
      assert j <= i;
      assert front[j] == k;
    }
  }

  lemma StepOtherDrain(s: State, r: Relay, op: Op, q: Relay)
    requires q != r && DrainOk(s, DrainOf(s, q))
    ensures DrainOk(Step(s, r, op), DrainOf(Step(s, r, op), q))
  {
    var t := Step(s, r, op);
    assert DrainOf(t, q) == DrainOf(s, q);
    DrainStable(s, t, DrainOf(s, q));
  }

  lemma {:induction false} RunKeepsInv(trace: seq<Action>)
    ensures Inv(After(trace))
  {
    if trace != [] {
      var front, a := trace[..|trace| - 1], trace[|trace| - 1];
      RunKeepsInv(front);
      var s := After(front);
      StepKept(s, a.r, a.op);
      StepOwnDrain(s, a.r, a.op);
      forall q: Relay | q != a.r ensures DrainOk(After(trace), DrainOf(After(trace), q)) {
        StepOtherDrain(s, a.r, a.op, q);
      }
    }
  }

  /** An appended event is in the outbox, or the broker has acknowledged it. */
  lemma NothingIsLost(trace: seq<Action>, k: Key)
    requires 1 <= k <= After(trace).appended
    ensures k in After(trace).outbox || (k in After(trace).acked && k in After(trace).topic)
  {
    RunKeepsInv(trace);
  }

  /** A clear that takes effect removes the accepted part of the batch that was read, and nothing else. */
  lemma ClearRemovesAPrefix(trace: seq<Action>, r: Relay, takesEffect: bool, reported: bool, k: Key)
    ensures var s := After(trace);
            var t := Step(s, r, Clear(takesEffect, reported));
            var d := DrainOf(s, r);
            && t.outbox <= s.outbox && d.accepted <= |d.batch|
            && (k in s.outbox && k !in t.outbox ==> takesEffect && k in d.batch[..d.accepted] && k in s.acked)
            && (takesEffect && k in d.batch[..d.accepted] ==> k !in t.outbox)
  {
    RunKeepsInv(trace);
    var s := After(trace);
    var d := DrainOf(s, r);
    assert DrainOk(s, d);
    if d.accepted > 0 && k in s.outbox && k <= d.batch[d.accepted - 1] {
      ClearIsCovered(s, d, k);
    }
    if k in d.batch[..d.accepted] {
      var i :| 0 <= i < d.accepted && d.batch[i] == k;
      assert k <= d.batch[d.accepted - 1];
    }
  }
}
