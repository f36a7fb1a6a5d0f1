/**
 Relays that claim rows of the YugabyteDB outbox with row locks, publish them in order and delete
 them in the claiming transaction. A transaction can fail, or lose its answer, at any point.
 */
module ClaimRuns {

  type Relay = nat
  type RowId = nat

  /** An open claim: the locked rows in the order they are published, and how many are published and deleted. */
  datatype Claim = Closed | Open(rows: seq<RowId>, acknowledged: nat, deleted: nat)

  datatype State = State(appended: set<RowId>, outbox: set<RowId>, topic: set<RowId>, acked: set<RowId>,
      claims: map<Relay, Claim>)

  datatype Op =
    | Append(id: RowId)
    | Take(rows: seq<RowId>)
    | Publish(arrives: bool, acknowledged: bool)
    | Delete
    | Commit
    | Rollback

  function ClaimOf(s: State, r: Relay): Claim {
    if r in s.claims then s.claims[r] else Closed
  }

  function With(s: State, r: Relay, c: Claim): State {
    s.(claims := s.claims[r := c])
  }

  function RowsOf(c: Claim): seq<RowId> {
    if c.Open? then c.rows else []
  }

  /** Rows that no other transaction has locked; SKIP LOCKED passes over the rest. */
  ghost predicate Free(s: State, r: Relay, rows: seq<RowId>) {
    && (forall i, j :: 0 <= i < j < |rows| ==> rows[i] != rows[j])
    && (forall x :: x in rows ==> x in s.outbox && forall q: Relay :: q != r ==> x !in RowsOf(ClaimOf(s, q)))
  }

  ghost function Step(s: State, r: Relay, op: Op): State {
    var c := ClaimOf(s, r);
    match op
    case Append(id) => if id in s.appended then s else s.(appended := s.appended + {id}, outbox := s.outbox + {id})
    case Take(rows) => if c.Closed? && Free(s, r, rows) then With(s, r, Open(rows, 0, 0)) else s
    case Publish(arrives, acknowledged) =>
      if !c.Open? || c.acknowledged != c.deleted || c.acknowledged >= |c.rows| then s
      else
        var id := c.rows[c.acknowledged];
        if acknowledged then With(s, r, c.(acknowledged := c.acknowledged + 1)).(topic := s.topic + {id},
            acked := s.acked + {id})
        else s.(topic := if arrives then s.topic + {id} else s.topic)
    case Delete => if c.Open? && c.deleted < c.acknowledged then With(s, r, c.(deleted := c.deleted + 1)) else s
    case Commit =>
      if !c.Open? || c.deleted > |c.rows| then s
      else With(s, r, Closed).(outbox := s.outbox - (set x | x in c.rows[..c.deleted]))
    // Also a commit that fails, and a relay that dies.
    case Rollback => With(s, r, Closed)
  }

  datatype Action = Action(r: Relay, op: Op)

  const FRESH := State({}, {}, {}, {}, map[])

  ghost function After(trace: seq<Action>): State {
    if trace == [] then FRESH else Step(After(trace[..|trace| - 1]), trace[|trace| - 1].r, trace[|trace| - 1].op)
  }

  ghost predicate Kept(s: State) {
    (forall x :: x in s.appended ==> x in s.outbox || x in s.acked) && s.acked <= s.topic
  }

  ghost predicate ClaimOk(s: State, c: Claim) {
    c.Open? ==>
      && c.deleted <= c.acknowledged <= |c.rows|
      && (forall i :: 0 <= i < c.acknowledged ==> c.rows[i] in s.acked)
      && (forall x :: x in c.rows ==> x in s.outbox)
  }

  ghost predicate Disjoint(s: State, r: Relay, q: Relay) {
    forall x :: x in RowsOf(ClaimOf(s, r)) ==> x !in RowsOf(ClaimOf(s, q))
  }

  ghost predicate Inv(s: State) {
    && Kept(s)
    && (forall r: Relay :: ClaimOk(s, ClaimOf(s, r)))
    && (forall r: Relay, q: Relay :: r != q ==> Disjoint(s, r, q))
  }

  lemma StepKept(s: State, r: Relay, op: Op)
    requires Kept(s) && ClaimOk(s, ClaimOf(s, r))
    ensures Kept(Step(s, r, op))
  {
  }

  lemma StepOwnClaim(s: State, r: Relay, op: Op)
    requires ClaimOk(s, ClaimOf(s, r))
    ensures ClaimOk(Step(s, r, op), ClaimOf(Step(s, r, op), r))
  {
    var c, t := ClaimOf(s, r), Step(s, r, op);
    match op
    case Append(id) => assert ClaimOf(t, r) == c;
    case Take(rows) =>
    case Publish(arrives, acknowledged) =>
    case Delete =>
    case Commit =>
    case Rollback =>
  }

  lemma StepOtherClaim(s: State, r: Relay, op: Op, q: Relay)
    requires q != r && ClaimOk(s, ClaimOf(s, q)) && Disjoint(s, q, r)
    ensures ClaimOf(Step(s, r, op), q) == ClaimOf(s, q) && ClaimOk(Step(s, r, op), ClaimOf(s, q))
  {
    var d, t := ClaimOf(s, q), Step(s, r, op);
    assert ClaimOf(t, q) == d && s.acked <= t.acked;
    if d.Open? {
      forall x | x in d.rows ensures x in t.outbox {
        assert x in RowsOf(d) && x !in RowsOf(ClaimOf(s, r));
      }
    }
  }

  /** Row locks keep two claims apart. */
  lemma StepDisjoint(s: State, r: Relay, op: Op, q: Relay)
    requires q != r && Disjoint(s, r, q) && Disjoint(s, q, r)
    ensures Disjoint(Step(s, r, op), r, q) && Disjoint(Step(s, r, op), q, r)
  {
    var t := Step(s, r, op);
    assert ClaimOf(t, q) == ClaimOf(s, q);
    forall x | x in RowsOf(ClaimOf(t, r)) ensures x !in RowsOf(ClaimOf(t, q)) {
      assert x in RowsOf(ClaimOf(s, r)) || (op.Take? && Free(s, r, op.rows) && x in op.rows);
    }
  }

  lemma StepKeepsInv(s: State, r: Relay, op: Op)
    requires Inv(s)
    ensures Inv(Step(s, r, op))
  {
    var t := Step(s, r, op);
    StepKept(s, r, op);
    StepOwnClaim(s, r, op);
    forall q: Relay | q != r ensures ClaimOf(t, q) == ClaimOf(s, q) && ClaimOk(t, ClaimOf(t, q)) {
      StepOtherClaim(s, r, op, q);
    }
    forall p: Relay, q: Relay | p != q ensures Disjoint(t, p, q) {
      assert Disjoint(s, p, q) && Disjoint(s, q, p);
      if p == r {
        StepDisjoint(s, r, op, q);
      } else if q == r {
        StepDisjoint(s, r, op, p);
      }
    }
  }

  lemma {:induction false} RunKeepsInv(trace: seq<Action>)
    ensures Inv(After(trace))
  {
    if trace != [] {
      RunKeepsInv(trace[..|trace| - 1]);
      StepKeepsInv(After(trace[..|trace| - 1]), trace[|trace| - 1].r, trace[|trace| - 1].op);
    }
  }

  /** A row leaves the outbox only after the broker acknowledged it. */
  lemma NothingIsLost(trace: seq<Action>, x: RowId)
    requires x in After(trace).appended
    ensures x in After(trace).outbox || (x in After(trace).acked && x in After(trace).topic)
  {
    RunKeepsInv(trace);
  }

  /**
   A commit removes exactly the published front of the claim, all of it acknowledged, and no other
   relay holds any of it.
   */
  lemma CommitRemovesAPrefix(trace: seq<Action>, r: Relay, q: Relay, x: RowId)
    requires ClaimOf(After(trace), r).Open? && q != r
    ensures var s := After(trace);
            var c := ClaimOf(s, r);
            && c.deleted <= |c.rows|
            && (x in s.outbox && x !in Step(s, r, Commit).outbox <==> x in c.rows[..c.deleted])
            && (x in c.rows[..c.deleted] ==> x in s.acked && x !in RowsOf(ClaimOf(s, q)))
  {
    RunKeepsInv(trace);
    var s := After(trace);
    var c := ClaimOf(s, r);
    assert ClaimOk(s, c) && Disjoint(s, r, q);
  }

  /** A new row is in the outbox, and a known one is not put there again. */
  lemma AppendEnters(s: State, r: Relay, x: RowId)
    ensures var t := Step(s, r, Append(x));
            x in t.appended && t.outbox == (if x in s.appended then s.outbox else s.outbox + {x})
  {
  }

  // ---- Every row can leave ----

  lemma AfterNext(trace: seq<Action>, r: Relay, op: Op)
    ensures After(trace + [Action(r, op)]) == Step(After(trace), r, op)
  {
    assert (trace + [Action(r, op)])[..|trace|] == trace;
  }

  ghost predicate Unclaimed(s: State) {
    forall r: Relay :: ClaimOf(s, r).Closed?
  }

  /** Relays that die give their rows back. */
  lemma {:induction false} ReleaseAll(trace: seq<Action>, open: set<Relay>) returns (all: seq<Action>)
    requires forall r: Relay :: ClaimOf(After(trace), r).Open? ==> r in open
    ensures trace <= all && Unclaimed(After(all))
    ensures After(all).outbox == After(trace).outbox && After(all).appended == After(trace).appended
    decreases |open|
  {
    if open == {} {
      all := trace;
    } else {
      var r :| r in open;
      AfterNext(trace, r, Rollback);
      all := ReleaseAll(trace + [Action(r, Rollback)], open - {r});
    }
  }

  lemma TakesOne(s: State, x: RowId)
    requires Unclaimed(s) && x in s.outbox
    ensures Step(s, 0, Take([x])) == With(s, 0, Open([x], 0, 0))
  {
    assert Free(s, 0, [x]);
  }

  lemma PublishesOne(s: State, x: RowId)
    ensures var t := With(s, 0, Open([x], 0, 0));
            Step(Step(t, 0, Publish(true, true)), 0, Delete)
            == With(s, 0, Open([x], 1, 1)).(topic := s.topic + {x}, acked := s.acked + {x})
  {
    var t := With(s, 0, Open([x], 0, 0));
    var u := Step(t, 0, Publish(true, true));
    assert u == With(s, 0, Open([x], 1, 0)).(topic := s.topic + {x}, acked := s.acked + {x});
  }

  lemma CommitsOne(s: State, t: State, x: RowId)
    requires Unclaimed(s) && t == With(s, 0, Open([x], 1, 1)).(topic := s.topic + {x}, acked := s.acked + {x})
    ensures Unclaimed(Step(t, 0, Commit)) && Step(t, 0, Commit).appended == s.appended
    ensures Step(t, 0, Commit).outbox == s.outbox - {x}
  {
    assert [x][..1] == [x] && (set y | y in [x]) == {x};
    forall q: Relay ensures ClaimOf(Step(t, 0, Commit), q).Closed? {
      assert ClaimOf(s, q).Closed?;
    }
  }

  /** One row claimed, published, deleted and committed. */
  lemma OneRowLeaves(trace: seq<Action>, x: RowId) returns (all: seq<Action>)
    requires Unclaimed(After(trace)) && x in After(trace).outbox
    ensures trace <= all && Unclaimed(After(all))
    ensures After(all).outbox == After(trace).outbox - {x} && After(all).appended == After(trace).appended
  {
    var s := After(trace);
    AfterNext(trace, 0, Take([x]));
    TakesOne(s, x);
    all := trace + [Action(0, Take([x]))];
    AfterNext(all, 0, Publish(true, true));
    all := all + [Action(0, Publish(true, true))];
    AfterNext(all, 0, Delete);
    all := all + [Action(0, Delete)];
    PublishesOne(s, x);
    CommitsOne(s, After(all), x);
    AfterNext(all, 0, Commit);
    all := all + [Action(0, Commit)];
  }

  lemma {:induction false} AllRowsLeave(trace: seq<Action>) returns (all: seq<Action>)
    requires Unclaimed(After(trace))
    ensures trace <= all && After(all).outbox == {} && After(all).appended == After(trace).appended
    decreases |After(trace).outbox|
  {
    var s := After(trace);
    if s.outbox == {} {
      all := trace;
    } else {
      var x :| x in s.outbox;
      var next := OneRowLeaves(trace, x);
      all := AllRowsLeave(next);
    }
  }

  /** However a run went, it can go on until the outbox is empty and every row that was appended is in the topic. */
  lemma EveryRowCanLeave(trace: seq<Action>) returns (all: seq<Action>)
    ensures trace <= all && After(all).outbox == {} && After(all).appended == After(trace).appended
    ensures After(all).appended <= After(all).topic
  {
    var s := After(trace);
    var released := ReleaseAll(trace, s.claims.Keys);
    all := AllRowsLeave(released);
    RunKeepsInv(all);
    forall x | x in After(all).appended ensures x in After(all).topic {
      NothingIsLost(all, x);
    }
  }
}
