/**
 The audit ledger's tables and the serial meaning of an append: claim the event's
 identity, read the chain head, insert the row, advance the head.
 */
module Ledger {
  import opened Common

  type EventId = nat

  datatype ChainKey = ChainKey(org: nat, shard: int)

  datatype Event = Event(id: EventId, chain: ChainKey, time: int, body: string, valid: bool)

  /** A row hash covers the previous hash, the sequence number and the event. */
  datatype Hash = NoHash | RowHash(prev: Hash, seqNo: nat, event: Event)

  datatype Head = Head(seqNo: nat, hash: Hash)

  /** The ledger's own unique index has to carry the event time. */
  datatype RowKey = RowKey(id: EventId, time: int)

  datatype Row = Row(event: Event, seqNo: nat, prevHash: Hash, rowHash: Hash)

  /** audit.projected_events, audit.events and audit.chain_heads; also used for write sets. */
  datatype Tables = Tables(claims: set<EventId>, rows: map<RowKey, Row>, heads: map<ChainKey, Head>)

  const EMPTY := Tables({}, map[], map[])

  function Overlay(base: Tables, w: Tables): Tables {
    Tables(base.claims + w.claims, base.rows + w.rows, base.heads + w.heads)
  }

  function HeadOf(t: Tables, c: ChainKey): Head {
    if c in t.heads then t.heads[c] else Head(0, NoHash)
  }

  function KeyOf(ev: Event): RowKey {
    RowKey(ev.id, ev.time)
  }

  /** The row an append builds on top of `head`. */
  function RowOn(ev: Event, head: Head): Row {
    Row(ev, head.seqNo + 1, head.hash, RowHash(head.hash, head.seqNo + 1, ev))
  }

  function HeadFor(row: Row): Head {
    Head(row.seqNo, row.rowHash)
  }

  /** One append that nothing interferes with. */
  function Append(t: Tables, ev: Event): Tables {
    var row := RowOn(ev, HeadOf(t, ev.chain));
    Tables(t.claims + {ev.id}, t.rows[KeyOf(ev) := row], t.heads[ev.chain := HeadFor(row)])
  }

  /** The appends of `log`, one after the other. */
  function Serial(t: Tables, log: seq<Event>): Tables {
    if log == [] then t else Append(Serial(t, log[..|log| - 1]), log[|log| - 1])
  }

  /** The identities of `log` are new to `t` and pairwise different. */
  ghost predicate Fresh(t: Tables, log: seq<Event>) {
    && (forall i :: 0 <= i < |log| ==> log[i].id !in t.claims)
    && (forall i, j :: 0 <= i < j < |log| ==> log[i].id != log[j].id)
  }

  // ---- What a ledger promises its readers ----

  ghost predicate RowAt(t: Tables, c: ChainKey, s: nat) {
    exists k :: k in t.rows && t.rows[k].event.chain == c && t.rows[k].seqNo == s
  }

  ghost predicate HasRow(t: Tables, id: EventId) {
    exists k :: k in t.rows && k.id == id
  }

  /** An identity has at most one row, and has one exactly when it is claimed. */
  ghost predicate OneRowPerIdentity(t: Tables) {
    && (forall k :: k in t.rows ==> KeyOf(t.rows[k].event) == k && k.id in t.claims)
    && (forall id :: id in t.claims ==> HasRow(t, id))
    && (forall j, k :: j in t.rows && k in t.rows && j.id == k.id ==> j == k)
  }

  /** The sequence numbers of each chain are exactly 1 up to the head's, each used once. */
  ghost predicate NoGapNoFork(t: Tables) {
    && (forall k :: k in t.rows ==> 1 <= t.rows[k].seqNo <= HeadOf(t, t.rows[k].event.chain).seqNo)
    && (forall c, s: nat :: 1 <= s <= HeadOf(t, c).seqNo ==> RowAt(t, c, s))
    && (forall j, k :: j in t.rows && k in t.rows && SamePlace(t.rows[j], t.rows[k]) ==> j == k)
  }

  predicate SamePlace(r: Row, q: Row) {
    r.event.chain == q.event.chain && r.seqNo == q.seqNo
  }

  predicate Follows(r: Row, q: Row) {
    r.event.chain == q.event.chain && q.seqNo == r.seqNo + 1
  }

  /** Each row hashes over its predecessor, and the head carries the last row's hash. */
  ghost predicate HashLinked(t: Tables) {
    && (forall k :: k in t.rows ==> t.rows[k].rowHash == RowHash(t.rows[k].prevHash, t.rows[k].seqNo, t.rows[k].event))
    && (forall k :: k in t.rows && t.rows[k].seqNo == 1 ==> t.rows[k].prevHash == NoHash)
    && (forall j, k :: j in t.rows && k in t.rows && Follows(t.rows[j], t.rows[k])
                       ==> t.rows[k].prevHash == t.rows[j].rowHash)
    && (forall k :: k in t.rows && t.rows[k].seqNo == HeadOf(t, t.rows[k].event.chain).seqNo
                    ==> t.rows[k].rowHash == HeadOf(t, t.rows[k].event.chain).hash)
    && (forall c :: c in t.heads ==> t.heads[c].seqNo > 0)
  }

  ghost predicate WellFormed(t: Tables) {
    OneRowPerIdentity(t) && NoGapNoFork(t) && HashLinked(t)
  }

  lemma AppendKeepsIdentities(t: Tables, ev: Event)
    requires OneRowPerIdentity(t) && ev.id !in t.claims
    ensures OneRowPerIdentity(Append(t, ev))
  {
    var u := Append(t, ev);
    assert KeyOf(ev) in u.rows;
    forall id | id in u.claims ensures HasRow(u, id) {
      if id != ev.id {
        assert HasRow(t, id);
        var k :| k in t.rows && k.id == id;
        assert k in u.rows;
      }
    }
  }

  lemma AppendKeepsChains(t: Tables, ev: Event)
    requires OneRowPerIdentity(t) && NoGapNoFork(t) && ev.id !in t.claims
    ensures NoGapNoFork(Append(t, ev))
  {
    var u := Append(t, ev);
    assert KeyOf(ev) !in t.rows;
    forall c, s: nat | 1 <= s <= HeadOf(u, c).seqNo ensures RowAt(u, c, s) {
      if c == ev.chain && s == HeadOf(u, c).seqNo {
        assert KeyOf(ev) in u.rows;
      } else {
        assert RowAt(t, c, s);
        var k :| k in t.rows && t.rows[k].event.chain == c && t.rows[k].seqNo == s;
        assert k in u.rows && u.rows[k] == t.rows[k];
      }
    }
  }

  lemma AppendKeepsLinks(t: Tables, ev: Event)
    requires WellFormed(t) && ev.id !in t.claims
    ensures HashLinked(Append(t, ev))
  {
    var u := Append(t, ev);
    var head := HeadOf(t, ev.chain);
    assert KeyOf(ev) !in t.rows;
    assert head.seqNo == 0 ==> head.hash == NoHash;
    forall j, k | j in u.rows && k in u.rows && Follows(u.rows[j], u.rows[k])
      ensures u.rows[k].prevHash == u.rows[j].rowHash
    {
      if k == KeyOf(ev) {
        assert j in t.rows && t.rows[j].seqNo == head.seqNo;
      } else if j != KeyOf(ev) {
        assert Follows(t.rows[j], t.rows[k]);
      }
    }
  }

  lemma {:induction false} SerialClaims(t: Tables, log: seq<Event>)
    ensures Serial(t, log).claims == t.claims + (set i | 0 <= i < |log| :: log[i].id)
  {
    if log != [] {
      SerialClaims(t, log[..|log| - 1]);
    }
  }

  /** Serial appends of new identities keep a ledger well formed. */
  lemma {:induction false} SerialWellFormed(t: Tables, log: seq<Event>)
    requires WellFormed(t) && Fresh(t, log)
    ensures WellFormed(Serial(t, log))
  {
    if log != [] {
      var init, ev := log[..|log| - 1], log[|log| - 1];
      SerialWellFormed(t, init);
      SerialClaims(t, init);
      AppendKeepsIdentities(Serial(t, init), ev);
      AppendKeepsChains(Serial(t, init), ev);
      AppendKeepsLinks(Serial(t, init), ev);
    }
  }

  lemma {:induction false} SerialConcat(t: Tables, a: seq<Event>, b: seq<Event>)
    ensures Serial(Serial(t, a), b) == Serial(t, a + b)
  {
    if b == [] {
      assert a + b == a;
    } else {
      SerialConcat(t, a, b[..|b| - 1]);
      assert (a + b)[..|a + b| - 1] == a + b[..|b| - 1];
    }
  }

  // ---- One transaction that runs alone ----

  datatype AppendResult =
    | Appended(seqNo: nat, prevHash: Hash, rowHash: Hash)
    | Malformed
    | AlreadyProjected
    | ChainConflict

  /** A transaction's view of the tables while no other writer is active. */
  class Transaction {
    var view: Tables

    constructor (tables: Tables)
      ensures view == tables
    {
      view := tables;
    }

    method ClaimEventIdentity(id: EventId) returns (claimed: bool)
      modifies this
      ensures claimed == (id !in old(view).claims)
      ensures view == old(view).(claims := old(view).claims + {id})
    {
      claimed := id !in view.claims;
      view := view.(claims := view.claims + {id});
    }

    method ReadChainHead(c: ChainKey) returns (head: Option<Head>)
      ensures head == if c in view.heads then Some(view.heads[c]) else None
    {
      if c in view.heads {
        head := Some(view.heads[c]);
      } else {
        head := None;
      }
    }

    /** Compare-and-swap against the head the caller read; false is a chain conflict. */
    method WriteChainHead(c: ChainKey, head: Option<Head>, next: Head) returns (swapped: bool)
      modifies this
      ensures swapped == CanSwap(old(view), c, head)
      ensures view == if swapped then old(view).(heads := old(view).heads[c := next]) else old(view)
    {
      swapped := CanSwap(view, c, head);
      if swapped {
        view := view.(heads := view.heads[c := next]);
      }
    }

    /**
     Alone, an append never conflicts: it is refused exactly for an invalid event or an
     identity that already has its row, and otherwise it is the serial append.
     */
    method AppendChainRow(ev: Event) returns (r: AppendResult)
      requires WellFormed(view)
      modifies this
      ensures WellFormed(view)
      ensures r.Malformed? <==> !ev.valid
      ensures r.AlreadyProjected? <==> ev.valid && HasRow(old(view), ev.id)
      ensures !r.ChainConflict?
      ensures r.Appended? ==> view == Append(old(view), ev) && RowAt(view, ev.chain, r.seqNo)
      ensures r.Appended? ==>
                && r.seqNo == (if ev.chain in old(view).heads then old(view).heads[ev.chain].seqNo + 1 else 1)
                && r.prevHash == (if ev.chain in old(view).heads then old(view).heads[ev.chain].hash else NoHash)
                && r.rowHash == RowHash(r.prevHash, r.seqNo, ev)
      ensures r.Appended? ==>
                && view.claims == old(view).claims + {ev.id}
                && view.heads == old(view).heads[ev.chain := Head(r.seqNo, r.rowHash)]
                && view.rows == old(view).rows[RowKey(ev.id, ev.time) := Row(ev, r.seqNo, r.prevHash, r.rowHash)]
      ensures !r.Appended? ==> view == old(view)
    {
      if !ev.valid {
        return Malformed;
      }
      ghost var before := view;
      var claimed := ClaimEventIdentity(ev.id);
      if !claimed {
        assert HasRow(before, ev.id);
        assert view == before;
        return AlreadyProjected;
      }
      assert !HasRow(before, ev.id);
      var head := ReadChainHead(ev.chain);
      var row := RowOn(ev, if head.Some? then head.value else Head(0, NoHash));
      if KeyOf(ev) in view.rows {
        assert false;
      }
      view := view.(rows := view.rows[KeyOf(ev) := row]);
      var swapped := WriteChainHead(ev.chain, head, HeadFor(row));
      assert view == Append(before, ev);
      AppendKeepsIdentities(before, ev);
      AppendKeepsChains(before, ev);
      AppendKeepsLinks(before, ev);
      assert KeyOf(ev) in view.rows;
      r := Appended(row.seqNo, row.prevHash, row.rowHash);
    }
  }

  /** The head write's WHERE clause or conflict target. */
  predicate CanSwap(t: Tables, c: ChainKey, head: Option<Head>) {
    match head
    case Some(h) => c in t.heads && t.heads[c].seqNo == h.seqNo
    case None => c !in t.heads
  }
}
