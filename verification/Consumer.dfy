/**
 The audit consumer's tables and what it means for a Kafka record to be accounted for: its
 content is in the ledger or waits in an assembly, or a dead-letter row holds its bytes.
 */
module Consumer {
  import opened Common

  type EventId = nat

  type Partition = nat

  /** What every message of one transport repeats: the digest, the number of parts, and the chain it is for. */
  datatype Transport = Transport(digest: string, count: nat, chain: string)

  /**
   A record's value, `raw`, as the consumer reads it. `event` and `body` are the content that the
   ledger and the assembly keep of it. A part is sound when its size and its own digest check out.
   */
  datatype Payload =
    | Junk(raw: string)
    | Plain(id: EventId, event: string, raw: string)
    | Part(id: EventId, transport: Transport, index: nat, body: string, sound: bool, raw: string)
    | Manifest(id: EventId, transport: Transport, raw: string)

  /** The Kafka position of a record, which names its dead-letter row. */
  datatype Key = Key(partition: Partition, offset: nat)

  /** `replayOf` is the dead-letter row named by a well-formed replay header. */
  datatype Record = Record(payload: Payload, replayOf: Option<Key>)

  type Logs = map<Partition, seq<Record>>

  /** Where a ledger row came from: one plain record, or the parts and the manifest of a completed transport. */
  datatype Source = FromRecord(event: string) | FromParts(transport: Transport, header: string,
      bodies: map<nat, string>)

  datatype PartKey = PartKey(id: EventId, index: nat)

  /** audit.events with its identity claims, and the open assemblies with their headers and parts. */
  datatype Rows = Rows(ledger: map<EventId, Source>, assemblies: map<EventId, Transport>,
                       headers: map<EventId, string>, parts: map<PartKey, string>)

  const NO_ROWS := Rows(map[], map[], map[], map[])

  datatype Tables = Tables(rows: Rows, completed: map<EventId, string>, dlq: map<Key, Payload>,
      offsets: map<Partition, nat>)

  /** The write set of an open batch. A dead-letter key is never both put and deleted. */
  datatype Writes = Writes(rows: Rows, puts: map<Key, Payload>, dels: set<Key>)

  const NO_WRITES := Writes(NO_ROWS, map[], {})

  function Overlay(r: Rows, w: Rows): Rows {
    Rows(r.ledger + w.ledger, r.assemblies + w.assemblies, r.headers + w.headers, r.parts + w.parts)
  }

  function View(t: Tables, w: Writes): Tables {
    Tables(Overlay(t.rows, w.rows), t.completed, (t.dlq - w.dels) + w.puts, t.offsets)
  }

  lemma NothingWritten(t: Tables, r: Rows)
    ensures View(t, NO_WRITES) == t && Overlay(NO_ROWS, r) == r
  {
    NothingAdded(t.rows);
    NothingAdded(r);
    assert (t.dlq - {}) + map[] == t.dlq;
  }

  lemma NothingAdded(r: Rows)
    ensures Overlay(r, NO_ROWS) == r && Overlay(NO_ROWS, r) == r
  {
    assert r.ledger + map[] == r.ledger && r.assemblies + map[] == r.assemblies;
    assert r.headers + map[] == r.headers && r.parts + map[] == r.parts;
    assert map[] + r.ledger == r.ledger && map[] + r.assemblies == r.assemblies;
    assert map[] + r.headers == r.headers && map[] + r.parts == r.parts;
  }

  // ---- Landed, byte for byte ----

  /** The ledger row of the event was built from this part or manifest. */
  predicate InLedger(r: Rows, p: Payload)
    requires p.Part? || p.Manifest?
  {
    && p.id in r.ledger && r.ledger[p.id].FromParts? && r.ledger[p.id].transport == p.transport
    && if p.Part? then p.index in r.ledger[p.id].bodies && r.ledger[p.id].bodies[p.index] == p.body
       else r.ledger[p.id].header == p.raw
  }

  /** The open assembly of the transport keeps this part or manifest. */
  predicate InAssembly(r: Rows, p: Payload)
    requires p.Part? || p.Manifest?
  {
    && p.id in r.assemblies && r.assemblies[p.id] == p.transport
    && if p.Part? then PartKey(p.id, p.index) in r.parts && r.parts[PartKey(p.id, p.index)] == p.body
       else p.id in r.headers && r.headers[p.id] == p.raw
  }

  predicate Landed(r: Rows, p: Payload) {
    match p
    case Junk(_) => false
    case Plain(id, event, _) => id in r.ledger && r.ledger[id] == FromRecord(event)
    case _ => InLedger(r, p) || InAssembly(r, p)
  }

  ghost predicate Held(t: Tables, p: Payload) {
    exists k :: k in t.dlq && t.dlq[k] == p
  }

  ghost predicate Accounted(t: Tables, p: Payload) {
    Landed(t.rows, p) || Held(t, p)
  }

  // ---- Projecting one record ----

  /** The rows a projection adds (none when it finds the record known), or a rejection. */
  datatype Outcome = Adds(rows: Rows) | Rejects

  /** storeTransportMessage in the view `v`: the digest of a completed transport decides before anything is stored. */
  function Store(v: Tables, p: Payload): Outcome
    requires p.Part? || p.Manifest?
  {
    if p.id in v.completed then (if v.completed[p.id] == p.transport.digest then Adds(NO_ROWS) else Rejects)
    else if p.id in v.rows.ledger then Rejects
    else if p.id in v.rows.assemblies && v.rows.assemblies[p.id] != p.transport then Rejects
    else
      var base := if p.id in v.rows.assemblies then NO_ROWS else NO_ROWS.(assemblies := map[p.id := p.transport]);
      if p.Manifest? then Adds(if p.id in v.rows.headers then base else base.(headers := map[p.id := p.raw]))
      else if p.index >= p.transport.count || !p.sound then Rejects
      else if PartKey(p.id, p.index) !in v.rows.parts then Adds(base.(parts := map[PartKey(p.id, p.index) := p.body]))
      else if v.rows.parts[PartKey(p.id, p.index)] == p.body then Adds(base)
      else Rejects
  }

  /** projectOne: an event whose identity is claimed counts as projected, whatever the record says. */
  function Project(v: Tables, p: Payload): Outcome {
    match p
    case Junk(_) => Rejects
    case Plain(id, event, _) => Adds(if id in v.rows.ledger then NO_ROWS
        else NO_ROWS.(ledger := map[id := FromRecord(event)]))
    case _ => Store(v, p)
  }

  /** resolveDeadLetter: the named row goes only when its stored payload is these bytes. */
  function Resolve(t: Tables, w: Writes, rec: Record): Writes {
    if rec.replayOf.Some? && rec.replayOf.value in View(t, w).dlq && View(t, w).dlq[rec.replayOf.value] == rec.payload
    then w.(puts := w.puts - {rec.replayOf.value}, dels := w.dels + {rec.replayOf.value})
    else w
  }

  /** verifiedReplayOrigin: the row a failed record replays, when its payload matches. */
  function Origin(t: Tables, w: Writes, rec: Record): Option<Key> {
    if rec.replayOf.Some? && rec.replayOf.value in View(t, w).dlq && View(t, w).dlq[rec.replayOf.value] == rec.payload
    then rec.replayOf
    else None
  }

  /**
   deadLetterRecord after the origin check: a replay counts its attempt on the origin row,
   and anything else, or a replay whose row has gone since, is kept under its own key.
   */
  function DeadLetter(t: Tables, w: Writes, key: Key, p: Payload, origin: Option<Key>): Writes {
    if origin.Some? && origin.value in View(t, w).dlq then w
    else if key in View(t, w).dlq then w
    else w.(puts := w.puts[key := p], dels := w.dels - {key})
  }

  /** projectRecord: what the batch has written once the outcome is known. */
  function Recorded(t: Tables, w: Writes, key: Key, rec: Record, outcome: Outcome): Writes {
    match outcome
    case Adds(rows) => Resolve(t, w.(rows := Overlay(w.rows, rows)), rec)
    case Rejects => DeadLetter(t, w, key, rec.payload, Origin(t, w, rec))
  }

  // ---- Completing an assembly ----

  /** Whether the parts and the manifest of a transport stream as a valid event. */
  type Acceptance = (EventId, Transport, string, map<nat, string>) -> bool

  function BodiesOf(r: Rows, id: EventId, count: nat): map<nat, string> {
    map i | 0 <= i < count && PartKey(id, i) in r.parts :: r.parts[PartKey(id, i)]
  }

  /** The assembly has its manifest and every part, and they stream as an event. */
  predicate Completes(accepts: Acceptance, r: Rows, id: EventId) {
    && id in r.assemblies && id in r.headers
    && (forall i :: 0 <= i < r.assemblies[id].count ==> PartKey(id, i) in r.parts)
    && accepts(id, r.assemblies[id], r.headers[id], BodiesOf(r, id, r.assemblies[id].count))
  }

  /** appendAssembledEvent and finishAssembly: an event that is projected already is not appended again. */
  function Completed(t: Tables, id: EventId): Tables
    requires id in t.rows.assemblies && id in t.rows.headers
  {
    var transport := t.rows.assemblies[id];
    var source := FromParts(transport, t.rows.headers[id], BodiesOf(t.rows, id, transport.count));
    t.(completed := if id in t.completed then t.completed else t.completed[id := transport.digest],
       rows := Rows(if id in t.rows.ledger then t.rows.ledger else t.rows.ledger[id := source],
                    t.rows.assemblies - {id}, t.rows.headers - {id},
                    map k | k in t.rows.parts && k.id != id :: t.rows.parts[k]))
  }

  // ---- One source for each event ----

  /** A transport that these payloads can complete: its manifest, a sound part at every index, and a valid event. */
  ghost predicate Completable(sent: iset<Payload>, accepts: Acceptance, id: EventId, source: Source) {
    && source.FromParts? && Manifest(id, source.transport, source.header) in sent
    && (forall i :: i in source.bodies <==> 0 <= i < source.transport.count)
    && (forall i :: i in source.bodies ==> HasPart(sent, id, source.transport, i, source.bodies[i]))
    && accepts(id, source.transport, source.header, source.bodies)
  }

  ghost predicate HasPart(sent: iset<Payload>, id: EventId, transport: Transport, index: nat, body: string) {
    exists raw :: Part(id, transport, index, body, true, raw) in sent
  }

  /** A message that the completed transport is made of. */
  predicate PartOf(p: Payload, source: Source)
    requires source.FromParts? && (p.Part? || p.Manifest?)
  {
    && p.transport == source.transport
    && if p.Part? then p.index in source.bodies && source.bodies[p.index] == p.body else p.raw == source.header
  }

  /** Plain records of one event say the same, and so do manifests of one transport. */
  ghost predicate SameContent(sent: iset<Payload>) {
    && (forall p, q :: p in sent && q in sent && p.Plain? && q.Plain? && p.id == q.id ==> p.event == q.event)
    && (forall p, q ::
          p in sent && q in sent && p.Manifest? && q.Manifest? && p.id == q.id && p.transport == q.transport ==>
            p.raw == q.raw)
  }

  /** An event that a transport can complete comes in no other way under that transport's digest, and not plain. */
  ghost predicate NoRival(sent: iset<Payload>, accepts: Acceptance) {
    forall id, source, p :: Completable(sent, accepts, id, source) && p in sent && !p.Junk? && p.id == id ==>
      !p.Plain? && (p.transport.digest == source.transport.digest ==> PartOf(p, source))
  }

  /** What producers have to keep for the ledger to hold every record: one source for each event. */
  ghost predicate OneSource(sent: iset<Payload>, accepts: Acceptance) {
    SameContent(sent) && NoRival(sent, accepts)
  }

  // ---- What the tables hold ----

  ghost predicate SourceFrom(sent: iset<Payload>, accepts: Acceptance, id: EventId, source: Source) {
    if source.FromRecord? then exists raw :: Plain(id, source.event, raw) in sent
        else Completable(sent, accepts, id, source)
  }

  ghost predicate LedgerFrom(sent: iset<Payload>, accepts: Acceptance, ledger: map<EventId, Source>) {
    forall id :: id in ledger ==> SourceFrom(sent, accepts, id, ledger[id])
  }

  ghost predicate HeadersFrom(sent: iset<Payload>, headers: map<EventId, string>, assemblies: map<EventId, Transport>) {
    forall id :: id in headers ==> id in assemblies && Manifest(id, assemblies[id], headers[id]) in sent
  }

  ghost predicate PartsFrom(sent: iset<Payload>, parts: map<PartKey, string>, assemblies: map<EventId, Transport>) {
    forall k :: k in parts ==>
      k.id in assemblies && k.index < assemblies[k.id].count && HasPart(sent, k.id, assemblies[k.id], k.index, parts[k])
  }

  /** A completed transport is in the ledger and has no assembly, and the ledger has no other transports. */
  ghost predicate CompletedOk(ledger: map<EventId, Source>, assemblies: map<EventId, Transport>,
      completed: map<EventId, string>) {
    && (forall id :: id in completed ==>
          id !in assemblies && id in ledger && ledger[id].FromParts? && ledger[id].transport.digest == completed[id])
    && (forall id :: id in ledger && ledger[id].FromParts? ==> id in completed)
  }

  /** Every row came from what was sent, and headers and parts belong to an open assembly. */
  ghost predicate RowsOk(sent: iset<Payload>, accepts: Acceptance, r: Rows, completed: map<EventId, string>) {
    && LedgerFrom(sent, accepts, r.ledger) && HeadersFrom(sent, r.headers, r.assemblies)
        && PartsFrom(sent, r.parts, r.assemblies)
    && CompletedOk(r.ledger, r.assemblies, completed)
  }

  /** A record that adds nothing because it is known has landed. */
  lemma KnownHasLanded(sent: iset<Payload>, accepts: Acceptance, v: Tables, p: Payload)
    requires OneSource(sent, accepts) && RowsOk(sent, accepts, v.rows, v.completed) && p in sent && Project(v, p).Adds?
    ensures Landed(Overlay(v.rows, Project(v, p).rows), p)
  {
    if p.Plain? {
      PlainHasLanded(sent, accepts, v, p);
    } else if p.id in v.completed {
      assert Completable(sent, accepts, p.id, v.rows.ledger[p.id]);
      NothingAdded(v.rows);
    } else {
      StoredHasLanded(sent, v, p);
    }
  }

  lemma PlainHasLanded(sent: iset<Payload>, accepts: Acceptance, v: Tables, p: Payload)
    requires OneSource(sent, accepts) && LedgerFrom(sent, accepts, v.rows.ledger) && p in sent && p.Plain?
    ensures Landed(Overlay(v.rows, Project(v, p).rows), p)
  {
    if p.id in v.rows.ledger {
      assert SourceFrom(sent, accepts, p.id, v.rows.ledger[p.id]);
    }
  }

  lemma StoredHasLanded(sent: iset<Payload>, v: Tables, p: Payload)
    requires SameContent(sent) && HeadersFrom(sent, v.rows.headers, v.rows.assemblies) && p in sent
    requires (p.Part? || p.Manifest?) && p.id !in v.completed && Store(v, p).Adds?
    ensures InAssembly(Overlay(v.rows, Store(v, p).rows), p)
  {
  }

  // ---- How rows may change under an open batch ----

  ghost predicate KeptAssembly(r: Rows, r': Rows, id: EventId)
    requires id in r.assemblies
  {
    && id in r'.assemblies && r'.assemblies[id] == r.assemblies[id]
    && (id in r.headers ==> id in r'.headers && r'.headers[id] == r.headers[id])
    && (forall k :: k in r.parts && k.id == id ==> k in r'.parts && r'.parts[k] == r.parts[k])
  }

  /** The ledger row of the event holds everything the assembly held. */
  ghost predicate Absorbed(r: Rows, r': Rows, id: EventId)
    requires id in r.assemblies
  {
    && id in r'.ledger && r'.ledger[id].FromParts? && r'.ledger[id].transport == r.assemblies[id]
    && (id in r.headers ==> r'.ledger[id].header == r.headers[id])
    && (forall k :: k in r.parts && k.id == id ==>
          k.index in r'.ledger[id].bodies && r'.ledger[id].bodies[k.index] == r.parts[k])
  }

  /** Ledger rows stay, and an assembly stays or becomes a ledger row with all it held. */
  ghost predicate Grows(r: Rows, r': Rows) {
    && (forall id :: id in r.ledger ==> id in r'.ledger && r'.ledger[id] == r.ledger[id])
    && (forall id :: id in r.assemblies ==> KeptAssembly(r, r', id) || Absorbed(r, r', id))
  }

  lemma GrowsKeepsLanded(r: Rows, r': Rows, p: Payload)
    requires Grows(r, r') && Landed(r, p)
    ensures Landed(r', p)
  {
    if !p.Plain? && !InLedger(r, p) {
      assert KeptAssembly(r, r', p.id) || Absorbed(r, r', p.id);
    }
  }

  /** The two write no row in common. */
  ghost predicate Apart(r: Rows, w: Rows) {
    r.ledger.Keys !! w.ledger.Keys && r.assemblies.Keys !! w.assemblies.Keys
    && r.headers.Keys !! w.headers.Keys && r.parts.Keys !! w.parts.Keys
  }

  lemma OverlayGrows(r: Rows, w: Rows)
    requires Apart(r, w)
    ensures Grows(r, Overlay(r, w))
  {
    forall id | id in r.assemblies ensures KeptAssembly(r, Overlay(r, w), id) {
    }
  }

  ghost predicate Touches(w: Rows, id: EventId) {
    id in w.ledger || id in w.assemblies || id in w.headers || exists k :: k in w.parts && k.id == id
  }

  /** Rows that grow, grow under every open write set that they stay apart from. */
  lemma GrowsUnder(r: Rows, r': Rows, w: Rows)
    requires Grows(r, r') && Apart(r, w) && Apart(r', w)
    requires forall id :: id in r.headers ==> id in r.assemblies
    requires forall k :: k in r.parts ==> k.id in r.assemblies
    requires forall id :: id in r.assemblies ==> KeptAssembly(r, r', id) || !Touches(w, id)
    ensures Grows(Overlay(r, w), Overlay(r', w))
  {
    forall id | id in Overlay(r, w).assemblies
      ensures KeptAssembly(Overlay(r, w), Overlay(r', w), id) || Absorbed(Overlay(r, w), Overlay(r', w), id)
    {
      if id in r.assemblies {
        AssemblyUnder(r, r', w, id);
      } else {
        assert id in w.assemblies;
      }
    }
  }

  lemma AssemblyUnder(r: Rows, r': Rows, w: Rows, id: EventId)
    requires Apart(r, w) && Apart(r', w) && id in r.assemblies && (KeptAssembly(r, r', id) || Absorbed(r, r', id))
    requires KeptAssembly(r, r', id) || !Touches(w, id)
    ensures KeptAssembly(Overlay(r, w), Overlay(r', w), id) || Absorbed(Overlay(r, w), Overlay(r', w), id)
  {
    if KeptAssembly(r, r', id) {
      assert KeptAssembly(Overlay(r, w), Overlay(r', w), id);
    } else {
      assert Absorbed(Overlay(r, w), Overlay(r', w), id);
    }
  }

  /** Nothing that has landed is lost, and a dead-letter row goes only when its own payload has landed. */
  ghost predicate Progress(t: Tables, t': Tables) {
    && (forall p :: Landed(t.rows, p) ==> Landed(t'.rows, p))
    && (forall k :: k in t.dlq ==> (k in t'.dlq && t'.dlq[k] == t.dlq[k]) || Landed(t'.rows, t.dlq[k]))
  }

  lemma ProgressKeepsAccounted(t: Tables, t': Tables, p: Payload)
    requires Progress(t, t') && Accounted(t, p)
    ensures Accounted(t', p)
  {
    if Held(t, p) && !Landed(t'.rows, p) {
      var k :| k in t.dlq && t.dlq[k] == p;
      assert k in t'.dlq && t'.dlq[k] == p;
    }
  }

  lemma ProgressComposes(a: Tables, b: Tables, c: Tables)
    requires Progress(a, b) && Progress(b, c)
    ensures Progress(a, c)
  {
  }

  // ---- An open batch ----

  /** The payload that every dead-letter row at `k` carries. */
  ghost predicate KeptAt(logs: Logs, k: Key, p: Payload) {
    k.partition in logs && k.offset < |logs[k.partition]| && logs[k.partition][k.offset].payload == p
  }

  ghost predicate RowsMatchLog(logs: Logs, dlq: map<Key, Payload>) {
    forall k :: k in dlq ==> KeptAt(logs, k, dlq[k])
  }

  /** A batch deletes a dead-letter row only for a payload that it sees landed. */
  ghost predicate DeletesLanded(logs: Logs, r: Rows, dels: set<Key>) {
    forall k :: k in dels ==>
      k.partition in logs && k.offset < |logs[k.partition]| && Landed(r, logs[k.partition][k.offset].payload)
  }

  ghost predicate LettersOk(logs: Logs, r: Rows, w: Writes) {
    w.puts.Keys !! w.dels && RowsMatchLog(logs, w.puts) && DeletesLanded(logs, r, w.dels)
  }

  /** New rows only, all from what was sent, and dead letters that the log and the view justify. */
  ghost predicate WritesOk(sent: iset<Payload>, accepts: Acceptance, logs: Logs, t: Tables, w: Writes) {
    && Apart(t.rows, w.rows) && RowsOk(sent, accepts, View(t, w).rows, t.completed)
        && LettersOk(logs, View(t, w).rows, w)
  }

  lemma OverlayAssoc(a: Rows, b: Rows, c: Rows)
    ensures Overlay(Overlay(a, b), c) == Overlay(a, Overlay(b, c))
  {
    MapAssoc(a.ledger, b.ledger, c.ledger);
    MapAssoc(a.assemblies, b.assemblies, c.assemblies);
    MapAssoc(a.headers, b.headers, c.headers);
    MapAssoc(a.parts, b.parts, c.parts);
  }

  lemma MapAssoc<K, V>(a: map<K, V>, b: map<K, V>, c: map<K, V>)
    ensures (a + b) + c == a + (b + c)
  {
  }

  lemma ProjectApart(v: Tables, p: Payload)
    requires Project(v, p).Adds?
    ensures Apart(v.rows, Project(v, p).rows)
  {
  }

  lemma ProjectFrom(sent: iset<Payload>, accepts: Acceptance, v: Tables, p: Payload)
    requires RowsOk(sent, accepts, v.rows, v.completed) && p in sent && Project(v, p).Adds?
    ensures RowsOk(sent, accepts, Overlay(v.rows, Project(v, p).rows), v.completed)
  {
    if p.Plain? {
      PlainFrom(sent, accepts, v, p);
    } else {
      StoreHeaders(sent, v, p);
      StoreParts(sent, v, p);
      StoreLedger(v, p);
    }
  }

  lemma PlainFrom(sent: iset<Payload>, accepts: Acceptance, v: Tables, p: Payload)
    requires RowsOk(sent, accepts, v.rows, v.completed) && p in sent && p.Plain?
    ensures RowsOk(sent, accepts, Overlay(v.rows, Project(v, p).rows), v.completed)
  {
    var r, d := v.rows, Project(v, p).rows;
    assert r.headers + d.headers == r.headers && r.parts + d.parts == r.parts
           && r.assemblies + d.assemblies == r.assemblies;
    forall id | id in r.ledger + d.ledger ensures SourceFrom(sent, accepts, id, (r.ledger + d.ledger)[id]) {
      assert id in r.ledger || (id == p.id && Plain(id, p.event, p.raw) in sent);
    }
  }

  lemma StoreLedger(v: Tables, p: Payload)
    requires (p.Part? || p.Manifest?) && Store(v, p).Adds? && CompletedOk(v.rows.ledger, v.rows.assemblies, v.completed)
    ensures v.rows.ledger + Store(v, p).rows.ledger == v.rows.ledger
    ensures CompletedOk(v.rows.ledger, v.rows.assemblies + Store(v, p).rows.assemblies, v.completed)
  {
  }

  lemma StoreHeaders(sent: iset<Payload>, v: Tables, p: Payload)
    requires (p.Part? || p.Manifest?) && Store(v, p).Adds? && p in sent
             && HeadersFrom(sent, v.rows.headers, v.rows.assemblies)
    ensures HeadersFrom(sent, v.rows.headers + Store(v, p).rows.headers,
            v.rows.assemblies + Store(v, p).rows.assemblies)
  {
  }

  lemma StoreParts(sent: iset<Payload>, v: Tables, p: Payload)
    requires (p.Part? || p.Manifest?) && Store(v, p).Adds? && p in sent
             && PartsFrom(sent, v.rows.parts, v.rows.assemblies)
    ensures PartsFrom(sent, v.rows.parts + Store(v, p).rows.parts, v.rows.assemblies + Store(v, p).rows.assemblies)
  {
    if p.Part? && p.sound {
      assert HasPart(sent, p.id, p.transport, p.index, p.body);
    }
  }

  /** A projected record has landed, and nothing is lost. */
  lemma ProjectStep(sent: iset<Payload>, accepts: Acceptance, logs: Logs, t: Tables, w: Writes, p: Payload)
    requires OneSource(sent, accepts) && WritesOk(sent, accepts, logs, t, w) && p in sent
             && Project(View(t, w), p).Adds?
    ensures var w' := w.(rows := Overlay(w.rows, Project(View(t, w), p).rows));
            && WritesOk(sent, accepts, logs, t, w') && Landed(View(t, w').rows, p)
            && Progress(View(t, w), View(t, w'))
  {
    var v, d := View(t, w), Project(View(t, w), p).rows;
    var w' := w.(rows := Overlay(w.rows, d));
    OverlayAssoc(t.rows, w.rows, d);
    ProjectApart(v, p);
    ProjectFrom(sent, accepts, v, p);
    KnownHasLanded(sent, accepts, v, p);
    OverlayGrows(v.rows, d);
    assert View(t, w').rows == Overlay(v.rows, d);
    forall q | Landed(v.rows, q) ensures Landed(View(t, w').rows, q) {
      GrowsKeepsLanded(v.rows, View(t, w').rows, q);
    }
  }

  lemma ResolveStep(sent: iset<Payload>, accepts: Acceptance, logs: Logs, t: Tables, w: Writes, rec: Record)
    requires RowsMatchLog(logs, t.dlq) && WritesOk(sent, accepts, logs, t, w) && Landed(View(t, w).rows, rec.payload)
    ensures WritesOk(sent, accepts, logs, t, Resolve(t, w, rec))
    ensures Progress(View(t, w), View(t, Resolve(t, w, rec)))
  {
    assert Resolve(t, w, rec).rows == w.rows;
    LettersResolve(logs, t, w, rec);
    var v, v' := View(t, w), View(t, Resolve(t, w, rec));
    forall k | k in v.dlq ensures (k in v'.dlq && v'.dlq[k] == v.dlq[k]) || Landed(v'.rows, v.dlq[k]) {
      if v.dlq[k] != rec.payload {
        OthersStay(t, w, rec, k);
      }
    }
  }

  lemma LettersResolve(logs: Logs, t: Tables, w: Writes, rec: Record)
    requires RowsMatchLog(logs, t.dlq) && LettersOk(logs, View(t, w).rows, w) && Landed(View(t, w).rows, rec.payload)
    ensures LettersOk(logs, View(t, w).rows, Resolve(t, w, rec))
  {
    if rec.replayOf.Some? && rec.replayOf.value in View(t, w).dlq {
      assert KeptAt(logs, rec.replayOf.value, View(t, w).dlq[rec.replayOf.value]);
    }
  }

  lemma OthersStay(t: Tables, w: Writes, rec: Record, k: Key)
    requires w.puts.Keys !! w.dels && k in View(t, w).dlq && View(t, w).dlq[k] != rec.payload
    ensures k in View(t, Resolve(t, w, rec)).dlq && View(t, Resolve(t, w, rec)).dlq[k] == View(t, w).dlq[k]
  {
  }

  lemma DeadLetterStep(sent: iset<Payload>, accepts: Acceptance, logs: Logs, t: Tables, w: Writes, key: Key,
        p: Payload, origin: Option<Key>)
    requires RowsMatchLog(logs, t.dlq) && WritesOk(sent, accepts, logs, t, w) && KeptAt(logs, key, p)
    requires origin.Some? ==> KeptAt(logs, origin.value, p)
    ensures var w' := DeadLetter(t, w, key, p, origin);
            WritesOk(sent, accepts, logs, t, w') && Held(View(t, w'), p) && Progress(View(t, w), View(t, w'))
  {
    assert DeadLetter(t, w, key, p, origin).rows == w.rows;
    LettersKept(logs, t, w, key, p, origin);
    LetterHeld(logs, t, w, key, p, origin);
  }

  lemma LettersKept(logs: Logs, t: Tables, w: Writes, key: Key, p: Payload, origin: Option<Key>)
    requires RowsMatchLog(logs, t.dlq) && LettersOk(logs, View(t, w).rows, w) && KeptAt(logs, key, p)
    ensures LettersOk(logs, View(t, w).rows, DeadLetter(t, w, key, p, origin)) && RowsMatchLog(logs, View(t, w).dlq)
  {
  }

  lemma LetterHeld(logs: Logs, t: Tables, w: Writes, key: Key, p: Payload, origin: Option<Key>)
    requires RowsMatchLog(logs, View(t, w).dlq) && KeptAt(logs, key, p)
             && (origin.Some? ==> KeptAt(logs, origin.value, p))
    ensures Held(View(t, DeadLetter(t, w, key, p, origin)), p)
    ensures var v' := View(t, DeadLetter(t, w, key, p, origin));
            forall k :: k in View(t, w).dlq ==> k in v'.dlq && v'.dlq[k] == View(t, w).dlq[k]
  {
    var v, v' := View(t, w), View(t, DeadLetter(t, w, key, p, origin));
    var k := if origin.Some? && origin.value in v.dlq then origin.value else key;
    assert k in v.dlq ==> KeptAt(logs, k, v.dlq[k]);
    assert k in v'.dlq && v'.dlq[k] == p;
  }

  lemma OriginKept(logs: Logs, t: Tables, w: Writes, rec: Record)
    requires RowsMatchLog(logs, t.dlq) && LettersOk(logs, View(t, w).rows, w)
    ensures Origin(t, w, rec).Some? ==> KeptAt(logs, Origin(t, w, rec).value, rec.payload)
  {
    if Origin(t, w, rec).Some? {
      assert KeptAt(logs, rec.replayOf.value, View(t, w).dlq[rec.replayOf.value]);
    }
  }

  /** With one source for each event a record is accounted for, projected or refused, and nothing is lost. */
  lemma RecordStep(sent: iset<Payload>, accepts: Acceptance, logs: Logs, t: Tables, w: Writes, key: Key, rec: Record,
        outcome: Outcome)
    requires OneSource(sent, accepts) && RowsMatchLog(logs, t.dlq) && WritesOk(sent, accepts, logs, t, w)
    requires KeptAt(logs, key, rec.payload) && rec.payload in sent
             && (outcome.Rejects? || outcome == Project(View(t, w), rec.payload))
    ensures var w' := Recorded(t, w, key, rec, outcome);
            WritesOk(sent, accepts, logs, t, w') && Accounted(View(t, w'), rec.payload)
                && Progress(View(t, w), View(t, w'))
  {
    var w' := Recorded(t, w, key, rec, outcome);
    match outcome
    case Adds(rows) =>
      var mid := w.(rows := Overlay(w.rows, rows));
      ProjectStep(sent, accepts, logs, t, w, rec.payload);
      ResolveStep(sent, accepts, logs, t, mid, rec);
      ProgressKeepsAccounted(View(t, mid), View(t, w'), rec.payload);
      ProgressComposes(View(t, w), View(t, mid), View(t, w'));
    case Rejects =>
      OriginKept(logs, t, w, rec);
      DeadLetterStep(sent, accepts, logs, t, w, key, rec.payload, Origin(t, w, rec));
  }

  lemma CommitIsProgress(sent: iset<Payload>, accepts: Acceptance, logs: Logs, t: Tables, w: Writes)
    requires RowsMatchLog(logs, t.dlq) && WritesOk(sent, accepts, logs, t, w)
    ensures Progress(t, View(t, w))
  {
    OverlayGrows(t.rows, w.rows);
    forall q | Landed(t.rows, q) ensures Landed(View(t, w).rows, q) {
      GrowsKeepsLanded(t.rows, View(t, w).rows, q);
    }
    forall k | k in t.dlq
      ensures (k in View(t, w).dlq && View(t, w).dlq[k] == t.dlq[k]) || Landed(View(t, w).rows, t.dlq[k])
    {
      assert KeptAt(logs, k, t.dlq[k]);
    }
  }

  // ---- What other transactions do to an open batch ----

  /** The committed tables change under the batch, and everything it relies on stays. */
  lemma ViewProgress(sent: iset<Payload>, accepts: Acceptance, logs: Logs, t: Tables, t': Tables, w: Writes)
    requires WritesOk(sent, accepts, logs, t, w) && Grows(t.rows, t'.rows) && Apart(t'.rows, w.rows)
    requires Progress(t, t') && RowsOk(sent, accepts, t.rows, t.completed)
    requires forall id :: id in t.rows.assemblies ==> KeptAssembly(t.rows, t'.rows, id) || !Touches(w.rows, id)
    ensures Progress(View(t, w), View(t', w)) && LettersOk(logs, View(t', w).rows, w)
  {
    var v, v' := View(t, w), View(t', w);
    GrowsUnder(t.rows, t'.rows, w.rows);
    forall q | Landed(v.rows, q) ensures Landed(v'.rows, q) {
      GrowsKeepsLanded(v.rows, v'.rows, q);
    }
    forall k | k in v.dlq ensures (k in v'.dlq && v'.dlq[k] == v.dlq[k]) || Landed(v'.rows, v.dlq[k]) {
      if k !in w.puts {
        assert k in t.dlq;
        if Landed(t'.rows, t.dlq[k]) {
          OverlayGrows(t'.rows, w.rows);
          GrowsKeepsLanded(t'.rows, v'.rows, t.dlq[k]);
        }
      }
    }
  }

  /** Two batches that write no row in common can commit one under the other. */
  lemma CommitUnder(sent: iset<Payload>, accepts: Acceptance, logs: Logs, t: Tables, u: Writes, w: Writes)
    requires RowsOk(sent, accepts, t.rows, t.completed) && RowsMatchLog(logs, t.dlq) && Apart(u.rows, w.rows)
    requires WritesOk(sent, accepts, logs, t, u) && WritesOk(sent, accepts, logs, t, w)
    ensures WritesOk(sent, accepts, logs, View(t, u), w) && Progress(View(t, w), View(View(t, u), w))
  {
    var t' := View(t, u);
    OverlayGrows(t.rows, u.rows);
    CommitIsProgress(sent, accepts, logs, t, u);
    forall id | id in t.rows.assemblies ensures KeptAssembly(t.rows, t'.rows, id) {
    }
    ViewProgress(sent, accepts, logs, t, t', w);
    RowsUnder(sent, accepts, t, u.rows, w.rows);
  }

  lemma RowsUnder(sent: iset<Payload>, accepts: Acceptance, t: Tables, u: Rows, w: Rows)
    requires Apart(t.rows, u) && Apart(t.rows, w) && Apart(u, w)
    requires RowsOk(sent, accepts, Overlay(t.rows, u), t.completed)
             && RowsOk(sent, accepts, Overlay(t.rows, w), t.completed)
    ensures RowsOk(sent, accepts, Overlay(Overlay(t.rows, u), w), t.completed)
  {
    var r := t.rows;
    HeadersUnder(sent, r.headers, u.headers, w.headers, r.assemblies, u.assemblies, w.assemblies);
    PartsUnder(sent, r.parts, u.parts, w.parts, r.assemblies, u.assemblies, w.assemblies);
    assert LedgerFrom(sent, accepts, r.ledger + u.ledger + w.ledger) by {
      forall id | id in r.ledger + u.ledger + w.ledger
          ensures SourceFrom(sent, accepts, id, (r.ledger + u.ledger + w.ledger)[id]) {
        assert id in r.ledger + u.ledger || id in r.ledger + w.ledger;
      }
    }
    CompletedUnder(r.ledger, u.ledger, w.ledger, r.assemblies, u.assemblies, w.assemblies, t.completed);
  }

  lemma HeadersUnder(sent: iset<Payload>, r: map<EventId, string>, u: map<EventId, string>, w: map<EventId, string>,
                     ra: map<EventId, Transport>, ua: map<EventId, Transport>, wa: map<EventId, Transport>)
    requires HeadersFrom(sent, r + u, ra + ua) && HeadersFrom(sent, r + w, ra + wa) && ra.Keys !! ua.Keys
    requires ua.Keys !! wa.Keys && ra.Keys !! wa.Keys
    ensures HeadersFrom(sent, r + u + w, ra + ua + wa)
  {
    forall id | id in r + u + w ensures id in ra + ua + wa
        && Manifest(id, (ra + ua + wa)[id], (r + u + w)[id]) in sent {
      if id in w {
        assert id in r + w;
      } else {
        assert id in r + u;
      }
    }
  }

  lemma PartsUnder(sent: iset<Payload>, r: map<PartKey, string>, u: map<PartKey, string>, w: map<PartKey, string>,
                   ra: map<EventId, Transport>, ua: map<EventId, Transport>, wa: map<EventId, Transport>)
    requires PartsFrom(sent, r + u, ra + ua) && PartsFrom(sent, r + w, ra + wa) && ra.Keys !! ua.Keys
    requires ua.Keys !! wa.Keys && ra.Keys !! wa.Keys
    ensures PartsFrom(sent, r + u + w, ra + ua + wa)
  {
    var z, za := r + u + w, ra + ua + wa;
    forall k | k in z ensures k.id in za && k.index < za[k.id].count && HasPart(sent, k.id, za[k.id], k.index, z[k]) {
      if k in w {
        assert k in r + w;
      } else {
        assert k in r + u;
      }
    }
  }

  lemma CompletedUnder(r: map<EventId, Source>, u: map<EventId, Source>, w: map<EventId, Source>,
                       ra: map<EventId, Transport>, ua: map<EventId, Transport>, wa: map<EventId, Transport>,
                           completed: map<EventId, string>)
    requires CompletedOk(r + u, ra + ua, completed) && CompletedOk(r + w, ra + wa, completed) && u.Keys !! w.Keys
             && r.Keys !! w.Keys
    ensures CompletedOk(r + u + w, ra + ua + wa, completed)
  {
    forall id | id in completed
      ensures id !in ra + ua + wa && id in r + u + w && (r + u + w)[id].FromParts?
              && (r + u + w)[id].transport.digest == completed[id]
    {
      assert id !in ra + wa && id in r + u;
    }
    forall id | id in r + u + w && (r + u + w)[id].FromParts? ensures id in completed {
      assert id in r + u || id in r + w;
    }
  }

  // ---- Completing ----

  /** With one source for each event, the ledger does not have an event whose assembly completes. */
  lemma CompletesAlone(sent: iset<Payload>, accepts: Acceptance, t: Tables, id: EventId)
    requires OneSource(sent, accepts) && RowsOk(sent, accepts, t.rows, t.completed) && Completes(accepts, t.rows, id)
    ensures id !in t.rows.ledger && id !in t.completed
    ensures Completable(sent, accepts, id, Completed(t, id).rows.ledger[id])
  {
    var transport := t.rows.assemblies[id];
    var source := FromParts(transport, t.rows.headers[id], BodiesOf(t.rows, id, transport.count));
    forall i | i in source.bodies ensures HasPart(sent, id, transport, i, source.bodies[i]) {
      assert PartKey(id, i) in t.rows.parts;
    }
    assert Completable(sent, accepts, id, source);
    NoPlainBeside(sent, accepts, id, source);
  }

  lemma NoPlainBeside(sent: iset<Payload>, accepts: Acceptance, id: EventId, source: Source)
    requires NoRival(sent, accepts) && Completable(sent, accepts, id, source)
    ensures forall event, raw :: Plain(id, event, raw) !in sent
  {
  }

  lemma CompleteGrows(sent: iset<Payload>, accepts: Acceptance, t: Tables, id: EventId)
    requires OneSource(sent, accepts) && RowsOk(sent, accepts, t.rows, t.completed) && Completes(accepts, t.rows, id)
    ensures var t' := Completed(t, id);
            && RowsOk(sent, accepts, t'.rows, t'.completed) && Grows(t.rows, t'.rows) && Progress(t, t')
            && (forall o :: o in t.rows.assemblies && o != id ==> KeptAssembly(t.rows, t'.rows, o))
  {
    var t' := Completed(t, id);
    CompletesAlone(sent, accepts, t, id);
    CompleteAbsorbs(sent, t, id);
    CompleteRows(sent, accepts, t, id);
    forall q | Landed(t.rows, q) ensures Landed(t'.rows, q) {
      GrowsKeepsLanded(t.rows, t'.rows, q);
    }
  }

  lemma CompleteAbsorbs(sent: iset<Payload>, t: Tables, id: EventId)
    requires id in t.rows.assemblies && id in t.rows.headers && id !in t.rows.ledger
             && PartsFrom(sent, t.rows.parts, t.rows.assemblies)
    ensures var t' := Completed(t, id);
            Grows(t.rows, t'.rows) && (forall o :: o in t.rows.assemblies && o != id ==>
                KeptAssembly(t.rows, t'.rows, o))
  {
    var t' := Completed(t, id);
    assert Absorbed(t.rows, t'.rows, id);
    forall o | o in t.rows.assemblies && o != id ensures KeptAssembly(t.rows, t'.rows, o) {
    }
  }

  lemma CompleteRows(sent: iset<Payload>, accepts: Acceptance, t: Tables, id: EventId)
    requires id in t.rows.assemblies && id in t.rows.headers && id !in t.rows.ledger && id !in t.completed
    requires RowsOk(sent, accepts, t.rows, t.completed)
             && Completable(sent, accepts, id, Completed(t, id).rows.ledger[id])
    ensures RowsOk(sent, accepts, Completed(t, id).rows, Completed(t, id).completed)
  {
    var r, r' := t.rows, Completed(t, id).rows;
    HeadersLeft(sent, r.headers, r.assemblies, id);
    PartsLeft(sent, r.parts, r.assemblies, id);
    CompletedLeft(r.ledger, r.assemblies, t.completed, id, r'.ledger[id]);
    forall o | o in r'.ledger ensures SourceFrom(sent, accepts, o, r'.ledger[o]) {
      assert o == id || o in r.ledger;
    }
  }

  lemma CompletedLeft(ledger: map<EventId, Source>, assemblies: map<EventId, Transport>,
        completed: map<EventId, string>,
                      id: EventId, source: Source)
    requires CompletedOk(ledger, assemblies, completed) && source.FromParts?
    ensures CompletedOk(ledger[id := source], assemblies - {id}, completed[id := source.transport.digest])
  {
  }

  lemma HeadersLeft(sent: iset<Payload>, headers: map<EventId, string>, assemblies: map<EventId, Transport>,
        id: EventId)
    requires HeadersFrom(sent, headers, assemblies)
    ensures HeadersFrom(sent, headers - {id}, assemblies - {id})
  {
  }

  lemma PartsLeft(sent: iset<Payload>, parts: map<PartKey, string>, assemblies: map<EventId, Transport>, id: EventId)
    requires PartsFrom(sent, parts, assemblies)
    ensures PartsFrom(sent, map k | k in parts && k.id != id :: parts[k], assemblies - {id})
  {
  }

  /** A completion under an open batch that has not touched the event. */
  lemma CompleteUnder(sent: iset<Payload>, accepts: Acceptance, logs: Logs, t: Tables, id: EventId, w: Writes)
    requires OneSource(sent, accepts) && RowsOk(sent, accepts, t.rows, t.completed) && Completes(accepts, t.rows, id)
    requires WritesOk(sent, accepts, logs, t, w) && !Touches(w.rows, id)
    ensures WritesOk(sent, accepts, logs, Completed(t, id), w)
    ensures Progress(View(t, w), View(Completed(t, id), w))
  {
    var t' := Completed(t, id);
    CompleteGrows(sent, accepts, t, id);
    ViewProgress(sent, accepts, logs, t, t', w);
    CompletedFrom(sent, accepts, t, id, w.rows);
  }

  lemma CompletedFrom(sent: iset<Payload>, accepts: Acceptance, t: Tables, id: EventId, w: Rows)
    requires id in t.rows.assemblies && id in t.rows.headers && !Touches(w, id) && Apart(t.rows, w)
    requires RowsOk(sent, accepts, Completed(t, id).rows, Completed(t, id).completed)
    requires RowsOk(sent, accepts, Overlay(t.rows, w), t.completed)
    ensures RowsOk(sent, accepts, Overlay(Completed(t, id).rows, w), Completed(t, id).completed)
  {
    var r, r' := t.rows, Completed(t, id).rows;
    HeadersWithout(sent, r.headers, w.headers, r.assemblies, w.assemblies, id);
    PartsWithout(sent, r.parts, w.parts, r.assemblies, w.assemblies, id);
    LedgerWith(sent, accepts, r, r', w, t.completed, Completed(t, id).completed, id);
  }

  lemma LedgerWith(sent: iset<Payload>, accepts: Acceptance, r: Rows, r': Rows, w: Rows,
                   completed: map<EventId, string>, completed': map<EventId, string>, id: EventId)
    requires LedgerFrom(sent, accepts, r.ledger + w.ledger) && LedgerFrom(sent, accepts, r'.ledger)
    requires CompletedOk(r.ledger + w.ledger, r.assemblies + w.assemblies, completed)
             && CompletedOk(r'.ledger, r'.assemblies, completed')
    requires w.ledger.Keys !! r'.ledger.Keys && id !in w.assemblies
             && (forall o :: o in completed' <==> o in completed || o == id)
    ensures LedgerFrom(sent, accepts, r'.ledger + w.ledger)
            && CompletedOk(r'.ledger + w.ledger, r'.assemblies + w.assemblies, completed')
  {
    var z := r'.ledger + w.ledger;
    forall o | o in w.ledger ensures z[o] == (r.ledger + w.ledger)[o] && SourceFrom(sent, accepts, o, z[o]) {
    }
    forall o | o in completed' ensures o !in r'.assemblies + w.assemblies {
      assert o == id || o !in r.assemblies + w.assemblies;
    }
  }

  lemma HeadersWithout(sent: iset<Payload>, r: map<EventId, string>, w: map<EventId, string>,
                       ra: map<EventId, Transport>, wa: map<EventId, Transport>, id: EventId)
    requires HeadersFrom(sent, r + w, ra + wa) && id !in w && id !in wa
    ensures HeadersFrom(sent, (r - {id}) + w, (ra - {id}) + wa)
  {
    forall o | o in (r - {id}) + w
      ensures o in (ra - {id}) + wa && Manifest(o, ((ra - {id}) + wa)[o], ((r - {id}) + w)[o]) in sent
    {
      assert o in r + w && o != id;
    }
  }

  lemma PartsWithout(sent: iset<Payload>, r: map<PartKey, string>, w: map<PartKey, string>,
                     ra: map<EventId, Transport>, wa: map<EventId, Transport>, id: EventId)
    requires PartsFrom(sent, r + w, ra + wa) && id !in wa && forall k :: k in w ==> k.id != id
    ensures PartsFrom(sent, (map k | k in r && k.id != id :: r[k]) + w, (ra - {id}) + wa)
  {
    var z, za := (map k | k in r && k.id != id :: r[k]) + w, (ra - {id}) + wa;
    forall k | k in z ensures k.id in za && k.index < za[k.id].count && HasPart(sent, k.id, za[k.id], k.index, z[k]) {
      assert k in r + w && (r + w)[k] == z[k] && k.id != id;
    }
  }
}
