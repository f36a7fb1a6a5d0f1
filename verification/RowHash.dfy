/**
 The hash a ledger row carries in each hash version, and the verifier's check that a stored
 row reproduces it, with the search for lost nanoseconds and the zero token retry.
 */
module RowHash {
  import opened Common
  import opened Bytes
  import opened Canonical
  import opened HashChain

  // ---- The payload ----

  datatype Field =
    | OrgId | ShardNo | SeqNo | EventId | EventTime | ActorId | ActorKind | Action | EntityKind | EntityId
    | PiiRef | Context | Delta | Idempotency | Outcome | ErrorField | Extra | HashVersion

  function Name(f: Field): Text {
    match f
    case OrgId => Ascii("org_id")
    case ShardNo => Ascii("shard")
    case SeqNo => Ascii("seq")
    case EventId => Ascii("event_id")
    case EventTime => Ascii("event_time")
    case ActorId => Ascii("actor_id")
    case ActorKind => Ascii("actor_kind")
    case Action => Ascii("action")
    case EntityKind => Ascii("entity_kind")
    case EntityId => Ascii("entity_id")
    case PiiRef => Ascii("pii_ref")
    case Context => Ascii("context")
    case Delta => Ascii("delta")
    case Idempotency => Ascii("idempotency")
    case Outcome => Ascii("outcome")
    case ErrorField => Ascii("error")
    case Extra => Ascii("extra")
    case HashVersion => Ascii("hash_version")
  }

  /** Which field a member name belongs to, told by its length and one letter. */
  function FieldNamed(t: Text): Field {
    match |t|
    case 3 => SeqNo
    case 5 => if t[1] == 104 then ShardNo else if t[1] == 101 then Delta else if t[1] == 114 then ErrorField else Extra
    case 6 => if t[0] == 111 then OrgId else Action
    case 7 => if t[0] == 112 then PiiRef else if t[0] == 99 then Context else Outcome
    case 8 => if t[0] == 101 then EventId else ActorId
    case 9 => EntityId
    case 10 => if t[0] == 101 then EventTime else ActorKind
    case 11 => if t[1] == 110 then EntityKind else Idempotency
    case _ => HashVersion
  }

  lemma NamesDiffer(f: Field)
    ensures FieldNamed(Name(f)) == f
  {
  }

  predicate CoveredBy(f: Field, version: int) {
    match f
    case Outcome => version >= 2
    case ErrorField => version >= 2
    case Extra => version >= 2
    case HashVersion => version >= 3
    case _ => true
  }

  /** The texts of times and numbers: RFC 3339 with nanoseconds, and the shortest form of a float64. */
  datatype Render = Render(time: int -> Text, number: int -> Text)

  datatype Input = Input(
    version: int, orgId: Text, shard: int, seqNo: int, eventId: Text, nanos: int, actorId: Text, actorKind: Text,
    action: Text, entityKind: Text, entityId: Text, piiRef: Text, context: Json, delta: Json, idempotency: Text,
    outcome: Text, error: Json, extra: Json)

  /** Version 3 hashes the time at stored precision, earlier versions the producer's nanoseconds. */
  function HashedNanos(in_: Input): int {
    if in_.version == 3 then in_.nanos - in_.nanos % 1000 else in_.nanos
  }

  function Value(render: Render, in_: Input, f: Field): Json {
    match f
    case OrgId => Str(in_.orgId)
    case ShardNo => Num(render.number(in_.shard))
    case SeqNo => Num(render.number(in_.seqNo))
    case EventId => Str(in_.eventId)
    case EventTime => Str(render.time(HashedNanos(in_)))
    case ActorId => Str(in_.actorId)
    case ActorKind => Str(in_.actorKind)
    case Action => Str(in_.action)
    case EntityKind => Str(in_.entityKind)
    case EntityId => Str(in_.entityId)
    case PiiRef => Str(in_.piiRef)
    case Context => in_.context
    case Delta => in_.delta
    case Idempotency => Str(in_.idempotency)
    case Outcome => Str(in_.outcome)
    case ErrorField => in_.error
    case Extra => in_.extra
    case HashVersion => Num(render.number(in_.version))
  }

  const ALL_FIELDS: set<Field> := {
    OrgId, ShardNo, SeqNo, EventId, EventTime, ActorId, ActorKind, Action, EntityKind, EntityId,
    PiiRef, Context, Delta, Idempotency, Outcome, ErrorField, Extra, HashVersion}

  function Names(version: int): set<Text> {
    set f | f in ALL_FIELDS && CoveredBy(f, version) :: Name(f)
  }

  function Payload(render: Render, in_: Input): Json {
    Obj(map t | t in Names(in_.version) :: Value(render, in_, FieldNamed(t)))
  }

  lemma PayloadMember(render: Render, in_: Input, f: Field)
    ensures Name(f) in Payload(render, in_).members <==> CoveredBy(f, in_.version)
    ensures CoveredBy(f, in_.version) ==> Payload(render, in_).members[Name(f)] == Value(render, in_, f)
  {
    NamesDiffer(f);
    assert f in ALL_FIELDS;
    if Name(f) in Names(in_.version) {
      var g :| g in ALL_FIELDS && CoveredBy(g, in_.version) && Name(g) == Name(f);
      NamesDiffer(g);
    }
  }

  /** Equal payloads have the same version and the same value in every covered field. */
  lemma PayloadDetermines(render: Render, a: Input, b: Input)
    requires 1 <= a.version <= 3 && 1 <= b.version <= 3 && Payload(render, a) == Payload(render, b)
    ensures a.version == b.version
    ensures forall f :: CoveredBy(f, a.version) ==> Value(render, a, f) == Value(render, b, f)
  {
    forall f ensures CoveredBy(f, a.version) <==> CoveredBy(f, b.version)
             ensures CoveredBy(f, a.version) ==> Value(render, a, f) == Value(render, b, f)
    {
      PayloadMember(render, a, f);
      PayloadMember(render, b, f);
    }
    assert CoveredBy(Outcome, a.version) <==> CoveredBy(Outcome, b.version);
    assert CoveredBy(HashVersion, a.version) <==> CoveredBy(HashVersion, b.version);
  }

  // ---- Stored rows ----

  const NIL_UUID: Text := Ascii("00000000-0000-0000-0000-000000000000")
  const TOKEN_KEY: Text := Ascii("api_token_id")

  /** A decoded context: its token id apart from its other members. */
  datatype EventContext = EventContext(members: map<Text, Json>, tokenId: Text)

  /** The current encoding leaves a zero token id out. */
  function ContextJson(c: EventContext): Json {
    Obj(if c.tokenId == NIL_UUID then c.members else c.members[TOKEN_KEY := Str(c.tokenId)])
  }

  /** The encoding of the window that wrote a zero token id. */
  function ContextWithZeroToken(c: EventContext): Json {
    Obj(c.members[TOKEN_KEY := Str(NIL_UUID)])
  }

  datatype StoredRow = StoredRow(
    version: int, orgId: Text, shard: int, seqNo: int, eventId: Text, nanos: int, actorId: Text, actorCode: int,
    action: Text, entityKind: Text, entityId: Text, piiRef: Option<Text>, context: EventContext, delta: Json,
    idempotency: Text, outcome: Text, error: Json, extra: Json, prevHash: Text, rowHash: Text)

  function ActorType(code: int): Text {
    match code
    case 1 => Ascii("user")
    case 2 => Ascii("service")
    case 3 => Ascii("system")
    case 4 => Ascii("api_token")
    case 5 => Ascii("operator")
    case 6 => Ascii("unauthenticated")
    case _ => []
  }

  function PiiText(ref: Option<Text>): Text {
    if ref.Some? then ref.value else NIL_UUID
  }

  function InputFor(row: StoredRow): Input {
    Input(row.version, row.orgId, row.shard, row.seqNo, row.eventId, row.nanos, row.actorId, ActorType(row.actorCode),
          row.action, row.entityKind, row.entityId, PiiText(row.piiRef), ContextJson(row.context), row.delta,
          row.idempotency, row.outcome, row.error, row.extra)
  }

  /** The hash input tried at a lost remainder, or in the zero token retry. */
  function Candidate(row: StoredRow, remainder: int, zeroToken: bool): Input {
    var in_ := InputFor(row).(nanos := row.nanos + remainder);
    if zeroToken then in_.(context := ContextWithZeroToken(row.context)) else in_
  }

  ghost function CandidatePreimage(render: Render, row: StoredRow, remainder: int, zeroToken: bool): Text {
    Preimage(row.prevHash, Payload(render, Candidate(row, remainder, zeroToken)))
  }

  /** The candidates the verifier may try for a row. */
  predicate Tries(row: StoredRow, remainder: int, zeroToken: bool) {
    if row.version < 3 then 0 <= remainder < 1000 && !zeroToken
    else remainder == 0 && (zeroToken ==> row.context.tokenId == NIL_UUID)
  }

  ghost predicate Reproduces(sha: Hash, render: Render, row: StoredRow) {
    exists remainder, zeroToken ::
      Tries(row, remainder, zeroToken) && sha(CandidatePreimage(render, row, remainder, zeroToken)) == row.rowHash
  }

  /** A stored time is a whole number of microseconds and the ledger only wrote versions 1 to 3. */
  predicate Plausible(row: StoredRow) {
    1 <= row.version <= 3 && (row.version < 3 ==> row.nanos % 1000 == 0)
  }

  // ---- The hash of a stored row, name by name ----

  /** The members of every hashed document. */
  ghost function FirstNames(): set<Text> {
    {Ascii("org_id"), Ascii("shard"), Ascii("seq"), Ascii("event_id"), Ascii("event_time"), Ascii("actor_id"),
     Ascii("actor_kind"), Ascii("action"), Ascii("entity_kind"), Ascii("entity_id"), Ascii("pii_ref"),
     Ascii("context"), Ascii("delta"), Ascii("idempotency")}
  }

  /** The members that versions 2 and 3 added. */
  ghost function LaterNames(version: int): set<Text> {
    (if version >= 2 then {Ascii("outcome"), Ascii("error"), Ascii("extra")} else {})
    + (if version >= 3 then {Ascii("hash_version")} else {})
  }

  ghost predicate ActorNamed(code: int, kind: Text) {
    && (code == 1 ==> kind == Ascii("user")) && (code == 2 ==> kind == Ascii("service"))
    && (code == 3 ==> kind == Ascii("system")) && (code == 4 ==> kind == Ascii("api_token"))
    && (code == 5 ==> kind == Ascii("operator")) && (code == 6 ==> kind == Ascii("unauthenticated"))
    && (code < 1 || code > 6 ==> kind == [])
  }

  /** The context as it is stored, with its token id unless that is the zero one, or with the zero one written out. */
  ghost predicate ContextWritten(row: StoredRow, context: Json) {
    var zero := Ascii("00000000-0000-0000-0000-000000000000");
    var members := row.context.members;
    if row.context.tokenId != zero then context == Obj(members[Ascii("api_token_id") := Str(row.context.tokenId)])
    else context == Obj(members) || (row.version == 3 && context == Obj(members[Ascii("api_token_id") := Str(zero)]))
  }

  /** Versions 1 and 2 hashed any of the nanoseconds the column dropped, version 3 the whole microsecond. */
  ghost predicate TimeWritten(row: StoredRow, time: int) {
    if row.version < 3 then row.nanos <= time < row.nanos + 1000 else time == row.nanos - row.nanos % 1000
  }

  ghost predicate Says(doc: map<Text, Json>, name: string, value: Json) {
    Ascii(name) in doc && doc[Ascii(name)] == value
  }

  ghost predicate SaysPlace(render: Render, row: StoredRow, doc: map<Text, Json>) {
    && Says(doc, "org_id", Str(row.orgId)) && Says(doc, "event_id", Str(row.eventId))
    && Says(doc, "shard", Num(render.number(row.shard))) && Says(doc, "seq", Num(render.number(row.seqNo)))
  }

  ghost predicate SaysDeed(row: StoredRow, doc: map<Text, Json>) {
    && Says(doc, "actor_id", Str(row.actorId)) && Says(doc, "action", Str(row.action))
    && Says(doc, "entity_kind", Str(row.entityKind)) && Says(doc, "entity_id", Str(row.entityId))
    && exists kind :: ActorNamed(row.actorCode, kind) && Says(doc, "actor_kind", Str(kind))
  }

  ghost predicate SaysContent(row: StoredRow, doc: map<Text, Json>) {
    && Says(doc, "delta", row.delta) && Says(doc, "idempotency", Str(row.idempotency))
    && Says(doc, "pii_ref",
            Str(if row.piiRef.Some? then row.piiRef.value else Ascii("00000000-0000-0000-0000-000000000000")))
  }

  ghost predicate SaysOutcome(row: StoredRow, doc: map<Text, Json>) {
    Says(doc, "outcome", Str(row.outcome)) && Says(doc, "error", row.error) && Says(doc, "extra", row.extra)
  }

  /** A document the ledger may have hashed for a row: its members by name, from the row's columns. */
  ghost predicate Document(render: Render, row: StoredRow, time: int, context: Json, doc: map<Text, Json>) {
    && doc.Keys == FirstNames() + LaterNames(row.version) 
    && SaysPlace(render, row, doc) && SaysDeed(row, doc) && SaysContent(row, doc)
    && (row.version >= 2 ==> SaysOutcome(row, doc))
    && (row.version >= 3 ==> Says(doc, "hash_version", Num(render.number(row.version))))
    && TimeWritten(row, time) && Says(doc, "event_time", Str(render.time(time)))
    && ContextWritten(row, context) && Says(doc, "context", context)
  }

  /** The previous hash, the length of a text in eight bytes, and the text. */
  ghost predicate Sealing(prev: Text, text: Text, input: Text) {
    exists length: Text ::
      |length| == 8 && Number(length) == |text| % 18446744073709551616 && input == prev + length + text
  }

  /** The row carries the hash of a canonical text of such a document after its previous hash. */
  ghost predicate Written(sha: Hash, render: Render, row: StoredRow) {
    exists doc, time, context, text, input ::
      Document(render, row, time, context, doc) && Spells(Obj(doc), text) && Sealing(row.prevHash, text, input)
      && sha(input) == row.rowHash
  }

  predicate LaterField(f: Field) {
    f.Outcome? || f.ErrorField? || f.Extra? || f.HashVersion?
  }

  lemma NameIsListed(f: Field, version: int)
    requires CoveredBy(f, version)
    ensures Name(f) in if LaterField(f) then LaterNames(version) else FirstNames()
  {
  }

  lemma FirstFields(t: Text) returns (f: Field)
    requires t in FirstNames()
    ensures !LaterField(f) && Name(f) == t
  {
    f := if t == Ascii("org_id") then OrgId else if t == Ascii("shard") then ShardNo
    else if t == Ascii("seq") then SeqNo else if t == Ascii("event_id") then EventId
    else if t == Ascii("event_time") then EventTime else if t == Ascii("actor_id") then ActorId
    else if t == Ascii("actor_kind") then ActorKind else if t == Ascii("action") then Action
    else if t == Ascii("entity_kind") then EntityKind else if t == Ascii("entity_id") then EntityId
    else if t == Ascii("pii_ref") then PiiRef else if t == Ascii("context") then Context
    else if t == Ascii("delta") then Delta else Idempotency;
  }

  lemma LaterFields(t: Text, version: int) returns (f: Field)
    requires t in LaterNames(version)
    ensures CoveredBy(f, version) && Name(f) == t
  {
    f := if t == Ascii("outcome") then Outcome else if t == Ascii("error") then ErrorField
    else if t == Ascii("extra") then Extra else HashVersion;
  }

  lemma NameIsCovered(t: Text, version: int) returns (f: Field)
    requires t in FirstNames() + LaterNames(version)
    ensures CoveredBy(f, version) && Name(f) == t
  {
    if t in FirstNames() {
      f := FirstFields(t);
    } else {
      f := LaterFields(t, version);
    }
  }

  lemma CoveredIsNamed(f: Field, version: int)
    requires CoveredBy(f, version)
    ensures Name(f) in Names(version)
  {
    assert f in ALL_FIELDS;
  }

  lemma NamesAreListed(version: int)
    ensures Names(version) == FirstNames() + LaterNames(version)
  {
    var listed := FirstNames() + LaterNames(version);
    forall t | t in Names(version) ensures t in listed {
      var f :| f in ALL_FIELDS && CoveredBy(f, version) && Name(f) == t;
      NameIsListed(f, version);
    }
    forall t | t in listed ensures t in Names(version) {
      var f := NameIsCovered(t, version);
      CoveredIsNamed(f, version);
    }
  }

  /** What a document says under a field's name is what the hash input says there. */
  ghost predicate Agrees(render: Render, in_: Input, doc: map<Text, Json>, f: Field) {
    Name(f) in doc && doc[Name(f)] == Value(render, in_, f)
  }

  ghost predicate AllAgree(render: Render, in_: Input, doc: map<Text, Json>) {
    forall f :: CoveredBy(f, in_.version) ==> Agrees(render, in_, doc, f)
  }

  lemma AgreedPlace(render: Render, row: StoredRow, in_: Input, r: int, z: bool, doc: map<Text, Json>)
    requires in_ == Candidate(row, r, z) && AllAgree(render, in_, doc)
    ensures SaysPlace(render, row, doc)
  {
    assert Agrees(render, in_, doc, OrgId) && Agrees(render, in_, doc, EventId);
    assert Agrees(render, in_, doc, ShardNo) && Agrees(render, in_, doc, SeqNo);
  }

  lemma AgreedDeed(render: Render, row: StoredRow, in_: Input, r: int, z: bool, doc: map<Text, Json>)
    requires in_ == Candidate(row, r, z) && AllAgree(render, in_, doc)
    ensures SaysDeed(row, doc)
  {
    assert Agrees(render, in_, doc, ActorId) && Agrees(render, in_, doc, Action);
    assert Agrees(render, in_, doc, EntityKind) && Agrees(render, in_, doc, EntityId);
    assert Agrees(render, in_, doc, ActorKind);
    assert ActorNamed(row.actorCode, in_.actorKind);
  }

  lemma AgreedContent(render: Render, row: StoredRow, in_: Input, r: int, z: bool, doc: map<Text, Json>)
    requires in_ == Candidate(row, r, z) && AllAgree(render, in_, doc)
    ensures SaysContent(row, doc)
  {
    assert Agrees(render, in_, doc, Delta) && Agrees(render, in_, doc, Idempotency);
    assert Agrees(render, in_, doc, PiiRef);
  }

  lemma AgreedOutcome(render: Render, row: StoredRow, in_: Input, r: int, z: bool, doc: map<Text, Json>)
    requires in_ == Candidate(row, r, z) && AllAgree(render, in_, doc) && row.version >= 2
    ensures SaysOutcome(row, doc)
  {
    assert Agrees(render, in_, doc, Outcome) && Agrees(render, in_, doc, ErrorField);
    assert Agrees(render, in_, doc, Extra);
  }

  lemma AgreedWhen(render: Render, row: StoredRow, in_: Input, r: int, z: bool, doc: map<Text, Json>)
    requires in_ == Candidate(row, r, z) && AllAgree(render, in_, doc)
    ensures Says(doc, "event_time", Str(render.time(HashedNanos(in_)))) && Says(doc, "context", in_.context)
    ensures row.version >= 3 ==> Says(doc, "hash_version", Num(render.number(row.version)))
  {
    assert CoveredBy(HashVersion, row.version) ==> Agrees(render, in_, doc, HashVersion);
    assert Agrees(render, in_, doc, EventTime) && Agrees(render, in_, doc, Context);
  }

  lemma CandidateContext(row: StoredRow, r: int, z: bool)
    requires row.version <= 3 && Tries(row, r, z)
    ensures ContextWritten(row, Candidate(row, r, z).context) && TimeWritten(row, HashedNanos(Candidate(row, r, z)))
  {
  }

  lemma PayloadAgrees(render: Render, in_: Input)
    ensures AllAgree(render, in_, Payload(render, in_).members)
  {
    forall f | CoveredBy(f, in_.version) ensures Agrees(render, in_, Payload(render, in_).members, f) {
      PayloadMember(render, in_, f);
    }
  }

  lemma AgreedDocument(render: Render, row: StoredRow, in_: Input, r: int, z: bool, doc: map<Text, Json>)
    requires row.version <= 3 && Tries(row, r, z) && in_ == Candidate(row, r, z)
    requires AllAgree(render, in_, doc) && doc.Keys == Names(row.version)
    ensures Document(render, row, HashedNanos(in_), in_.context, doc)
  {
    NamesAreListed(row.version);
    AgreedPlace(render, row, in_, r, z, doc);
    AgreedDeed(render, row, in_, r, z, doc);
    AgreedContent(render, row, in_, r, z, doc);
    if row.version >= 2 {
      AgreedOutcome(render, row, in_, r, z, doc);
    }
    AgreedWhen(render, row, in_, r, z, doc);
    CandidateContext(row, r, z);
  }

  /** The candidate that a document was hashed from. */
  lemma DocumentCandidate(row: StoredRow, time: int, context: Json) returns (r: int, z: bool)
    requires row.version <= 3 && TimeWritten(row, time) && ContextWritten(row, context)
    ensures Tries(row, r, z) && HashedNanos(Candidate(row, r, z)) == time && Candidate(row, r, z).context == context
  {
    r := if row.version < 3 then time - row.nanos else 0;
    z := context != ContextJson(row.context);
  }

  lemma DocumentAgrees(render: Render, row: StoredRow, in_: Input, r: int, z: bool, doc: map<Text, Json>, f: Field)
    requires in_ == Candidate(row, r, z) && Document(render, row, HashedNanos(in_), in_.context, doc)
    requires CoveredBy(f, row.version)
    ensures Agrees(render, in_, doc, f)
  {
    match f
    case ActorKind =>
      var kind :| ActorNamed(row.actorCode, kind) && Says(doc, "actor_kind", Str(kind));
    case _ =>
  }

  lemma DocumentAgreesAll(render: Render, row: StoredRow, in_: Input, r: int, z: bool, doc: map<Text, Json>)
    requires in_ == Candidate(row, r, z) && Document(render, row, HashedNanos(in_), in_.context, doc)
    ensures AllAgree(render, in_, doc) && doc.Keys == Names(in_.version)
  {
    NamesAreListed(row.version);
    forall f | CoveredBy(f, in_.version) ensures Agrees(render, in_, doc, f) {
      DocumentAgrees(render, row, in_, r, z, doc, f);
    }
  }

  lemma AgreedAt(render: Render, in_: Input, doc: map<Text, Json>, t: Text)
    requires AllAgree(render, in_, doc) && t in doc && t in Names(in_.version)
    ensures doc[t] == Value(render, in_, FieldNamed(t))
  {
    var f :| f in ALL_FIELDS && CoveredBy(f, in_.version) && Name(f) == t;
    NamesDiffer(f);
    assert Agrees(render, in_, doc, f);
  }

  lemma ListedValues(render: Render, in_: Input, names: set<Text>, doc: map<Text, Json>)
    requires doc.Keys == names && forall t :: t in doc ==> doc[t] == Value(render, in_, FieldNamed(t))
    ensures doc == map t | t in names :: Value(render, in_, FieldNamed(t))
  {
  }

  lemma AgreedIsPayload(render: Render, in_: Input, doc: map<Text, Json>)
    requires AllAgree(render, in_, doc) && doc.Keys == Names(in_.version)
    ensures Obj(doc) == Payload(render, in_)
  {
    forall t | t in doc ensures doc[t] == Value(render, in_, FieldNamed(t)) {
      AgreedAt(render, in_, doc, t);
    }
    ListedValues(render, in_, Names(in_.version), doc);
  }

  lemma LengthInBytes(text: Text)
    ensures Number(BigEndian(|text|, 8)) == |text| % 18446744073709551616
  {
    Pow256Of8();
    BigEndianWraps(|text|, 8);
    BigEndianNumber(|text| % Pow256(8), 8);
  }

  lemma SealingIsPreimage(prev: Text, payload: Json, input: Text)
    ensures Sealing(prev, Write(payload), input) <==> input == Preimage(prev, payload)
  {
    var text := Write(payload);
    LengthInBytes(text);
    if Sealing(prev, text, input) {
      var length: Text :|
        |length| == 8 && Number(length) == |text| % 18446744073709551616 && input == prev + length + text;
      NumberDecides(length, BigEndian(|text|, 8));
    }
  }

  lemma CandidateIsWritten(sha: Hash, render: Render, row: StoredRow, r: int, z: bool, in_: Input)
    requires row.version <= 3 && Tries(row, r, z) && in_ == Candidate(row, r, z)
    requires sha(Preimage(row.prevHash, Payload(render, in_))) == row.rowHash
    ensures Written(sha, render, row)
  {
    var payload := Payload(render, in_);
    PayloadAgrees(render, in_);
    AgreedDocument(render, row, in_, r, z, payload.members);
    WriteSpells(payload);
    SealingIsPreimage(row.prevHash, payload, Preimage(row.prevHash, payload));
    assert payload == Obj(payload.members);
  }

  lemma WrittenReproduces(sha: Hash, render: Render, row: StoredRow)
    requires row.version <= 3 && Written(sha, render, row)
    ensures Reproduces(sha, render, row)
  {
    var doc, time, context, text, input :|
      Document(render, row, time, context, doc) && Spells(Obj(doc), text) && Sealing(row.prevHash, text, input)
      && sha(input) == row.rowHash;
    OneSpelling(Obj(doc), text);
    var r, z := DocumentCandidate(row, time, context);
    DocumentAgreesAll(render, row, Candidate(row, r, z), r, z, doc);
    AgreedIsPayload(render, Candidate(row, r, z), doc);
    SealingIsPreimage(row.prevHash, Obj(doc), input);
  }

  /** The verifier's search finds a candidate exactly when the row carries the hash of a document of its own. */
  lemma ReproducesMeansWritten(sha: Hash, render: Render, row: StoredRow)
    requires row.version <= 3
    ensures Reproduces(sha, render, row) <==> Written(sha, render, row)
  {
    if Reproduces(sha, render, row) {
      var r, z :| Tries(row, r, z) && sha(CandidatePreimage(render, row, r, z)) == row.rowHash;
      CandidateIsWritten(sha, render, row, r, z, Candidate(row, r, z));
    }
    if Written(sha, render, row) {
      WrittenReproduces(sha, render, row);
    }
  }

  method HashRow(sha: Hash, prev: Text, payload: Json) returns (hash: Text)
    ensures hash == sha(Preimage(prev, payload))
  {
    var canonical := WriteCanonical([], payload);
    assert canonical == Write(payload);
    hash := sha(prev + BigEndian(|canonical|, 8) + canonical);
  }

  /** `contract` is the stored event validation that format 2 rows have to pass as well. */
  method CheckRowHash(sha: Hash, render: Render, contract: StoredRow -> bool, row: StoredRow) returns (ok: bool)
    ensures ok <==> Plausible(row) && contract(row) && Reproduces(sha, render, row)
    ensures ok <==> 1 <= row.version <= 3 && (row.version < 3 ==> row.nanos % 1000 == 0) && contract(row)
                    && Written(sha, render, row)
  {
    if row.version <= 3 {
      ReproducesMeansWritten(sha, render, row);
    }
    if !Plausible(row) || !contract(row) {
      return false;
    }
    if row.version < 3 {
      ok := CheckLegacyRowHash(sha, render, row);
      return;
    }
    var expected := HashRow(sha, row.prevHash, Payload(render, Candidate(row, 0, false)));
    if expected == row.rowHash {
      assert Tries(row, 0, false);
      return true;
    }
    if row.context.tokenId != NIL_UUID {
      return false;
    }
    expected := HashRow(sha, row.prevHash, Payload(render, Candidate(row, 0, true)));
    assert Tries(row, 0, true);
    ok := expected == row.rowHash;
  }

  method CheckLegacyRowHash(sha: Hash, render: Render, row: StoredRow) returns (ok: bool)
    requires row.version < 3
    ensures ok <==> Reproduces(sha, render, row)
    ensures ok <==> Written(sha, render, row)
  {
    ghost var hit: int -> bool := r => sha(CandidatePreimage(render, row, r, false)) == row.rowHash;
    for remainder := 0 to 1000
      invariant forall r :: 0 <= r < remainder ==> !hit(r)
    {
      var matched := TryRemainder(sha, render, row, remainder);
      if matched {
        HitReproduces(sha, render, row, remainder);
        ReproducesMeansWritten(sha, render, row);
        return true;
      }
      assert !hit(remainder);
    }
    NoHitNoMatch(sha, render, row, hit);
    ReproducesMeansWritten(sha, render, row);
    ok := false;
  }

  method TryRemainder(sha: Hash, render: Render, row: StoredRow, remainder: int) returns (matched: bool)
    ensures matched == (sha(CandidatePreimage(render, row, remainder, false)) == row.rowHash)
  {
    var expected := HashRow(sha, row.prevHash, Payload(render, Candidate(row, remainder, false)));
    matched := expected == row.rowHash;
  }

  lemma HitReproduces(sha: Hash, render: Render, row: StoredRow, remainder: int)
    requires row.version < 3 && 0 <= remainder < 1000 && sha(CandidatePreimage(render, row, remainder, false))
             == row.rowHash
    ensures Reproduces(sha, render, row)
  {
    assert Tries(row, remainder, false);
  }

  lemma NoHitNoMatch(sha: Hash, render: Render, row: StoredRow, hit: int -> bool)
    requires row.version < 3 && forall r :: 0 <= r < 1000 ==> !hit(r)
    requires forall r :: hit(r) == (sha(CandidatePreimage(render, row, r, false)) == row.rowHash)
    ensures !Reproduces(sha, render, row)
  {
    forall r, z | Tries(row, r, z) ensures sha(CandidatePreimage(render, row, r, z)) != row.rowHash {
      assert !hit(r);
    }
  }

  // ---- Two rows with one hash ----

  /** Every byte string the verifier may hash for a row. */
  ghost function TriedInputs(render: Render, row: StoredRow): set<Text> {
    if row.version < 3 then set r | 0 <= r < 1000 :: CandidatePreimage(render, row, r, false)
    else {CandidatePreimage(render, row, 0, false), CandidatePreimage(render, row, 0, true)}
  }

  ghost predicate ValidRow(row: StoredRow) {
    && TOKEN_KEY !in row.context.members
    && (forall k :: k in row.context.members ==> Valid(row.context.members[k]))
    && Valid(row.delta) && Valid(row.error) && Valid(row.extra)
  }

  /** Times render apart, and so do numbers that are different as float64. */
  ghost predicate Renders(render: Render) {
    && (forall t, u :: render.time(t) == render.time(u) ==> t == u)
    && (forall m, n :: render.number(m) == render.number(n) <==> AsFloat(m) == AsFloat(n))
    && (forall n :: NumberText(render.number(n)))
  }

  const TWO_53 := 0x20_0000_0000_0000

  function Ulp(n: nat): (u: nat)
    ensures u > 0
  {
    if n < TWO_53 then 1 else 2 * Ulp(n / 2)
  }

  /** An integer after the trip through a float64: rounded to 53 bits, ties to even. */
  function AsFloat(n: int): int {
    if n < 0 then 0 - Rounded(0 - n) else Rounded(n)
  }

  function Rounded(n: nat): nat {
    var u := Ulp(n);
    var q, r := n / u, n % u;
    if 2 * r < u || (2 * r == u && q % 2 == 0) then q * u else (q + 1) * u
  }

  lemma SmallNumbersStayExact(n: int)
    requires -TWO_53 <= n <= TWO_53
    ensures AsFloat(n) == n
  {
    var m := if n < 0 then 0 - n else n;
    if m == TWO_53 {
      assert Ulp(m) == 2;
    }
  }

  lemma PayloadValid(render: Render, row: StoredRow, remainder: int, zeroToken: bool)
    requires ValidRow(row) && Renders(render)
    ensures Valid(Payload(render, Candidate(row, remainder, zeroToken)))
  {
    var in_ := Candidate(row, remainder, zeroToken);
    assert Valid(in_.context);
    forall f ensures Valid(Value(render, in_, f)) {}
  }

  lemma ContextsAgree(a: EventContext, b: EventContext, zeroA: bool, zeroB: bool)
    requires TOKEN_KEY !in a.members && TOKEN_KEY !in b.members
    requires (zeroA ==> a.tokenId == NIL_UUID) && (zeroB ==> b.tokenId == NIL_UUID)
    requires (if zeroA then ContextWithZeroToken(a) else ContextJson(a))
             == (if zeroB then ContextWithZeroToken(b) else ContextJson(b))
    ensures a == b
  {
    var m := (if zeroA then ContextWithZeroToken(a) else ContextJson(a)).members;
    assert a.members == m - {TOKEN_KEY} && b.members == m - {TOKEN_KEY};
    assert TOKEN_KEY in m ==> m[TOKEN_KEY] == Str(a.tokenId) && m[TOKEN_KEY] == Str(b.tokenId);
  }

  /** The covered fields of two rows agree, as far as the hash can see them. */
  ghost predicate SameCovered(a: StoredRow, b: StoredRow) {
    && a.version == b.version
    && a.nanos / 1000 == b.nanos / 1000
    && AsFloat(a.shard) == AsFloat(b.shard) && AsFloat(a.seqNo) == AsFloat(b.seqNo)
    && a.orgId == b.orgId && a.eventId == b.eventId && a.actorId == b.actorId && a.action == b.action
    && a.entityKind == b.entityKind && a.entityId == b.entityId && a.idempotency == b.idempotency
    && ActorType(a.actorCode) == ActorType(b.actorCode) && PiiText(a.piiRef) == PiiText(b.piiRef)
    && a.context == b.context && a.delta == b.delta
    && (a.version >= 2 ==> a.outcome == b.outcome && a.error == b.error && a.extra == b.extra)
  }

  ghost predicate CandidatesAgree(render: Render, a: StoredRow, b: StoredRow, r: int, zr: bool, q: int, zq: bool) {
    && Tries(a, r, zr) && Tries(b, q, zq) && a.version == b.version
    && forall f :: CoveredBy(f, a.version) ==>
         Value(render, Candidate(a, r, zr), f) == Value(render, Candidate(b, q, zq), f)
  }

  lemma TimesAgree(render: Render, a: StoredRow, b: StoredRow, r: int, zr: bool, q: int, zq: bool)
    requires Renders(render) && Plausible(a) && Plausible(b) && CandidatesAgree(render, a, b, r, zr, q, zq)
    ensures a.nanos / 1000 == b.nanos / 1000
  {
    assert Value(render, Candidate(a, r, zr), EventTime) == Value(render, Candidate(b, q, zq), EventTime);
    assert HashedNanos(Candidate(a, r, zr)) == HashedNanos(Candidate(b, q, zq));
  }

  lemma NumbersAgree(render: Render, a: StoredRow, b: StoredRow, r: int, zr: bool, q: int, zq: bool)
    requires Renders(render) && CandidatesAgree(render, a, b, r, zr, q, zq)
    ensures AsFloat(a.shard) == AsFloat(b.shard) && AsFloat(a.seqNo) == AsFloat(b.seqNo)
  {
    assert Value(render, Candidate(a, r, zr), ShardNo) == Value(render, Candidate(b, q, zq), ShardNo);
    assert Value(render, Candidate(a, r, zr), SeqNo) == Value(render, Candidate(b, q, zq), SeqNo);
  }

  lemma TextsAgree(render: Render, a: StoredRow, b: StoredRow, r: int, zr: bool, q: int, zq: bool)
    requires CandidatesAgree(render, a, b, r, zr, q, zq)
    ensures a.orgId == b.orgId && a.eventId == b.eventId && a.actorId == b.actorId && a.action == b.action
    ensures ActorType(a.actorCode) == ActorType(b.actorCode) && PiiText(a.piiRef) == PiiText(b.piiRef)
  {
    var x, y := Candidate(a, r, zr), Candidate(b, q, zq);
    assert Value(render, x, OrgId) == Value(render, y, OrgId) && Value(render, x, EventId) == Value(render, y, EventId);
    assert Value(render, x, ActorId) == Value(render, y, ActorId) && Value(render, x, ActorKind)
           == Value(render, y, ActorKind);
    assert Value(render, x, Action) == Value(render, y, Action) && Value(render, x, PiiRef) == Value(render, y, PiiRef);
  }

  lemma EvidenceAgrees(render: Render, a: StoredRow, b: StoredRow, r: int, zr: bool, q: int, zq: bool)
    requires CandidatesAgree(render, a, b, r, zr, q, zq)
    ensures a.entityKind == b.entityKind && a.entityId == b.entityId && a.idempotency == b.idempotency
            && a.delta == b.delta
    ensures a.version >= 2 ==> a.outcome == b.outcome && a.error == b.error && a.extra == b.extra
  {
    var x, y := Candidate(a, r, zr), Candidate(b, q, zq);
    assert Value(render, x, EntityKind) == Value(render, y, EntityKind)
           && Value(render, x, EntityId) == Value(render, y, EntityId);
    assert Value(render, x, Idempotency) == Value(render, y, Idempotency)
           && Value(render, x, Delta) == Value(render, y, Delta);
    if a.version >= 2 {
      assert Value(render, x, Outcome) == Value(render, y, Outcome);
      assert Value(render, x, ErrorField) == Value(render, y, ErrorField)
             && Value(render, x, Extra) == Value(render, y, Extra);
    }
  }

  lemma FieldsAgree(render: Render, a: StoredRow, b: StoredRow, r: int, zr: bool, q: int, zq: bool)
    requires Renders(render) && ValidRow(a) && ValidRow(b) && Plausible(a) && Plausible(b)
    requires CandidatesAgree(render, a, b, r, zr, q, zq)
    ensures SameCovered(a, b)
  {
    TimesAgree(render, a, b, r, zr, q, zq);
    NumbersAgree(render, a, b, r, zr, q, zq);
    TextsAgree(render, a, b, r, zr, q, zq);
    EvidenceAgrees(render, a, b, r, zr, q, zq);
    assert Value(render, Candidate(a, r, zr), Context) == Value(render, Candidate(b, q, zq), Context);
    ContextsAgree(a.context, b.context, zr, zq);
  }

  /**
   Two rows that reproduce the same hash over the same previous hash claim the same version
   and agree on every field it covers, across the remainder search and the zero token retry.
   */
  lemma SameHashSameRow(sha: Hash, render: Render, a: StoredRow, b: StoredRow)
    requires Renders(render) && ValidRow(a) && ValidRow(b) && Plausible(a) && Plausible(b)
    requires Reproduces(sha, render, a) && Reproduces(sha, render, b)
    requires a.prevHash == b.prevHash && a.rowHash == b.rowHash
    requires CollisionFree(sha, TriedInputs(render, a) + TriedInputs(render, b))
    ensures SameCovered(a, b)
  {
    var r, zr :| Tries(a, r, zr) && sha(CandidatePreimage(render, a, r, zr)) == a.rowHash;
    var q, zq :| Tries(b, q, zq) && sha(CandidatePreimage(render, b, q, zq)) == b.rowHash;
    assert CandidatePreimage(render, a, r, zr) in TriedInputs(render, a);
    assert CandidatePreimage(render, b, q, zq) in TriedInputs(render, b);
    PayloadValid(render, a, r, zr);
    PayloadValid(render, b, q, zq);
    SamePrevSamePayload(a.prevHash, Payload(render, Candidate(a, r, zr)), b.prevHash,
        Payload(render, Candidate(b, q, zq)));
    PayloadDetermines(render, Candidate(a, r, zr), Candidate(b, q, zq));
    FieldsAgree(render, a, b, r, zr, q, zq);
  }

  // ---- What the hash cannot tell apart ----

  lemma CandidateValuesEqual(render: Render, a: StoredRow, b: StoredRow, r: int, zr: bool, f: Field)
    requires Renders(render) && Plausible(a) && Plausible(b) && SameCovered(a, b) && Tries(a, r, zr)
    requires CoveredBy(f, a.version)
    ensures Value(render, Candidate(a, r, zr), f) == Value(render, Candidate(b, r, zr), f)
  {
    match f
    case EventTime => assert HashedNanos(Candidate(a, r, zr)) == HashedNanos(Candidate(b, r, zr));
    case ShardNo => assert render.number(a.shard) == render.number(b.shard);
    case SeqNo => assert render.number(a.seqNo) == render.number(b.seqNo);
    case _ =>
  }

  lemma CandidatePayloadsEqual(render: Render, a: StoredRow, b: StoredRow, r: int, zr: bool)
    requires Renders(render) && Plausible(a) && Plausible(b) && SameCovered(a, b) && Tries(a, r, zr)
    ensures Payload(render, Candidate(a, r, zr)) == Payload(render, Candidate(b, r, zr))
  {
    var p, q := Payload(render, Candidate(a, r, zr)), Payload(render, Candidate(b, r, zr));
    forall t | t in Names(a.version) ensures p.members[t] == q.members[t] {
      NamedValuesEqual(render, a, b, r, zr, t);
    }
    assert p.members == q.members;
  }

  lemma NamedValuesEqual(render: Render, a: StoredRow, b: StoredRow, r: int, zr: bool, t: Text)
    requires Renders(render) && Plausible(a) && Plausible(b) && SameCovered(a, b) && Tries(a, r, zr)
             && t in Names(a.version)
    ensures Value(render, Candidate(a, r, zr), FieldNamed(t)) == Value(render, Candidate(b, r, zr), FieldNamed(t))
  {
    var f :| f in ALL_FIELDS && CoveredBy(f, a.version) && Name(f) == t;
    NamesDiffer(f);
    CandidateValuesEqual(render, a, b, r, zr, f);
  }

  lemma CoveredFieldsCarry(sha: Hash, render: Render, a: StoredRow, b: StoredRow)
    requires Renders(render) && Plausible(a) && Plausible(b) && SameCovered(a, b)
    requires a.prevHash == b.prevHash && a.rowHash == b.rowHash
    ensures Reproduces(sha, render, a) ==> Reproduces(sha, render, b)
  {
    if Reproduces(sha, render, a) {
      var r, zr :| Tries(a, r, zr) && sha(CandidatePreimage(render, a, r, zr)) == a.rowHash;
      CandidatePayloadsEqual(render, a, b, r, zr);
      assert Tries(b, r, zr);
    }
  }

  /** Rows that agree in this sense pass or fail together, so it is exactly what a hash covers. */
  lemma CoveredFieldsDecide(sha: Hash, render: Render, a: StoredRow, b: StoredRow)
    requires Renders(render) && Plausible(a) && Plausible(b) && SameCovered(a, b)
    requires a.prevHash == b.prevHash && a.rowHash == b.rowHash
    ensures Reproduces(sha, render, a) <==> Reproduces(sha, render, b)
  {
    CoveredFieldsCarry(sha, render, a, b);
    CoveredFieldsCarry(sha, render, b, a);
  }

  /** Covered fields with one hashed form per value are equal outright. */
  lemma ExactFields(a: StoredRow, b: StoredRow)
    requires SameCovered(a, b)
    ensures 1 <= a.actorCode <= 6 || 1 <= b.actorCode <= 6 ==> a.actorCode == b.actorCode
    ensures -TWO_53 <= a.seqNo <= TWO_53 && -TWO_53 <= b.seqNo <= TWO_53 ==> a.seqNo == b.seqNo
    ensures -0x8000 <= a.shard < 0x8000 && -0x8000 <= b.shard < 0x8000 ==> a.shard == b.shard
    ensures a.piiRef != Some(NIL_UUID) && b.piiRef != Some(NIL_UUID) ==> a.piiRef == b.piiRef
  {
    ActorTypesDiffer(a.actorCode, b.actorCode);
    if -TWO_53 <= a.seqNo <= TWO_53 && -TWO_53 <= b.seqNo <= TWO_53 {
      SmallNumbersStayExact(a.seqNo);
      SmallNumbersStayExact(b.seqNo);
    }
    if -0x8000 <= a.shard < 0x8000 && -0x8000 <= b.shard < 0x8000 {
      SmallNumbersStayExact(a.shard);
      SmallNumbersStayExact(b.shard);
    }
  }

  lemma ActorTypesDiffer(a: int, b: int)
    requires ActorType(a) == ActorType(b)
    ensures a == b || (!(1 <= a <= 6) && !(1 <= b <= 6))
  {
    assert |ActorType(a)| == |ActorType(b)|;
    assert ActorType(a) != [] && ActorType(b) != [] ==> ActorType(a)[1] == ActorType(b)[1];
  }

  /** A row as the ledger stores it, with the hash of its own fields. */
  ghost function Sealed(sha: Hash, render: Render, row: StoredRow): StoredRow {
    row.(rowHash := sha(CandidatePreimage(render, row, 0, false)))
  }

  lemma SealedRowPasses(sha: Hash, render: Render, row: StoredRow)
    ensures Reproduces(sha, render, Sealed(sha, render, row))
  {
    var a := Sealed(sha, render, row);
    assert Tries(a, 0, false) && CandidatePreimage(render, a, 0, false) == CandidatePreimage(render, row, 0, false);
  }

  /** A stored row and a changed copy of it that passes just as well. */
  ghost predicate BothPass(sha: Hash, render: Render, a: StoredRow, b: StoredRow) {
    a != b && a.prevHash == b.prevHash && a.rowHash == b.rowHash && Reproduces(sha, render, a)
        && Reproduces(sha, render, b)
  }

  lemma ChangedRowPasses(sha: Hash, render: Render, row: StoredRow, b: StoredRow)
    requires Renders(render) && Plausible(row) && Plausible(b) && SameCovered(row, b)
    requires var a := Sealed(sha, render, row); a != b && a.prevHash == b.prevHash && a.rowHash == b.rowHash
    ensures BothPass(sha, render, Sealed(sha, render, row), b)
  {
    SealedRowPasses(sha, render, row);
    CoveredFieldsCarry(sha, render, Sealed(sha, render, row), b);
  }

  /**
   The collapses are real: whole rows that differ in a covered field and both pass. Past 2^53 neighbouring
   sequences share a float64, unknown actor codes share the empty name, and no reference reads as the zero one.
   */
  lemma HashedFormsCollapse(sha: Hash, render: Render, row: StoredRow)
    requires Renders(render) && Plausible(row)
    ensures var a := Sealed(sha, render, row.(seqNo := TWO_53)); BothPass(sha, render, a, a.(seqNo := TWO_53 + 1))
    ensures var a := Sealed(sha, render, row.(actorCode := 0)); BothPass(sha, render, a, a.(actorCode := 7))
    ensures var a := Sealed(sha, render, row.(piiRef := None)); BothPass(sha, render, a, a.(piiRef := Some(NIL_UUID)))
  {
    SequencesCollapse(sha, render, row.(seqNo := TWO_53));
    ActorsCollapse(sha, render, row.(actorCode := 0));
    var a := row.(piiRef := None);
    ChangedRowPasses(sha, render, a, Sealed(sha, render, a).(piiRef := Some(NIL_UUID)));
  }

  lemma SequencesCollapse(sha: Hash, render: Render, row: StoredRow)
    requires Renders(render) && Plausible(row) && row.seqNo == TWO_53
    ensures var a := Sealed(sha, render, row); BothPass(sha, render, a, a.(seqNo := TWO_53 + 1))
  {
    assert Ulp(TWO_53) == 2 && Ulp(TWO_53 + 1) == 2;
    assert AsFloat(TWO_53 + 1) == AsFloat(TWO_53);
    ChangedRowPasses(sha, render, row, Sealed(sha, render, row).(seqNo := TWO_53 + 1));
  }

  lemma ActorsCollapse(sha: Hash, render: Render, row: StoredRow)
    requires Renders(render) && Plausible(row) && row.actorCode == 0
    ensures var a := Sealed(sha, render, row); BothPass(sha, render, a, a.(actorCode := 7))
  {
    ChangedRowPasses(sha, render, row, Sealed(sha, render, row).(actorCode := 7));
  }
}
