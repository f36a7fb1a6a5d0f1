/**
 Multipart transport of one event: its envelope is split into parts, the messages arrive in
 any order and any number of times, and an assembly becomes ready when its parts add up.
 */
module Transport {
  import opened Common
  import opened Bytes

  type Text = seq<byte>

  type EventId = nat

  const PART_MAX_BYTES := 64 * 1024

  // ---- Splitting ----

  function PartCount(envelope: Text): nat {
    (|envelope| + PART_MAX_BYTES - 1) / PART_MAX_BYTES
  }

  function PartPayload(envelope: Text, i: nat): Text
    requires i < PartCount(envelope)
  {
    var start := i * PART_MAX_BYTES;
    var end := start + PART_MAX_BYTES;
    envelope[start..if end <= |envelope| then end else |envelope|]
  }

  function Concat(parts: seq<Text>): Text {
    if parts == [] then [] else parts[0] + Concat(parts[1..])
  }

  /** What one event puts on the topic. */
  datatype Encoded = Encoded(id: EventId, org: nat, shard: int, envelope: Text, commitVersion: Text)

  datatype EventPart = EventPart(index: nat, count: nat, digest: Text, payload: Text)

  function PartAt(sha: Hash, e: Encoded, i: nat, count: nat): EventPart
    requires i < PartCount(e.envelope)
  {
    EventPart(i, count, sha(PartPayload(e.envelope, i)), PartPayload(e.envelope, i))
  }

  /** The parts `from` onwards carry the envelope from their first byte onwards. */
  function PayloadsFrom(envelope: Text, from: nat): Text
    requires from <= PartCount(envelope)
    decreases PartCount(envelope) - from
  {
    if from == PartCount(envelope) then [] else PartPayload(envelope, from) + PayloadsFrom(envelope, from + 1)
  }

  lemma {:induction false} PartsCarryEnvelope(envelope: Text, from: nat)
    requires from <= PartCount(envelope)
    ensures PayloadsFrom(envelope, from) == if from * PART_MAX_BYTES <= |envelope|
            then envelope[from * PART_MAX_BYTES..] else []
    decreases PartCount(envelope) - from
  {
    if from < PartCount(envelope) {
      PartsCarryEnvelope(envelope, from + 1);
    }
  }

  lemma ChunkIsPart(envelope: Text, i: nat)
    ensures i < PartCount(envelope) <==> i * PART_MAX_BYTES < |envelope|
    ensures i < PartCount(envelope) ==> 0 < |PartPayload(envelope, i)| <= PART_MAX_BYTES
  {
  }

  /** EncodeEvent: consecutive parts within the limit, and every part knows their number. */
  method EncodeEvent(sha: Hash, e: Encoded) returns (parts: seq<EventPart>)
    ensures |parts| == PartCount(e.envelope)
    ensures forall i :: 0 <= i < |parts| ==> parts[i] == PartAt(sha, e, i, |parts|)
    ensures forall i :: 0 <= i < |parts| ==> 0 < |parts[i].payload| <= PART_MAX_BYTES
  {
    parts := [];
    var start, count := 0, 0;
    ChunkIsPart(e.envelope, 0);
    while start < |e.envelope|
      invariant start == count * PART_MAX_BYTES && |parts| == count <= PartCount(e.envelope)
      invariant count < PartCount(e.envelope) <==> start < |e.envelope|
      invariant forall i :: 0 <= i < count ==> parts[i] == PartAt(sha, e, i, 0)
    {
      var payload := e.envelope[start..if start + PART_MAX_BYTES <= |e.envelope| then start + PART_MAX_BYTES
          else |e.envelope|];
      assert payload == PartPayload(e.envelope, count);
      parts := parts + [EventPart(count, 0, sha(payload), payload)];
      start, count := start + PART_MAX_BYTES, count + 1;
      ChunkIsPart(e.envelope, count);
    }
    for i := 0 to |parts|
      invariant |parts| == count
      invariant forall k :: 0 <= k < i ==> parts[k] == PartAt(sha, e, k, count)
      invariant forall k :: i <= k < |parts| ==> parts[k] == PartAt(sha, e, k, 0)
    {
      parts := parts[i := parts[i].(count := count)];
    }
    forall i | 0 <= i < |parts| ensures 0 < |parts[i].payload| <= PART_MAX_BYTES {
      ChunkIsPart(e.envelope, i);
    }
  }

  // ---- Messages and tables ----

  datatype Body = PartBody(index: nat, digest: Text, payload: Text) | ManifestBody(commitVersion: Text)

  /** A decoded transport message. A message that does not decode is dead-lettered before this. */
  datatype Message = Message(id: EventId, org: nat, shard: int, count: nat, transportDigest: Text, body: Body)

  function PartMessage(sha: Hash, e: Encoded, i: nat): Message
    requires i < PartCount(e.envelope)
  {
    var part := PartAt(sha, e, i, PartCount(e.envelope));
    Message(e.id, e.org, e.shard, part.count, sha(e.envelope), PartBody(i, part.digest, part.payload))
  }

  function ManifestMessage(sha: Hash, e: Encoded): Message {
    Message(e.id, e.org, e.shard, PartCount(e.envelope), sha(e.envelope), ManifestBody(e.commitVersion))
  }

  predicate IsMessageOf(sha: Hash, e: Encoded, m: Message) {
    || m == ManifestMessage(sha, e)
    || (m.body.PartBody? && m.body.index < PartCount(e.envelope) && m == PartMessage(sha, e, m.body.index))
  }

  datatype Assembly = Assembly(org: nat, shard: int, count: nat, digest: Text, header: Option<Message>, ready: bool,
      invalid: bool)

  datatype PartKey = PartKey(id: EventId, index: nat)

  datatype StoredPart = StoredPart(digest: Text, payload: Text)

  datatype Tables = Tables(assemblies: map<EventId, Assembly>, parts: map<PartKey, StoredPart>,
                           completed: map<EventId, Text>, projected: set<EventId>)

  function KeysOf(parts: map<PartKey, StoredPart>, id: EventId): set<PartKey> {
    set k | k in parts && k.id == id
  }

  /** completedTransport: None is a rejection, Some says whether the event is complete already. */
  function CompletedTransport(t: Tables, m: Message): Option<bool> {
    if m.id in t.completed then (if t.completed[m.id] == m.transportDigest then Some(true) else None)
    else if m.id in t.projected then None
    else Some(false)
  }

  function StoreAssembly(t: Tables, m: Message): Option<Tables> {
    var a := if m.id in t.assemblies then t.assemblies[m.id]
             else Assembly(m.org, m.shard, m.count, m.transportDigest, None, false, false);
    if a.org == m.org && a.shard == m.shard && a.count == m.count && a.digest == m.transportDigest
    then Some(t.(assemblies := t.assemblies[m.id := a])) else None
  }

  function StorePart(sha: Hash, t: Tables, m: Message): Option<Tables>
    requires m.body.PartBody?
  {
    var key, part := PartKey(m.id, m.body.index), StoredPart(m.body.digest, m.body.payload);
    if m.body.index >= m.count || |part.payload| > PART_MAX_BYTES || sha(part.payload) != part.digest then None
    else if key !in t.parts then Some(t.(parts := t.parts[key := part]))
    else if t.parts[key] == part then Some(t)
    else None
  }

  function StoreHeader(t: Tables, m: Message): Tables
    requires m.id in t.assemblies
  {
    var a := t.assemblies[m.id];
    if a.header.Some? then t else t.(assemblies := t.assemblies[m.id := a.(header := Some(m))])
  }

  /** The row count decides: the part indexes are distinct and below the part count. */
  function MarkReady(t: Tables, id: EventId): Tables
    requires id in t.assemblies
  {
    var a := t.assemblies[id];
    if !a.ready && a.header.Some? && a.count == |KeysOf(t.parts, id)|
    then t.(assemblies := t.assemblies[id := a.(ready := true)]) else t
  }

  /** The tables just before the ready flag is reconsidered. */
  function Stored(sha: Hash, t: Tables, m: Message): Option<Tables> {
    match StoreAssembly(t, m)
    case None => None
    case Some(u) => if m.body.PartBody? then StorePart(sha, u, m) else Some(StoreHeader(u, m))
  }

  /** storeTransportMessage. None is a rejection, which leaves the tables as they were. */
  function Store(sha: Hash, t: Tables, m: Message): Option<Tables> {
    match CompletedTransport(t, m)
    case None => None
    case Some(true) => Some(t)
    case Some(false) =>
      match Stored(sha, t, m)
      case None => None
      case Some(v) => Some(MarkReady(v, m.id))
  }

  // ---- Ready exactly when everything is stored ----

  function AllKeys(id: EventId, count: nat): set<PartKey> {
    set i | 0 <= i < count :: PartKey(id, i)
  }

  lemma {:induction false} AllKeysCount(id: EventId, count: nat)
    ensures |AllKeys(id, count)| == count
  {
    if count > 0 {
      AllKeysCount(id, count - 1);
      assert AllKeys(id, count) == AllKeys(id, count - 1) + {PartKey(id, count - 1)};
    }
  }

  lemma {:induction false} SubsetOfSameSize<T>(s: set<T>, u: set<T>)
    requires s <= u && |s| == |u|
    ensures s == u
  {
    if s != {} {
      var x :| x in s;
      SubsetOfSameSize(s - {x}, u - {x});
    } else {
      assert |u| == 0;
    }
  }

  ghost predicate HasAllParts(t: Tables, id: EventId, count: nat) {
    forall i :: 0 <= i < count ==> PartKey(id, i) in t.parts
  }

  /** Counting rows is enough: distinct indexes below the count that are as many as the count are all of them. */
  lemma CountDecides(t: Tables, id: EventId, count: nat)
    requires forall k :: k in t.parts && k.id == id ==> k.index < count
    ensures |KeysOf(t.parts, id)| == count <==> HasAllParts(t, id, count)
  {
    var keys, all := KeysOf(t.parts, id), AllKeys(id, count);
    AllKeysCount(id, count);
    assert keys <= all by {
      forall k | k in keys ensures k in all {
        assert k == PartKey(id, k.index);
      }
    }
    if |keys| == count {
      SubsetOfSameSize(keys, all);
      forall i | 0 <= i < count ensures PartKey(id, i) in t.parts {
        assert PartKey(id, i) in all;
      }
    }
    if HasAllParts(t, id, count) {
      assert all <= keys;
      assert keys == all;
    }
  }

  ghost predicate AssemblyOk(t: Tables, id: EventId)
    requires id in t.assemblies
  {
    var a := t.assemblies[id];
    && (a.ready <==> a.header.Some? && HasAllParts(t, id, a.count))
    && (a.header.Some? ==> a.header.value.id == id && a.header.value.count == a.count
                           && a.header.value.transportDigest == a.digest)
  }

  ghost predicate PartOk(sha: Hash, t: Tables, k: PartKey)
    requires k in t.parts
  {
    && k.id in t.assemblies && k.index < t.assemblies[k.id].count
    && |t.parts[k].payload| <= PART_MAX_BYTES && sha(t.parts[k].payload) == t.parts[k].digest
  }

  /** A completed event has no assembly, and a complete assembly is a ready one. */
  ghost predicate Inv(sha: Hash, t: Tables) {
    && (forall id :: id in t.assemblies ==> id !in t.completed && AssemblyOk(t, id))
    && (forall k :: k in t.parts ==> PartOk(sha, t, k))
    && (forall id :: id in t.completed ==> id in t.projected)
  }

  lemma StoredKeepsParts(sha: Hash, t: Tables, m: Message)
    requires Inv(sha, t) && Stored(sha, t, m).Some?
    ensures var v := Stored(sha, t, m).value;
            && m.id in v.assemblies && v.completed == t.completed && v.projected == t.projected
            && forall k :: k in v.parts ==> PartOk(sha, v, k)
  {
  }

  lemma OtherAssembliesOk(sha: Hash, t: Tables, m: Message, id: EventId)
    requires Inv(sha, t) && Stored(sha, t, m).Some? && id != m.id
    requires id in Stored(sha, t, m).value.assemblies
    ensures AssemblyOk(MarkReady(Stored(sha, t, m).value, m.id), id)
  {
    var v := Stored(sha, t, m).value;
    assert v.assemblies[id] == t.assemblies[id] && AssemblyOk(t, id);
    assert HasAllParts(t, id, t.assemblies[id].count) <==> HasAllParts(v, id, t.assemblies[id].count);
  }

  lemma MarkedAssemblyOk(sha: Hash, t: Tables, m: Message)
    requires Inv(sha, t) && Stored(sha, t, m).Some?
    requires m.id in Stored(sha, t, m).value.assemblies
    ensures AssemblyOk(MarkReady(Stored(sha, t, m).value, m.id), m.id)
  {
    var v := Stored(sha, t, m).value;
    StoredKeepsParts(sha, t, m);
    CountDecides(v, m.id, v.assemblies[m.id].count);
    if m.id in t.assemblies {
      assert AssemblyOk(t, m.id);
    }
  }

  lemma StoreKeepsInv(sha: Hash, t: Tables, m: Message)
    requires Inv(sha, t) && Store(sha, t, m).Some?
    ensures Inv(sha, Store(sha, t, m).value)
  {
    if CompletedTransport(t, m) == Some(false) {
      StoredKeepsParts(sha, t, m);
      MarkedAssemblyOk(sha, t, m);
      var v := Stored(sha, t, m).value;
      assert Store(sha, t, m) == Some(MarkReady(v, m.id));
      forall id | id in v.assemblies && id != m.id ensures AssemblyOk(MarkReady(v, m.id), id) {
        OtherAssembliesOk(sha, t, m, id);
      }
    }
  }
}
