/** Whole deliveries: any messages in any order, repeated, with completions in between. */
module TransportRuns {
  import opened Common
  import opened Bytes
  import opened Transport

  /** Store and completion transactions, and plain records that project an event directly. */
  datatype Op = Deliver(m: Message) | Complete(id: EventId) | ProjectPlain(id: EventId)

  /** Decoding, identity, read evidence and event validation of a streamed envelope. */
  type Acceptance = (Message, Text) -> bool

  /** The stored payloads `from` onwards, while they are present and valid. */
  function Assembled(sha: Hash, t: Tables, id: EventId, from: nat, count: nat): Option<Text>
    requires from <= count
    decreases count - from
  {
    if from == count then Some([])
    else if PartKey(id, from) !in t.parts then None
    else
      var part := t.parts[PartKey(id, from)];
      if |part.payload| > PART_MAX_BYTES || sha(part.payload) != part.digest then None
      else match Assembled(sha, t, id, from + 1, count)
        case None => None
        case Some(rest) => Some(part.payload + rest)
  }

  /** finishAssembly, with the identity claim of the append before it. */
  function Finished(t: Tables, id: EventId, digest: Text): Tables {
    Tables(t.assemblies - {id}, t.parts - KeysOf(t.parts, id),
           if id in t.completed then t.completed else t.completed[id := digest], t.projected + {id})
  }

  /** completeAssembly of a ready assembly: finish it, or mark what does not stream as invalid. */
  function Completion(sha: Hash, accepts: Acceptance, t: Tables, id: EventId): Tables {
    if id !in t.assemblies || !t.assemblies[id].ready || t.assemblies[id].invalid || t.assemblies[id].header.None?
        then t
    else
      var header := t.assemblies[id].header.value;
      match Assembled(sha, t, id, 0, header.count)
      case Some(bytes) =>
        if sha(bytes) == header.transportDigest && accepts(header, bytes) then Finished(t, id, header.transportDigest)
        else t.(assemblies := t.assemblies[id := t.assemblies[id].(invalid := true)])
      case None => t.(assemblies := t.assemblies[id := t.assemblies[id].(invalid := true)])
  }

  /**
   A ready assembly that does not stream, or streams something else, is set aside with its parts and not tried
   again; any other is finished.
   */
  lemma CompletionDecides(sha: Hash, accepts: Acceptance, t: Tables, id: EventId)
    requires id in t.assemblies && t.assemblies[id].ready && !t.assemblies[id].invalid && t.assemblies[id].header.Some?
    ensures var header := t.assemblies[id].header.value;
            var bytes := Assembled(sha, t, id, 0, header.count);
            var u := Completion(sha, accepts, t, id);
            if bytes.Some? && sha(bytes.value) == header.transportDigest && accepts(header, bytes.value) then
              id !in u.assemblies && id in u.projected && id in u.completed && forall k :: k in u.parts ==> k.id != id
            else
              && id in u.assemblies && u.assemblies[id].invalid && Completion(sha, accepts, u, id) == u
              && u.parts == t.parts && u.projected == t.projected && u.completed == t.completed
  {
  }

  function Apply(sha: Hash, accepts: Acceptance, t: Tables, op: Op): Tables {
    match op
    case Deliver(m) => (match Store(sha, t, m) case Some(u) => u case None => t)
    case Complete(id) => Completion(sha, accepts, t, id)
    case ProjectPlain(id) => t.(projected := t.projected + {id})
  }

  function After(sha: Hash, accepts: Acceptance, ops: seq<Op>): Tables {
    if ops == [] then Tables(map[], map[], map[], {})
    else Apply(sha, accepts, After(sha, accepts, ops[..|ops| - 1]), ops[|ops| - 1])
  }

  lemma FinishKeepsInv(sha: Hash, t: Tables, id: EventId, digest: Text)
    requires Inv(sha, t) && id in t.assemblies
    ensures Inv(sha, Finished(t, id, digest))
  {
    var u := Finished(t, id, digest);
    forall j | j in u.assemblies ensures j !in u.completed && AssemblyOk(u, j) {
      assert AssemblyOk(t, j);
      assert HasAllParts(t, j, t.assemblies[j].count) <==> HasAllParts(u, j, t.assemblies[j].count);
    }
  }

  lemma InvalidKeepsInv(sha: Hash, t: Tables, id: EventId)
    requires Inv(sha, t) && id in t.assemblies
    ensures Inv(sha, t.(assemblies := t.assemblies[id := t.assemblies[id].(invalid := true)]))
  {
    var u := t.(assemblies := t.assemblies[id := t.assemblies[id].(invalid := true)]);
    forall j | j in u.assemblies ensures j !in u.completed && AssemblyOk(u, j) {
      assert AssemblyOk(t, j);
    }
  }

  lemma ApplyKeepsInv(sha: Hash, accepts: Acceptance, t: Tables, op: Op)
    requires Inv(sha, t)
    ensures Inv(sha, Apply(sha, accepts, t, op))
  {
    match op
    case Deliver(m) =>
      if Store(sha, t, m).Some? {
        StoreKeepsInv(sha, t, m);
      }
    case Complete(id) =>
      if id in t.assemblies {
        InvalidKeepsInv(sha, t, id);
        FinishKeepsInv(sha, t, id, if t.assemblies[id].header.Some? then t.assemblies[id].header.value.transportDigest
            else []);
      }
    case ProjectPlain(id) =>
      forall j | j in t.assemblies ensures AssemblyOk(Apply(sha, accepts, t, op), j) {
        assert AssemblyOk(t, j);
      }
  }

  /** In every delivery an assembly is ready exactly when its manifest and all its parts are stored. */
  lemma {:induction false} ReadyMeansComplete(sha: Hash, accepts: Acceptance, ops: seq<Op>)
    ensures Inv(sha, After(sha, accepts, ops))
  {
    if ops != [] {
      ReadyMeansComplete(sha, accepts, ops[..|ops| - 1]);
      ApplyKeepsInv(sha, accepts, After(sha, accepts, ops[..|ops| - 1]), ops[|ops| - 1]);
    }
  }

  lemma CompletedStaysInStep(sha: Hash, accepts: Acceptance, t: Tables, op: Op, id: EventId)
    requires Inv(sha, t) && id in t.completed
    ensures var u := Apply(sha, accepts, t, op);
              id in u.completed && u.completed[id] == t.completed[id] && id !in u.assemblies
  {
    ApplyKeepsInv(sha, accepts, t, op);
  }

  lemma AfterLast(sha: Hash, accepts: Acceptance, ops: seq<Op>, more: seq<Op>)
    requires more != []
    ensures After(sha, accepts, ops + more)
            == Apply(sha, accepts, After(sha, accepts, ops + more[..|more| - 1]), more[|more| - 1])
  {
    assert (ops + more)[..|ops + more| - 1] == ops + more[..|more| - 1];
  }

  /** A completed event keeps its transport digest and never has an assembly again. */
  lemma {:induction false} CompletedNeverReopens(sha: Hash, accepts: Acceptance, ops: seq<Op>, more: seq<Op>,
        id: EventId)
    requires id in After(sha, accepts, ops).completed
    ensures var t, u := After(sha, accepts, ops), After(sha, accepts, ops + more);
            id in u.completed && u.completed[id] == t.completed[id] && id !in u.assemblies
  {
    ReadyMeansComplete(sha, accepts, ops + more);
    if more == [] {
      assert ops + more == ops;
    } else {
      var init := more[..|more| - 1];
      CompletedNeverReopens(sha, accepts, ops, init, id);
      ReadyMeansComplete(sha, accepts, ops + init);
      AfterLast(sha, accepts, ops, more);
      CompletedStaysInStep(sha, accepts, After(sha, accepts, ops + init), more[|more| - 1], id);
    }
  }

  // ---- One encoded event among other events' messages ----

  /** Every message that names the event comes from its encoding, and nothing else projects it. */
  ghost predicate OwnMessages(sha: Hash, e: Encoded, ops: seq<Op>) {
    forall op :: op in ops ==>
      && (op.Deliver? && op.m.id == e.id ==> IsMessageOf(sha, e, op.m))
      && (op.ProjectPlain? ==> op.id != e.id)
  }

  ghost predicate Delivered(ops: seq<Op>, m: Message) {
    Deliver(m) in ops
  }

  ghost predicate AnyDelivered(ops: seq<Op>, id: EventId) {
    exists m :: Delivered(ops, m) && m.id == id
  }

  /** The assembly holds exactly what was delivered. */
  ghost predicate Waiting(sha: Hash, e: Encoded, t: Tables, ops: seq<Op>) {
    && e.id !in t.projected
    && (e.id in t.assemblies <==> AnyDelivered(ops, e.id))
    && (forall i :: 0 <= i < PartCount(e.envelope) ==>
          (PartKey(e.id, i) in t.parts <==> Delivered(ops, PartMessage(sha, e, i))))
    && (forall k :: k in t.parts && k.id == e.id ==>
          && k.index < PartCount(e.envelope)
          && t.parts[k] == StoredPart(sha(PartPayload(e.envelope, k.index)), PartPayload(e.envelope, k.index)))
    && (e.id in t.assemblies ==>
          var a := t.assemblies[e.id];
          && a.org == e.org && a.shard == e.shard && a.count == PartCount(e.envelope) && a.digest == sha(e.envelope)
              && !a.invalid
          && a.header == if Delivered(ops, ManifestMessage(sha, e)) then Some(ManifestMessage(sha, e)) else None)
  }

  ghost predicate Tracks(sha: Hash, e: Encoded, t: Tables, ops: seq<Op>) {
    if e.id in t.completed then t.completed[e.id] == sha(e.envelope) else Waiting(sha, e, t, ops)
  }

  /** Two tables agree about one event. */
  ghost predicate SameEvent(t: Tables, u: Tables, id: EventId) {
    && (id in t.assemblies <==> id in u.assemblies) && (id in t.assemblies ==> t.assemblies[id] == u.assemblies[id])
    && (id in t.completed <==> id in u.completed) && (id in t.completed ==> t.completed[id] == u.completed[id])
    && (id in t.projected <==> id in u.projected)
    && (forall k: PartKey :: k.id == id ==>
          (k in t.parts <==> k in u.parts) && (k in t.parts ==> t.parts[k] == u.parts[k]))
  }

  lemma OtherEventsUntouched(sha: Hash, accepts: Acceptance, t: Tables, op: Op, id: EventId)
    requires match op case Deliver(m) => m.id != id case Complete(j) => j != id case ProjectPlain(j) => j != id
    ensures SameEvent(t, Apply(sha, accepts, t, op), id)
  {
    match op
    case Deliver(m) =>
      if Store(sha, t, m).Some? {
        StoreElsewhere(sha, t, m, id);
      }
    case Complete(_) =>
    case ProjectPlain(_) =>
  }

  lemma StoreElsewhere(sha: Hash, t: Tables, m: Message, id: EventId)
    requires m.id != id && Store(sha, t, m).Some?
    ensures SameEvent(t, Store(sha, t, m).value, id)
  {
  }

  lemma TracksFrame(sha: Hash, e: Encoded, t: Tables, u: Tables, ops: seq<Op>, op: Op)
    requires Tracks(sha, e, t, ops) && SameEvent(t, u, e.id)
    requires op.Deliver? ==> op.m.id != e.id
    ensures Tracks(sha, e, u, ops + [op])
  {
    forall m: Message | m.id == e.id ensures Delivered(ops + [op], m) <==> Delivered(ops, m) {}
    if e.id !in t.completed {
      forall i | 0 <= i < PartCount(e.envelope)
        ensures PartKey(e.id, i) in u.parts <==> Delivered(ops + [op], PartMessage(sha, e, i)) {
        assert PartKey(e.id, i) in t.parts <==> Delivered(ops, PartMessage(sha, e, i));
      }
      assert AnyDelivered(ops + [op], e.id) <==> AnyDelivered(ops, e.id);
      assert Delivered(ops + [op], ManifestMessage(sha, e)) <==> Delivered(ops, ManifestMessage(sha, e));
    }
  }

  /** None of the event's own messages is rejected while it is waiting. */
  lemma OwnMessageStores(sha: Hash, e: Encoded, t: Tables, ops: seq<Op>, m: Message)
    requires e.id !in t.completed && Waiting(sha, e, t, ops) && IsMessageOf(sha, e, m)
    ensures Stored(sha, t, m).Some?
    ensures Store(sha, t, m) == Some(MarkReady(Stored(sha, t, m).value, e.id))
  {
    if m.body.PartBody? {
      ChunkIsPart(e.envelope, m.body.index);
    }
  }

  lemma OwnPartTracks(sha: Hash, e: Encoded, t: Tables, ops: seq<Op>, i: nat)
    requires e.id !in t.completed && Waiting(sha, e, t, ops) && i < PartCount(e.envelope)
    ensures Stored(sha, t, PartMessage(sha, e, i)).Some?
    ensures Waiting(sha, e, MarkReady(Stored(sha, t, PartMessage(sha, e, i)).value, e.id),
            ops + [Deliver(PartMessage(sha, e, i))])
  {
    var m := PartMessage(sha, e, i);
    OwnMessageStores(sha, e, t, ops, m);
    var v, ops' := Stored(sha, t, m).value, ops + [Deliver(m)];
    assert Delivered(ops', m);
    forall j | 0 <= j < PartCount(e.envelope)
      ensures PartKey(e.id, j) in v.parts <==> Delivered(ops', PartMessage(sha, e, j)) {
      assert Delivered(ops', PartMessage(sha, e, j)) <==> j == i || Delivered(ops, PartMessage(sha, e, j));
    }
    assert Delivered(ops', ManifestMessage(sha, e)) <==> Delivered(ops, ManifestMessage(sha, e));
  }

  lemma OwnManifestTracks(sha: Hash, e: Encoded, t: Tables, ops: seq<Op>)
    requires e.id !in t.completed && Waiting(sha, e, t, ops)
    ensures Stored(sha, t, ManifestMessage(sha, e)).Some?
    ensures Waiting(sha, e, MarkReady(Stored(sha, t, ManifestMessage(sha, e)).value, e.id),
            ops + [Deliver(ManifestMessage(sha, e))])
  {
    var m := ManifestMessage(sha, e);
    var ops' := ops + [Deliver(m)];
    assert Delivered(ops', m);
    forall j | 0 <= j < PartCount(e.envelope)
      ensures Delivered(ops', PartMessage(sha, e, j)) <==> Delivered(ops, PartMessage(sha, e, j)) {}
  }

  lemma {:induction false} AssembledIsEnvelope(sha: Hash, e: Encoded, t: Tables, ops: seq<Op>, from: nat)
    requires Waiting(sha, e, t, ops) && HasAllParts(t, e.id, PartCount(e.envelope)) && from <= PartCount(e.envelope)
    ensures Assembled(sha, t, e.id, from, PartCount(e.envelope)) == Some(PayloadsFrom(e.envelope, from))
    decreases PartCount(e.envelope) - from
  {
    if from < PartCount(e.envelope) {
      ChunkIsPart(e.envelope, from);
      assert PartKey(e.id, from) in t.parts;
      AssembledIsEnvelope(sha, e, t, ops, from + 1);
    }
  }

  /** Completing the ready assembly of an encoded event streams its envelope and finishes it. */
  lemma ReadyCompletes(sha: Hash, accepts: Acceptance, e: Encoded, t: Tables, ops: seq<Op>)
    requires Inv(sha, t) && e.id !in t.completed && Waiting(sha, e, t, ops)
    requires accepts(ManifestMessage(sha, e), e.envelope)
    requires e.id in t.assemblies && t.assemblies[e.id].ready
    ensures Assembled(sha, t, e.id, 0, PartCount(e.envelope)) == Some(e.envelope)
    ensures Completion(sha, accepts, t, e.id) == Finished(t, e.id, sha(e.envelope))
  {
    assert AssemblyOk(t, e.id);
    AssembledIsEnvelope(sha, e, t, ops, 0);
    PartsCarryEnvelope(e.envelope, 0);
  }

  lemma StepTracks(sha: Hash, accepts: Acceptance, e: Encoded, t: Tables, ops: seq<Op>, op: Op)
    requires Inv(sha, t) && Tracks(sha, e, t, ops) && OwnMessages(sha, e, [op])
    requires accepts(ManifestMessage(sha, e), e.envelope)
    ensures Tracks(sha, e, Apply(sha, accepts, t, op), ops + [op])
  {
    assert op in [op];
    match op
    case Deliver(m) =>
      if m.id != e.id {
        OtherEventsUntouched(sha, accepts, t, op, e.id);
        TracksFrame(sha, e, t, Apply(sha, accepts, t, op), ops, op);
      } else if e.id !in t.completed {
        OwnMessageStores(sha, e, t, ops, m);
        if m.body.PartBody? {
          OwnPartTracks(sha, e, t, ops, m.body.index);
        } else {
          OwnManifestTracks(sha, e, t, ops);
        }
      }
    case Complete(id) =>
      if id == e.id && e.id !in t.completed && e.id in t.assemblies && t.assemblies[e.id].ready {
        ReadyCompletes(sha, accepts, e, t, ops);
      } else {
        assert SameEvent(t, Apply(sha, accepts, t, op), e.id) by {
          if id != e.id {
            OtherEventsUntouched(sha, accepts, t, op, e.id);
          }
        }
        TracksFrame(sha, e, t, Apply(sha, accepts, t, op), ops, op);
      }
    case ProjectPlain(id) =>
      OtherEventsUntouched(sha, accepts, t, op, e.id);
      TracksFrame(sha, e, t, Apply(sha, accepts, t, op), ops, op);
  }

  lemma {:induction false} DeliveryTracks(sha: Hash, accepts: Acceptance, e: Encoded, ops: seq<Op>)
    requires OwnMessages(sha, e, ops) && accepts(ManifestMessage(sha, e), e.envelope)
    ensures Tracks(sha, e, After(sha, accepts, ops), ops)
  {
    if ops == [] {
      assert !AnyDelivered([], e.id);
    } else {
      var init, op := ops[..|ops| - 1], ops[|ops| - 1];
      assert OwnMessages(sha, e, init) && OwnMessages(sha, e, [op]);
      DeliveryTracks(sha, accepts, e, init);
      ReadyMeansComplete(sha, accepts, init);
      StepTracks(sha, accepts, e, After(sha, accepts, init), init, op);
      assert ops == init + [op];
    }
  }

  /**
   Until it completes, the event's assembly is ready exactly when its manifest and every one
   of its parts has been delivered; then streaming gives the envelope and completion keeps
   its digest.
   */
  lemma ReadyWhenAllDelivered(sha: Hash, accepts: Acceptance, e: Encoded, ops: seq<Op>)
    requires OwnMessages(sha, e, ops) && accepts(ManifestMessage(sha, e), e.envelope)
    ensures var t := After(sha, accepts, ops);
            e.id !in t.completed ==>
              (e.id in t.assemblies && t.assemblies[e.id].ready <==>
                && Delivered(ops, ManifestMessage(sha, e))
                && forall i :: 0 <= i < PartCount(e.envelope) ==> Delivered(ops, PartMessage(sha, e, i)))
    ensures var t := After(sha, accepts, ops);
            e.id !in t.completed && e.id in t.assemblies && t.assemblies[e.id].ready ==>
              && Assembled(sha, t, e.id, 0, PartCount(e.envelope)) == Some(e.envelope)
              && Apply(sha, accepts, t, Complete(e.id)).completed == t.completed[e.id := sha(e.envelope)]
    ensures var t := After(sha, accepts, ops); e.id in t.completed ==> t.completed[e.id] == sha(e.envelope)
  {
    var t := After(sha, accepts, ops);
    DeliveryTracks(sha, accepts, e, ops);
    ReadyMeansComplete(sha, accepts, ops);
    if e.id !in t.completed {
      if Delivered(ops, ManifestMessage(sha, e)) {
        assert AnyDelivered(ops, e.id);
      }
      if e.id in t.assemblies {
        assert AssemblyOk(t, e.id);
        if t.assemblies[e.id].ready {
          ReadyCompletes(sha, accepts, e, t, ops);
          forall i | 0 <= i < PartCount(e.envelope) ensures Delivered(ops, PartMessage(sha, e, i)) {
            assert PartKey(e.id, i) in t.parts;
          }
        }
      }
    }
  }
}
