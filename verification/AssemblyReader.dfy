/** Streaming the stored parts of one assembly, and storing a transport message. */
module AssemblyReader {
  import opened Common
  import opened Bytes
  import opened Transport

  datatype Status = More | Eof | Invalid | DatabaseError

  /** One part per fetch, checked and added to the transport digest as it is loaded. */
  class AssemblyPartReader {
    const sha: Hash
    const parts: map<nat, StoredPart>
    const faults: set<nat>
    const count: nat
    const transportDigest: Text
    var next: nat
    var pending: Text
    var hashed: Text
    var failure: Status

    constructor (sha: Hash, parts: map<nat, StoredPart>, faults: set<nat>, count: nat, transportDigest: Text)
      ensures Valid() && this.sha == sha && this.parts == parts && this.faults == faults && this.count == count
      ensures this.transportDigest == transportDigest && next == 0 && Left() == Stream(0)
    {
      this.sha, this.parts, this.faults, this.count, this.transportDigest := sha, parts, faults, count, transportDigest;
      next, pending, hashed, failure := 0, [], [], More;
    }

    /** The status that loading part `i` ends with; More means the part is good. */
    function LoadStatus(i: nat): Status {
      if i in faults then DatabaseError
      else if i !in parts then Invalid
      else if |parts[i].payload| > PART_MAX_BYTES || sha(parts[i].payload) != parts[i].digest then Invalid
      else More
    }

    /** The payloads from part `i` on, up to the first part that fails. */
    ghost function Stream(i: nat): Text
      decreases count - i
    {
      if i >= count || LoadStatus(i) != More then [] else parts[i].payload + Stream(i + 1)
    }

    /** How the stream from part `i` ends. */
    ghost function End(i: nat): Status
      decreases count - i
    {
      if i >= count then Eof else if LoadStatus(i) != More then LoadStatus(i) else End(i + 1)
    }

    ghost predicate Valid()
      reads this
    {
      && next <= count
      && (failure != More ==> failure != Eof && pending == [] && next < count && LoadStatus(next) == failure)
      && hashed + Stream(next) == Stream(0) && End(next) == End(0)
    }

    /** What the reader will still return. */
    ghost function Left(): Text
      reads this
    {
      pending + Stream(next)
    }

    /** One part is fetched, checked and added to the digest, or the reader stays as it was. */
    method Load() returns (loaded: Status)
      requires Valid() && failure == More && next < count && pending == []
      modifies this
      ensures failure == old(failure) && loaded == LoadStatus(old(next))
      ensures loaded == More <==>
                && old(next) !in faults && old(next) in parts && |parts[old(next)].payload| <= 65536
                && sha(parts[old(next)].payload) == parts[old(next)].digest
      ensures loaded == DatabaseError <==> old(next) in faults
      ensures loaded == More ==> Valid() && next == old(next) + 1
      ensures loaded != More ==> next == old(next) && pending == [] && hashed == old(hashed)
      ensures Left() == old(Left())
    {
      loaded := LoadStatus(next);
      if loaded == More {
        var payload := parts[next].payload;
        assert hashed + (payload + Stream(next + 1)) == (hashed + payload) + Stream(next + 1);
        hashed := hashed + payload;
        pending := payload;
        next := next + 1;
        assert Left() == payload + Stream(next);
      }
    }

    /** Any buffer size: the bytes come in order, and only an exhausted stream ends, the way it ends. */
    method Read(size: nat) returns (chunk: Text, status: Status)
      requires Valid()
      modifies this
      ensures Valid()
      ensures chunk + Left() == old(Left()) && |chunk| <= size
      ensures status == More ==> (size > 0 ==> |chunk| > 0)
      ensures status != More ==> chunk == [] && old(Left()) == [] && status == End(0)
    {
      while |pending| == 0
        invariant Valid() && Left() == old(Left())
        decreases count - next
      {
        if failure != More {
          return [], failure;
        }
        if next == count {
          return [], Eof;
        }
        var loaded := Load();
        if loaded != More {
          failure := loaded;
          return [], loaded;
        }
      }
      var copied := if size < |pending| then size else |pending|;
      chunk := pending[..copied];
      assert pending + Stream(next) == chunk + (pending[copied..] + Stream(next));
      pending := pending[copied..];
      status := More;
    }

    /** Every part was read and the bytes match the manifest's digest. */
    method Complete() returns (ok: bool)
      requires Valid()
      ensures ok <==> next == count && sha(Stream(0)) == transportDigest
    {
      ok := next == count && sha(hashed) == transportDigest;
      assert next == count ==> Stream(next) == [] && hashed + [] == hashed;
    }
  }

  /** The stored parts are those of one encoded event, and the database answers. */
  ghost predicate HoldsEvent(r: AssemblyPartReader, e: Encoded) {
    && r.count == PartCount(e.envelope) && r.faults == {} && r.transportDigest == r.sha(e.envelope)
    && forall i :: 0 <= i < r.count ==>
         i in r.parts && r.parts[i] == StoredPart(r.sha(PartPayload(e.envelope, i)), PartPayload(e.envelope, i))
  }

  lemma {:induction false} StreamIsPayloads(r: AssemblyPartReader, e: Encoded, i: nat)
    requires HoldsEvent(r, e) && i <= r.count
    ensures r.Stream(i) == PayloadsFrom(e.envelope, i) && r.End(i) == Eof
    decreases r.count - i
  {
    if i < r.count {
      ChunkIsPart(e.envelope, i);
      StreamIsPayloads(r, e, i + 1);
    }
  }

  /** The stored parts of an encoded event stream as its envelope, to the end. */
  lemma StreamIsEnvelope(r: AssemblyPartReader, e: Encoded)
    requires HoldsEvent(r, e)
    ensures r.Stream(0) == e.envelope && r.End(0) == Eof && r.sha(r.Stream(0)) == r.transportDigest
  {
    StreamIsPayloads(r, e, 0);
    PartsCarryEnvelope(e.envelope, 0);
    assert e.envelope[0..] == e.envelope;
  }

  /** Reading with any buffer sizes returns a front of the stream, and all of it once the end is seen. */
  method ReadAll(r: AssemblyPartReader, sizes: seq<nat>) returns (out: Text, status: Status)
    requires r.Valid() && r.Left() == r.Stream(0)
    modifies r
    ensures r.Valid() && out + r.Left() == r.Stream(0)
    ensures status != More ==> out == r.Stream(0) && status == r.End(0)
    ensures |sizes| > |r.Stream(0)| && (forall i :: 0 <= i < |sizes| ==> sizes[i] > 0) ==> status != More
  {
    out, status := [], More;
    var i := 0;
    while i < |sizes| && status == More
      invariant 0 <= i <= |sizes| && r.Valid() && out + r.Left() == r.Stream(0)
      invariant status != More ==> out == r.Stream(0) && status == r.End(0)
      invariant status == More && (forall k :: 0 <= k < |sizes| ==> sizes[k] > 0) ==> |out| >= i
    {
      var chunk;
      ghost var left := r.Left();
      chunk, status := r.Read(sizes[i]);
      assert out + left == (out + chunk) + r.Left();
      out := out + chunk;
      i := i + 1;
    }
  }

  /** Read with any positive buffer sizes, an encoded event's parts give back its envelope, and the digest agrees. */
  method ReadEnvelope(r: AssemblyPartReader, ghost e: Encoded, sizes: seq<nat>) returns (out: Text, complete: bool)
    requires r.Valid() && r.Left() == r.Stream(0) && HoldsEvent(r, e)
    requires |sizes| > |e.envelope| && forall i :: 0 <= i < |sizes| ==> sizes[i] > 0
    modifies r
    ensures out == e.envelope && complete
  {
    StreamIsEnvelope(r, e);
    var status;
    out, status := ReadAll(r, sizes);
    assert status == Eof && out == e.envelope;
    complete := r.Complete();
  }

  /** The assembly tables, changed statement by statement inside the record's savepoint. */
  class AssemblyStore {
    var tables: Tables

    constructor (t: Tables)
      ensures tables == t
    {
      tables := t;
    }

    /** A rejection rolls the savepoint back, so the tables stay as they were. */
    method StoreTransportMessage(sha: Hash, m: Message) returns (accepted: bool)
      requires Inv(sha, tables)
      modifies this
      ensures accepted == Store(sha, old(tables), m).Some?
      ensures tables == if accepted then Store(sha, old(tables), m).value else old(tables)
      ensures m.id in old(tables).completed ==>
                tables == old(tables) && (accepted <==> old(tables).completed[m.id] == m.transportDigest)
      ensures m.id in old(tables).projected && m.id !in old(tables).completed ==> tables == old(tables) && !accepted
      ensures Inv(sha, tables)
    {
      var savepoint := tables;
      var completed := CompletedTransport(tables, m);
      if completed.None? {
        return false;
      }
      if completed.value {
        return true;
      }
      if m.id !in tables.assemblies {
        tables := tables.(assemblies := tables.assemblies[m.id := Assembly(m.org, m.shard, m.count, m.transportDigest,
            None, false, false)]);
      }
      var a := tables.assemblies[m.id];
      if a.org != m.org || a.shard != m.shard || a.count != m.count || a.digest != m.transportDigest {
        tables := savepoint;
        return false;
      }
      assert savepoint.assemblies[m.id := a] == tables.assemblies;
      assert StoreAssembly(savepoint, m) == Some(tables);
      if m.body.PartBody? {
        var part := StorePart(sha, tables, m);
        if part.None? {
          tables := savepoint;
          return false;
        }
        tables := part.value;
      } else {
        tables := StoreHeader(tables, m);
      }
      StoreKeepsInv(sha, savepoint, m);
      tables := MarkReady(tables, m.id);
      accepted := true;
    }
  }
}
