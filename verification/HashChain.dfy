/** The row hash over the previous hash and a canonical payload, and the chains it builds. */
module HashChain {
  import opened Bytes
  import opened Canonical

  /** hashRow's input: the previous hash, the payload's length in eight bytes, the payload. */
  ghost function Preimage(prev: Text, payload: Json): Text {
    prev + BigEndian(|Write(payload)|, 8) + Write(payload)
  }

  /** A first row has no previous hash, any other has one of the hash's size. */
  predicate PrevSize(prev: Text) {
    |prev| == 0 || |prev| == HASH_SIZE
  }

  /** No byte slice reaches 2^61 bytes. */
  ghost predicate Fits(payload: Json) {
    Valid(payload) && |Write(payload)| < 0x2000_0000_0000_0000
  }

  lemma SamePrevSamePayload(p: Text, v: Json, q: Text, w: Json)
    requires |p| == |q| && Valid(v) && Valid(w) && Preimage(p, v) == Preimage(q, w)
    ensures p == q && v == w
  {
    Assoc(p, BigEndian(|Write(v)|, 8), Write(v));
    Assoc(q, BigEndian(|Write(w)|, 8), Write(w));
    SplitEqual(p, BigEndian(|Write(v)|, 8) + Write(v), q, BigEndian(|Write(w)|, 8) + Write(w));
    SplitEqual(BigEndian(|Write(v)|, 8), Write(v), BigEndian(|Write(w)|, 8), Write(w));
    CanonicalInjective(v, w);
  }

  /** A first row's preimage never equals a later row's: a length prefix starts where text would be. */
  lemma FirstRowStandsApart(v: Json, q: Text, w: Json)
    requires Fits(v) && Fits(w) && |q| == HASH_SIZE
    ensures Preimage([], v) != Preimage(q, w)
  {
    var x, y := Preimage([], v), Preimage(q, w);
    var n := BigEndian(|Write(w)|, 8);
    BigEndianLeadingByte(|Write(w)|);
    CanonicalPrintable(v);
    assert y[HASH_SIZE] == n[0];
    if |x| == |y| {
      assert x[HASH_SIZE] == Write(v)[HASH_SIZE - 8];
    }
  }

  /** The preimage determines the previous hash and the payload. */
  lemma PreimageInjective(p: Text, v: Json, q: Text, w: Json)
    requires Fits(v) && Fits(w) && PrevSize(p) && PrevSize(q) && Preimage(p, v) == Preimage(q, w)
    ensures p == q && v == w
  {
    if |p| < |q| {
      FirstRowStandsApart(v, q, w);
      assert false;
    }
    if |q| < |p| {
      FirstRowStandsApart(w, p, v);
      assert false;
    }
    SamePrevSamePayload(p, v, q, w);
  }

  datatype Row = Row(payload: Json, prevHash: Text, rowHash: Text)

  ghost predicate RowOk(sha: Hash, row: Row, prev: Text) {
    Fits(row.payload) && row.prevHash == prev && row.rowHash == sha(Preimage(prev, row.payload))
  }

  /** Each row hashes over the head of the rows before it. */
  ghost predicate WellFormed(sha: Hash, rows: seq<Row>) {
    rows == [] || (WellFormed(sha, rows[..|rows| - 1]) && RowOk(sha, rows[|rows| - 1], HeadHash(rows[..|rows| - 1])))
  }

  function HeadHash(rows: seq<Row>): Text {
    if rows == [] then [] else rows[|rows| - 1].rowHash
  }

  ghost function HashedInputs(rows: seq<Row>): set<Text> {
    if rows == [] then {}
    else HashedInputs(rows[..|rows| - 1]) + {Preimage(rows[|rows| - 1].prevHash, rows[|rows| - 1].payload)}
  }

  /** A chain is its last row on top of a shorter chain. */
  lemma LastRow(sha: Hash, rows: seq<Row>)
    requires Sized(sha) && WellFormed(sha, rows) && rows != []
    ensures var init, last := rows[..|rows| - 1], rows[|rows| - 1];
            && WellFormed(sha, init) && HashedInputs(init) <= HashedInputs(rows)
            && last.prevHash == HeadHash(init) && PrevSize(last.prevHash) && Fits(last.payload)
            && last.rowHash == sha(Preimage(last.prevHash, last.payload))
            && Preimage(last.prevHash, last.payload) in HashedInputs(rows)
  {
    var init := rows[..|rows| - 1];
    HeadSize(sha, init);
  }

  lemma LastRowDetermined(sha: Hash, a: seq<Row>, b: seq<Row>)
    requires Sized(sha) && WellFormed(sha, a) && WellFormed(sha, b) && HeadHash(a) == HeadHash(b)
    requires CollisionFree(sha, HashedInputs(a) + HashedInputs(b)) && a != [] && b != []
    ensures a[|a| - 1] == b[|b| - 1]
  {
    var r, q := a[|a| - 1], b[|b| - 1];
    LastRow(sha, a);
    LastRow(sha, b);
    PreimageInjective(r.prevHash, r.payload, q.prevHash, q.payload);
  }

  lemma HeadSize(sha: Hash, rows: seq<Row>)
    requires Sized(sha) && WellFormed(sha, rows)
    ensures |HeadHash(rows)| == if rows == [] then 0 else HASH_SIZE
  {
  }

  lemma EmptyTogether(sha: Hash, a: seq<Row>, b: seq<Row>)
    requires Sized(sha) && WellFormed(sha, a) && WellFormed(sha, b) && HeadHash(a) == HeadHash(b)
    ensures a == [] <==> b == []
  {
    HeadSize(sha, a);
    HeadSize(sha, b);
  }

  lemma FrontsKeep(sha: Hash, a: seq<Row>, b: seq<Row>)
    requires Sized(sha) && WellFormed(sha, a) && WellFormed(sha, b) && a != [] && b != []
    requires CollisionFree(sha, HashedInputs(a) + HashedInputs(b)) && a[|a| - 1] == b[|b| - 1]
    ensures var a', b' := a[..|a| - 1], b[..|b| - 1];
            && WellFormed(sha, a') && WellFormed(sha, b') && HeadHash(a') == HeadHash(b')
            && CollisionFree(sha, HashedInputs(a') + HashedInputs(b'))
  {
    LastRow(sha, a);
    LastRow(sha, b);
  }

  /** A head hash pins the whole chain: two well-formed chains that share it are equal row by row. */
  lemma {:induction false} HeadPinsChain(sha: Hash, a: seq<Row>, b: seq<Row>)
    requires Sized(sha) && WellFormed(sha, a) && WellFormed(sha, b) && HeadHash(a) == HeadHash(b)
    requires CollisionFree(sha, HashedInputs(a) + HashedInputs(b))
    ensures a == b
  {
    EmptyTogether(sha, a, b);
    if a != [] {
      var a', b' := a[..|a| - 1], b[..|b| - 1];
      LastRowDetermined(sha, a, b);
      FrontsKeep(sha, a, b);
      HeadPinsChain(sha, a', b');
      SameFrontSameLast(a, b);
    }
  }

  lemma SameFrontSameLast(a: seq<Row>, b: seq<Row>)
    requires a != [] && b != [] && a[..|a| - 1] == b[..|b| - 1] && a[|a| - 1] == b[|b| - 1]
    ensures a == b
  {
    assert a == a[..|a| - 1] + [a[|a| - 1]] && b == b[..|b| - 1] + [b[|b| - 1]];
  }
}
