/**
 The consumer's own loops: one batch transaction when it runs alone, the bookkeeping after
 a poll, and the pause after failing polls.
 */
module ConsumerLoops {
  import opened Common
  import opened Consumer
  import opened ConsumerProtocol

  /** What the database says to projecting one record. */
  datatype Verdict = Accepts | Refuses | Faults

  /** A refused statement rejects the record. */
  function Decided(v: Tables, p: Payload, verdict: Verdict): Outcome {
    if verdict.Refuses? then Rejects else Project(v, p)
  }

  /** What a batch has written after one record for each verdict. */
  function BatchWrites(t: Tables, log: seq<Record>, partition: Partition, from: nat, verdicts: seq<Verdict>): Writes
    requires from + |verdicts| <= |log|
  {
    if verdicts == [] then NO_WRITES
    else
      var last := |verdicts| - 1;
      var w := BatchWrites(t, log, partition, from, verdicts[..last]);
      Recorded(t, w, Key(partition, from + last), log[from + last],
          Decided(View(t, w), log[from + last].payload, verdicts[last]))
  }

  lemma StillAccounted(log: seq<Record>, t: Tables, t': Tables, from: nat, to: nat)
    requires Progress(t, t') && to <= |log| && forall o :: from <= o < to ==> Accounted(t, log[o].payload)
    ensures forall o :: from <= o < to ==> Accounted(t', log[o].payload)
  {
    forall o | from <= o < to ensures Accounted(t', log[o].payload) {
      ProgressKeepsAccounted(t, t', log[o].payload);
    }
  }

  lemma BatchWritesNext(t: Tables, log: seq<Record>, partition: Partition, from: nat, verdicts: seq<Verdict>, n: nat)
    requires from + |verdicts| <= |log| && n < |verdicts|
    ensures var w := BatchWrites(t, log, partition, from, verdicts[..n]);
            BatchWrites(t, log, partition, from, verdicts[..n + 1])
            == Recorded(t, w, Key(partition, from + n), log[from + n],
                Decided(View(t, w), log[from + n].payload, verdicts[n]))
  {
    assert verdicts[..n + 1][..n] == verdicts[..n];
  }

  /** The batch has written what its first `n` records write. */
  ghost predicate Wrote(t: Tables, log: seq<Record>, partition: Partition, from: nat, verdicts: seq<Verdict>, n: nat,
      w: Writes) {
    n <= |verdicts| && from + |verdicts| <= |log| && w == BatchWrites(t, log, partition, from, verdicts[..n])
  }

  lemma WroteNext(t: Tables, log: seq<Record>, partition: Partition, from: nat, verdicts: seq<Verdict>, n: nat,
                  w: Writes, w': Writes)
    requires Wrote(t, log, partition, from, verdicts, n, w) && n < |verdicts|
    requires var o := from + n; w' == Recorded(t, w, Key(partition, o), log[o],
             Decided(View(t, w), log[o].payload, verdicts[n]))
    ensures Wrote(t, log, partition, from, verdicts, n + 1, w')
  {
    BatchWritesNext(t, log, partition, from, verdicts, n);
  }

  /** The first `n` records of the batch are accounted for in what it has written, and nothing is lost. */
  ghost predicate BatchGood(c: Setting, s: World, partition: Partition, from: nat, n: nat, w: Writes)
    requires partition in s.logs && from + n <= |s.logs[partition]|
  {
    && WritesOk(c.sent, c.accepts, s.logs, s.tables, w) && Progress(s.tables, View(s.tables, w))
    && (forall o :: from <= o < from + n ==> Accounted(View(s.tables, w), s.logs[partition][o].payload))
  }

  lemma BatchGoesOn(c: Setting, s: World, partition: Partition, from: nat, n: nat, w: Writes, outcome: Outcome,
        w': Writes)
    requires OneSource(c.sent, c.accepts) && WorldOk(c, s) && partition in s.logs && from + n < |s.logs[partition]|
    requires BatchGood(c, s, partition, from, n, w)
    requires var rec := s.logs[partition][from + n];
             && (outcome.Rejects? || outcome == Project(View(s.tables, w), rec.payload))
             && w' == Recorded(s.tables, w, Key(partition, from + n), rec, outcome)
    ensures BatchGood(c, s, partition, from, n + 1, w')
  {
    var rec := s.logs[partition][from + n];
    assert rec.payload in c.sent && KeptAt(s.logs, Key(partition, from + n), rec.payload);
    RecordStep(c.sent, c.accepts, s.logs, s.tables, w, Key(partition, from + n), rec, outcome);
    GoodNext(c, s, partition, from, n, w, w');
  }

  lemma GoodNext(c: Setting, s: World, partition: Partition, from: nat, n: nat, w: Writes, w': Writes)
    requires partition in s.logs && from + n < |s.logs[partition]| && BatchGood(c, s, partition, from, n, w)
    requires WritesOk(c.sent, c.accepts, s.logs, s.tables, w') && Progress(View(s.tables, w), View(s.tables, w'))
    requires Accounted(View(s.tables, w'), s.logs[partition][from + n].payload)
    ensures BatchGood(c, s, partition, from, n + 1, w')
  {
    StillAccounted(s.logs[partition], View(s.tables, w), View(s.tables, w'), from, from + n);
    ProgressComposes(s.tables, View(s.tables, w), View(s.tables, w'));
  }

  /** With one source for each event a batch accounts for each of its records and loses nothing. */
  lemma {:induction false} BatchAccountsForItsRecords(c: Setting, s: World, partition: Partition, from: nat,
        verdicts: seq<Verdict>)
    requires OneSource(c.sent, c.accepts) && WorldOk(c, s) && partition in s.logs
             && from + |verdicts| <= |s.logs[partition]|
    ensures BatchGood(c, s, partition, from, |verdicts|,
            BatchWrites(s.tables, s.logs[partition], partition, from, verdicts))
  {
    if verdicts == [] {
      NoWritesOk(c, s);
    } else {
      var n := |verdicts| - 1;
      BatchAccountsForItsRecords(c, s, partition, from, verdicts[..n]);
      var w := BatchWrites(s.tables, s.logs[partition], partition, from, verdicts[..n]);
      var outcome := Decided(View(s.tables, w), s.logs[partition][from + n].payload, verdicts[n]);
      BatchGoesOn(c, s, partition, from, n, w, outcome,
          BatchWrites(s.tables, s.logs[partition], partition, from, verdicts));
    }
  }

  /** The tables once the batch has committed with its offset. */
  function BatchTables(t: Tables, log: seq<Record>, partition: Partition, from: nat, verdicts: seq<Verdict>): Tables
    requires from + |verdicts| <= |log|
  {
    View(t, BatchWrites(t, log, partition, from, verdicts)).(offsets := t.offsets[partition := from + |verdicts|])
  }

  /** With one source for each event a committed batch has every record accounted for and loses nothing. */
  lemma CommittedBatchAccountsForItsRecords(c: Setting, s: World, partition: Partition, from: nat,
        verdicts: seq<Verdict>)
    requires OneSource(c.sent, c.accepts) && WorldOk(c, s) && partition in s.logs
             && from + |verdicts| <= |s.logs[partition]|
    ensures var t := BatchTables(s.tables, s.logs[partition], partition, from, verdicts);
            && WorldOk(c, s.(tables := t)) && Progress(s.tables, t)
            && forall o :: from <= o < from + |verdicts| ==> Accounted(t, s.logs[partition][o].payload)
  {
    BatchAccountsForItsRecords(c, s, partition, from, verdicts);
    BatchCommits(c, s, partition, from, |verdicts|, BatchWrites(s.tables, s.logs[partition], partition, from, verdicts),
                 BatchTables(s.tables, s.logs[partition], partition, from, verdicts));
  }

  lemma BatchCommits(c: Setting, s: World, partition: Partition, from: nat, n: nat, w: Writes, t: Tables)
    requires WorldOk(c, s) && partition in s.logs && from + n <= |s.logs[partition]|
             && BatchGood(c, s, partition, from, n, w)
    requires t == View(s.tables, w).(offsets := t.offsets)
    ensures WorldOk(c, s.(tables := t)) && Progress(s.tables, t)
    ensures forall o :: from <= o < from + n ==> Accounted(t, s.logs[partition][o].payload)
  {
    StillAccounted(s.logs[partition], View(s.tables, w), t, from, from + n);
    ProgressComposes(s.tables, View(s.tables, w), t);
  }

  class BatchTransaction {
    var tables: Tables
    var writes: Writes

    constructor (t: Tables)
      ensures tables == t && writes == NO_WRITES
    {
      tables, writes := t, NO_WRITES;
    }

    /** The record's rows and the end of the dead letter it replays, or a dead letter, or the batch fails. */
    method ProjectRecord(key: Key, rec: Record, verdict: Verdict) returns (ok: bool)
      modifies this`writes
      ensures ok == !verdict.Faults?
      ensures !ok ==> writes == old(writes)
      ensures ok ==> writes == Recorded(tables, old(writes), key, rec,
              Decided(View(tables, old(writes)), rec.payload, verdict))
    {
      ok := !verdict.Faults?;
      if !ok {
        return;
      }
      var outcome := if verdict.Refuses? then Rejects else Project(View(tables, writes), rec.payload);
      if outcome.Rejects? {
        var origin := Origin(tables, writes, rec);
        writes := DeadLetter(tables, writes, key, rec.payload, origin);
        return;
      }
      writes := writes.(rows := Overlay(writes.rows, outcome.rows));
      writes := Resolve(tables, writes, rec);
    }

    method ProjectRecords(log: seq<Record>, partition: Partition, from: nat, verdicts: seq<Verdict>) returns (ok: bool)
      requires from + |verdicts| <= |log| && writes == NO_WRITES
      modifies this`writes
      ensures ok <==> Faults !in verdicts
      ensures ok ==> writes == BatchWrites(tables, log, partition, from, verdicts)
    {
      var n := 0;
      while n < |verdicts|
        invariant n <= |verdicts| && Faults !in verdicts[..n]
                  && Wrote(tables, log, partition, from, verdicts, n, writes)
      {
        ghost var before := writes;
        ok := ProjectRecord(Key(partition, from + n), log[from + n], verdicts[n]);
        if !ok {
          assert verdicts[n] in verdicts;
          return;
        }
        WroteNext(tables, log, partition, from, verdicts, n, before, writes);
        assert verdicts[..n + 1] == verdicts[..n] + [verdicts[n]];
        n := n + 1;
      }
      assert verdicts[..n] == verdicts;
      ok := true;
    }

    /** All of the batch and its offset, or nothing. */
    method ProjectBatchOnce(log: seq<Record>, partition: Partition, from: nat,
          verdicts: seq<Verdict>) returns (ok: bool)
      requires 0 < |verdicts| && from + |verdicts| <= |log| && writes == NO_WRITES
      modifies this
      ensures ok <==> Faults !in verdicts
      ensures tables == if ok then BatchTables(old(tables), log, partition, from, verdicts) else old(tables)
      ensures ok ==> writes == NO_WRITES
    {
      ok := ProjectRecords(log, partition, from, verdicts);
      if !ok {
        return;
      }
      tables := View(tables, writes);
      tables := tables.(offsets := tables.offsets[partition := from + |verdicts|]);
      writes := NO_WRITES;
    }
  }

  datatype Fetched = Fetched(partition: Partition, from: nat, to: nat, projected: bool)

  /** One poll's batches: a failed partition is wound back to its first record, the others are committed. */
  method ProjectFetches(batches: seq<Fetched>)
    returns (committed: map<Partition, nat>, rewind: map<Partition, nat>, failed: bool)
    requires forall i, j :: 0 <= i < j < |batches| ==> batches[i].partition != batches[j].partition
    ensures committed.Keys !! rewind.Keys
    ensures forall p :: p in committed ==>
              exists i :: 0 <= i < |batches| && batches[i].partition == p && batches[i].projected
                  && batches[i].to == committed[p]
    ensures forall p :: p in rewind ==>
              exists i :: 0 <= i < |batches| && batches[i].partition == p && !batches[i].projected
                  && batches[i].from == rewind[p]
    ensures forall i :: 0 <= i < |batches| ==> batches[i].partition in if batches[i].projected then committed
            else rewind
    ensures failed <==> exists i :: 0 <= i < |batches| && !batches[i].projected
  {
    committed, rewind := map[], map[];
    for i := 0 to |batches|
      invariant forall p :: p in committed ==>
                  exists j :: 0 <= j < i && batches[j].partition == p && batches[j].projected
                      && batches[j].to == committed[p]
      invariant forall p :: p in rewind ==>
                  exists j :: 0 <= j < i && batches[j].partition == p && !batches[j].projected
                      && batches[j].from == rewind[p]
      invariant forall j :: 0 <= j < i && batches[j].projected ==>
                  batches[j].partition in committed && committed[batches[j].partition] == batches[j].to
      invariant forall j :: 0 <= j < i && !batches[j].projected ==>
                  batches[j].partition in rewind && rewind[batches[j].partition] == batches[j].from
    {
      var b := batches[i];
      if !b.projected {
        rewind := rewind[b.partition := b.from];
      } else {
        committed := committed[b.partition := b.to];
      }
    }
    failed := rewind != map[];
    if failed {
      var p :| p in rewind;
    }
  }

  const FAILURE_BACKOFF_CAP := 30_000
  const FAILURE_BACKOFF_DOUBLINGS := 8

  function Pow2(n: nat): nat { if n == 0 then 1 else 2 * Pow2(n - 1) }

  lemma {:induction false} DoublingPastTheCap(base: int, n: nat, m: nat)
    requires n <= m && base * Pow2(n) >= FAILURE_BACKOFF_CAP
    ensures base * Pow2(m) >= FAILURE_BACKOFF_CAP
  {
    if n < m {
      DoublingPastTheCap(base, n, m - 1);
      assert base * Pow2(m) == 2 * (base * Pow2(m - 1));
    }
  }

  /** The pause doubles per failing poll, at most eight times and never past the cap; a clean poll resets it. */
  method BackOffAfterFailures(failures: nat, failed: bool, pollInterval: int) returns (consecutive: nat, wait: int)
    ensures !failed ==> consecutive == 0 && wait == 0
    ensures failed ==> consecutive == failures + 1
    ensures failed ==> wait == Min(pollInterval * Pow2(Min(consecutive, 8)), 30_000)
  {
    if !failed {
      return 0, 0;
    }
    consecutive := failures + 1;
    wait := Min(pollInterval, FAILURE_BACKOFF_CAP);
    var i := 0;
    while i < consecutive && i < FAILURE_BACKOFF_DOUBLINGS && wait < FAILURE_BACKOFF_CAP
      invariant 0 <= i <= Min(consecutive, FAILURE_BACKOFF_DOUBLINGS)
      invariant wait == Min(pollInterval * Pow2(i), FAILURE_BACKOFF_CAP)
    {
      wait := Min(wait * 2, FAILURE_BACKOFF_CAP);
      assert pollInterval * Pow2(i + 1) == 2 * (pollInterval * Pow2(i));
      i := i + 1;
    }
    if i < Min(consecutive, FAILURE_BACKOFF_DOUBLINGS) {
      DoublingPastTheCap(pollInterval, i, Min(consecutive, FAILURE_BACKOFF_DOUBLINGS));
    }
  }
}
