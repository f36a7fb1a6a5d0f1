/** One drain of the FoundationDB outbox, and one claim of the YugabyteDB outbox. */
module Relay {

  datatype Entry = Entry(mark: nat, event: nat)

  /** The outbox range, in key order. */
  class OutboxStore {
    var entries: seq<Entry>

    constructor (entries: seq<Entry>)
      requires InKeyOrder(entries)
      ensures this.entries == entries
    {
      this.entries := entries;
    }

    /** Clears from the start of the range through the mark, whatever the mark was read for. */
    method ClearThrough(mark: nat)
      requires InKeyOrder(entries)
      modifies this
      ensures InKeyOrder(entries)
      ensures forall n :: 0 <= n <= |old(entries)| && Boundary(old(entries), n, mark) ==> entries == old(entries)[n..]
    {
      var n := 0;
      while n < |entries| && entries[n].mark <= mark
        invariant n <= |entries| && forall i :: 0 <= i < n ==> entries[i].mark <= mark
      {
        n := n + 1;
      }
      forall m | 0 <= m <= |entries| && Boundary(entries, m, mark) ensures m == n {
        OneBoundary(entries, m, n, mark);
      }
      entries := entries[n..];
    }
  }

  ghost predicate InKeyOrder(entries: seq<Entry>) {
    forall i, j :: 0 <= i < j < |entries| ==> entries[i].mark < entries[j].mark
  }

  /** The first n entries are the ones up to the mark. */
  ghost predicate Boundary(entries: seq<Entry>, n: nat, mark: nat)
    requires n <= |entries|
  {
    (n > 0 ==> entries[n - 1].mark <= mark) && (n < |entries| ==> entries[n].mark > mark)
  }

  lemma OneBoundary(entries: seq<Entry>, m: nat, n: nat, mark: nat)
    requires InKeyOrder(entries) && m <= |entries| && n <= |entries| && Boundary(entries, m, mark)
             && Boundary(entries, n, mark)
    ensures m == n
  {
  }

  /** Every entry up to the first that the broker does not acknowledge, or that stops the relay. */
  ghost predicate AcceptedPrefix(batch: seq<Entry>, n: nat, acks: Entry -> bool) {
    n <= |batch| && (forall i :: 0 <= i < n ==> acks(batch[i])) && (n < |batch| ==> !acks(batch[n]))
  }

  /**
   drainFoundationDB: what is cleared is exactly the acknowledged front of what was read, and only
   then does the mark move. A stop between a produce and the clear leaves everything in place.
   */
  method DrainFoundationDB(store: OutboxStore, mark: nat, batchSize: nat, acks: Entry -> bool, stops: Entry -> bool,
        clears: bool)
      returns (mark': nat)
    requires InKeyOrder(store.entries) && (forall i :: 0 <= i < |store.entries| ==> store.entries[i].mark > mark)
    modifies store
    ensures InKeyOrder(store.entries) && (forall i :: 0 <= i < |store.entries| ==> store.entries[i].mark > mark')
    ensures forall n: nat :: AcceptedPrefix(Batch(old(store.entries), batchSize), n, acks) ==>
                          var stopped := exists i :: 0 <= i < n && stops(old(store.entries)[i]);
                          if stopped || !clears || n == 0 then store.entries == old(store.entries) && mark' == mark
                          else store.entries == old(store.entries)[n..] && mark' == old(store.entries)[n - 1].mark
  {
    var batch := Batch(store.entries, batchSize);
    var produced, stopped, lastAccepted := 0, false, 0;
    mark' := mark;
    while produced < |batch| && !stopped && acks(batch[produced])
      invariant produced <= |batch| && forall i :: 0 <= i < produced ==> acks(batch[i])
      invariant stopped <==> exists i :: 0 <= i < produced && stops(batch[i])
      invariant !stopped && produced > 0 ==> lastAccepted == batch[produced - 1].mark
    {
      stopped := stops(batch[produced]);
      if !stopped {
        lastAccepted := batch[produced].mark;
      }
      produced := produced + 1;
    }
    if !stopped && produced > 0 && clears {
      assert Boundary(store.entries, produced, lastAccepted);
      store.ClearThrough(lastAccepted);
      mark' := lastAccepted;
    }
    forall n: nat | AcceptedPrefix(batch, n, acks) ensures produced <= n && (!stopped ==> n == produced) {
    }
  }

  function Batch(entries: seq<Entry>, batchSize: nat): seq<Entry> {
    if batchSize < |entries| then entries[..batchSize] else entries
  }

  datatype ClaimEnd = AllPublished | PublishFailed | DeleteFailed

  /** publishClaimedRows: rows go in order, each deleted only after its publish, and the first failure stops. */
  method PublishClaimedRows(rows: seq<nat>, publishes: nat -> bool, deletes: nat -> bool)
      returns (published: nat, end: ClaimEnd, deleted: set<nat>)
    ensures published <= |rows| && forall i :: 0 <= i < published ==> publishes(rows[i]) && deletes(rows[i])
    ensures forall r :: r in deleted <==> r in rows[..published]
    ensures end == AllPublished <==> published == |rows|
    ensures end == PublishFailed ==> published < |rows| && !publishes(rows[published])
    ensures end == DeleteFailed ==> published < |rows| && publishes(rows[published]) && !deletes(rows[published])
  {
    published, deleted := 0, {};
    while published < |rows|
      invariant published <= |rows| && forall i :: 0 <= i < published ==> publishes(rows[i]) && deletes(rows[i])
      invariant forall r :: r in deleted <==> r in rows[..published]
    {
      var row := rows[published];
      if !publishes(row) {
        end := PublishFailed;
        return;
      }
      if !deletes(row) {
        end := DeleteFailed;
        return;
      }
      assert rows[..published + 1] == rows[..published] + [row];
      deleted := deleted + {row};
      published := published + 1;
    }
    end := AllPublished;
  }
}
