/** Reading the ledger rows of one node newest first, page by page, with a cursor between calls. */
module History {
  import opened Common
  import opened Sorting

  /** The columns that select and order a row. A nil id is 0, and event ids order as numbers. */
  datatype Row = Row(time: int, seqNo: int, eventId: nat, shard: int, entityKind: string, entityId: nat,
      relation: Option<Ends>)

  /** The ends that a row's target names when its kind is relationship. */
  datatype Ends = Ends(source: nat, target: nat)

  datatype Position = Position(time: int, seqNo: int, eventId: nat)

  const PAGE_SIZE := 500
  const ROW_LIMIT := 5000

  function PositionOf(r: Row): Position {
    Position(r.time, r.seqNo, r.eventId)
  }

  predicate Precedes(p: Position, q: Position) {
    if p.time != q.time then p.time < q.time else if p.seqNo != q.seqNo then p.seqNo < q.seqNo
        else p.eventId < q.eventId
  }

  /** Newest first. */
  predicate NotOlder(a: Row, b: Row) {
    !Precedes(PositionOf(a), PositionOf(b))
  }

  lemma NotOlderOrder()
    ensures TotalPreorder(NotOlder)
  {
  }

  ghost predicate NewestFirst(rows: seq<Row>) {
    forall i, j :: 0 <= i < j < |rows| ==> Precedes(PositionOf(rows[j]), PositionOf(rows[i]))
  }

  // ---- Pages ----

  function Below(rows: seq<Row>, p: Position): seq<Row> {
    if rows == [] then [] else if Precedes(PositionOf(rows[0]), p) then rows else Below(rows[1..], p)
  }

  function Take<T>(s: seq<T>, n: nat): seq<T> {
    if n < |s| then s[..n] else s
  }

  lemma {:induction false} BelowHolds(rows: seq<Row>, p: Position, r: Row)
    requires NewestFirst(rows)
    ensures r in Below(rows, p) <==> r in rows && Precedes(PositionOf(r), p)
    ensures NewestFirst(Below(rows, p))
  {
    if rows != [] && !Precedes(PositionOf(rows[0]), p) {
      BelowHolds(rows[1..], p, r);
      assert rows == [rows[0]] + rows[1..];
    }
  }

  /** After the last row read come exactly the rows that follow it. */
  lemma {:induction false} BelowLast(rows: seq<Row>, i: nat)
    requires NewestFirst(rows) && i < |rows|
    ensures Below(rows, PositionOf(rows[i])) == rows[i + 1..]
  {
    if i > 0 {
      BelowLast(rows[1..], i - 1);
      assert rows[1..][i - 1] == rows[i] && rows[1..][i..] == rows[i + 1..];
    } else if |rows| > 1 {
      assert rows[1..][0] == rows[1];
      assert Precedes(PositionOf(rows[1]), PositionOf(rows[0]));
    }
  }

  lemma {:induction false} BelowIsSuffix(rows: seq<Row>, p: Position) returns (n: nat)
    ensures n <= |rows| && Below(rows, p) == rows[n..]
  {
    if rows == [] || Precedes(PositionOf(rows[0]), p) {
      n := 0;
    } else {
      n := BelowIsSuffix(rows[1..], p);
      n := n + 1;
    }
  }

  lemma BelowWithin(rows: seq<Row>, p: Position, i: nat)
    requires NewestFirst(rows) && i < |Below(rows, p)|
    ensures Below(rows, PositionOf(Below(rows, p)[i])) == Below(rows, p)[i + 1..]
  {
    var n := BelowIsSuffix(rows, p);
    BelowLast(rows, n + i);
    assert rows[n..][i] == rows[n + i] && rows[n..][i + 1..] == rows[n + i + 1..];
  }

  /** How a read ended. A query or a visit that fails ends it early. */
  datatype Ending = Finished | QueryFailed | VisitFailed

  datatype ReadResult = ReadResult(rowsRead: nat, truncated: bool, next: Position, ending: Ending)

  function RowLimit(limitOverride: int): nat {
    if limitOverride <= 0 || limitOverride > ROW_LIMIT then ROW_LIMIT else limitOverride
  }

  /** The page query: at most so many rows below a position, or None when it fails. */
  type Query = (Position, nat) -> Option<seq<Row>>

  /** A query that succeeds returns the newest of `rows`, which are in order. */
  ghost predicate Answers(query: Query, rows: seq<Row>) {
    NewestFirst(rows) && forall p: Position, n: nat :: query(p, n).Some? ==>
        query(p, n).value == Take(Below(rows, p), n)
  }

  /** What one call has read of `rows`, and why it stopped. */
  ghost predicate ReadHolds(query: Query, rows: seq<Row>, start: Position, limit: nat, visitFails: Row -> bool,
                            visited: seq<Row>, result: ReadResult)
  {
    var all := Below(rows, start);
    && visited == Take(all, |visited|)
    && (result.ending.Finished? ==> |visited| == |Take(all, limit)|)
    && (result.ending.Finished? ==> (result.truncated <==> |all| > limit))
    && (result.truncated ==> Below(rows, result.next) == all[|visited|..])
    && (result.ending.VisitFailed? ==> |visited| < |all| && visitFails(all[|visited|]))
    && (result.ending.QueryFailed? ==> exists p: Position, n: nat ::
          query(p, n).None? && Below(rows, p) == all[|visited|..])
  }

  /** What a read visits with a row limit: the rows, whether one remained, and whether its queries were answered. */
  datatype Reading = Reading(rows: seq<Row>, truncated: bool, next: Position, answered: bool)

  function Visits(query: Query, position: Position, left: nat): Reading
    decreases left
  {
    var limit := Min(PAGE_SIZE, left + 1);
    var fetched := query(position, limit);
    if fetched.None? then Reading([], false, position, false)
    else
      var page := fetched.value;
      if |page| > left
      then Reading(page[..left], true, if left == 0 then position else PositionOf(page[left - 1]), true)
      else if |page| < limit then Reading(page, false, position, true)
      else After(page, Visits(query, PositionOf(page[|page| - 1]), left - |page|))
  }

  function After(visited: seq<Row>, rest: Reading): Reading {
    rest.(rows := visited + rest.rows)
  }

  lemma AfterBoth(a: seq<Row>, b: seq<Row>, rest: Reading)
    ensures After(a, After(b, rest)) == After(a + b, rest)
  {
    assert a + (b + rest.rows) == a + b + rest.rows;
  }

  /** A reading of the newest of `rows` below `p`, up to the row limit or a failing query. */
  ghost predicate ReadsNewest(query: Query, rows: seq<Row>, p: Position, left: nat, reading: Reading) {
    var all := Below(rows, p);
    && |reading.rows| <= |all| && reading.rows == all[..|reading.rows|]
    && (reading.answered ==> |reading.rows| == |Take(all, left)| && (reading.truncated <==> |all| > left))
    && (reading.truncated ==> reading.answered && Below(rows, reading.next) == all[|reading.rows|..])
    && (!reading.answered ==> FailsAt(query, rows, all[|reading.rows|..]))
  }

  /** Some query fails at a position that has exactly `rest` below it. */
  ghost predicate FailsAt(query: Query, rows: seq<Row>, rest: seq<Row>) {
    exists p: Position, n: nat :: query(p, n).None? && Below(rows, p) == rest
  }

  lemma ReadsLastPage(query: Query, rows: seq<Row>, p: Position, left: nat, page: seq<Row>, next: Position)
    requires NewestFirst(rows) && page == Take(Below(rows, p), Min(PAGE_SIZE, left + 1)) && |page| > left
    requires next == if left == 0 then p else PositionOf(page[left - 1])
    ensures ReadsNewest(query, rows, p, left, Reading(page[..left], true, next, true))
  {
    if left > 0 {
      BelowWithin(rows, p, left - 1);
    }
  }

  lemma ReadsOn(query: Query, rows: seq<Row>, p: Position, left: nat, page: seq<Row>, rest: Reading)
    requires NewestFirst(rows) && page == Take(Below(rows, p), |page|) && 0 < |page| <= left
    requires ReadsNewest(query, rows, PositionOf(page[|page| - 1]), left - |page|, rest)
    ensures ReadsNewest(query, rows, p, left, After(page, rest))
  {
    var all, n, m := Below(rows, p), |page|, |rest.rows|;
    BelowWithin(rows, p, n - 1);
    FrontOfTwo(all, n, m);
  }

  /** A query that answers from `rows` makes a read visit the newest of them. */
  lemma {:induction false} VisitsNewest(query: Query, rows: seq<Row>, position: Position, left: nat)
    requires Answers(query, rows)
    ensures ReadsNewest(query, rows, position, left, Visits(query, position, left))
    decreases left
  {
    var limit := Min(PAGE_SIZE, left + 1);
    if query(position, limit).Some? {
      var page := query(position, limit).value;
      if |page| > left {
        ReadsLastPage(query, rows, position, left, page, if left == 0 then position else PositionOf(page[left - 1]));
      } else if |page| == limit {
        var next := PositionOf(page[limit - 1]);
        VisitsNewest(query, rows, next, left - limit);
        ReadsOn(query, rows, position, left, page, Visits(query, next, left - limit));
      }
    } else {
      assert Below(rows, position)[0..] == Below(rows, position);
    }
  }

  lemma FrontOfTwo(all: seq<Row>, n: nat, m: nat)
    requires n <= |all| && m <= |all[n..]|
    ensures all[..n] + all[n..][..m] == all[..n + m] && all[n..][m..] == all[n + m..]
  {
  }

  /** One part of a read is done; the rest is the read from the next position. */
  ghost predicate VisitsGoOn(query: Query, start: Position, limit: nat, visited: seq<Row>, position: Position) {
    |visited| <= limit && Visits(query, start, limit) == After(visited, Visits(query, position, limit - |visited|))
  }

  lemma VisitsNextPage(query: Query, start: Position, limit: nat, visited: seq<Row>, position: Position, page: seq<Row>)
    requires VisitsGoOn(query, start, limit, visited, position)
    requires var n := Min(PAGE_SIZE, limit - |visited| + 1);
             query(position, n) == Some(page) && n <= |page| <= limit - |visited|
    ensures VisitsGoOn(query, start, limit, visited + page, PositionOf(page[|page| - 1]))
  {
    AfterBoth(visited, page, Visits(query, PositionOf(page[|page| - 1]), limit - |visited| - |page|));
  }

  /** The result of one call is what the reading says, up to a visit that fails. */
  ghost predicate Agrees(reading: Reading, visitFails: Row -> bool, visited: seq<Row>, result: ReadResult) {
    && visited <= reading.rows && (forall r :: r in visited ==> !visitFails(r))
    && (!result.ending.VisitFailed? ==> visited == reading.rows && (reading.answered <==> result.ending.Finished?))
    && (result.ending.Finished? ==> result.truncated == reading.truncated)
    && (result.truncated ==> result.ending.Finished? && result.next == reading.next)
    && (result.ending.VisitFailed? ==> |visited| < |reading.rows| && visitFails(reading.rows[|visited|]))
  }

  lemma AgreesHolds(query: Query, rows: seq<Row>, start: Position, limit: nat, visitFails: Row -> bool,
                    visited: seq<Row>, result: ReadResult)
    requires Answers(query, rows) && Agrees(Visits(query, start, limit), visitFails, visited, result)
    ensures ReadHolds(query, rows, start, limit, visitFails, visited, result)
  {
    VisitsNewest(query, rows, start, limit);
  }

  /**
   ReadNodeHistory with its page query. It visits the newest rows below the start up to the row
   limit, in order; it is truncated exactly when a row remains; and the rows that remain are the
   ones below the next position.
   */
  method ReadNodeHistory(query: Query, start: Position, limitOverride: int, visitFails: Row -> bool,
                         ghost rows: seq<Row>)
      returns (visited: seq<Row>, result: ReadResult)
    ensures result.rowsRead == |visited| <= RowLimit(limitOverride) && (result.truncated ==> result.ending.Finished?)
    ensures Agrees(Visits(query, start, RowLimit(limitOverride)), visitFails, visited, result)
    ensures Answers(query, rows) ==> ReadHolds(query, rows, start, RowLimit(limitOverride), visitFails, visited, result)
    ensures RowLimit(limitOverride) == if 1 <= limitOverride <= 5000 then limitOverride else 5000
    ensures |visited| <= 5000 && (1 <= limitOverride <= 5000 ==> |visited| <= limitOverride)
  {
    visited, result := ReadPages(query, start, RowLimit(limitOverride), visitFails);
    if Answers(query, rows) {
      AgreesHolds(query, rows, start, RowLimit(limitOverride), visitFails, visited, result);
    }
  }

  /** The loop over one page, with room for so many rows. */
  method VisitPage(page: seq<Row>, position: Position, room: nat, visitFails: Row -> bool)
      returns (n: nat, next: Position, ending: Ending, full: bool)
    ensures n <= |page| && n <= room && (forall i :: 0 <= i < n ==> !visitFails(page[i]))
    ensures next == if n == 0 then position else PositionOf(page[n - 1])
    ensures || (ending.VisitFailed? && !full && n < |page| && n < room && visitFails(page[n]))
            || (ending.Finished? && n == Min(|page|, room) && (full <==> |page| > room))
  {
    n, next, ending, full := 0, position, Finished, false;
    while n < |page|
      invariant n <= |page| && n <= room && ending.Finished? && !full
      invariant forall i :: 0 <= i < n ==> !visitFails(page[i])
      invariant next == if n == 0 then position else PositionOf(page[n - 1])
    {
      if n == room {
        full := true;
        return;
      }
      if visitFails(page[n]) {
        ending := VisitFailed;
        return;
      }
      next := PositionOf(page[n]);
      n := n + 1;
    }
  }

  /** The read stops in this page: at a visit that fails, at the row limit, or because no row is left. */
  lemma StopsInPage(query: Query, start: Position, limit: nat, before: seq<Row>, first: Position, page: seq<Row>,
                    n: nat, visitFails: Row -> bool, result: ReadResult)
    requires VisitsGoOn(query, start, limit, before, first) && n <= |page| && n <= limit - |before|
    requires query(first, Min(PAGE_SIZE, limit - |before| + 1)) == Some(page)
    requires forall r :: r in before + page[..n] ==> !visitFails(r)
    requires var left := limit - |before|;
             || (result.ending.VisitFailed? && !result.truncated && n < |page| && n < left && visitFails(page[n]))
             || (result.ending.Finished? && result.truncated && n == left < |page|
                 && result.next == if n == 0 then first else PositionOf(page[n - 1]))
             || (result.ending.Finished? && !result.truncated && n == |page| <= left
                 && |page| < Min(PAGE_SIZE, left + 1))
    ensures Agrees(Visits(query, start, limit), visitFails, before + page[..n], result)
  {
    var left := limit - |before|;
    var reading := Visits(query, first, left);
    if n < |page| && n < left {
      VisitsThrough(query, first, left, page, n);
      assert reading.rows == reading.rows[..n] + reading.rows[n..];
    } else {
      assert reading.rows == page[..n];
    }
  }

  method ReadPages(query: Query, start: Position, rowLimit: nat, visitFails: Row -> bool)
      returns (visited: seq<Row>, result: ReadResult)
    ensures result.rowsRead == |visited| <= rowLimit
    ensures Agrees(Visits(query, start, rowLimit), visitFails, visited, result)
  {
    var position := start;
    visited := [];
    assert After([], Visits(query, start, rowLimit)) == Visits(query, start, rowLimit);
    while true
      invariant |visited| <= rowLimit && (forall r :: r in visited ==> !visitFails(r))
      invariant VisitsGoOn(query, start, rowLimit, visited, position)
      decreases rowLimit - |visited|
    {
      var limit := Min(PAGE_SIZE, rowLimit - |visited| + 1);
      var fetched := query(position, limit);
      if fetched.None? {
        result := ReadResult(|visited|, false, start, QueryFailed);
        assert visited + [] == visited;
        return;
      }
      var page := fetched.value;
      var n, next, ending, full := VisitPage(page, position, rowLimit - |visited|, visitFails);
      if ending.VisitFailed? || full || |page| < limit {
        result := ReadResult(|visited| + n, full, if full then next else start, ending);
        StopsInPage(query, start, rowLimit, visited, position, page, n, visitFails, result);
        visited := visited + page[..n];
        return;
      }
      assert page[..n] == page;
      VisitsNextPage(query, start, rowLimit, visited, position, page);
      visited, position := visited + page, next;
    }
  }

  /** Every row of a page that the row limit allows is visited. */
  lemma VisitsThrough(query: Query, position: Position, left: nat, page: seq<Row>, i: nat)
    requires query(position, Min(PAGE_SIZE, left + 1)) == Some(page) && i < |page| && i < left
    ensures var reading := Visits(query, position, left).rows;
            i < |reading| && reading[..i] == page[..i] && reading[i] == page[i]
  {
  }

  /** Following the cursors visits every row of the window once, newest first, whatever the limit. */
  method ReadWindow(query: Query, start: Position, limitOverride: int, ghost rows: seq<Row>) returns (visited: seq<Row>)
    requires Answers(query, rows) && forall p: Position, n: nat :: query(p, n).Some?
    ensures visited == Below(rows, start)
  {
    visited := [];
    var position, more := start, true;
    ghost var all := Below(rows, start);
    while more
      invariant |visited| <= |all| && visited == all[..|visited|]
      invariant more ==> Below(rows, position) == all[|visited|..]
      invariant !more ==> visited == all
      decreases more, |all| - |visited|
    {
      var part, result := ReadNodeHistory(query, position, limitOverride, _ => false, rows);
      assert all[..|visited|] + all[|visited|..][..|part|] == all[..|visited| + |part|];
      assert all[|visited|..][|part|..] == all[|visited| + |part|..];
      visited := visited + part;
      position, more := result.next, result.truncated;
    }
  }

  // ---- A position without the event id ----

  predicate Earlier(r: Row, time: int, seqNo: int) {
    if r.time != time then r.time < time else r.seqNo < seqNo
  }

  predicate Ties(a: Row, b: Row) {
    a.time == b.time && a.seqNo == b.seqNo
  }

  function BelowWithoutId(rows: seq<Row>, time: int, seqNo: int): seq<Row> {
    if rows == [] then [] else if Earlier(rows[0], time, seqNo) then rows else BelowWithoutId(rows[1..], time, seqNo)
  }

  lemma {:induction false} BelowWithoutIdHolds(rows: seq<Row>, time: int, seqNo: int, r: Row)
    requires NewestFirst(rows)
    ensures r in BelowWithoutId(rows, time, seqNo) <==> r in rows && Earlier(r, time, seqNo)
  {
    if rows != [] && !Earlier(rows[0], time, seqNo) {
      BelowWithoutIdHolds(rows[1..], time, seqNo, r);
      assert rows == [rows[0]] + rows[1..];
    }
  }

  lemma {:induction false} WithoutTies(rows: seq<Row>, i: nat)
    requires NewestFirst(rows) && i < |rows| && forall r :: r in rows[i + 1..] ==> !Ties(r, rows[i])
    ensures BelowWithoutId(rows, rows[i].time, rows[i].seqNo) == rows[i + 1..]
  {
    if i > 0 {
      assert rows[1..][i..] == rows[i + 1..] && rows[1..][i - 1] == rows[i];
      WithoutTies(rows[1..], i - 1);
      assert Precedes(PositionOf(rows[i]), PositionOf(rows[0]));
    } else if |rows| > 1 {
      assert rows[i + 1..][0] == rows[1] && rows[1] in rows[i + 1..] && !Ties(rows[1], rows[0]);
      assert Precedes(PositionOf(rows[1]), PositionOf(rows[0]));
      assert BelowWithoutId(rows[1..], rows[0].time, rows[0].seqNo) == rows[1..];
    }
  }

  /**
   Sequences repeat across shards. A reader that went on from the time and sequence of the last row
   alone would pass over exactly the rows that tie with it, so it would be right after every row if
   and only if no two rows tie.
   */
  lemma TieBreakIsNeeded(rows: seq<Row>, i: nat)
    requires NewestFirst(rows) && i < |rows|
    ensures var rest := BelowWithoutId(rows, rows[i].time, rows[i].seqNo);
            && (forall r :: r in rows[i + 1..] ==> (r !in rest <==> Ties(r, rows[i])))
            && (rest == Below(rows, PositionOf(rows[i])) <==> forall r :: r in rows[i + 1..] ==> !Ties(r, rows[i]))
  {
    var time, seqNo := rows[i].time, rows[i].seqNo;
    BelowLast(rows, i);
    forall r | r in rows[i + 1..] ensures r !in BelowWithoutId(rows, time, seqNo) <==> Ties(r, rows[i]) {
      var j :| 0 <= j < |rows[i + 1..]| && rows[i + 1..][j] == r;
      assert rows[i + 1 + j] == r && Precedes(PositionOf(r), PositionOf(rows[i]));
      BelowWithoutIdHolds(rows, time, seqNo, r);
    }
    if forall r :: r in rows[i + 1..] ==> !Ties(r, rows[i]) {
      WithoutTies(rows, i);
    }
  }
}
