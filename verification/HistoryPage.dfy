/**
 The page query: four branches, each an index scan that stops at the page size, put together
 with UNION ALL, sorted and cut to the page size again.
 */
module HistoryPage {
  import opened Common
  import opened Sorting
  import opened History

  type Branch = Row -> bool

  function Filter(rows: seq<Row>, b: Branch): seq<Row> {
    if rows == [] then [] else (if b(rows[0]) then [rows[0]] else []) + Filter(rows[1..], b)
  }

  predicate OwnRow(node: nat, r: Row) { r.entityKind == "node" && r.entityId == node }
  predicate LegacyLinkRow(node: nat, r: Row) { r.entityKind == "relationship" && r.entityId == node }
  predicate SourceRow(node: nat, r: Row) { r.relation.Some? && r.relation.value.source == node }
  predicate TargetRow(node: nat, r: Row) {
    r.relation.Some? && r.relation.value.target == node && r.relation.value.source != node
  }

  predicate InBranch(node: nat, i: nat, r: Row) {
    if i == 0 then OwnRow(node, r) else if i == 1 then LegacyLinkRow(node, r)
    else if i == 2 then SourceRow(node, r) else i == 3 && TargetRow(node, r)
  }

  function BranchOf(node: nat, i: nat): Branch {
    r => InBranch(node, i, r)
  }

  /** What one branch returns. */
  function Scan(rows: seq<Row>, node: nat, i: nat, limit: nat): seq<Row> {
    Take(Filter(rows, BranchOf(node, i)), limit)
  }

  function UnionAll(rows: seq<Row>, node: nat, limit: nat): seq<Row> {
    Scan(rows, node, 0, limit) + Scan(rows, node, 1, limit) + Scan(rows, node, 2, limit) + Scan(rows, node, 3, limit)
  }

  function Page(rows: seq<Row>, node: nat, limit: nat): seq<Row> {
    Take(Sort(NotOlder, UnionAll(rows, node, limit)), limit)
  }

  predicate Concerns(node: nat, r: Row) {
    OwnRow(node, r) || LegacyLinkRow(node, r) || SourceRow(node, r) || TargetRow(node, r)
  }

  /** The rows that concern the node. */
  function Selected(rows: seq<Row>, node: nat): seq<Row> {
    Filter(rows, r => Concerns(node, r))
  }

  /** A row that both stores the node as its entity and names it as an end of a relationship. */
  predicate StoredTwice(node: nat, r: Row) {
    (OwnRow(node, r) || LegacyLinkRow(node, r)) && (SourceRow(node, r) || TargetRow(node, r))
  }

  // ---- Filtering ----

  lemma {:induction false} FilterHolds(rows: seq<Row>, b: Branch, r: Row)
    ensures r in Filter(rows, b) <==> r in rows && b(r)
  {
    if rows != [] {
      FilterHolds(rows[1..], b, r);
      assert rows == [rows[0]] + rows[1..];
    }
  }

  /** A node's rows: its own, the old ones of its relationships, and those that name it as either end. */
  lemma SelectedExactly(rows: seq<Row>, node: nat, r: Row)
    ensures r in Selected(rows, node) <==>
              && r in rows
              && (|| ((r.entityKind == "node" || r.entityKind == "relationship") && r.entityId == node)
                  || (r.relation.Some? && (r.relation.value.source == node || r.relation.value.target == node)))
  {
    FilterHolds(rows, r => Concerns(node, r), r);
  }

  lemma {:induction false} FilterOrdered(rows: seq<Row>, b: Branch)
    requires NewestFirst(rows)
    ensures NewestFirst(Filter(rows, b))
  {
    if rows != [] {
      FilterOrdered(rows[1..], b);
      var rest := Filter(rows[1..], b);
      forall j | 0 <= j < |rest| ensures Precedes(PositionOf(rest[j]), PositionOf(rows[0])) {
        FilterHolds(rows[1..], b, rest[j]);
        assert rest[j] in rows[1..];
        var k :| 0 <= k < |rows[1..]| && rows[1..][k] == rest[j];
        assert rows[k + 1] == rest[j];
      }
    }
  }

  /** Dropping rows that fail a filter leaves fewer rows ahead of each row that passes it. */
  lemma {:induction false} FrontOfFilter(rows: seq<Row>, wide: Branch, narrow: Branch, r: Row, limit: nat)
    requires (forall x :: x in rows && narrow(x) ==> wide(x)) && r in Take(Filter(rows, wide), limit) && narrow(r)
    ensures r in Take(Filter(rows, narrow), limit)
  {
    var w, n := Filter(rows, wide), Filter(rows, narrow);
    if rows != [] && wide(rows[0]) {
      assert limit > 0;
      assert w == [rows[0]] + Filter(rows[1..], wide);
      if r == rows[0] {
        assert n[0] == r && |n| > 0;
        assert Take(n, limit)[0] == r;
      } else {
        InTail(rows[0], Filter(rows[1..], wide), r, limit);
        FrontOfFilter(rows[1..], wide, narrow, r, limit - 1);
        InConsOrTail(rows[0], Filter(rows[1..], narrow), r, limit, narrow(rows[0]));
      }
    } else if rows != [] {
      assert !narrow(rows[0]) by {
        assert rows[0] in rows;
      }
      assert w == Filter(rows[1..], wide) && n == Filter(rows[1..], narrow);
      FrontOfFilter(rows[1..], wide, narrow, r, limit);
    }
  }

  lemma InTail(x: Row, rest: seq<Row>, r: Row, limit: nat)
    requires r in Take([x] + rest, limit) && r != x
    ensures limit > 0 && r in Take(rest, limit - 1)
  {
    var s := Take([x] + rest, limit);
    var i :| 0 <= i < |s| && s[i] == r;
    assert i > 0 && Take(rest, limit - 1)[i - 1] == r;
  }

  lemma InConsOrTail(x: Row, rest: seq<Row>, r: Row, limit: nat, cons: bool)
    requires limit > 0 && r in Take(rest, limit - 1)
    ensures r in Take((if cons then [x] else []) + rest, limit)
  {
    var s := Take(rest, limit - 1);
    var i :| 0 <= i < |s| && s[i] == r;
    if cons {
      assert Take([x] + rest, limit)[i + 1] == r;
    } else {
      assert [] + rest == rest;
      assert Take(rest, limit)[i] == r;
    }
  }

  // ---- The first rows of a part that holds the first rows ----

  lemma {:induction false} SameFront(s: seq<Row>, f: seq<Row>, limit: nat)
    requires NewestFirst(s) && NewestFirst(f) && (forall r :: r in s ==> r in f)
             && (forall r :: r in Take(f, limit) ==> r in s)
    ensures Take(s, limit) == Take(f, limit)
  {
    assert |s| > 0 ==> s[0] in s;
    if f != [] && limit > 0 {
      assert Take(f, limit)[0] == f[0];
      assert f[0] in s;
      SameHead(s, f);
      TailsKeep(s, f, limit);
      SameFront(s[1..], f[1..], limit - 1);
      assert s == [s[0]] + s[1..] && f == [f[0]] + f[1..];
      TakeCons(s[0], s[1..], limit);
      TakeCons(f[0], f[1..], limit);
    }
  }

  lemma TakeCons(x: Row, rest: seq<Row>, limit: nat)
    requires limit > 0
    ensures Take([x] + rest, limit) == [x] + Take(rest, limit - 1)
  {
  }

  lemma SameHead(s: seq<Row>, f: seq<Row>)
    requires NewestFirst(s) && NewestFirst(f) && f != [] && f[0] in s && forall r :: r in s ==> r in f
    ensures s != [] && s[0] == f[0]
  {
    FirstIsNewest(s, f[0]);
    FirstIsNewest(f, s[0]);
  }

  lemma FirstIsNewest(s: seq<Row>, r: Row)
    requires NewestFirst(s) && r in s
    ensures r == s[0] || Precedes(PositionOf(r), PositionOf(s[0]))
  {
    var i :| 0 <= i < |s| && s[i] == r;
    assert i == 0 || Precedes(PositionOf(s[i]), PositionOf(s[0]));
  }

  lemma TailsKeep(s: seq<Row>, f: seq<Row>, limit: nat)
    requires NewestFirst(s) && NewestFirst(f) && s != [] && f != [] && s[0] == f[0] && limit > 0
    requires (forall r :: r in s ==> r in f) && (forall r :: r in Take(f, limit) ==> r in s)
    ensures NewestFirst(s[1..]) && NewestFirst(f[1..])
    ensures (forall r :: r in s[1..] ==> r in f[1..]) && (forall r :: r in Take(f[1..], limit - 1) ==> r in s[1..])
  {
    assert s == [s[0]] + s[1..] && f == [f[0]] + f[1..];
    TakeCons(f[0], f[1..], limit);
    forall r | r in s[1..] ensures r in f[1..] {
      NotHead(s, r);
      assert r in f;
    }
    forall r | r in Take(f[1..], limit - 1) ensures r in s[1..] {
      assert r in f[1..];
      NotHead(f, r);
      assert r in Take(f, limit);
    }
  }

  lemma NotHead(s: seq<Row>, r: Row)
    requires NewestFirst(s) && s != [] && r in s[1..]
    ensures r != s[0]
  {
    var i :| 0 <= i < |s[1..]| && s[1..][i] == r;
    assert s[i + 1] == r;
  }

  // ---- The union ----

  lemma {:induction false} OccursOnce(s: seq<Row>, r: Row)
    requires NewestFirst(s)
    ensures multiset(s)[r] <= 1
  {
    if s != [] {
      OccursOnce(s[1..], r);
      assert s == [s[0]] + s[1..];
      if r in s[1..] {
        NotHead(s, r);
      }
    }
  }

  lemma {:induction false} FilterShort(rows: seq<Row>, b: Branch)
    ensures |Filter(rows, b)| <= |rows|
  {
    if rows != [] {
      FilterShort(rows[1..], b);
    }
  }

  lemma TakeOrdered(s: seq<Row>, limit: nat)
    requires NewestFirst(s)
    ensures NewestFirst(Take(s, limit)) && forall r :: r in Take(s, limit) ==> r in s
  {
  }

  /** A branch returns rows of its own, each once; all of them when the limit allows. */
  lemma ScanHolds(rows: seq<Row>, node: nat, i: nat, limit: nat, r: Row)
    requires NewestFirst(rows)
    ensures multiset(Scan(rows, node, i, limit))[r] <= 1
    ensures r in multiset(Scan(rows, node, i, limit)) ==> r in rows && InBranch(node, i, r)
    ensures limit >= |rows| && r in rows && InBranch(node, i, r) ==> r in multiset(Scan(rows, node, i, limit))
    ensures |Scan(rows, node, i, limit)| <= |rows|
  {
    var f := Filter(rows, BranchOf(node, i));
    FilterHolds(rows, BranchOf(node, i), r);
    FilterOrdered(rows, BranchOf(node, i));
    FilterShort(rows, BranchOf(node, i));
    TakeOrdered(f, limit);
    OccursOnce(Take(f, limit), r);
  }

  lemma UnionCounts(rows: seq<Row>, node: nat, limit: nat, r: Row)
    ensures multiset(UnionAll(rows, node, limit))[r] ==
            multiset(Scan(rows, node, 0, limit))[r] + multiset(Scan(rows, node, 1, limit))[r]
            + multiset(Scan(rows, node, 2, limit))[r] + multiset(Scan(rows, node, 3, limit))[r]
  {
    FourCounts(Scan(rows, node, 0, limit), Scan(rows, node, 1, limit), Scan(rows, node, 2, limit),
        Scan(rows, node, 3, limit), r);
  }

  lemma FourCounts(a: seq<Row>, b: seq<Row>, c: seq<Row>, d: seq<Row>, r: Row)
    ensures multiset(a + b + c + d)[r] == multiset(a)[r] + multiset(b)[r] + multiset(c)[r] + multiset(d)[r]
  {
    assert multiset(a + b + c + d) == multiset(a) + multiset(b) + multiset(c) + multiset(d);
  }

  /** The union holds a row once, or as often as there are branches for it. */
  lemma UnionHolds(rows: seq<Row>, node: nat, limit: nat, r: Row)
    requires NewestFirst(rows)
    ensures var n := multiset(UnionAll(rows, node, limit))[r];
            && (n > 0 ==> r in rows && Concerns(node, r)) && (!StoredTwice(node, r) ==> n <= 1)
            && (limit >= |rows| && r in rows && StoredTwice(node, r) ==> n >= 2)
  {
    UnionCounts(rows, node, limit, r);
    ScanHolds(rows, node, 0, limit, r);
    ScanHolds(rows, node, 1, limit, r);
    ScanHolds(rows, node, 2, limit, r);
    ScanHolds(rows, node, 3, limit, r);
  }

  /** Rows of the ledger that stand at one position are one row. */
  lemma PositionsApart(rows: seq<Row>, x: Row, y: Row)
    requires NewestFirst(rows) && x in rows && y in rows && x != y
    ensures PositionOf(x) != PositionOf(y)
  {
    var i :| 0 <= i < |rows| && rows[i] == x;
    var j :| 0 <= j < |rows| && rows[j] == y;
    assert i < j || j < i;
  }

  ghost predicate NoneTwice(rows: seq<Row>, node: nat) {
    forall r :: r in rows ==> !StoredTwice(node, r)
  }

  lemma SortedUnionOrdered(rows: seq<Row>, node: nat, limit: nat)
    requires NewestFirst(rows) && NoneTwice(rows, node)
    ensures NewestFirst(Sort(NotOlder, UnionAll(rows, node, limit)))
  {
    var u := UnionAll(rows, node, limit);
    var s := Sort(NotOlder, u);
    NotOlderOrder();
    SortSorts(NotOlder, u);
    SortContents(NotOlder, u);
    forall i, j | 0 <= i < j < |s| ensures Precedes(PositionOf(s[j]), PositionOf(s[i])) {
      assert s[i] in multiset(s) && s[j] in multiset(s);
      UnionHolds(rows, node, limit, s[i]);
      UnionHolds(rows, node, limit, s[j]);
      CountsTwice(s, i, j);
      PositionsApart(rows, s[i], s[j]);
      assert NotOlder(s[i], s[j]);
    }
  }

  lemma SelectedIsInUnion(rows: seq<Row>, node: nat, limit: nat, r: Row)
    requires r in Take(Selected(rows, node), limit)
    ensures multiset(UnionAll(rows, node, limit))[r] > 0
  {
    var any: Branch := x => Concerns(node, x);
    FilterHolds(rows, any, r);
    var i := if OwnRow(node, r) then 0 else if LegacyLinkRow(node, r) then 1 else if SourceRow(node, r) then 2 else 3;
    FrontOfFilter(rows, any, BranchOf(node, i), r, limit);
    assert r in Scan(rows, node, i, limit);
    assert multiset(Scan(rows, node, i, limit))[r] > 0;
    UnionCounts(rows, node, limit, r);
  }

  /** When no row is stored twice over, cutting every branch first loses nothing. */
  lemma DisjointPage(rows: seq<Row>, node: nat, limit: nat)
    requires NewestFirst(rows) && NoneTwice(rows, node)
    ensures Page(rows, node, limit) == Take(Selected(rows, node), limit)
  {
    var u := UnionAll(rows, node, limit);
    var s, f := Sort(NotOlder, u), Selected(rows, node);
    SortedUnionOrdered(rows, node, limit);
    FilterOrdered(rows, x => Concerns(node, x));
    SortContents(NotOlder, u);
    forall r | r in s ensures r in f {
      assert r in multiset(s);
      UnionHolds(rows, node, limit, r);
      FilterHolds(rows, x => Concerns(node, x), r);
    }
    forall r | r in Take(f, limit) ensures r in s {
      SelectedIsInUnion(rows, node, limit, r);
      assert r in multiset(s);
    }
    SameFront(s, f, limit);
  }

  lemma OverlapRepeats(rows: seq<Row>, node: nat, r: Row)
    requires NewestFirst(rows) && r in rows && StoredTwice(node, r)
    ensures Page(rows, node, 4 * |rows|) != Take(Selected(rows, node), 4 * |rows|)
  {
    var limit := 4 * |rows|;
    var u := UnionAll(rows, node, limit);
    UnionHolds(rows, node, limit, r);
    ScanHolds(rows, node, 0, limit, r);
    ScanHolds(rows, node, 1, limit, r);
    ScanHolds(rows, node, 2, limit, r);
    ScanHolds(rows, node, 3, limit, r);
    SortContents(NotOlder, u);
    FilterOrdered(rows, x => Concerns(node, x));
    TakeOrdered(Selected(rows, node), limit);
    OccursOnce(Take(Selected(rows, node), limit), r);
  }

  /**
   The page query returns the newest rows of the node, for every page size, exactly when no row is
   stored twice over.
   */
  lemma PageExactly(rows: seq<Row>, node: nat)
    requires NewestFirst(rows)
    ensures NoneTwice(rows, node) <==> forall limit: nat :: Page(rows, node, limit) == Take(Selected(rows, node), limit)
  {
    if NoneTwice(rows, node) {
      forall limit: nat ensures Page(rows, node, limit) == Take(Selected(rows, node), limit) {
        DisjointPage(rows, node, limit);
      }
    } else {
      var r :| r in rows && StoredTwice(node, r);
      OverlapRepeats(rows, node, r);
    }
  }

  /** Relationship rows that leave their entity id empty, as format 2 rows do, are never stored twice over. */
  lemma EmptyEntityIsEnough(rows: seq<Row>, node: nat, limit: nat)
    requires NewestFirst(rows) && node != 0 && forall r :: r in rows && r.relation.Some? ==> r.entityId == 0
    ensures Page(rows, node, limit) == Take(Selected(rows, node), limit)
  {
    DisjointPage(rows, node, limit);
  }

  // ---- The reader over the query ----

  lemma {:induction false} SelectedBelow(rows: seq<Row>, node: nat, p: Position)
    requires NewestFirst(rows)
    ensures Selected(Below(rows, p), node) == Below(Selected(rows, node), p)
  {
    if rows != [] {
      if Precedes(PositionOf(rows[0]), p) {
        SelectedAllBelow(rows, node, p);
      } else {
        SelectedBelow(rows[1..], node, p);
        var rest := Selected(rows[1..], node);
        if Concerns(node, rows[0]) {
          assert Selected(rows, node) == [rows[0]] + rest && ([rows[0]] + rest)[1..] == rest;
        } else {
          assert Selected(rows, node) == rest;
        }
      }
    }
  }

  lemma SelectedAllBelow(rows: seq<Row>, node: nat, p: Position)
    requires NewestFirst(rows) && rows != [] && Precedes(PositionOf(rows[0]), p)
    ensures Below(Selected(rows, node), p) == Selected(rows, node)
  {
    var s := Selected(rows, node);
    if s != [] {
      FilterHolds(rows, x => Concerns(node, x), s[0]);
      assert s[0] in rows;
      var i :| 0 <= i < |rows| && rows[i] == s[0];
    }
  }

  /** The page query at a position, or its failure. */
  function PageQuery(rows: seq<Row>, node: nat, fails: (Position, nat) -> bool): Query {
    (p: Position, n: nat) => if fails(p, n) then None else Some(Page(Below(rows, p), node, n))
  }

  /** Without rows stored twice over, every page is the newest rows of the node below its position. */
  lemma PagesAnswer(rows: seq<Row>, node: nat, fails: (Position, nat) -> bool)
    requires NewestFirst(rows) && NoneTwice(rows, node)
    ensures Answers(PageQuery(rows, node, fails), Selected(rows, node))
  {
    var query := PageQuery(rows, node, fails);
    FilterOrdered(rows, x => Concerns(node, x));
    forall p: Position, n: nat | query(p, n).Some?
        ensures query(p, n).value == Take(Below(Selected(rows, node), p), n) {
      PageAt(rows, node, p, n);
    }
  }

  lemma PageAt(rows: seq<Row>, node: nat, p: Position, n: nat)
    requires NewestFirst(rows) && NoneTwice(rows, node)
    ensures Page(Below(rows, p), node, n) == Take(Below(Selected(rows, node), p), n)
  {
    assert NewestFirst(Below(rows, p)) && NoneTwice(Below(rows, p), node) by {
      BelowIsNewestFirst(rows, p);
      forall r | r in Below(rows, p) ensures !StoredTwice(node, r) {
        BelowHolds(rows, p, r);
      }
    }
    DisjointPage(Below(rows, p), node, n);
    SelectedBelow(rows, node, p);
  }

  lemma BelowIsNewestFirst(rows: seq<Row>, p: Position)
    requires NewestFirst(rows)
    ensures NewestFirst(Below(rows, p))
  {
    var n := BelowIsSuffix(rows, p);
  }

  // ---- Rows that are selected twice ----

  /**
   At most the newest of `rows` below `p`, in order, and none passed over: a row that is left out is
   older than all of them, and they are as many as the limit. A row can be there more than once.
   */
  ghost predicate Covers(page: seq<Row>, rows: seq<Row>, p: Position, limit: nat) {
    && (forall r :: r in page ==> r in rows && Precedes(PositionOf(r), p))
    && (forall i, j :: 0 <= i < j < |page| ==> NotOlder(page[i], page[j]))
    && (forall r :: r in rows && Precedes(PositionOf(r), p) && r !in page ==>
          |page| >= limit && forall x :: x in page ==> Precedes(PositionOf(r), PositionOf(x)))
  }

  /** The rows of one branch that come before `x` in the sorted union are ahead of it there too. */
  lemma ScanIsAhead(s: seq<Row>, scan: seq<Row>, k: nat)
    requires k < |s| && multiset(scan) <= multiset(s) && (forall i, j :: 0 <= i < j < |s| ==> NotOlder(s[i], s[j]))
    requires forall y :: y in scan ==> Precedes(PositionOf(s[k]), PositionOf(y))
    ensures |scan| <= k
  {
    assert s == s[..k] + s[k..];
    forall y ensures multiset(scan)[y] <= multiset(s[..k])[y] {
      if y in multiset(scan) {
        assert y in scan;
        forall j | k <= j < |s| ensures s[j] != y {
          assert j == k || NotOlder(s[k], s[j]);
        }
        assert multiset(s)[y] == multiset(s[..k])[y] + multiset(s[k..])[y];
      }
    }
    assert multiset(s[..k]) == multiset(scan) + (multiset(s[..k]) - multiset(scan));
    assert |multiset(s[..k])| == k && |multiset(scan)| == |scan|;
  }

  lemma SomeIsNotAhead(s: seq<Row>, scan: seq<Row>, k: nat)
    requires k < |s| && multiset(scan) <= multiset(s) && (forall i, j :: 0 <= i < j < |s| ==> NotOlder(s[i], s[j]))
    requires |scan| > k
    ensures exists y :: y in scan && !Precedes(PositionOf(s[k]), PositionOf(y))
  {
    if forall y :: y in scan ==> Precedes(PositionOf(s[k]), PositionOf(y)) {
      ScanIsAhead(s, scan, k);
    }
  }

  lemma InFront(s: seq<Row>, limit: nat, k: nat)
    requires k < |s|
    ensures k < limit ==> s[k] in Take(s, limit)
  {
    if k < limit {
      assert Take(s, limit)[k] == s[k];
    }
  }

  /** A row that a branch was cut before comes after everything the branch returned. */
  lemma CutFromScan(rows: seq<Row>, node: nat, i: nat, limit: nat, r: Row)
    requires NewestFirst(rows) && r in rows && InBranch(node, i, r) && r !in Scan(rows, node, i, limit)
    ensures |Scan(rows, node, i, limit)| == limit
    ensures forall y :: y in Scan(rows, node, i, limit) ==> Precedes(PositionOf(r), PositionOf(y))
  {
    var f := Filter(rows, BranchOf(node, i));
    FilterHolds(rows, BranchOf(node, i), r);
    FilterOrdered(rows, BranchOf(node, i));
    var k :| 0 <= k < |f| && f[k] == r;
    InFront(f, limit, k);
  }

  function BranchFor(node: nat, r: Row): nat {
    if OwnRow(node, r) then 0 else if LegacyLinkRow(node, r) then 1 else if SourceRow(node, r) then 2 else 3
  }

  lemma ScanInUnion(rows: seq<Row>, node: nat, i: nat, limit: nat)
    requires i < 4
    ensures multiset(Scan(rows, node, i, limit)) <= multiset(UnionAll(rows, node, limit))
  {
    forall r ensures multiset(Scan(rows, node, i, limit))[r] <= multiset(UnionAll(rows, node, limit))[r] {
      UnionCounts(rows, node, limit, r);
    }
  }

  /** Beyond the page, or cut from a branch that was full. */
  ghost predicate LeftOut(s: seq<Row>, scan: seq<Row>, limit: nat, r: Row) {
    || (exists m :: limit <= m < |s| && s[m] == r)
    || (|scan| == limit && forall y :: y in scan ==> Precedes(PositionOf(r), PositionOf(y)))
  }

  lemma WhereLeftOut(rows: seq<Row>, node: nat, limit: nat, r: Row)
    requires NewestFirst(rows) && r in rows && Concerns(node, r) && r !in Page(rows, node, limit)
    ensures LeftOut(Sort(NotOlder, UnionAll(rows, node, limit)), Scan(rows, node, BranchFor(node, r), limit), limit, r)
  {
    var s, scan := Sort(NotOlder, UnionAll(rows, node, limit)), Scan(rows, node, BranchFor(node, r), limit);
    if r in scan {
      ScanInUnion(rows, node, BranchFor(node, r), limit);
      SortContents(NotOlder, UnionAll(rows, node, limit));
      assert r in multiset(scan) && r in multiset(s);
      var k :| 0 <= k < |s| && s[k] == r;
      InFront(s, limit, k);
    } else {
      CutFromScan(rows, node, BranchFor(node, r), limit, r);
    }
  }

  lemma PartIsShorter(part: seq<Row>, all: seq<Row>)
    requires multiset(part) <= multiset(all)
    ensures |part| <= |all|
  {
    assert multiset(all) == multiset(part) + (multiset(all) - multiset(part));
    assert |multiset(part)| == |part| && |multiset(all)| == |all|;
  }

  /** A row that the page leaves out is older than every row in it, and the page is full. */
  lemma LeftOutIsOlder(rows: seq<Row>, node: nat, limit: nat, r: Row)
    requires NewestFirst(rows) && r in rows && Concerns(node, r) && r !in Page(rows, node, limit)
    ensures |Page(rows, node, limit)| == limit
    ensures forall x :: x in Page(rows, node, limit) ==> Precedes(PositionOf(r), PositionOf(x))
  {
    var s, scan := Sort(NotOlder, UnionAll(rows, node, limit)), Scan(rows, node, BranchFor(node, r), limit);
    SortedUnion(rows, node, limit);
    ScanInUnion(rows, node, BranchFor(node, r), limit);
    WhereLeftOut(rows, node, limit, r);
    FrontIsNewer(rows, s, scan, limit, r);
  }

  lemma FrontIsNewer(rows: seq<Row>, s: seq<Row>, scan: seq<Row>, limit: nat, r: Row)
    requires NewestFirst(rows) && r in rows && (forall x :: x in s ==> x in rows) && r !in Take(s, limit)
    requires multiset(scan) <= multiset(s) && forall i, j :: 0 <= i < j < |s| ==> NotOlder(s[i], s[j])
    requires LeftOut(s, scan, limit, r)
    ensures |Take(s, limit)| == limit && forall x :: x in Take(s, limit) ==> Precedes(PositionOf(r), PositionOf(x))
  {
    PartIsShorter(scan, s);
    forall x | x in Take(s, limit) ensures Precedes(PositionOf(r), PositionOf(x)) {
      var k :| 0 <= k < |Take(s, limit)| && Take(s, limit)[k] == x;
      InPageIsNewer(rows, s, scan, limit, r, k);
    }
  }

  lemma SortedUnion(rows: seq<Row>, node: nat, limit: nat)
    requires NewestFirst(rows)
    ensures var s := Sort(NotOlder, UnionAll(rows, node, limit));
            && multiset(s) == multiset(UnionAll(rows, node, limit))
            && (forall i, j :: 0 <= i < j < |s| ==> NotOlder(s[i], s[j]))
            && (forall x :: x in s ==> x in rows && Concerns(node, x))
  {
    var u := UnionAll(rows, node, limit);
    NotOlderOrder();
    SortSorts(NotOlder, u);
    SortContents(NotOlder, u);
    forall x | x in Sort(NotOlder, u) ensures x in rows && Concerns(node, x) {
      assert x in multiset(Sort(NotOlder, u));
      UnionHolds(rows, node, limit, x);
    }
  }

  lemma InPageIsNewer(rows: seq<Row>, s: seq<Row>, scan: seq<Row>, limit: nat, r: Row, k: nat)
    requires NewestFirst(rows) && r in rows && k < |s| && k < limit && s[k] in rows && s[k] != r
    requires multiset(scan) <= multiset(s) && forall i, j :: 0 <= i < j < |s| ==> NotOlder(s[i], s[j])
    requires LeftOut(s, scan, limit, r)
    ensures Precedes(PositionOf(r), PositionOf(s[k]))
  {
    PositionsApart(rows, r, s[k]);
    if exists m :: limit <= m < |s| && s[m] == r {
      var m :| limit <= m < |s| && s[m] == r;
      assert NotOlder(s[k], s[m]);
    } else {
      SomeIsNotAhead(s, scan, k);
    }
  }

  /** Whatever is selected twice, a page has the node's newest rows and passes over none. */
  lemma PageCovers(rows: seq<Row>, node: nat, p: Position, limit: nat)
    requires NewestFirst(rows)
    ensures Covers(Page(Below(rows, p), node, limit), Selected(rows, node), p, limit)
  {
    var below, selected := Below(rows, p), Selected(rows, node);
    var page := Page(below, node, limit);
    BelowIsNewestFirst(rows, p);
    SortedUnion(below, node, limit);
    forall r | r in page ensures r in selected && Precedes(PositionOf(r), p) {
      BelowHolds(rows, p, r);
      FilterHolds(rows, x => Concerns(node, x), r);
    }
    forall r | r in selected && Precedes(PositionOf(r), p) && r !in page
      ensures |page| >= limit && forall x :: x in page ==> Precedes(PositionOf(r), PositionOf(x))
    {
      BelowHolds(rows, p, r);
      FilterHolds(rows, x => Concerns(node, x), r);
      LeftOutIsOlder(below, node, limit, r);
    }
  }

  ghost predicate PagesCover(query: Query, rows: seq<Row>) {
    NewestFirst(rows) && forall p: Position, n: nat :: query(p, n).Some? ==> Covers(query(p, n).value, rows, p, n)
  }

  lemma QueryCovers(rows: seq<Row>, node: nat, fails: (Position, nat) -> bool)
    requires NewestFirst(rows)
    ensures PagesCover(PageQuery(rows, node, fails), Selected(rows, node))
  {
    var query := PageQuery(rows, node, fails);
    FilterOrdered(rows, x => Concerns(node, x));
    forall p: Position, n: nat | query(p, n).Some? ensures Covers(query(p, n).value, Selected(rows, node), p, n) {
      PageCovers(rows, node, p, n);
    }
  }

  /** So does a read, whatever its row limit: every page goes on below the last row of the one before. */
  lemma {:induction false} VisitsCover(query: Query, rows: seq<Row>, start: Position, left: nat)
    requires PagesCover(query, rows) && Visits(query, start, left).answered
    ensures Covers(Visits(query, start, left).rows, rows, start, left)
    decreases left
  {
    var limit := Min(PAGE_SIZE, left + 1);
    var page := query(start, limit).value;
    if |page| > left {
      FrontCovers(page, rows, start, limit, left);
    } else if |page| >= limit {
      var next := PositionOf(page[|page| - 1]);
      VisitsCover(query, rows, next, left - |page|);
      CoversOn(page, Visits(query, next, left - |page|).rows, rows, start, limit, left);
    }
  }

  lemma FrontCovers(page: seq<Row>, rows: seq<Row>, p: Position, limit: nat, left: nat)
    requires NewestFirst(rows) && Covers(page, rows, p, limit) && left < |page|
    ensures Covers(page[..left], rows, p, left)
  {
    forall r | r in rows && Precedes(PositionOf(r), p) && r !in page[..left]
      ensures forall x :: x in page[..left] ==> Precedes(PositionOf(r), PositionOf(x))
    {
      forall x | x in page[..left] ensures Precedes(PositionOf(r), PositionOf(x)) {
        if r in page {
          var i, j :| 0 <= i < left && page[i] == x && 0 <= j < |page| && page[j] == r;
          InFront(page, left, j);
          PositionsApart(rows, r, x);
          assert NotOlder(page[i], page[j]);
        }
      }
    }
  }

  lemma CoversOn(page: seq<Row>, rest: seq<Row>, rows: seq<Row>, p: Position, limit: nat, left: nat)
    requires Covers(page, rows, p, limit) && 0 < |page| <= left
    requires Covers(rest, rows, PositionOf(page[|page| - 1]), left - |page|)
    ensures Covers(page + rest, rows, p, left)
  {
    var v, last := page + rest, page[|page| - 1];
    forall x | x in page ensures !Precedes(PositionOf(x), PositionOf(last)) {
      var i :| 0 <= i < |page| && page[i] == x;
      assert i == |page| - 1 || NotOlder(page[i], last);
    }
    forall r | r in rows && Precedes(PositionOf(r), p) && r !in v
      ensures |v| >= left && forall x :: x in v ==> Precedes(PositionOf(r), PositionOf(x))
    {
      assert r !in page && r !in rest && last in page;
      assert Precedes(PositionOf(r), PositionOf(last));
    }
  }

  // ---- The reader is exact exactly when no row is selected twice ----

  lemma NewestIsScanned(rows: seq<Row>, node: nat, i: nat, limit: nat)
    requires rows != [] && InBranch(node, i, rows[0]) && limit > 0
    ensures multiset(Scan(rows, node, i, limit))[rows[0]] > 0
  {
    assert Filter(rows, BranchOf(node, i))[0] == rows[0];
    assert Take(Filter(rows, BranchOf(node, i)), limit)[0] == rows[0];
  }

  lemma NewestTwice(rows: seq<Row>, node: nat, limit: nat)
    requires NewestFirst(rows) && rows != [] && StoredTwice(node, rows[0]) && limit > 0
    ensures multiset(UnionAll(rows, node, limit))[rows[0]] >= 2
  {
    var r := rows[0];
    NewestIsScanned(rows, node, if OwnRow(node, r) then 0 else 1, limit);
    NewestIsScanned(rows, node, if SourceRow(node, r) then 2 else 3, limit);
    UnionCounts(rows, node, limit, r);
  }

  lemma NewestLeads(s: seq<Row>, r: Row)
    requires multiset(s)[r] > 0 && (forall i, j :: 0 <= i < j < |s| ==> NotOlder(s[i], s[j]))
    requires forall x :: x in s ==> x == r || Precedes(PositionOf(x), PositionOf(r))
    ensures s != [] && s[0] == r
  {
    assert r in s;
    var k :| 0 <= k < |s| && s[k] == r;
    assert k == 0 || NotOlder(s[0], s[k]);
  }

  /** A row selected twice leads the page below the position just above it, twice. */
  lemma PageRepeats(rows: seq<Row>, node: nat, limit: nat)
    requires NewestFirst(rows) && rows != [] && StoredTwice(node, rows[0]) && limit >= 2
    ensures var page := Page(rows, node, limit); |page| >= 2 && page[0] == rows[0] && page[1] == rows[0]
  {
    var r, s := rows[0], Sort(NotOlder, UnionAll(rows, node, limit));
    SortedUnion(rows, node, limit);
    NewestTwice(rows, node, limit);
    forall x | x in s ensures x == r || Precedes(PositionOf(x), PositionOf(r)) {
      FirstIsNewest(rows, x);
    }
    LeadsTwice(s, r);
  }

  lemma LeadsTwice(s: seq<Row>, r: Row)
    requires multiset(s)[r] >= 2 && (forall i, j :: 0 <= i < j < |s| ==> NotOlder(s[i], s[j]))
    requires forall x :: x in s ==> x == r || Precedes(PositionOf(x), PositionOf(r))
    ensures |s| >= 2 && s[0] == r && s[1] == r
  {
    NewestLeads(s, r);
    assert s == [s[0]] + s[1..];
    NewestLeads(s[1..], r);
  }

  function JustAbove(r: Row): Position {
    Position(r.time, r.seqNo, r.eventId + 1)
  }

  lemma {:induction false} BelowJustAbove(rows: seq<Row>, r: Row)
    requires NewestFirst(rows) && r in rows
    ensures Below(rows, JustAbove(r)) != [] && Below(rows, JustAbove(r))[0] == r
  {
    if rows[0] != r {
      assert rows == [rows[0]] + rows[1..];
      FirstIsNewest(rows, r);
      BelowJustAbove(rows[1..], r);
    }
  }

  lemma ReadRepeats(rows: seq<Row>, node: nat, fails: (Position, nat) -> bool, r: Row)
    requires NewestFirst(rows) && r in rows && StoredTwice(node, r) && forall p: Position, n: nat :: !fails(p, n)
    ensures Visits(PageQuery(rows, node, fails), JustAbove(r), 2).rows == [r, r]
  {
    BelowJustAbove(rows, r);
    BelowIsNewestFirst(rows, JustAbove(r));
    PageRepeats(Below(rows, JustAbove(r)), node, 3);
    var page := Page(Below(rows, JustAbove(r)), node, 3);
    assert page[..2] == [r, r];
  }

  /**
   Reads of every start and row limit visit the node's own newest rows, each once, exactly when no
   row is selected twice.
   */
  lemma ReaderExactly(rows: seq<Row>, node: nat, fails: (Position, nat) -> bool)
    requires NewestFirst(rows) && forall p: Position, n: nat :: !fails(p, n)
    ensures NoneTwice(rows, node) <==>
              forall start: Position, left: nat ::
                Visits(PageQuery(rows, node, fails), start, left).rows == Take(Below(Selected(rows, node), start), left)
  {
    if NoneTwice(rows, node) {
      PagesAnswer(rows, node, fails);
      forall start: Position, left: nat
        ensures Visits(PageQuery(rows, node, fails), start, left).rows == Take(Below(Selected(rows, node), start), left)
      {
        AlwaysAnswered(PageQuery(rows, node, fails), start, left);
        VisitsNewest(PageQuery(rows, node, fails), Selected(rows, node), start, left);
      }
    } else {
      var r :| r in rows && StoredTwice(node, r);
      ReadRepeats(rows, node, fails, r);
      FilterOrdered(rows, x => Concerns(node, x));
      BelowIsNewestFirst(Selected(rows, node), JustAbove(r));
      NotRepeated(Take(Below(Selected(rows, node), JustAbove(r)), 2), Below(Selected(rows, node), JustAbove(r)), r);
    }
  }

  lemma NotRepeated(front: seq<Row>, all: seq<Row>, r: Row)
    requires NewestFirst(all) && front <= all
    ensures front != [r, r]
  {
    assert |front| >= 2 ==> front[0] == all[0] && front[1] == all[1];
    assert |all| >= 2 ==> Precedes(PositionOf(all[1]), PositionOf(all[0]));
  }

  lemma {:induction false} AlwaysAnswered(query: Query, position: Position, left: nat)
    requires forall p: Position, n: nat :: query(p, n).Some?
    ensures Visits(query, position, left).answered
    decreases left
  {
    var page := query(position, Min(PAGE_SIZE, left + 1)).value;
    if Min(PAGE_SIZE, left + 1) <= |page| <= left {
      AlwaysAnswered(query, PositionOf(page[|page| - 1]), left - |page|);
    }
  }

  /**
   One read of a node through the four-branch query. It visits the node's newest rows in order and
   passes over none, and each of them once when none is selected twice.
   */
  method ReadNode(rows: seq<Row>, node: nat, start: Position, limitOverride: int,
                  queryFails: (Position, nat) -> bool, visitFails: Row -> bool)
      returns (visited: seq<Row>, result: ReadResult)
    requires NewestFirst(rows)
    ensures result.rowsRead == |visited| <= RowLimit(limitOverride)
    ensures var reading := Visits(PageQuery(rows, node, queryFails), start, RowLimit(limitOverride));
            Agrees(reading, visitFails, visited, result)
    ensures result.ending.Finished? ==> Covers(visited, Selected(rows, node), start, RowLimit(limitOverride))
    ensures NoneTwice(rows, node) ==>
              ReadHolds(PageQuery(rows, node, queryFails), Selected(rows, node), start, RowLimit(limitOverride),
                        visitFails, visited, result)
  {
    if NoneTwice(rows, node) {
      PagesAnswer(rows, node, queryFails);
    }
    var query := PageQuery(rows, node, queryFails);
    visited, result := ReadNodeHistory(query, start, limitOverride, visitFails, Selected(rows, node));
    if result.ending.Finished? {
      QueryCovers(rows, node, queryFails);
      VisitsCover(query, Selected(rows, node), start, RowLimit(limitOverride));
    }
  }

  /** Following the cursors over the four-branch query visits every row of the node in the window once, newest first. */
  method ReadNodeWindow(rows: seq<Row>, node: nat, start: Position, limitOverride: int) returns (visited: seq<Row>)
    requires NewestFirst(rows) && NoneTwice(rows, node)
    ensures visited == Below(Selected(rows, node), start)
  {
    PagesAnswer(rows, node, (p, n) => false);
    visited := ReadWindow(PageQuery(rows, node, (p, n) => false), start, limitOverride, Selected(rows, node));
  }
}
