/**
 Verifying the chain links of an exported bundle: the rows come filtered and in any order, so
 the walk sorts them, tolerates gaps and reports what does not follow.
 */
module ChainVerify {
  import opened Bytes
  import opened Sorting
  import Ledger

  type Text = seq<byte>

  /** The chain coordinates of one row. */
  datatype Link = Link(shard: int, seqNo: int, eventId: nat, prev: Text, row: Text)

  datatype Break = Repeats(eventId: nat, seqNo: int, shard: int) | Mismatch(eventId: nat)

  predicate Before(p: Link, q: Link) {
    if p.shard != q.shard then p.shard < q.shard else p.seqNo <= q.seqNo
  }

  lemma BeforeOrder()
    ensures TotalPreorder(Before)
  {
  }

  // ---- Neighbours in the sorted list ----

  function PairBreaks(p: Link, q: Link): seq<Break> {
    if p.shard != q.shard then []
    else if q.seqNo <= p.seqNo then [Repeats(q.eventId, q.seqNo, q.shard)]
    else if q.seqNo == p.seqNo + 1 && q.prev != p.row then [Mismatch(q.eventId)]
    else []
  }

  predicate PairGap(p: Link, q: Link) {
    p.shard == q.shard && q.seqNo > p.seqNo + 1
  }

  function Breaks(s: seq<Link>): seq<Break> {
    if |s| < 2 then [] else Breaks(s[..|s| - 1]) + PairBreaks(s[|s| - 2], s[|s| - 1])
  }

  function Gaps(s: seq<Link>): nat {
    if |s| < 2 then 0 else Gaps(s[..|s| - 1]) + if PairGap(s[|s| - 2], s[|s| - 1]) then 1 else 0
  }

  /** A shard seen before is, in a sorted list, the shard of the link before. */
  lemma SeenIsPrevious(s: seq<Link>, i: nat, k: nat)
    requires Sorted(Before, s) && k < i < |s| && s[k].shard == s[i].shard
    ensures s[i - 1].shard == s[i].shard
  {
    assert k < i - 1 ==> Before(s[k], s[i - 1]);
    assert Before(s[i - 1], s[i]);
  }

  function Shards(s: seq<Link>): set<int> {
    if s == [] then {} else Shards(s[..|s| - 1]) + {s[|s| - 1].shard}
  }

  lemma {:induction false} ShardComesFrom(s: seq<Link>, shard: int) returns (k: nat)
    requires shard in Shards(s)
    ensures k < |s| && s[k].shard == shard
  {
    if s[|s| - 1].shard == shard {
      k := |s| - 1;
    } else {
      k := ShardComesFrom(s[..|s| - 1], shard);
    }
  }

  /** What one more link of a sorted list adds. */
  lemma NextLink(s: seq<Link>, i: nat)
    requires Sorted(Before, s) && i < |s|
    ensures Shards(s[..i + 1]) == Shards(s[..i]) + {s[i].shard}
    ensures s[i].shard in Shards(s[..i]) <==> i > 0 && s[i - 1].shard == s[i].shard
    ensures Breaks(s[..i + 1]) == Breaks(s[..i]) + if i > 0 then PairBreaks(s[i - 1], s[i]) else []
    ensures Gaps(s[..i + 1]) == Gaps(s[..i]) + if i > 0 && PairGap(s[i - 1], s[i]) then 1 else 0
  {
    assert s[..i + 1][..i] == s[..i];
    if s[i].shard in Shards(s[..i]) {
      var k := ShardComesFrom(s[..i], s[i].shard);
      SeenIsPrevious(s, i, k);
    }
    if i > 0 {
      assert s[..i][|s[..i]| - 1] == s[i - 1];
    }
  }

  /** verifyChainLinks: the per-shard maps find exactly what neighbours in the sorted list show. */
  method VerifyChainLinks(links: seq<Link>) returns (breaks: seq<Break>, gaps: nat)
    ensures breaks == Breaks(Sort(Before, links)) && gaps == Gaps(Sort(Before, links))
  {
    var s := Sort(Before, links);
    BeforeOrder();
    SortSorts(Before, links);
    breaks, gaps := Walk(s);
  }

  method Walk(s: seq<Link>) returns (breaks: seq<Break>, gaps: nat)
    requires Sorted(Before, s)
    ensures breaks == Breaks(s) && gaps == Gaps(s)
  {
    var lastSeq: map<int, int>, lastHash: map<int, Text>, seen: set<int> := map[], map[], {};
    breaks, gaps := [], 0;
    for i := 0 to |s|
      invariant breaks == Breaks(s[..i]) && gaps == Gaps(s[..i])
      invariant seen == Shards(s[..i]) && lastSeq.Keys == seen && lastHash.Keys == seen
      invariant i > 0 ==>
                  && s[i - 1].shard in seen
                  && lastSeq[s[i - 1].shard] == s[i - 1].seqNo && lastHash[s[i - 1].shard] == s[i - 1].row
    {
      var link := s[i];
      NextLink(s, i);
      if link.shard in seen {
        if link.seqNo <= lastSeq[link.shard] {
          breaks := breaks + [Repeats(link.eventId, link.seqNo, link.shard)];
        }
        if link.seqNo > lastSeq[link.shard] + 1 {
          gaps := gaps + 1;
        }
        if link.seqNo == lastSeq[link.shard] + 1 && link.prev != lastHash[link.shard] {
          breaks := breaks + [Mismatch(link.eventId)];
        }
      }
      lastSeq := lastSeq[link.shard := link.seqNo];
      lastHash := lastHash[link.shard := link.row];
      seen := seen + {link.shard};
    }
    assert s[..|s|] == s;
  }

  // ---- What zero breaks means ----

  predicate SamePlace(p: Link, q: Link) {
    p.shard == q.shard && p.seqNo == q.seqNo
  }

  /** Each place in a chain is taken by one link, once. */
  ghost predicate NoRepeats(links: multiset<Link>) {
    && (forall l :: l in links ==> links[l] == 1)
    && (forall p, q :: p in links && q in links && SamePlace(p, q) ==> p == q)
  }

  predicate Next(p: Link, q: Link) {
    p.shard == q.shard && q.seqNo == p.seqNo + 1
  }

  /** Of every two neighbours that are present, the later names the hash of the earlier. */
  ghost predicate NeighboursLinked(links: multiset<Link>) {
    forall p, q :: p in links && q in links && Next(p, q) ==> q.prev == p.row
  }

  /** The link at `i` and the one after it do not break. */
  predicate Unbroken(s: seq<Link>, i: int) {
    0 <= i < |s| - 1 ==> PairBreaks(s[i], s[i + 1]) == []
  }

  lemma {:induction false} NoBreaksPairs(s: seq<Link>)
    ensures Breaks(s) == [] <==> forall i :: Unbroken(s, i)
  {
    if |s| >= 2 {
      var front := s[..|s| - 1];
      NoBreaksPairs(front);
      forall i | i != |s| - 2 ensures Unbroken(s, i) <==> Unbroken(front, i) {
      }
      assert Unbroken(front, |s| - 2);
      assert Unbroken(s, |s| - 2) <==> PairBreaks(s[|s| - 2], s[|s| - 1]) == [];
    }
  }

  /** Strictly increasing within each shard. */
  ghost predicate Strict(s: seq<Link>) {
    forall i, j :: 0 <= i < j < |s| && s[i].shard == s[j].shard ==> s[i].seqNo < s[j].seqNo
  }

  lemma {:induction false} PairsMakeStrict(s: seq<Link>, i: nat, j: nat)
    requires Sorted(Before, s) && forall k :: Unbroken(s, k)
    requires i < j < |s| && s[i].shard == s[j].shard
    ensures s[i].seqNo < s[j].seqNo
    decreases j - i
  {
    SeenIsPrevious(s, j, i);
    assert Unbroken(s, j - 1);
    if i < j - 1 {
      PairsMakeStrict(s, i, j - 1);
    }
  }

  lemma StrictIsNoRepeats(s: seq<Link>)
    requires Strict(s)
    ensures NoRepeats(multiset(s))
  {
    forall p, q | p in multiset(s) && q in multiset(s) && SamePlace(p, q) ensures p == q {
      var i :| 0 <= i < |s| && s[i] == p;
      var j :| 0 <= j < |s| && s[j] == q;
      assert i == j;
    }
    forall l | l in multiset(s) ensures multiset(s)[l] == 1 {
      OccursOnce(s, l);
    }
  }

  lemma OccursOnce(s: seq<Link>, l: Link)
    requires Strict(s) && l in s
    ensures multiset(s)[l] == 1
  {
    var i :| 0 <= i < |s| && s[i] == l;
    assert s == s[..i] + [l] + s[i + 1..];
    assert l !in s[..i] && l !in s[i + 1..];
    assert multiset(s) == multiset(s[..i]) + multiset{l} + multiset(s[i + 1..]);
  }

  lemma NoRepeatsIsStrict(s: seq<Link>)
    requires NoRepeats(multiset(s)) && Sorted(Before, s)
    ensures Strict(s)
  {
    forall i, j | 0 <= i < j < |s| && s[i].shard == s[j].shard ensures s[i].seqNo < s[j].seqNo {
      CountsTwice(s, i, j);
      assert s[i] in multiset(s) && s[j] in multiset(s) && Before(s[i], s[j]);
    }
  }

  /** Neighbours that are present are side by side. */
  lemma NextIsAdjacent(s: seq<Link>, i: nat, j: nat)
    requires Strict(s) && Sorted(Before, s) && i < |s| && j < |s| && Next(s[i], s[j])
    ensures j == i + 1
  {
    SmallerIsBefore(s, i, j);
    if j > i + 1 {
      BetweenIsBetween(s, i, i + 1, j);
    }
  }

  lemma BetweenIsBetween(s: seq<Link>, i: nat, k: nat, j: nat)
    requires Strict(s) && Sorted(Before, s) && i < k < j < |s| && s[i].shard == s[j].shard
    ensures s[i].seqNo < s[k].seqNo < s[j].seqNo
  {
    assert Before(s[i], s[k]) && Before(s[k], s[j]);
  }

  lemma NoBreaksIsLinked(s: seq<Link>)
    requires Sorted(Before, s) && Breaks(s) == []
    ensures NoRepeats(multiset(s)) && NeighboursLinked(multiset(s))
  {
    NoBreaksPairs(s);
    assert Strict(s) by {
      forall i, j | 0 <= i < j < |s| && s[i].shard == s[j].shard ensures s[i].seqNo < s[j].seqNo {
        PairsMakeStrict(s, i, j);
      }
    }
    StrictIsNoRepeats(s);
    forall p, q | p in multiset(s) && q in multiset(s) && Next(p, q) ensures q.prev == p.row {
      var i :| 0 <= i < |s| && s[i] == p;
      var j :| 0 <= j < |s| && s[j] == q;
      NextIsAdjacent(s, i, j);
      assert Unbroken(s, i);
    }
  }

  lemma LinkedIsNoBreaks(s: seq<Link>)
    requires Sorted(Before, s) && NoRepeats(multiset(s)) && NeighboursLinked(multiset(s))
    ensures Breaks(s) == []
  {
    NoBreaksPairs(s);
    NoRepeatsIsStrict(s);
    forall i | 0 <= i < |s| - 1 ensures Unbroken(s, i) {
      assert s[i] in multiset(s) && s[i + 1] in multiset(s);
      assert Next(s[i], s[i + 1]) ==> s[i + 1].prev == s[i].row;
    }
  }

  /** In any file order: no breaks exactly when no place repeats and all present neighbours are linked. */
  lemma NoBreaksExactly(links: seq<Link>)
    ensures Breaks(Sort(Before, links)) == [] <==> NoRepeats(multiset(links)) && NeighboursLinked(multiset(links))
  {
    BeforeOrder();
    SortSorts(Before, links);
    SortContents(Before, links);
    var s := Sort(Before, links);
    if Breaks(s) == [] {
      NoBreaksIsLinked(s);
    }
    if NoRepeats(multiset(s)) && NeighboursLinked(multiset(s)) {
      LinkedIsNoBreaks(s);
    }
  }

  // ---- What the gap count means ----

  /** Something of the shard is present below the link, but not its predecessor. */
  ghost predicate Skipped(links: multiset<Link>, l: Link) {
    && l in links && (exists p :: p in links && p.shard == l.shard && p.seqNo < l.seqNo)
    && (forall p :: p in links ==> !Next(p, l))
  }

  lemma GapIsSkipped(s: seq<Link>, i: nat)
    requires Strict(s) && Sorted(Before, s) && 0 < i < |s| && PairGap(s[i - 1], s[i])
    ensures Skipped(multiset(s), s[i])
  {
    assert s[i - 1] in multiset(s) && s[i] in multiset(s);
    forall p | p in multiset(s) ensures !Next(p, s[i]) {
      var k: nat :| k < |s| && s[k] == p;
      NotNextAcrossGap(s, k, i);
    }
  }

  lemma NotNextAcrossGap(s: seq<Link>, k: nat, i: nat)
    requires Strict(s) && Sorted(Before, s) && k < |s| && 0 < i < |s| && PairGap(s[i - 1], s[i])
    ensures !Next(s[k], s[i])
  {
    if k > i {
      assert Before(s[i], s[k]);
    } else if k < i - 1 {
      assert Before(s[k], s[i - 1]);
    }
  }

  lemma SkippedIsGap(s: seq<Link>, i: nat)
    requires Strict(s) && Sorted(Before, s) && i < |s| && Skipped(multiset(s), s[i])
    ensures i > 0 && PairGap(s[i - 1], s[i])
  {
    var p :| p in multiset(s) && p.shard == s[i].shard && p.seqNo < s[i].seqNo;
    var k: nat :| k < |s| && s[k] == p;
    SmallerIsBefore(s, k, i);
    SeenIsPrevious(s, i, k);
    assert s[i - 1] in multiset(s) && s[i - 1].seqNo < s[i].seqNo;
  }

  lemma SmallerIsBefore(s: seq<Link>, k: nat, i: nat)
    requires Sorted(Before, s) && k < |s| && i < |s| && s[k].shard == s[i].shard && s[k].seqNo < s[i].seqNo
    ensures k < i
  {
  }

  ghost function GapSet(s: seq<Link>): set<Link> {
    if |s| < 2 then {}
    else GapSet(s[..|s| - 1]) + if PairGap(s[|s| - 2], s[|s| - 1]) then {s[|s| - 1]} else {}
  }

  lemma {:induction false} GapSetMember(s: seq<Link>, l: Link)
    ensures l in GapSet(s) ==> l in s
    ensures l in GapSet(s) <==> exists i {:trigger s[i]} :: 0 < i < |s| && s[i] == l && PairGap(s[i - 1], l)
  {
    if |s| >= 2 {
      var front := s[..|s| - 1];
      GapSetMember(front, l);
      if i :| 0 < i < |s| && s[i] == l && PairGap(s[i - 1], l) {
        if i < |front| {
          assert front[i] == l && front[i - 1] == s[i - 1];
        }
      }
      if l in GapSet(front) {
        var i :| 0 < i < |front| && front[i] == l && PairGap(front[i - 1], l);
        assert s[i] == l && s[i - 1] == front[i - 1];
      }
    }
  }

  lemma {:induction false} GapsCount(s: seq<Link>)
    requires Strict(s)
    ensures Gaps(s) == |GapSet(s)|
  {
    if |s| >= 2 {
      var front, last := s[..|s| - 1], s[|s| - 1];
      GapsCount(front);
      GapSetMember(front, last);
      assert last !in front;
    }
  }

  /** The gap count is the number of links whose predecessor was skipped. */
  lemma GapsAreSkippedNeighbours(links: seq<Link>, skipped: set<Link>)
    requires NoRepeats(multiset(links)) && forall l :: l in skipped <==> Skipped(multiset(links), l)
    ensures Gaps(Sort(Before, links)) == |skipped|
  {
    var s := Sort(Before, links);
    BeforeOrder();
    SortSorts(Before, links);
    SortContents(Before, links);
    NoRepeatsIsStrict(s);
    GapsCount(s);
    forall l ensures l in skipped <==> l in GapSet(s) {
      GapSetIsSkipped(s, l);
    }
    assert skipped == GapSet(s);
  }

  lemma GapSetIsSkipped(s: seq<Link>, l: Link)
    requires Strict(s) && Sorted(Before, s)
    ensures l in GapSet(s) <==> Skipped(multiset(s), l)
  {
    GapSetMember(s, l);
    if l in GapSet(s) {
      var i :| 0 < i < |s| && s[i] == l && PairGap(s[i - 1], l);
      GapIsSkipped(s, i);
    }
    if Skipped(multiset(s), l) {
      var i :| 0 <= i < |s| && s[i] == l;
      SkippedIsGap(s, i);
    }
  }

  // ---- Any part of a ledger verifies ----

  /** A row as the export carries it, under some rendering of hashes as bytes. */
  function LinkOf(r: Ledger.Row, render: Ledger.Hash -> Text): Link {
    Link(r.event.chain.shard, r.seqNo, r.event.id, render(r.prevHash), render(r.rowHash))
  }

  ghost predicate InLedger(t: Ledger.Tables, r: Ledger.Row) {
    exists k :: k in t.rows && t.rows[k] == r
  }

  /** Rows of one organisation's ledger, none twice: what a filter lets through, in any order. */
  ghost predicate Filtered(t: Ledger.Tables, org: nat, rows: seq<Ledger.Row>) {
    && (forall i :: 0 <= i < |rows| ==> rows[i].event.chain.org == org && InLedger(t, rows[i]))
    && (forall i, j :: 0 <= i < j < |rows| ==> rows[i] != rows[j])
  }

  ghost predicate LinksOf(links: seq<Link>, rows: seq<Ledger.Row>, render: Ledger.Hash -> Text) {
    |links| == |rows| && forall i :: 0 <= i < |rows| ==> links[i] == LinkOf(rows[i], render)
  }

  lemma RowsApart(t: Ledger.Tables, org: nat, rows: seq<Ledger.Row>, links: seq<Link>, render: Ledger.Hash -> Text,
        i: nat, j: nat)
    requires Ledger.WellFormed(t) && Filtered(t, org, rows) && LinksOf(links, rows, render) && i < |links|
             && j < |links|
    ensures SamePlace(links[i], links[j]) ==> i == j
    ensures Next(links[i], links[j]) ==> links[j].prev == links[i].row
  {
    assert InLedger(t, rows[i]) && InLedger(t, rows[j]);
    var k :| k in t.rows && t.rows[k] == rows[i];
    var m :| m in t.rows && t.rows[m] == rows[j];
    assert rows[i].event.chain == Ledger.ChainKey(org, links[i].shard)
           && rows[j].event.chain == Ledger.ChainKey(org, links[j].shard);
    if SamePlace(links[i], links[j]) {
      assert Ledger.SamePlace(t.rows[k], t.rows[m]);
      assert rows[i] == rows[j];
    }
    if Next(links[i], links[j]) {
      assert Ledger.Follows(t.rows[k], t.rows[m]);
    }
  }

  lemma LinksOnce(links: seq<Link>)
    requires forall i, j :: 0 <= i < |links| && 0 <= j < |links| && SamePlace(links[i], links[j]) ==> i == j
    ensures NoRepeats(multiset(links))
  {
    forall l | l in multiset(links) ensures multiset(links)[l] == 1 {
      var i :| 0 <= i < |links| && links[i] == l;
      assert links == links[..i] + [l] + links[i + 1..];
      assert l !in links[..i] && l !in links[i + 1..];
      assert multiset(links) == multiset(links[..i]) + multiset{l} + multiset(links[i + 1..]);
    }
    forall p, q | p in multiset(links) && q in multiset(links) && SamePlace(p, q) ensures p == q {
      var i :| 0 <= i < |links| && links[i] == p;
      var j :| 0 <= j < |links| && links[j] == q;
      assert i == j;
    }
  }

  /** Every filtered part of a well-formed ledger verifies without a break, in any file order. */
  lemma FilteredLedgerVerifies(t: Ledger.Tables, org: nat, rows: seq<Ledger.Row>, links: seq<Link>,
        render: Ledger.Hash -> Text)
    requires Ledger.WellFormed(t) && Filtered(t, org, rows) && LinksOf(links, rows, render)
    ensures Breaks(Sort(Before, links)) == [] && NoRepeats(multiset(links))
  {
    forall i, j | 0 <= i < |links| && 0 <= j < |links| && SamePlace(links[i], links[j]) ensures i == j {
      RowsApart(t, org, rows, links, render, i, j);
    }
    LinksOnce(links);
    assert NeighboursLinked(multiset(links)) by {
      forall p, q | p in multiset(links) && q in multiset(links) && Next(p, q) ensures q.prev == p.row {
        var i :| 0 <= i < |links| && links[i] == p;
        var j :| 0 <= j < |links| && links[j] == q;
        RowsApart(t, org, rows, links, render, i, j);
      }
    }
    NoBreaksExactly(links);
  }
}
