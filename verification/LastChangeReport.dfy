/** Deriving the report for one node from ledger rows, added in any order. */
module LastChangeReport {
  import opened Common
  import opened Lex
  import opened Sorting
  import opened LastChange

  // ---- Rows ----

  datatype Outcome = Ok | Completed | Error | Refused | Failed | Pending | OtherOutcome

  /** One encoded record: absent, not a JSON object, or the field paths in it. */
  datatype Record = Missing | Broken | Fields(paths: set<string>)

  datatype Delta = Delta(before: Record, after: Record, changed: seq<string>)

  datatype Target = Node(id: string) | Relationship(source: string, relation: string, target: string) | OtherTarget

  datatype Row = Row(eventId: string, action: string, outcome: Outcome, entityId: string, entityKind: string, time: int,
                     details: string, format: nat, changePhase: bool, target: Option<Target>, version: string,
                     delta: Option<Delta>)

  const FORMAT_LEGACY := 0
  const FORMAT_COMPLETE := 2

  predicate LegacyChangeVerb(action: string) {
    action in {"node.create", "node.update", "node.delete", "node.reference_rename",
               "relationship.add", "relationship.update", "relationship.remove"}
  }

  predicate Successful(row: Row) {
    (row.outcome.Completed? || row.outcome.Ok?) && row.changePhase && row.delta.Some?
  }

  function RowChange(row: Row, effect: Effect): Change {
    Change(row.eventId, row.time, row.version, effect, row.details)
  }

  /** The relationship of the node that a complete row names. */
  function LinkOf(node: string, row: Row): Option<Key> {
    if row.format == FORMAT_COMPLETE && row.target.Some? && row.target.value.Relationship?
       && (row.target.value.source == node || row.target.value.target == node)
    then Some(Link(row.target.value.source, row.target.value.relation, row.target.value.target)) else None
  }

  predicate NodeChange(node: string, row: Row) {
    row.format == FORMAT_COMPLETE && row.target == Some(Node(node)) && Successful(row)
  }

  predicate LegacyChange(node: string, row: Row) {
    && row.format == FORMAT_LEGACY && LegacyChangeVerb(row.action) && row.entityId == node
    && !(row.outcome.Error? || row.outcome.Refused? || row.outcome.Failed? || row.outcome.Pending?)
  }

  /** A node change whose records are not JSON objects stops the derivation. */
  predicate Decodes(node: string, row: Row) {
    NodeChange(node, row) ==> !row.delta.value.before.Broken? && !row.delta.value.after.Broken?
  }

  function PathsIn(r: Record): set<string> {
    if r.Fields? then r.paths else {}
  }

  function FieldChange(row: Row, path: string): Change
    requires row.delta.Some?
  {
    var gone := path in PathsIn(row.delta.value.before) && path !in PathsIn(row.delta.value.after);
    RowChange(row, if gone then Removed else Set)
  }

  function LinkChange(row: Row): Change
    requires row.delta.Some?
  {
    RowChange(row, if row.delta.value.after.Missing? then Removed else Set)
  }

  function Copies(c: Change, n: nat): multiset<Change> {
    multiset{}[c := n]
  }

  // ---- What rows say, in no order ----

  /** The changes that one row records for one entry. */
  function ChangesIn(node: string, row: Row, key: Key): multiset<Change> {
    if key.Field? then
      (if NodeChange(node, row) then Copies(FieldChange(row, key.path), multiset(row.delta.value.changed)[key.path])
          else multiset{})
    else if LinkOf(node, row) == Some(key) && Successful(row) then multiset{LinkChange(row)} else multiset{}
  }

  function LegacyIn(node: string, row: Row, links: bool): multiset<Change> {
    if LegacyChange(node, row) && (row.entityKind == "relationship") == links then multiset{RowChange(row, Set)}
        else multiset{}
  }

  function Gather(f: Row -> multiset<Change>, rows: seq<Row>): multiset<Change> {
    if rows == [] then multiset{} else Gather(f, rows[..|rows| - 1]) + f(rows[|rows| - 1])
  }

  function Changes(node: string, rows: seq<Row>, key: Key): multiset<Change> {
    Gather(r => ChangesIn(node, r, key), rows)
  }

  function Legacy(node: string, rows: seq<Row>, links: bool): multiset<Change> {
    Gather(r => LegacyIn(node, r, links), rows)
  }

  ghost predicate RowStarts(node: string, row: Row) {
    || (NodeChange(node, row) && row.delta.value.before.Missing?)
    || (LegacyChange(node, row) && row.entityKind != "relationship" && row.action == "node.create")
  }

  /** The rows include the node's creation. */
  ghost predicate Starts(node: string, rows: seq<Row>) {
    exists r :: r in rows && RowStarts(node, r)
  }

  function RowPaths(node: string, row: Row): set<string> {
    if NodeChange(node, row) then PathsIn(row.delta.value.before) + PathsIn(row.delta.value.after) else {}
  }

  /** The entries that the report considers: recorded or changed paths, or relationships that a row names. */
  ghost predicate Reported(node: string, path: string, rows: seq<Row>, key: Key) {
    if key.Link? then path == "" && exists r :: r in rows && LinkOf(node, r) == Some(key)
    else if path != "" then key.path == path
    else Changes(node, rows, key) != multiset{} || exists r :: r in rows && key.path in RowPaths(node, r)
  }

  /**
   Legacy node rows apply to every field; legacy relationship rows to changed relationships the
   node is the source of.
   */
  ghost function Applicable(node: string, rows: seq<Row>, key: Key): multiset<Change> {
    if key.Field? then Legacy(node, rows, false)
    else if Changes(node, rows, key) == multiset{} || key.source != node then multiset{}
    else Legacy(node, rows, true)
  }

  ghost predicate EntryOk(r: Option<Entry>, node: string, rows: seq<Row>, key: Key, truncated: bool) {
    Answers(r, key, Changes(node, rows, key), Applicable(node, rows, key), Starts(node, rows) && !truncated, truncated)
  }

  // ---- Order does not matter ----

  lemma {:induction false} GatherConcat(f: Row -> multiset<Change>, a: seq<Row>, b: seq<Row>)
    ensures Gather(f, a + b) == Gather(f, a) + Gather(f, b)
  {
    if b == [] {
      assert a + b == a;
    } else {
      GatherConcat(f, a, b[..|b| - 1]);
      assert (a + b)[..|a + b| - 1] == a + b[..|b| - 1];
    }
  }

  lemma GatherOne(f: Row -> multiset<Change>, row: Row)
    ensures Gather(f, [row]) == f(row)
  {
    assert [row][..0] == [];
    assert Gather(f, [row][..0]) == multiset{};
  }

  lemma GatherAround(f: Row -> multiset<Change>, x: seq<Row>, row: Row, y: seq<Row>)
    ensures Gather(f, x + [row] + y) == Gather(f, x + y) + f(row)
  {
    GatherConcat(f, x + [row], y);
    GatherConcat(f, x, [row]);
    GatherConcat(f, x, y);
    GatherOne(f, row);
  }

  lemma SameWithout(front: seq<Row>, row: Row, x: seq<Row>, y: seq<Row>)
    requires multiset(front + [row]) == multiset(x + [row] + y)
    ensures multiset(front) == multiset(x + y)
  {
    assert multiset(front) == multiset(front + [row]) - multiset{row};
    assert multiset(x + y) == multiset(x + [row] + y) - multiset{row};
  }

  lemma {:induction false} GatherSame(f: Row -> multiset<Change>, a: seq<Row>, b: seq<Row>)
    requires multiset(a) == multiset(b)
    ensures Gather(f, a) == Gather(f, b)
  {
    assert |a| == |multiset(a)| == |multiset(b)| == |b|;
    if a != [] {
      var front, last := a[..|a| - 1], a[|a| - 1];
      assert a == front + [last] && last in multiset(b);
      var i :| 0 <= i < |b| && b[i] == last;
      var x, y := b[..i], b[i + 1..];
      assert b == x + [last] + y;
      SameWithout(front, last, x, y);
      GatherSame(f, front, x + y);
      GatherAround(f, x, last, y);
    }
  }

  lemma ChangesSame(node: string, a: seq<Row>, b: seq<Row>, key: Key)
    requires multiset(a) == multiset(b)
    ensures Changes(node, a, key) == Changes(node, b, key)
  {
    GatherSame(r => ChangesIn(node, r, key), a, b);
  }

  lemma LegacySame(node: string, a: seq<Row>, b: seq<Row>, links: bool)
    requires multiset(a) == multiset(b)
    ensures Legacy(node, a, links) == Legacy(node, b, links)
  {
    GatherSame(r => LegacyIn(node, r, links), a, b);
  }

  lemma EvidenceSame(node: string, path: string, a: seq<Row>, b: seq<Row>, key: Key)
    requires multiset(a) == multiset(b)
    ensures Changes(node, a, key) == Changes(node, b, key) && Applicable(node, a, key) == Applicable(node, b, key)
    ensures Starts(node, a) <==> Starts(node, b)
    ensures Reported(node, path, a, key) <==> Reported(node, path, b, key)
  {
    ChangesSame(node, a, b, key);
    LegacySame(node, a, b, false);
    LegacySame(node, a, b, true);
    forall r: Row ensures r in a <==> r in b {
      assert r in multiset(a) <==> r in multiset(b);
    }
  }

  /** The ledger holds one row per event id. */
  ghost predicate OneRowPerId(rows: seq<Row>) {
    forall r, q :: r in rows && q in rows && r.eventId == q.eventId ==> r == q
  }

  lemma {:induction false} ChangeComesFromRow(node: string, rows: seq<Row>, key: Key, c: Change)
    requires c in Changes(node, rows, key)
    ensures exists r :: r in rows && c in ChangesIn(node, r, key)
  {
    var f := r => ChangesIn(node, r, key);
    GatherComesFrom(f, rows, c);
  }

  lemma {:induction false} GatherComesFrom(f: Row -> multiset<Change>, rows: seq<Row>, c: Change)
    requires c in Gather(f, rows)
    ensures exists r :: r in rows && c in f(r)
  {
    var front, last := rows[..|rows| - 1], rows[|rows| - 1];
    if c in f(last) {
      assert last in rows;
    } else {
      GatherComesFrom(f, front, c);
    }
  }

  /** What a row says about an entry, however often, is one change. */
  function TheChange(row: Row, key: Key): Change {
    if row.delta.None? then RowChange(row, Set) else if key.Field? then FieldChange(row, key.path) else LinkChange(row)
  }

  lemma OneChangePerRow(node: string, row: Row, key: Key, c: Change)
    requires c in ChangesIn(node, row, key)
    ensures c == TheChange(row, key) && c.eventId == row.eventId
  {
  }

  lemma ChangesDistinct(node: string, rows: seq<Row>, key: Key)
    requires OneRowPerId(rows)
    ensures DistinctIds(Changes(node, rows, key))
  {
    forall a, b | a in Changes(node, rows, key) && b in Changes(node, rows, key) && a.eventId == b.eventId
        ensures a == b {
      ChangeComesFromRow(node, rows, key, a);
      ChangeComesFromRow(node, rows, key, b);
      var r :| r in rows && a in ChangesIn(node, r, key);
      var q :| q in rows && b in ChangesIn(node, q, key);
      OneChangePerRow(node, r, key, a);
      OneChangePerRow(node, q, key, b);
    }
  }

  // ---- The report ----

  datatype Report = NodeReport(historyStart: bool, legacyRows: nat, legacyLinkIds: seq<string>, fields: seq<Entry>,
      links: seq<Entry>)

  /** Paths in string order; relationships by source, type and target. */
  predicate KeyLe(a: Key, b: Key) {
    if a.Field? then b.Link? || StringLe(a.path, b.path)
    else
      b.Link? && if a.source != b.source then StringLe(a.source, b.source)
                 else if a.relation != b.relation then StringLe(a.relation, b.relation)
                 else StringLe(a.target, b.target)
  }

  lemma KeyOrder()
    ensures TotalPreorder(KeyLe) && forall a, b :: KeyLe(a, b) && KeyLe(b, a) ==> a == b
  {
    StringOrder();
  }

  ghost predicate Ascending(es: seq<Entry>) {
    forall i, j :: 0 <= i < j < |es| ==> es[i].key != es[j].key && KeyLe(es[i].key, es[j].key)
  }

  predicate HasKey(es: seq<Entry>, key: Key) {
    exists e :: e in es && e.key == key
  }

  /** One entry, in order, for each key that has something to report. */
  ghost predicate SectionOk(es: seq<Entry>, node: string, path: string, rows: seq<Row>, truncated: bool, links: bool) {
    && Ascending(es)
    && (forall e :: e in es ==>
          e.key.Link? == links && Reported(node, path, rows, e.key) && EntryOk(Some(e), node, rows, e.key, truncated))
    && (forall key: Key :: (key.Link? == links && Reported(node, path, rows, key) && !HasKey(es, key)) ==>
        EntryOk(None, node, rows, key, truncated))
  }

  ghost predicate ReportOk(r: Report, node: string, path: string, rows: seq<Row>, truncated: bool) {
    && (r.historyStart <==> Starts(node, rows))
    && r.legacyRows == |Legacy(node, rows, false)| + |Legacy(node, rows, true)|
    && (exists all :: multiset(all) == Legacy(node, rows, true) && r.legacyLinkIds == Ids(all))
    && SectionOk(r.fields, node, path, rows, truncated, false)
    && SectionOk(r.links, node, path, rows, truncated, true)
  }

  ghost predicate SameSection(a: seq<Entry>, b: seq<Entry>) {
    |a| == |b| && forall i :: 0 <= i < |a| ==> SameEntry(a[i], b[i])
  }

  ghost predicate SameReport(a: Report, b: Report) {
    && a.historyStart == b.historyStart && a.legacyRows == b.legacyRows
        && multiset(a.legacyLinkIds) == multiset(b.legacyLinkIds)
    && SameSection(a.fields, b.fields) && SameSection(a.links, b.links)
  }

  /** Whether an entry is there depends on the rows, not on their order. */
  lemma KeyInBoth(es: seq<Entry>, fs: seq<Entry>, node: string, path: string, a: seq<Row>, b: seq<Row>,
        truncated: bool, links: bool, e: Entry)
      returns (f: Entry)
    requires multiset(a) == multiset(b) && OneRowPerId(a)
    requires SectionOk(es, node, path, a, truncated, links) && SectionOk(fs, node, path, b, truncated, links) && e in es
    ensures f in fs && f.key == e.key && SameEntry(e, f)
  {
    EvidenceSame(node, path, a, b, e.key);
    ChangesDistinct(node, a, e.key);
    var changes, legacy := Changes(node, a, e.key), Applicable(node, a, e.key);
    var complete := Starts(node, a) && !truncated;
    if g :| g in fs && g.key == e.key {
      f := g;
      AnswerDetermined(Some(e), Some(f), e.key, changes, legacy, complete, truncated);
    } else {
      AnswerDetermined(Some(e), None, e.key, changes, legacy, complete, truncated);
      assert false;
    }
  }

  lemma {:induction false} SameKeys(es: seq<Entry>, fs: seq<Entry>)
    requires Ascending(es) && Ascending(fs)
    requires (forall e :: e in es ==> HasKey(fs, e.key)) && (forall f :: f in fs ==> HasKey(es, f.key))
    ensures |es| == |fs| && forall i :: 0 <= i < |es| ==> es[i].key == fs[i].key
  {
    assert es == [] ==> fs == [] by {
      if fs != [] {
        assert HasKey(es, fs[0].key);
      }
    }
    if es != [] {
      assert es[0] in es && HasKey(fs, es[0].key);
      SameFirstKey(es, fs);
      TailHasKeys(es, fs);
      TailHasKeys(fs, es);
      SameKeys(es[1..], fs[1..]);
    }
  }

  lemma SameFirstKey(es: seq<Entry>, fs: seq<Entry>)
    requires Ascending(es) && Ascending(fs) && es != [] && fs != []
    requires (forall e :: e in es ==> HasKey(fs, e.key)) && (forall f :: f in fs ==> HasKey(es, f.key))
    ensures es[0].key == fs[0].key
  {
    assert HasKey(fs, es[0].key) && HasKey(es, fs[0].key);
    var f :| f in fs && f.key == es[0].key;
    var e :| e in es && e.key == fs[0].key;
    KeyOrder();
    assert KeyLe(es[0].key, es[0].key) && KeyLe(fs[0].key, fs[0].key);
    assert KeyLe(fs[0].key, f.key) && KeyLe(es[0].key, e.key);
  }

  lemma TailHasKeys(es: seq<Entry>, fs: seq<Entry>)
    requires Ascending(es) && es != [] && fs != [] && es[0].key == fs[0].key && forall e :: e in es ==>
             HasKey(fs, e.key)
    ensures forall e :: e in es[1..] ==> HasKey(fs[1..], e.key)
  {
    forall e | e in es[1..] ensures HasKey(fs[1..], e.key) {
      assert e in es;
      var f :| f in fs && f.key == e.key;
      assert f.key != es[0].key;
      assert fs == [fs[0]] + fs[1..];
      assert f in fs[1..];
    }
  }

  lemma SectionsAgree(es: seq<Entry>, fs: seq<Entry>, node: string, path: string, a: seq<Row>, b: seq<Row>,
        truncated: bool, links: bool)
    requires multiset(a) == multiset(b) && OneRowPerId(a) && OneRowPerId(b)
    requires SectionOk(es, node, path, a, truncated, links) && SectionOk(fs, node, path, b, truncated, links)
    ensures SameSection(es, fs)
  {
    forall e | e in es ensures HasKey(fs, e.key) {
      var f := KeyInBoth(es, fs, node, path, a, b, truncated, links, e);
    }
    forall f | f in fs ensures HasKey(es, f.key) {
      var e := KeyInBoth(fs, es, node, path, b, a, truncated, links, f);
    }
    SameKeys(es, fs);
    forall i | 0 <= i < |es| ensures SameEntry(es[i], fs[i]) {
      var f := KeyInBoth(es, fs, node, path, a, b, truncated, links, es[i]);
      var j :| 0 <= j < |fs| && fs[j] == f;
      assert j == i;
    }
  }

  lemma OneRowSame(a: seq<Row>, b: seq<Row>)
    requires multiset(a) == multiset(b) && OneRowPerId(a)
    ensures OneRowPerId(b)
  {
    forall r, q | r in b && q in b && r.eventId == q.eventId ensures r == q {
      assert r in multiset(a) && q in multiset(a);
    }
  }

  /** The report does not depend on the order in which the rows were added. */
  lemma OrderDoesNotMatter(x: Report, y: Report, node: string, path: string, a: seq<Row>, b: seq<Row>, truncated: bool)
    requires multiset(a) == multiset(b) && OneRowPerId(a)
    requires ReportOk(x, node, path, a, truncated) && ReportOk(y, node, path, b, truncated)
    ensures SameReport(x, y)
  {
    OneRowSame(a, b);
    EvidenceSame(node, path, a, b, Field(path));
    LegacySame(node, a, b, false);
    LegacySame(node, a, b, true);
    var p :| multiset(p) == Legacy(node, a, true) && x.legacyLinkIds == Ids(p);
    var q :| multiset(q) == Legacy(node, b, true) && y.legacyLinkIds == Ids(q);
    IdsContents(p, q);
    SectionsAgree(x.fields, y.fields, node, path, a, b, truncated, false);
    SectionsAgree(x.links, y.links, node, path, a, b, truncated, true);
  }

  // ---- What the report means, field by field of the rows ----

  /** The row records a change of the entry, and the change took place. */
  ghost predicate RecordsChange(node: string, r: Row, key: Key) {
    && r.format == 2 && r.target.Some? && (r.outcome == Completed || r.outcome == Ok) && r.changePhase && r.delta.Some?
    && match key
       case Field(path) => r.target.value == Node(node) && path in r.delta.value.changed
       case Link(source, relation, target) =>
         r.target.value == Relationship(source, relation, target) && (source == node || target == node)
  }

  ghost predicate Recorded(record: Record, path: string) {
    record.Fields? && path in record.paths
  }

  /** The change is what the row says about the entry. */
  ghost predicate TakenFrom(w: Change, r: Row, key: Key) {
    && w.eventId == r.eventId && w.time == r.time && w.version == r.version && w.details == r.details && r.delta.Some?
    && (w.effect == Removed <==>
          if key.Link? then r.delta.value.after == Missing
          else Recorded(r.delta.value.before, key.path) && !Recorded(r.delta.value.after, key.path))
  }

  ghost predicate OutranksRow(w: Change, r: Row) {
    && w.version != "" && r.version != ""
    && (|| Exceeds(w.version, r.version)
        || (w.version == r.version && (w.time > r.time || (w.time == r.time && Exceeds(w.eventId, r.eventId)))))
  }

  /** A row of the old format that can have changed the entry without naming it. */
  ghost predicate LegacyRow(node: string, r: Row, links: bool) {
    && r.format == 0 && r.entityId == node && (r.entityKind == "relationship" <==> links)
    && (|| r.action == "node.create" || r.action == "node.update" || r.action == "node.delete"
        || r.action == "node.reference_rename" || r.action == "relationship.add" || r.action == "relationship.update"
        || r.action == "relationship.remove")
    && r.outcome != Error && r.outcome != Refused && r.outcome != Failed && r.outcome != Pending
  }

  ghost predicate HasChange(node: string, rows: seq<Row>, key: Key) {
    exists r :: r in rows && RecordsChange(node, r, key)
  }

  /** The old rows that apply to the entry: to a relationship only when it changed and the node is its source. */
  ghost predicate LegacyApplies(node: string, rows: seq<Row>, r: Row, key: Key) {
    LegacyRow(node, r, key.Link?) && (key.Link? ==> key.source == node && HasChange(node, rows, key))
  }

  /** By version when both have one, and otherwise by time, an equal time counting as newer. */
  ghost predicate MayBeNewer(r: Row, w: Change) {
    if r.version != "" && w.version != "" then Exceeds(r.version, w.version) else r.time >= w.time
  }

  /** The change that an entry names comes from a row, and every other row that records one is outranked. */
  ghost predicate NamesLatest(e: Entry, node: string, rows: seq<Row>) {
    e.change.Some? ==>
      && (exists r :: r in rows && RecordsChange(node, r, e.key) && TakenFrom(e.change.value, r, e.key))
      && (forall r :: r in rows && RecordsChange(node, r, e.key) && r.eventId != e.change.value.eventId ==>
            OutranksRow(e.change.value, r))
  }

  /** Exactly one recorded change, listed once. */
  ghost predicate LoneChange(node: string, rows: seq<Row>, key: Key, i: nat) {
    && i < |rows| && RecordsChange(node, rows[i], key)
    && (forall j :: 0 <= j < |rows| && j != i ==> !RecordsChange(node, rows[j], key))
    && (key.Field? ==> multiset(rows[i].delta.value.changed)[key.path] == 1)
  }

  /** The status follows from what is recorded, and from the old rows that may be newer. */
  ghost predicate StatusMeans(e: Entry, node: string, rows: seq<Row>, truncated: bool) {
    && (HasChange(node, rows, e.key) && truncated ==> e.status == Partial)
    && (HasChange(node, rows, e.key) && !truncated ==>
          && e.status != Partial && (e.status == AmbiguousOrder <==> e.change.None?)
          && (e.status == Known ==> forall r :: r in rows && LegacyApplies(node, rows, r, e.key) ==>
                                      !MayBeNewer(r, e.change.value))
          && (e.status == Unknown ==> exists r :: r in rows && LegacyApplies(node, rows, r, e.key)
                                                  && MayBeNewer(r, e.change.value)))
    && (!HasChange(node, rows, e.key) ==>
          e.change.None? && e.status == if exists r :: r in rows && LegacyApplies(node, rows, r, e.key) then Unknown
              else Partial)
    && (HasChange(node, rows, e.key) && (forall r :: r in rows && RecordsChange(node, r, e.key) ==> r.version != "") ==>
          e.change.Some?)
    && (forall i: nat :: LoneChange(node, rows, e.key, i) ==> e.change.Some?)
  }

  ghost predicate EntryMeans(e: Entry, node: string, rows: seq<Row>, truncated: bool) {
    && NamesLatest(e, node, rows) && StatusMeans(e, node, rows, truncated)
    && LegacyListed(e, node, rows, truncated) && CandidatesListed(e, node, rows, truncated)
  }

  /** The ids of the old rows: all of them for an entry without a change, else those that may be newer than it. */
  ghost predicate LegacyListed(e: Entry, node: string, rows: seq<Row>, truncated: bool) {
    forall id :: id in e.legacyIds <==>
      exists r :: r in rows && LegacyApplies(node, rows, r, e.key) && r.eventId == id
          && ShowsLegacy(e, node, rows, truncated, r)
  }

  ghost predicate ShowsLegacy(e: Entry, node: string, rows: seq<Row>, truncated: bool, r: Row) {
    HasChange(node, rows, e.key) ==> !truncated && e.change.Some? && MayBeNewer(r, e.change.value)
  }

  ghost predicate RowOutranks(q: Row, r: Row) {
    || Exceeds(q.version, r.version)
    || (q.version == r.version && (q.time > r.time || (q.time == r.time && Exceeds(q.eventId, r.eventId))))
  }

  /**
   Where the order is open: the recorded changes without a version and the highest one with a
   version, by time and id.
   */
  ghost predicate CandidatesListed(e: Entry, node: string, rows: seq<Row>, truncated: bool) {
    if HasChange(node, rows, e.key) && (truncated || e.change.None?) then
      && (forall id :: id in e.candidateIds ==>
            exists r :: r in rows && RecordsChange(node, r, e.key) && r.eventId == id)
      && (forall r :: r in rows && RecordsChange(node, r, e.key) && r.version == "" ==> r.eventId in e.candidateIds)
      && (forall r, q :: r in rows && q in rows && RecordsChange(node, r, e.key) && RecordsChange(node, q, e.key)
                         && r.version != "" && q.version != "" && q.eventId in e.candidateIds ==>
            q.eventId == r.eventId || RowOutranks(q, r))
      && ((exists r :: r in rows && RecordsChange(node, r, e.key) && r.version != "") ==>
            exists q :: q in rows && RecordsChange(node, q, e.key) && q.version != "" && q.eventId in e.candidateIds)
      && InTimeOrder(e.candidateIds, node, rows, e.key)
    else e.candidateIds == []
  }

  ghost predicate InTimeOrder(ids: seq<string>, node: string, rows: seq<Row>, key: Key) {
    forall i, j, r, q :: 0 <= i < j < |ids| && r in rows && q in rows && RecordsChange(node, r, key)
                         && RecordsChange(node, q, key) && r.eventId == ids[i] && q.eventId == ids[j] ==>
      r.time < q.time || (r.time == q.time && !Exceeds(r.eventId, q.eventId))
  }

  /** Field entries by path, relationship entries by source, type and target. */
  ghost predicate KeyExceeds(b: Key, a: Key) {
    if a.Field? then b.Field? && Exceeds(b.path, a.path)
    else
      && b.Link?
      && (|| Exceeds(b.source, a.source)
          || (b.source == a.source && Exceeds(b.relation, a.relation))
          || (b.source == a.source && b.relation == a.relation && Exceeds(b.target, a.target)))
  }

  ghost predicate SectionMeans(es: seq<Entry>, node: string, rows: seq<Row>, truncated: bool, links: bool) {
    && (forall i, j :: 0 <= i < j < |es| ==> KeyExceeds(es[j].key, es[i].key))
    && (forall e :: e in es ==> e.key.Link? == links && EntryMeans(e, node, rows, truncated))
  }

  /** A change of the node took place that has the path in one of its records. */
  ghost predicate RecordsPath(node: string, r: Row, path: string) {
    && r.format == 2 && r.target == Some(Node(node)) && (r.outcome == Completed || r.outcome == Ok) && r.changePhase
    && r.delta.Some? && (Recorded(r.delta.value.before, path) || Recorded(r.delta.value.after, path))
  }

  /** A row names the relationship of the node, whatever came of it. */
  ghost predicate NamesLink(node: string, r: Row, key: Key) {
    && key.Link? && r.format == 2 && r.target == Some(Relationship(key.source, key.relation, key.target))
    && (key.source == node || key.target == node)
  }

  /** The entries a report can have: the requested path, or what rows change, record or name. */
  ghost predicate Eligible(node: string, path: string, rows: seq<Row>, key: Key) {
    if key.Link? then path == "" && exists r :: r in rows && NamesLink(node, r, key)
    else if path != "" then key.path == path
    else HasChange(node, rows, key) || exists r :: r in rows && RecordsPath(node, r, key.path)
  }

  /** Nothing is known of the entry, and the rows go back to the creation of the node. */
  ghost predicate NothingToSay(node: string, rows: seq<Row>, truncated: bool, key: Key) {
    && !HasChange(node, rows, key) && !truncated && (exists q :: q in rows && StartsHistory(node, q))
    && forall r :: r in rows ==> !LegacyApplies(node, rows, r, key)
  }

  ghost predicate AnyLegacyRow(node: string, r: Row) {
    LegacyRow(node, r, false) || LegacyRow(node, r, true)
  }

  ghost function LegacyIndexes(node: string, rows: seq<Row>): set<int> {
    set i | 0 <= i < |rows| && AnyLegacyRow(node, rows[i])
  }

  /** Exactly the entries that have something to say, each meant as it says, and the totals of the old rows. */
  ghost predicate ReportMeans(r: Report, node: string, path: string, rows: seq<Row>, truncated: bool) {
    && SectionMeans(r.fields, node, rows, truncated, false) && SectionMeans(r.links, node, rows, truncated, true)
    && (forall key: Key :: HasKey(if key.Link? then r.links else r.fields, key) <==>
          Eligible(node, path, rows, key) && !NothingToSay(node, rows, truncated, key))
    && (r.historyStart <==> exists q :: q in rows && StartsHistory(node, q))
    && r.legacyRows == |LegacyIndexes(node, rows)|
    && (forall id :: id in r.legacyLinkIds <==> exists q :: q in rows && LegacyRow(node, q, true) && q.eventId == id)
  }

  /** The row records the creation of the node. */
  ghost predicate StartsHistory(node: string, r: Row) {
    || (&& r.format == 2 && r.target == Some(Node(node)) && (r.outcome == Completed || r.outcome == Ok) && r.changePhase
        && r.delta.Some? && r.delta.value.before == Missing)
    || (LegacyRow(node, r, false) && r.action == "node.create")
  }

  lemma {:induction false} GatherHas(f: Row -> multiset<Change>, rows: seq<Row>, r: Row, c: Change)
    requires r in rows && c in f(r)
    ensures c in Gather(f, rows)
  {
    var front, last := rows[..|rows| - 1], rows[|rows| - 1];
    if r != last {
      assert r in front;
      GatherHas(f, front, r, c);
    }
  }

  lemma ChangesInMeans(node: string, r: Row, key: Key)
    ensures ChangesIn(node, r, key) != multiset{} <==> RecordsChange(node, r, key)
    ensures RecordsChange(node, r, key) ==>
              TheChange(r, key) in ChangesIn(node, r, key) && TakenFrom(TheChange(r, key), r, key)
    ensures RecordsChange(node, r, key) && (key.Field? ==> multiset(r.delta.value.changed)[key.path] == 1) ==>
              |ChangesIn(node, r, key)| == 1
  {
    if key.Field? && r.delta.Some? {
      var n := multiset(r.delta.value.changed)[key.path];
      assert n > 0 <==> key.path in r.delta.value.changed;
      if n == 1 {
        assert Copies(FieldChange(r, key.path), n) == multiset{FieldChange(r, key.path)};
      }
      if n > 0 {
        assert FieldChange(r, key.path) in Copies(FieldChange(r, key.path), n);
      }
    }
  }

  /** The changes of an entry are what its rows say about it. */
  lemma ChangesMean(node: string, rows: seq<Row>, key: Key, c: Change)
    ensures c in Changes(node, rows, key) <==>
              exists r :: r in rows && RecordsChange(node, r, key) && c == TheChange(r, key)
  {
    var f := r => ChangesIn(node, r, key);
    if c in Changes(node, rows, key) {
      ChangeComesFromRow(node, rows, key, c);
      var r :| r in rows && c in ChangesIn(node, r, key);
      ChangesInMeans(node, r, key);
      OneChangePerRow(node, r, key, c);
    }
    if r :| r in rows && RecordsChange(node, r, key) && c == TheChange(r, key) {
      ChangesInMeans(node, r, key);
      GatherHas(f, rows, r, c);
    }
  }

  lemma HasChangeMeans(node: string, rows: seq<Row>, key: Key)
    ensures HasChange(node, rows, key) <==> Changes(node, rows, key) != multiset{}
  {
    if r :| r in rows && RecordsChange(node, r, key) {
      ChangesMean(node, rows, key, TheChange(r, key));
    }
    if c :| c in Changes(node, rows, key) {
      ChangesMean(node, rows, key, c);
    }
  }

  lemma LegacyInMeans(node: string, r: Row, links: bool, l: Change)
    ensures l in LegacyIn(node, r, links) <==> LegacyRow(node, r, links) && l == RowChange(r, Set)
  {
  }

  lemma LegacyMeans(node: string, rows: seq<Row>, links: bool, l: Change)
    ensures l in Legacy(node, rows, links) <==>
              exists r :: r in rows && LegacyRow(node, r, links) && l == RowChange(r, Set)
  {
    var f := r => LegacyIn(node, r, links);
    if l in Legacy(node, rows, links) {
      GatherComesFrom(f, rows, l);
      var r :| r in rows && l in f(r);
      LegacyInMeans(node, r, links, l);
    }
    if r :| r in rows && LegacyRow(node, r, links) && l == RowChange(r, Set) {
      LegacyInMeans(node, r, links, l);
      GatherHas(f, rows, r, l);
    }
  }

  lemma ApplicableMeans(node: string, rows: seq<Row>, key: Key, l: Change)
    ensures l in Applicable(node, rows, key) <==>
              exists r :: r in rows && LegacyApplies(node, rows, r, key) && l == RowChange(r, Set)
  {
    HasChangeMeans(node, rows, key);
    LegacyMeans(node, rows, key.Link?, l);
  }

  lemma NotOlderMeans(r: Row, w: Change)
    ensures NotOlder(RowChange(r, Set), w) <==> MayBeNewer(r, w)
  {
    StringExceeds(r.version, w.version);
  }

  lemma {:induction false} GatherOnly(f: Row -> multiset<Change>, rows: seq<Row>, i: nat)
    requires i < |rows| && forall j :: 0 <= j < |rows| && j != i ==> f(rows[j]) == multiset{}
    ensures Gather(f, rows) == f(rows[i])
  {
    var front, last := rows[..|rows| - 1], rows[|rows| - 1];
    if i == |rows| - 1 {
      GatherNone(f, front);
    } else {
      GatherOnly(f, front, i);
    }
  }

  lemma {:induction false} GatherNone(f: Row -> multiset<Change>, rows: seq<Row>)
    requires forall j :: 0 <= j < |rows| ==> f(rows[j]) == multiset{}
    ensures Gather(f, rows) == multiset{}
  {
    if rows != [] {
      GatherNone(f, rows[..|rows| - 1]);
    }
  }

  lemma LoneChangeIsOrdered(node: string, rows: seq<Row>, key: Key, i: nat)
    requires LoneChange(node, rows, key, i)
    ensures |Changes(node, rows, key)| == 1
  {
    var f := r => ChangesIn(node, r, key);
    forall j | 0 <= j < |rows| && j != i ensures f(rows[j]) == multiset{} {
      ChangesInMeans(node, rows[j], key);
    }
    ChangesInMeans(node, rows[i], key);
    GatherOnly(f, rows, i);
  }

  lemma NamedIsLatest(e: Entry, node: string, rows: seq<Row>, truncated: bool)
    requires EntryOk(Some(e), node, rows, e.key, truncated)
    ensures NamesLatest(e, node, rows)
  {
    if e.change.Some? {
      var w, changes := e.change.value, Changes(node, rows, e.key);
      ChangesMean(node, rows, e.key, w);
      var q :| q in rows && RecordsChange(node, q, e.key) && w == TheChange(q, e.key);
      ChangesInMeans(node, q, e.key);
      forall r | r in rows && RecordsChange(node, r, e.key) && r.eventId != w.eventId ensures OutranksRow(w, r) {
        var c := TheChange(r, e.key);
        ChangesMean(node, rows, e.key, c);
        ChangesInMeans(node, r, e.key);
        assert c in changes && c != w && After(w, c);
        AfterOutranks(w, c);
      }
    }
  }

  lemma KnownOrUnknown(e: Entry, node: string, rows: seq<Row>)
    requires EntryOk(Some(e), node, rows, e.key, false) && HasChange(node, rows, e.key) && e.change.Some?
    ensures e.status == Known ==> forall r :: r in rows && LegacyApplies(node, rows, r, e.key) ==>
                                    !MayBeNewer(r, e.change.value)
    ensures e.status == Unknown ==> exists r :: r in rows && LegacyApplies(node, rows, r, e.key)
                                                && MayBeNewer(r, e.change.value)
  {
    var w, changes, legacy := e.change.value, Changes(node, rows, e.key), Applicable(node, rows, e.key);
    HasChangeMeans(node, rows, e.key);
    forall v | Latest(changes, v) ensures v == w {
      LatestUnique(changes, v, w);
    }
    if e.status == Known {
      forall r | r in rows && LegacyApplies(node, rows, r, e.key) ensures !MayBeNewer(r, w) {
        ApplicableMeans(node, rows, e.key, RowChange(r, Set));
        NotOlderMeans(r, w);
      }
    } else if e.status == Unknown {
      var l :| l in legacy && NotOlder(l, w);
      ApplicableMeans(node, rows, e.key, l);
      var r :| r in rows && LegacyApplies(node, rows, r, e.key) && l == RowChange(r, Set);
      NotOlderMeans(r, w);
    }
  }

  lemma NoChangeStatus(e: Entry, node: string, rows: seq<Row>, truncated: bool)
    requires EntryOk(Some(e), node, rows, e.key, truncated) && !HasChange(node, rows, e.key)
    ensures e.change.None?
    ensures e.status == if exists r :: r in rows && LegacyApplies(node, rows, r, e.key) then Unknown else Partial
  {
    HasChangeMeans(node, rows, e.key);
    if r :| r in rows && LegacyApplies(node, rows, r, e.key) {
      ApplicableMeans(node, rows, e.key, RowChange(r, Set));
    } else {
      forall l ensures l !in Applicable(node, rows, e.key) {
        ApplicableMeans(node, rows, e.key, l);
      }
    }
  }

  lemma VersionedIsOrdered(node: string, rows: seq<Row>, key: Key)
    requires forall r :: r in rows && RecordsChange(node, r, key) ==> r.version != ""
    ensures Ordered(Changes(node, rows, key))
  {
    forall c | c in Changes(node, rows, key) ensures Versioned(c) {
      ChangesMean(node, rows, key, c);
    }
  }

  lemma StatusIsMeant(e: Entry, node: string, rows: seq<Row>, truncated: bool)
    requires EntryOk(Some(e), node, rows, e.key, truncated)
    ensures StatusMeans(e, node, rows, truncated)
  {
    HasChangeMeans(node, rows, e.key);
    if !HasChange(node, rows, e.key) {
      NoChangeStatus(e, node, rows, truncated);
    } else if !truncated && e.change.Some? {
      KnownOrUnknown(e, node, rows);
    }
    if forall r :: r in rows && RecordsChange(node, r, e.key) ==> r.version != "" {
      VersionedIsOrdered(node, rows, e.key);
    }
    forall i: nat | LoneChange(node, rows, e.key, i) ensures e.change.Some? {
      LoneChangeIsOrdered(node, rows, e.key, i);
      assert rows[i] in rows;
    }
  }

  lemma {:induction false} IdsHold(cs: seq<Change>)
    ensures |Ids(cs)| == |cs| && forall i :: 0 <= i < |cs| ==> Ids(cs)[i] == cs[i].eventId
  {
    if cs != [] {
      IdsHold(cs[..|cs| - 1]);
    }
  }

  lemma IdsMembers(cs: seq<Change>, id: string)
    ensures id in Ids(cs) <==> exists c :: c in cs && c.eventId == id
  {
    IdsHold(cs);
    if id in Ids(cs) {
      var i :| 0 <= i < |Ids(cs)| && Ids(cs)[i] == id;
      assert cs[i] in cs;
    }
    if c :| c in cs && c.eventId == id {
      var i :| 0 <= i < |cs| && cs[i] == c;
      assert Ids(cs)[i] == id;
    }
  }

  lemma NewerMembers(all: seq<Change>, known: Change, l: Change)
    ensures l in Newer(all, known) <==> l in all && NotOlder(l, known)
  {
    NewerContents(all, known, l);
    assert l in multiset(all) <==> l in all;
    assert l in multiset(Newer(all, known)) <==> l in Newer(all, known);
  }

  /** A legacy change that is listed, and the row it is. */
  lemma LegacyIsListed(e: Entry, node: string, rows: seq<Row>, truncated: bool, id: string)
    requires EntryOk(Some(e), node, rows, e.key, truncated)
    ensures id in e.legacyIds <==>
              exists l :: l in Applicable(node, rows, e.key) && l.eventId == id
                          && (HasChange(node, rows, e.key) ==>
                                !truncated && e.change.Some? && NotOlder(l, e.change.value))
  {
    var legacy := Applicable(node, rows, e.key);
    HasChangeMeans(node, rows, e.key);
    if !HasChange(node, rows, e.key) {
      var all :| multiset(all) == legacy && e.legacyIds == Ids(all);
      IdsMembers(all, id);
      assert forall l :: l in all <==> l in multiset(all);
    } else if !truncated && Ordered(Changes(node, rows, e.key)) {
      var all :| multiset(all) == legacy && e.legacyIds == Ids(Newer(all, e.change.value));
      IdsMembers(Newer(all, e.change.value), id);
      forall l ensures l in Newer(all, e.change.value) <==> l in legacy && NotOlder(l, e.change.value) {
        NewerMembers(all, e.change.value, l);
        assert l in all <==> l in multiset(all);
      }
    }
  }

  lemma LegacyIsMeant(e: Entry, node: string, rows: seq<Row>, truncated: bool)
    requires EntryOk(Some(e), node, rows, e.key, truncated)
    ensures LegacyListed(e, node, rows, truncated)
  {
    forall id ensures id in e.legacyIds <==>
      exists r :: r in rows && LegacyApplies(node, rows, r, e.key) && r.eventId == id
          && ShowsLegacy(e, node, rows, truncated, r)
    {
      LegacyIsListed(e, node, rows, truncated, id);
      if r :| r in rows && LegacyApplies(node, rows, r, e.key) && r.eventId == id
              && ShowsLegacy(e, node, rows, truncated, r) {
        ApplicableMeans(node, rows, e.key, RowChange(r, Set));
        if e.change.Some? {
          NotOlderMeans(r, e.change.value);
        }
      }
      if id in e.legacyIds {
        var l :| l in Applicable(node, rows, e.key) && l.eventId == id
                 && (HasChange(node, rows, e.key) ==> !truncated && e.change.Some? && NotOlder(l, e.change.value));
        ApplicableMeans(node, rows, e.key, l);
        var r :| r in rows && LegacyApplies(node, rows, r, e.key) && l == RowChange(r, Set);
        if e.change.Some? {
          NotOlderMeans(r, e.change.value);
        }
      }
    }
  }

  /** A recorded change is a candidate exactly when its id is listed. */
  lemma CandidateListed(cs: Candidates, node: string, rows: seq<Row>, key: Key, ids: seq<string>, r: Row)
    requires OneRowPerId(rows) && Summarises(cs, Changes(node, rows, key)) && ids == Ids(Sort(Earlier, All(cs)))
    requires r in rows && RecordsChange(node, r, key)
    ensures r.eventId in ids <==> TheChange(r, key) in All(cs)
  {
    var sorted := Sort(Earlier, All(cs));
    SortContents(Earlier, All(cs));
    IdsMembers(sorted, r.eventId);
    assert forall c :: c in sorted <==> c in multiset(sorted);
    assert forall c :: c in All(cs) <==> c in multiset(All(cs));
    ChangesInMeans(node, r, key);
    if c :| c in sorted && c.eventId == r.eventId {
      AllMembers(cs, Changes(node, rows, key), c);
      ChangesMean(node, rows, key, c);
      var q :| q in rows && RecordsChange(node, q, key) && c == TheChange(q, key);
      ChangesInMeans(node, q, key);
      assert q == r;
    }
  }

  lemma ListedComesFromRow(cs: Candidates, node: string, rows: seq<Row>, key: Key, ids: seq<string>, id: string)
    requires Summarises(cs, Changes(node, rows, key)) && ids == Ids(Sort(Earlier, All(cs))) && id in ids
    ensures exists r :: r in rows && RecordsChange(node, r, key) && r.eventId == id
  {
    var sorted := Sort(Earlier, All(cs));
    SortContents(Earlier, All(cs));
    IdsMembers(sorted, id);
    var c :| c in sorted && c.eventId == id;
    assert c in multiset(sorted) && c in multiset(All(cs));
    AllMembers(cs, Changes(node, rows, key), c);
    ChangesMean(node, rows, key, c);
    var r :| r in rows && RecordsChange(node, r, key) && c == TheChange(r, key);
    ChangesInMeans(node, r, key);
  }

  lemma CandidateKinds(cs: Candidates, node: string, rows: seq<Row>, key: Key, r: Row)
    requires Summarises(cs, Changes(node, rows, key)) && r in rows && RecordsChange(node, r, key)
    ensures r.version == "" ==> TheChange(r, key) in All(cs)
    ensures r.version != "" ==>
              cs.versioned.Some? && (TheChange(r, key) in All(cs) <==> TheChange(r, key) == cs.versioned.value)
    ensures r.version != "" ==> !After(TheChange(r, key), cs.versioned.value)
  {
    var c := TheChange(r, key);
    ChangesMean(node, rows, key, c);
    ChangesInMeans(node, r, key);
    assert multiset(cs.unversioned)[c] == if Versioned(c) then 0 else Changes(node, rows, key)[c];
    assert c in cs.unversioned <==> c in multiset(cs.unversioned);
  }

  /** The versioned candidate is the highest of the recorded changes. */
  lemma CandidateIsHighest(cs: Candidates, node: string, rows: seq<Row>, key: Key, r: Row, q: Row)
    requires Summarises(cs, Changes(node, rows, key)) && r in rows && q in rows && RecordsChange(node, r, key)
    requires RecordsChange(node, q, key) && r.version != "" && q.version != "" && TheChange(q, key) in All(cs)
    ensures q.eventId == r.eventId || RowOutranks(q, r)
  {
    CandidateKinds(cs, node, rows, key, r);
    CandidateKinds(cs, node, rows, key, q);
    ChangesInMeans(node, r, key);
    ChangesInMeans(node, q, key);
    var c, top := TheChange(r, key), TheChange(q, key);
    AfterOutranks(top, c);
    if !After(top, c) {
      NotAfterTies(c, top);
    }
  }

  lemma TimeOrderIsMeant(cs: Candidates, node: string, rows: seq<Row>, key: Key, ids: seq<string>)
    requires OneRowPerId(rows) && Summarises(cs, Changes(node, rows, key)) && ids == Ids(Sort(Earlier, All(cs)))
    ensures InTimeOrder(ids, node, rows, key)
  {
    var sorted := Sort(Earlier, All(cs));
    EarlierOrder();
    SortSorts(Earlier, All(cs));
    SortContents(Earlier, All(cs));
    IdsHold(sorted);
    forall i, j, r, q | 0 <= i < j < |ids| && r in rows && q in rows && RecordsChange(node, r, key)
                        && RecordsChange(node, q, key) && r.eventId == ids[i] && q.eventId == ids[j]
      ensures r.time < q.time || (r.time == q.time && !Exceeds(r.eventId, q.eventId))
    {
      RowAt(cs, node, rows, key, sorted[i], r);
      RowAt(cs, node, rows, key, sorted[j], q);
      assert Earlier(sorted[i], sorted[j]);
      StringExceeds(r.eventId, q.eventId);
    }
  }

  lemma RowAt(cs: Candidates, node: string, rows: seq<Row>, key: Key, c: Change, r: Row)
    requires OneRowPerId(rows) && Summarises(cs, Changes(node, rows, key)) && c in Sort(Earlier, All(cs))
    requires r in rows && r.eventId == c.eventId
    ensures c.time == r.time
  {
    SortContents(Earlier, All(cs));
    assert c in multiset(Sort(Earlier, All(cs))) && c in multiset(All(cs));
    AllMembers(cs, Changes(node, rows, key), c);
    ChangesMean(node, rows, key, c);
    var q :| q in rows && RecordsChange(node, q, key) && c == TheChange(q, key);
    ChangesInMeans(node, q, key);
  }

  lemma CandidatesAreMeant(e: Entry, node: string, rows: seq<Row>, truncated: bool)
    requires OneRowPerId(rows) && EntryOk(Some(e), node, rows, e.key, truncated)
    ensures CandidatesListed(e, node, rows, truncated)
  {
    HasChangeMeans(node, rows, e.key);
    if HasChange(node, rows, e.key) && (truncated || e.change.None?) {
      var ids, key := e.candidateIds, e.key;
      var cs :| Summarises(cs, Changes(node, rows, key)) && ids == Ids(Sort(Earlier, All(cs)));
      forall id | id in ids ensures exists r :: r in rows && RecordsChange(node, r, key) && r.eventId == id {
        ListedComesFromRow(cs, node, rows, key, ids, id);
      }
      forall r | r in rows && RecordsChange(node, r, key) && r.version == "" ensures r.eventId in ids {
        CandidateListed(cs, node, rows, key, ids, r);
        CandidateKinds(cs, node, rows, key, r);
      }
      forall r, q | r in rows && q in rows && RecordsChange(node, r, key) && RecordsChange(node, q, key)
                    && r.version != "" && q.version != "" && q.eventId in ids
        ensures q.eventId == r.eventId || RowOutranks(q, r)
      {
        CandidateListed(cs, node, rows, key, ids, q);
        CandidateIsHighest(cs, node, rows, key, r, q);
      }
      if r :| r in rows && RecordsChange(node, r, key) && r.version != "" {
        HighestIsListed(cs, node, rows, key, ids, r);
      }
      TimeOrderIsMeant(cs, node, rows, key, ids);
    }
  }

  lemma HighestIsListed(cs: Candidates, node: string, rows: seq<Row>, key: Key, ids: seq<string>, r: Row)
    requires OneRowPerId(rows) && Summarises(cs, Changes(node, rows, key)) && ids == Ids(Sort(Earlier, All(cs)))
    requires r in rows && RecordsChange(node, r, key) && r.version != ""
    ensures exists q :: q in rows && RecordsChange(node, q, key) && q.version != "" && q.eventId in ids
  {
    CandidateKinds(cs, node, rows, key, r);
    var top := cs.versioned.value;
    ChangesMean(node, rows, key, top);
    var q :| q in rows && RecordsChange(node, q, key) && top == TheChange(q, key);
    ChangesInMeans(node, q, key);
    CandidateListed(cs, node, rows, key, ids, q);
  }

  lemma KeyLeMeans(a: Key, b: Key)
    requires KeyLe(a, b) && a != b && a.Link? == b.Link?
    ensures KeyExceeds(b, a)
  {
    StringOrder();
    if a.Field? {
      StringExceeds(b.path, a.path);
    } else {
      StringExceeds(b.source, a.source);
      StringExceeds(b.relation, a.relation);
      StringExceeds(b.target, a.target);
    }
  }

  lemma SectionIsMeant(es: seq<Entry>, node: string, path: string, rows: seq<Row>, truncated: bool, links: bool)
    requires OneRowPerId(rows) && SectionOk(es, node, path, rows, truncated, links)
    ensures SectionMeans(es, node, rows, truncated, links)
  {
    forall i, j | 0 <= i < j < |es| ensures KeyExceeds(es[j].key, es[i].key) {
      assert es[i] in es && es[j] in es;
      KeyLeMeans(es[i].key, es[j].key);
    }
    forall e | e in es ensures EntryMeans(e, node, rows, truncated) {
      NamedIsLatest(e, node, rows, truncated);
      StatusIsMeant(e, node, rows, truncated);
      LegacyIsMeant(e, node, rows, truncated);
      CandidatesAreMeant(e, node, rows, truncated);
    }
  }

  lemma EligibleMeans(node: string, path: string, rows: seq<Row>, key: Key)
    ensures Reported(node, path, rows, key) <==> Eligible(node, path, rows, key)
  {
    HasChangeMeans(node, rows, key);
    if key.Link? {
      forall r: Row ensures LinkOf(node, r) == Some(key) <==> NamesLink(node, r, key) {
      }
    } else {
      forall r: Row ensures key.path in RowPaths(node, r) <==> RecordsPath(node, r, key.path) {
      }
    }
  }

  lemma StartIsMeant(node: string, rows: seq<Row>)
    ensures Starts(node, rows) <==> exists q :: q in rows && StartsHistory(node, q)
  {
    forall q: Row ensures RowStarts(node, q) <==> StartsHistory(node, q) {
      StartsMeans(node, q);
    }
  }

  /** An entry is left out exactly when there is nothing to say about it. */
  lemma LeftOutMeans(r: Option<Entry>, node: string, rows: seq<Row>, truncated: bool, key: Key)
    requires EntryOk(r, node, rows, key, truncated)
    ensures r.None? <==> NothingToSay(node, rows, truncated, key)
  {
    HasChangeMeans(node, rows, key);
    StartIsMeant(node, rows);
    if Applicable(node, rows, key) == multiset{} {
      forall q | q in rows ensures !LegacyApplies(node, rows, q, key) {
        ApplicableMeans(node, rows, key, RowChange(q, Set));
      }
    } else {
      var l :| l in Applicable(node, rows, key);
      ApplicableMeans(node, rows, key, l);
    }
  }

  lemma PresentExactly(es: seq<Entry>, node: string, path: string, rows: seq<Row>, truncated: bool, links: bool,
        key: Key)
    requires SectionOk(es, node, path, rows, truncated, links) && key.Link? == links
    ensures HasKey(es, key) <==> Eligible(node, path, rows, key) && !NothingToSay(node, rows, truncated, key)
  {
    EligibleMeans(node, path, rows, key);
    if e :| e in es && e.key == key {
      LeftOutMeans(Some(e), node, rows, truncated, key);
    } else if Reported(node, path, rows, key) {
      LeftOutMeans(None, node, rows, truncated, key);
    }
  }

  lemma {:induction false} LegacyCount(node: string, rows: seq<Row>)
    ensures |Legacy(node, rows, false)| + |Legacy(node, rows, true)|
            == |LegacyIndexes(node, rows)|
  {
    if rows == [] {
      assert LegacyIndexes(node, rows) == {};
    } else {
      var front, last := rows[..|rows| - 1], rows[|rows| - 1];
      LegacyCount(node, front);
      var before, after := LegacyIndexes(node, front), LegacyIndexes(node, rows);
      assert after == if AnyLegacyRow(node, last) then before + {|rows| - 1} else before;
      LegacyOnce(node, last);
    }
  }

  lemma LegacyOnce(node: string, r: Row)
    ensures |LegacyIn(node, r, false)| + |LegacyIn(node, r, true)| == if AnyLegacyRow(node, r) then 1 else 0
  {
    LegacyInMeans(node, r, false, RowChange(r, Set));
    LegacyInMeans(node, r, true, RowChange(r, Set));
  }

  lemma LegacyLinksAreMeant(r: Report, node: string, path: string, rows: seq<Row>, truncated: bool, id: string)
    requires ReportOk(r, node, path, rows, truncated)
    ensures id in r.legacyLinkIds <==> exists q :: q in rows && LegacyRow(node, q, true) && q.eventId == id
  {
    var all :| multiset(all) == Legacy(node, rows, true) && r.legacyLinkIds == Ids(all);
    IdsMembers(all, id);
    assert forall l :: l in all <==> l in multiset(all);
    if q :| q in rows && LegacyRow(node, q, true) && q.eventId == id {
      LegacyMeans(node, rows, true, RowChange(q, Set));
    }
    if l: Change :| l in all && l.eventId == id {
      LegacyMeans(node, rows, true, l);
    }
  }

  lemma StartsMeans(node: string, r: Row)
    ensures RowStarts(node, r) <==> StartsHistory(node, r)
  {
  }

  /** The report means, in terms of the rows' own fields, what it says. */
  lemma ReportIsMeant(r: Report, node: string, path: string, rows: seq<Row>, truncated: bool)
    requires OneRowPerId(rows) && ReportOk(r, node, path, rows, truncated)
    ensures ReportMeans(r, node, path, rows, truncated)
  {
    SectionIsMeant(r.fields, node, path, rows, truncated, false);
    SectionIsMeant(r.links, node, path, rows, truncated, true);
    forall key: Key ensures HasKey(if key.Link? then r.links else r.fields, key) <==>
                              Eligible(node, path, rows, key) && !NothingToSay(node, rows, truncated, key)
    {
      PresentExactly(if key.Link? then r.links else r.fields, node, path, rows, truncated, key.Link?, key);
    }
    StartIsMeant(node, rows);
    LegacyCount(node, rows);
    forall id ensures id in r.legacyLinkIds <==> exists q :: q in rows && LegacyRow(node, q, true) && q.eventId == id {
      LegacyLinksAreMeant(r, node, path, rows, truncated, id);
    }
  }

  /** "Known" is a promise about all the rows that were read, and a truncated read never makes it. */
  lemma KnownMeansLatest(r: Report, node: string, path: string, rows: seq<Row>, truncated: bool, e: Entry)
    requires ReportOk(r, node, path, rows, truncated) && (e in r.fields || e in r.links) && e.status == Known
    ensures !truncated && e.change.Some? && Latest(Changes(node, rows, e.key), e.change.value)
    ensures forall l :: l in Applicable(node, rows, e.key) ==> !NotOlder(l, e.change.value)
    ensures forall q :: q in rows && RecordsChange(node, q, e.key) && q.eventId != e.change.value.eventId ==>
              OutranksRow(e.change.value, q)
    ensures forall q :: q in rows && LegacyApplies(node, rows, q, e.key) ==> !MayBeNewer(q, e.change.value)
  {
    var changes := Changes(node, rows, e.key);
    assert EntryOk(Some(e), node, rows, e.key, truncated);
    if changes != multiset{} && !truncated {
      var w :| Latest(changes, w) && forall l :: l in Applicable(node, rows, e.key) ==> !NotOlder(l, w);
      LatestUnique(changes, w, e.change.value);
      HasChangeMeans(node, rows, e.key);
      NamedIsLatest(e, node, rows, truncated);
      KnownOrUnknown(e, node, rows);
    }
  }

  // ---- The deriver ----

  function CandidatesOf(m: map<Key, Candidates>, key: Key): Candidates {
    if key in m then m[key] else NONE
  }

  ghost predicate EntriesOk(node: string, rows: seq<Row>, m: map<Key, Candidates>) {
    && (forall key :: Summarises(CandidatesOf(m, key), Changes(node, rows, key)))
    && (forall key :: key in m ==> All(m[key]) != [])
  }

  /** The rest of what the deriver keeps. */
  datatype Lists = Lists(historyStart: bool, recordPaths: set<string>, seenTargets: set<Key>, legacy: seq<Change>,
      legacyLinks: seq<Change>)

  ghost predicate ListsOk(node: string, rows: seq<Row>, l: Lists) {
    && (l.historyStart <==> Starts(node, rows))
    && (forall p :: p in l.recordPaths <==> exists r :: r in rows && p in RowPaths(node, r))
    && (forall k :: k in l.seenTargets <==> exists r :: r in rows && LinkOf(node, r) == Some(k))
    && multiset(l.legacy) == Legacy(node, rows, false) && multiset(l.legacyLinks) == Legacy(node, rows, true)
  }

  lemma ChangesSnoc(node: string, rows: seq<Row>, row: Row, key: Key)
    ensures Changes(node, rows + [row], key) == Changes(node, rows, key) + ChangesIn(node, row, key)
  {
    assert (rows + [row])[..|rows|] == rows;
  }

  lemma LegacySnoc(node: string, rows: seq<Row>, row: Row, links: bool)
    ensures Legacy(node, rows + [row], links) == Legacy(node, rows, links) + LegacyIn(node, row, links)
  {
    assert (rows + [row])[..|rows|] == rows;
  }

  /** The row records no change of the node. */
  predicate NoChange(node: string, row: Row) {
    !NodeChange(node, row) && !(LinkOf(node, row).Some? && Successful(row))
  }

  lemma EntriesUnchanged(node: string, rows: seq<Row>, row: Row, m: map<Key, Candidates>)
    requires EntriesOk(node, rows, m) && NoChange(node, row)
    ensures EntriesOk(node, rows + [row], m)
  {
    forall key ensures Summarises(CandidatesOf(m, key), Changes(node, rows + [row], key)) {
      ChangesSnoc(node, rows, row, key);
      assert Changes(node, rows + [row], key) == Changes(node, rows, key);
    }
  }

  lemma EntriesLinked(node: string, rows: seq<Row>, row: Row, m: map<Key, Candidates>, key: Key)
    requires EntriesOk(node, rows, m) && LinkOf(node, row) == Some(key) && Successful(row)
    ensures EntriesOk(node, rows + [row], m[key := Added(CandidatesOf(m, key), LinkChange(row))])
  {
    var c := LinkChange(row);
    var m' := m[key := Added(CandidatesOf(m, key), c)];
    AddedNotEmpty(CandidatesOf(m, key), c);
    forall k ensures Summarises(CandidatesOf(m', k), Changes(node, rows + [row], k)) {
      if k == key {
        ChangesSnoc(node, rows, row, k);
        AddedSummarises(CandidatesOf(m, key), c, Changes(node, rows, key));
      } else {
        OtherEntrySame(node, rows, row, k);
        assert CandidatesOf(m', k) == CandidatesOf(m, k);
      }
    }
  }

  lemma OtherEntrySame(node: string, rows: seq<Row>, row: Row, key: Key)
    requires LinkOf(node, row).Some? && LinkOf(node, row) != Some(key)
    ensures Changes(node, rows + [row], key) == Changes(node, rows, key)
  {
    ChangesSnoc(node, rows, row, key);
  }

  function LinkSet(node: string, row: Row): set<Key> {
    if LinkOf(node, row).Some? then {LinkOf(node, row).value} else {}
  }

  lemma ListsSnoc(node: string, rows: seq<Row>, row: Row, l: Lists, k: Lists)
    requires ListsOk(node, rows, l)
    requires (k.historyStart <==> l.historyStart || RowStarts(node, row))
             && k.recordPaths == l.recordPaths + RowPaths(node, row)
    requires k.seenTargets == l.seenTargets + LinkSet(node, row)
    requires multiset(k.legacy) == multiset(l.legacy) + LegacyIn(node, row, false)
    requires multiset(k.legacyLinks) == multiset(l.legacyLinks) + LegacyIn(node, row, true)
    ensures ListsOk(node, rows + [row], k)
  {
    LegacySnoc(node, rows, row, false);
    LegacySnoc(node, rows, row, true);
    forall r: Row ensures r in rows + [row] <==> r in rows || r == row {
    }
  }

  /** What a legacy row of the node adds. */
  function WithLegacy(l: Lists, row: Row): Lists {
    if row.entityKind == "relationship" then l.(legacyLinks := l.legacyLinks + [RowChange(row, Set)])
    else l.(legacy := l.legacy + [RowChange(row, Set)], historyStart := l.historyStart || row.action == "node.create")
  }

  lemma ListsLegacy(node: string, rows: seq<Row>, row: Row, l: Lists)
    requires ListsOk(node, rows, l) && row.format == FORMAT_LEGACY
    ensures ListsOk(node, rows + [row], if LegacyChange(node, row) then WithLegacy(l, row) else l)
  {
    ListsSnoc(node, rows, row, l, if LegacyChange(node, row) then WithLegacy(l, row) else l);
  }

  lemma ListsNode(node: string, rows: seq<Row>, row: Row, l: Lists)
    requires ListsOk(node, rows, l) && NodeChange(node, row)
    ensures ListsOk(node, rows + [row], l.(historyStart := l.historyStart || row.delta.value.before.Missing?,
                                           recordPaths := l.recordPaths + RowPaths(node, row)))
  {
    ListsSnoc(node, rows, row, l, l.(historyStart := l.historyStart || row.delta.value.before.Missing?,
                                     recordPaths := l.recordPaths + RowPaths(node, row)));
  }

  /** The field changes of a row up to some of its changed paths. */
  function Part(row: Row, n: nat, key: Key): multiset<Change>
    requires row.delta.Some? && n <= |row.delta.value.changed|
  {
    if key.Field? then Copies(FieldChange(row, key.path), multiset(row.delta.value.changed[..n])[key.path])
        else multiset{}
  }

  lemma PartNext(row: Row, n: nat, key: Key)
    requires row.delta.Some? && n < |row.delta.value.changed|
    ensures var path := row.delta.value.changed[n];
            Part(row, n + 1, key) == if key == Field(path) then Part(row, n, key) + multiset{FieldChange(row, path)}
                else Part(row, n, key)
  {
    var changed := row.delta.value.changed;
    assert changed[..n + 1] == changed[..n] + [changed[n]];
  }

  lemma AddedNotEmpty(cs: Candidates, c: Change)
    ensures All(Added(cs, c)) != []
  {
  }

  /** The entries after some of the changed paths of a row. */
  ghost predicate PartsOk(node: string, rows: seq<Row>, row: Row, n: nat, m: map<Key, Candidates>)
    requires row.delta.Some? && n <= |row.delta.value.changed|
  {
    && (forall key :: Summarises(CandidatesOf(m, key), Changes(node, rows, key) + Part(row, n, key)))
    && (forall key :: key in m ==> All(m[key]) != [])
  }

  lemma PartsStart(node: string, rows: seq<Row>, row: Row, m: map<Key, Candidates>)
    requires EntriesOk(node, rows, m) && row.delta.Some?
    ensures PartsOk(node, rows, row, 0, m)
  {
    forall key ensures Summarises(CandidatesOf(m, key), Changes(node, rows, key) + Part(row, 0, key)) {
      assert Changes(node, rows, key) + Part(row, 0, key) == Changes(node, rows, key);
    }
  }

  lemma PartAdds(row: Row, n: nat, before: multiset<Change>, cs: Candidates, key: Key, c: Change)
    requires row.delta.Some? && n < |row.delta.value.changed|
    requires key == Field(row.delta.value.changed[n]) && c == FieldChange(row, row.delta.value.changed[n])
    requires Summarises(cs, before + Part(row, n, key))
    ensures Summarises(Added(cs, c), before + Part(row, n + 1, key))
  {
    PartNext(row, n, key);
    AddedSummarises(cs, c, before + Part(row, n, key));
    assert before + Part(row, n, key) + multiset{c} == before + Part(row, n + 1, key);
  }

  lemma PartsStep(node: string, rows: seq<Row>, row: Row, n: nat, m: map<Key, Candidates>)
    requires row.delta.Some? && n < |row.delta.value.changed| && PartsOk(node, rows, row, n, m)
    ensures var path := row.delta.value.changed[n];
            PartsOk(node, rows, row, n + 1, m[Field(path) := Added(CandidatesOf(m, Field(path)),
                FieldChange(row, path))])
  {
    var path := row.delta.value.changed[n];
    var key, c := Field(path), FieldChange(row, path);
    var m' := m[key := Added(CandidatesOf(m, key), c)];
    AddedNotEmpty(CandidatesOf(m, key), c);
    forall k ensures Summarises(CandidatesOf(m', k), Changes(node, rows, k) + Part(row, n + 1, k)) {
      if k == key {
        PartAdds(row, n, Changes(node, rows, key), CandidatesOf(m, key), key, c);
      } else {
        PartNext(row, n, k);
        assert CandidatesOf(m', k) == CandidatesOf(m, k);
      }
    }
  }

  lemma PartsEnd(node: string, rows: seq<Row>, row: Row, m: map<Key, Candidates>)
    requires NodeChange(node, row) && PartsOk(node, rows, row, |row.delta.value.changed|, m)
    ensures EntriesOk(node, rows + [row], m)
  {
    var changed := row.delta.value.changed;
    assert changed[..|changed|] == changed;
    forall key ensures Summarises(CandidatesOf(m, key), Changes(node, rows + [row], key)) {
      ChangesSnoc(node, rows, row, key);
      assert Part(row, |changed|, key) == ChangesIn(node, row, key);
    }
  }

  /** Keeps the candidates of each entry, not the rows. */
  class LastChangeDeriver {
    const node: string
    const path: string
    var historyStart: bool
    var candidates: map<Key, Candidates>
    var recordPaths: set<string>
    var seenTargets: set<Key>
    var legacy: seq<Change>
    var legacyLinks: seq<Change>
    ghost var rows: seq<Row>

    constructor (node: string, path: string)
      ensures Valid() && this.node == node && this.path == path && rows == []
    {
      this.node, this.path := node, path;
      historyStart, candidates, recordPaths, seenTargets := false, map[], {}, {};
      legacy, legacyLinks := [], [];
      rows := [];
    }

    ghost function Kept(): Lists
      reads this
    {
      Lists(historyStart, recordPaths, seenTargets, legacy, legacyLinks)
    }

    /** The state says about each entry what all the rows added say. */
    ghost predicate Valid()
      reads this
    {
      EntriesOk(node, rows, candidates) && ListsOk(node, rows, Kept())
    }

    method AddCandidate(key: Key, c: Change)
      modifies this`candidates
      ensures candidates == old(candidates)[key := Added(CandidatesOf(old(candidates), key), c)]
    {
      var cs := CandidatesOf(candidates, key);
      candidates := candidates[key := Added(cs, c)];
    }

    method AddLegacy(row: Row)
      requires Valid() && row.format == FORMAT_LEGACY
      modifies this
      ensures Valid() && rows == old(rows) + [row]
    {
      EntriesUnchanged(node, rows, row, candidates);
      ListsLegacy(node, rows, row, Kept());
      if LegacyChange(node, row) {
        NoteLegacy(row);
      }
      rows := rows + [row];
    }

    method NoteLegacy(row: Row)
      modifies this`legacy, this`legacyLinks, this`historyStart
      ensures Kept() == WithLegacy(old(Kept()), row)
    {
      if row.entityKind == "relationship" {
        legacyLinks := legacyLinks + [RowChange(row, Set)];
      } else {
        if row.action == "node.create" {
          historyStart := true;
        }
        legacy := legacy + [RowChange(row, Set)];
      }
    }

    method AddRelationshipChange(row: Row)
      requires Valid() && LinkOf(node, row).Some?
      modifies this
      ensures Valid() && rows == old(rows) + [row]
    {
      ghost var before := Kept();
      var key := LinkOf(node, row).value;
      seenTargets := seenTargets + {key};
      if Successful(row) {
        EntriesLinked(node, rows, row, candidates, key);
        AddCandidate(key, LinkChange(row));
      } else {
        EntriesUnchanged(node, rows, row, candidates);
      }
      ListsSnoc(node, rows, row, before, Kept());
      rows := rows + [row];
    }

    method AddFieldChanges(row: Row)
      requires EntriesOk(node, rows, candidates) && NodeChange(node, row)
      modifies this`candidates
      ensures EntriesOk(node, rows + [row], candidates)
    {
      var changed := row.delta.value.changed;
      PartsStart(node, rows, row, candidates);
      for i := 0 to |changed|
        invariant PartsOk(node, rows, row, i, candidates)
      {
        PartsStep(node, rows, row, i, candidates);
        AddCandidate(Field(changed[i]), FieldChange(row, changed[i]));
      }
      PartsEnd(node, rows, row, candidates);
    }

    method AddNodeChange(row: Row) returns (ok: bool)
      requires Valid() && NodeChange(node, row)
      modifies this
      ensures ok == Decodes(node, row)
      ensures ok ==> Valid() && rows == old(rows) + [row]
    {
      ListsNode(node, rows, row, Kept());
      ok := NoteRecord(row);
      if ok {
        AddFieldChanges(row);
        rows := rows + [row];
      }
    }

    method NoteRecord(row: Row) returns (ok: bool)
      requires NodeChange(node, row)
      modifies this`historyStart, this`recordPaths
      ensures ok == Decodes(node, row)
      ensures ok ==> Kept() == old(Kept()).(historyStart := old(historyStart) || row.delta.value.before.Missing?,
                                            recordPaths := old(recordPaths) + RowPaths(node, row))
    {
      var delta := row.delta.value;
      if delta.before.Missing? {
        historyStart := true;
      }
      if delta.before.Broken? || delta.after.Broken? {
        return false;
      }
      recordPaths := recordPaths + RowPaths(node, row);
      ok := true;
    }

    /** Rows that say nothing about the node are ignored; a change whose records do not decode is refused. */
    method Add(row: Row) returns (ok: bool)
      requires Valid()
      modifies this
      ensures ok == Decodes(node, row)
      ensures ok ==> Valid() && rows == old(rows) + [row]
    {
      if row.format == FORMAT_LEGACY {
        AddLegacy(row);
        return true;
      }
      if LinkOf(node, row).Some? {
        AddRelationshipChange(row);
        return true;
      }
      if NodeChange(node, row) {
        ok := AddNodeChange(row);
        return;
      }
      ListsSnoc(node, rows, row, Kept(), Kept());
      EntriesUnchanged(node, rows, row, candidates);
      rows := rows + [row];
      ok := true;
    }

    ghost function Resolver(truncated: bool): Key -> Option<Entry>
      reads this
    {
      var m, start, plain, linked, me := candidates, historyStart, legacy, legacyLinks, node;
      key => ResolveEntry(key, CandidatesOf(m, key), LegacyFor(key, m, plain, linked, me),
                          start && !truncated, truncated)
    }

    lemma ResolvedIsOk(key: Key, truncated: bool)
      requires Valid() && OneRowPerId(rows)
      ensures EntryOk(Resolver(truncated)(key), node, rows, key, truncated)
    {
      LegacyForIsApplicable(key, candidates, Kept(), node, rows);
      ChangesDistinct(node, rows, key);
      ResolveAnswers(key, CandidatesOf(candidates, key), Changes(node, rows, key),
                     LegacyFor(key, candidates, legacy, legacyLinks, node), historyStart && !truncated, truncated);
    }

    /** One section: the keys in order, each with its entry unless there is nothing to say. */
    method ReportSection(keys: set<Key>, links: bool, truncated: bool) returns (es: seq<Entry>)
      requires Valid() && OneRowPerId(rows)
      requires forall key: Key :: key in keys <==> key.Link? == links && Reported(node, path, rows, key)
      ensures SectionOk(es, node, path, rows, truncated, links)
    {
      var sorted := SortedKeys(keys);
      es := ResolveAll(sorted, truncated);
      forall key ensures EntryOk(Resolver(truncated)(key), node, rows, key, truncated) {
        ResolvedIsOk(key, truncated);
      }
      CollectedIsSection(Resolver(truncated), sorted, node, path, rows, truncated, links);
    }

    method ResolveAll(sorted: seq<Key>, truncated: bool) returns (es: seq<Entry>)
      ensures es == Collect(Resolver(truncated), sorted)
    {
      es := [];
      for i := 0 to |sorted|
        invariant es == Collect(Resolver(truncated), sorted[..i])
      {
        var key := sorted[i];
        assert sorted[..i + 1][..i] == sorted[..i];
        var applicable := LegacyFor(key, candidates, legacy, legacyLinks, node);
        var resolved := ResolveEntry(key, CandidatesOf(candidates, key), applicable,
                                     historyStart && !truncated, truncated);
        if resolved.Some? {
          es := es + [resolved.value];
        }
      }
      assert sorted[..|sorted|] == sorted;
    }

    method Report(truncated: bool) returns (r: Report)
      requires Valid() && OneRowPerId(rows)
      ensures ReportOk(r, node, path, rows, truncated) && ReportMeans(r, node, path, rows, truncated)
    {
      forall key: Key ensures key in FieldKeys(path, recordPaths, candidates) <==>
            !key.Link? && Reported(node, path, rows, key) {
        FieldKeysReported(path, candidates, Kept(), node, rows, key);
      }
      var fields := ReportSection(FieldKeys(path, recordPaths, candidates), false, truncated);
      var links := ReportSection(if path != "" then {} else seenTargets, true, truncated);
      r := NodeReport(historyStart, |legacy| + |legacyLinks|, Ids(legacyLinks), fields, links);
      ReportIsMeant(r, node, path, rows, truncated);
    }
  }

  /** reportPaths: the requested path, or every recorded or changed one. */
  function FieldKeys(path: string, recordPaths: set<string>, m: map<Key, Candidates>): set<Key> {
    if path != "" then {Field(path)} else (set p | p in recordPaths :: Field(p)) + (set k | k in m && k.Field?)
  }

  lemma FieldKeysReported(path: string, m: map<Key, Candidates>, l: Lists, node: string, rows: seq<Row>, key: Key)
    requires EntriesOk(node, rows, m) && ListsOk(node, rows, l)
    ensures key in FieldKeys(path, l.recordPaths, m) <==> !key.Link? && Reported(node, path, rows, key)
  {
    LegacyForIsApplicable(key, m, l, node, rows);
    if key.Field? {
      assert key == Field(key.path);
    }
  }

  /** The legacy rows that apply to an entry. */
  function LegacyFor(key: Key, m: map<Key, Candidates>, legacy: seq<Change>, links: seq<Change>,
        node: string): seq<Change> {
    if key.Field? then legacy else if key !in m || key.source != node then [] else links
  }

  lemma LegacyForIsApplicable(key: Key, m: map<Key, Candidates>, l: Lists, node: string, rows: seq<Row>)
    requires EntriesOk(node, rows, m) && ListsOk(node, rows, l)
    ensures multiset(LegacyFor(key, m, l.legacy, l.legacyLinks, node)) == Applicable(node, rows, key)
    ensures key in m <==> Changes(node, rows, key) != multiset{}
  {
    Cardinality(CandidatesOf(m, key), Changes(node, rows, key));
  }

  ghost function Collect(resolve: Key -> Option<Entry>, keys: seq<Key>): seq<Entry> {
    if keys == [] then []
    else
      var last := resolve(keys[|keys| - 1]);
      Collect(resolve, keys[..|keys| - 1]) + if last.Some? then [last.value] else []
  }

  ghost predicate InOrder(keys: seq<Key>) {
    forall i, j :: 0 <= i < j < |keys| ==> keys[i] != keys[j] && KeyLe(keys[i], keys[j])
  }

  lemma {:induction false} CollectHolds(resolve: Key -> Option<Entry>, keys: seq<Key>)
    requires forall k :: resolve(k).Some? ==> resolve(k).value.key == k
    ensures forall e :: e in Collect(resolve, keys) ==> e.key in keys && resolve(e.key) == Some(e)
    ensures forall k :: k in keys && !HasKey(Collect(resolve, keys), k) ==> resolve(k).None?
  {
    if keys != [] {
      var front, last := keys[..|keys| - 1], keys[|keys| - 1];
      CollectHolds(resolve, front);
      assert keys == front + [last];
      forall k | k in keys && !HasKey(Collect(resolve, keys), k) ensures resolve(k).None? {
        assert forall e :: e in Collect(resolve, front) ==> e in Collect(resolve, keys);
        if k != last {
          assert k in front && !HasKey(Collect(resolve, front), k);
        }
      }
    }
  }

  lemma {:induction false} CollectAscends(resolve: Key -> Option<Entry>, keys: seq<Key>)
    requires (forall k :: resolve(k).Some? ==> resolve(k).value.key == k) && InOrder(keys)
    ensures Ascending(Collect(resolve, keys))
  {
    if keys != [] {
      var front, last := keys[..|keys| - 1], keys[|keys| - 1];
      CollectAscends(resolve, front);
      CollectHolds(resolve, front);
      forall k | k in front ensures k != last && KeyLe(k, last) {
        var i :| 0 <= i < |front| && front[i] == k;
        assert keys[i] == k;
      }
      var es := Collect(resolve, front);
      forall i | 0 <= i < |es| ensures es[i].key != last && KeyLe(es[i].key, last) {
        assert es[i] in es;
      }
    }
  }

  lemma CollectedIsSection(resolve: Key -> Option<Entry>, keys: seq<Key>, node: string, path: string, rows: seq<Row>,
        truncated: bool, links: bool)
    requires InOrder(keys) && forall key :: EntryOk(resolve(key), node, rows, key, truncated)
    requires forall key: Key :: key in keys <==> key.Link? == links && Reported(node, path, rows, key)
    ensures SectionOk(Collect(resolve, keys), node, path, rows, truncated, links)
  {
    assert forall k :: resolve(k).Some? ==> resolve(k).value.key == k by {
      forall k | resolve(k).Some? ensures resolve(k).value.key == k {
        assert EntryOk(resolve(k), node, rows, k, truncated);
      }
    }
    CollectHolds(resolve, keys);
    CollectAscends(resolve, keys);
    var es := Collect(resolve, keys);
    forall key: Key | key.Link? == links && Reported(node, path, rows, key) && !HasKey(es, key)
      ensures EntryOk(None, node, rows, key, truncated)
    {
      assert EntryOk(resolve(key), node, rows, key, truncated);
    }
    forall e | e in es ensures EntryOk(Some(e), node, rows, e.key, truncated) {
      assert EntryOk(resolve(e.key), node, rows, e.key, truncated);
    }
  }

  /** The keys of a set, in order and each once. */
  method SortedKeys(keys: set<Key>) returns (sorted: seq<Key>)
    ensures (forall k :: k in sorted <==> k in keys) && InOrder(sorted)
  {
    var listed: seq<Key> := [];
    var todo := keys;
    while todo != {}
      invariant multiset(listed) + multiset(todo) == multiset(keys)
      decreases todo
    {
      var k :| k in todo;
      listed := listed + [k];
      todo := todo - {k};
    }
    sorted := Sort(KeyLe, listed);
    SortContents(KeyLe, listed);
    KeyOrder();
    SortSorts(KeyLe, listed);
    SetListsOnce(sorted, keys);
  }

  lemma SetListsOnce(sorted: seq<Key>, keys: set<Key>)
    requires multiset(sorted) == multiset(keys)
    ensures forall k :: k in sorted <==> k in keys
    ensures forall i, j :: 0 <= i < j < |sorted| ==> sorted[i] != sorted[j]
  {
    forall k ensures k in sorted <==> k in keys {
      assert k in multiset(sorted) <==> k in multiset(keys);
    }
    forall i, j | 0 <= i < j < |sorted| ensures sorted[i] != sorted[j] {
      CountsTwice(sorted, i, j);
    }
  }
}
