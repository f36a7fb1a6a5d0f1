/**
 The latest change of one entry of a node: which of the changes and legacy rows of the entry
 decide, and what the report may say about them.
 */
module LastChange {
  import opened Common
  import opened Lex
  import opened Sorting

  datatype Effect = Set | Removed

  /** One successful change. The version is empty when the row did not come through the outbox. */
  datatype Change = Change(eventId: string, time: int, version: string, effect: Effect, details: string)

  /** A field path of the node, or one of its relationships. */
  datatype Key = Field(path: string) | Link(source: string, relation: string, target: string)

  datatype Status = Known | Unknown | AmbiguousOrder | Partial

  datatype Entry = Entry(key: Key, status: Status, change: Option<Change>, candidateIds: seq<string>,
      legacyIds: seq<string>)

  // ---- Order ----

  /** compareChanges(l, r) > 0. */
  predicate After(l: Change, r: Change) {
    if l.version != "" && r.version != "" && l.version != r.version then !StringLe(l.version, r.version)
    else if l.time != r.time then l.time > r.time
    else !StringLe(l.eventId, r.eventId)
  }

  predicate Versioned(c: Change) {
    c.version != ""
  }

  lemma NotAfterTransitive(a: Change, b: Change, c: Change)
    requires Versioned(a) && Versioned(b) && Versioned(c) && !After(a, b) && !After(b, c)
    ensures !After(a, c)
  {
    StringOrder();
  }

  lemma NotAfterTies(a: Change, b: Change)
    requires Versioned(a) && Versioned(b) && !After(a, b) && !After(b, a)
    ensures a.version == b.version && a.time == b.time && a.eventId == b.eventId
  {
    StringOrder();
  }

  lemma AfterTotal(a: Change, b: Change)
    ensures !After(a, b) || !After(b, a)
  {
    StringOrder();
  }

  /** Both have a version, and `w` has the greater one, or the same one and a later time, or the greater event id. */
  ghost predicate Outranks(w: Change, c: Change) {
    && w.version != "" && c.version != ""
    && (|| Exceeds(w.version, c.version)
        || (w.version == c.version && (w.time > c.time || (w.time == c.time && Exceeds(w.eventId, c.eventId)))))
  }

  lemma AfterOutranks(w: Change, c: Change)
    requires w.version != "" && c.version != ""
    ensures After(w, c) <==> Outranks(w, c)
  {
    StringExceeds(w.version, c.version);
    StringExceeds(w.eventId, c.eventId);
    StringOrder();
  }

  /** Whether a legacy row can be newer than the latest known change. An equal time counts as newer. */
  predicate NotOlder(legacy: Change, known: Change) {
    if Versioned(legacy) && Versioned(known) then !StringLe(legacy.version, known.version)
        else legacy.time >= known.time
  }

  /** Chronological: by event time, then event id. */
  predicate Earlier(l: Change, r: Change) {
    if l.time != r.time then l.time < r.time else StringLe(l.eventId, r.eventId)
  }

  lemma EarlierOrder()
    ensures TotalPreorder(Earlier)
  {
    StringOrder();
  }

  // ---- Candidates ----

  /** The highest versioned change, and every unversioned one. */
  datatype Candidates = Candidates(versioned: Option<Change>, unversioned: seq<Change>)

  const NONE := Candidates(None, [])

  function Added(cs: Candidates, c: Change): Candidates {
    if !Versioned(c) then cs.(unversioned := cs.unversioned + [c])
    else if cs.versioned.None? || After(c, cs.versioned.value) then cs.(versioned := Some(c))
    else cs
  }

  function All(cs: Candidates): seq<Change> {
    if cs.versioned.Some? then cs.unversioned + [cs.versioned.value] else cs.unversioned
  }

  predicate Ambiguous(cs: Candidates) {
    |All(cs)| > 1 && |cs.unversioned| > 0
  }

  function Ids(changes: seq<Change>): seq<string> {
    if changes == [] then [] else Ids(changes[..|changes| - 1]) + [changes[|changes| - 1].eventId]
  }

  /** What the candidates keep of all the changes of an entry. */
  ghost predicate Summarises(cs: Candidates, changes: multiset<Change>) {
    && (forall c :: multiset(cs.unversioned)[c] == if Versioned(c) then 0 else changes[c])
    && (cs.versioned.None? ==> forall c :: c in changes ==> !Versioned(c))
    && (cs.versioned.Some? ==>
          var top := cs.versioned.value;
          && top in changes && Versioned(top)
          && (forall c :: c in changes && Versioned(c) ==> !After(c, top)))
  }

  lemma AddedSummarises(cs: Candidates, c: Change, changes: multiset<Change>)
    requires Summarises(cs, changes)
    ensures Summarises(Added(cs, c), changes + multiset{c})
  {
    if Versioned(c) {
      var added, sum := Added(cs, c), changes + multiset{c};
      var top := added.versioned.value;
      forall d | d in sum && Versioned(d) ensures !After(d, top) {
        AfterTotal(c, c);
        if cs.versioned.Some? {
          AfterTotal(c, cs.versioned.value);
          if d in changes {
            if top == c {
              NotAfterTransitive(d, cs.versioned.value, c);
            }
          }
        }
      }
    }
  }

  /** Rows have distinct event ids, so changes of one entry with the same id are the same change. */
  ghost predicate DistinctIds(changes: multiset<Change>) {
    forall a, b :: a in changes && b in changes && a.eventId == b.eventId ==> a == b
  }

  /** The order of arrival leaves no trace, except in the order of the unversioned changes. */
  lemma SummaryUnique(a: Candidates, b: Candidates, changes: multiset<Change>)
    requires Summarises(a, changes) && Summarises(b, changes) && DistinctIds(changes)
    ensures a.versioned == b.versioned && multiset(a.unversioned) == multiset(b.unversioned)
  {
    if a.versioned.Some? && b.versioned.Some? {
      NotAfterTies(a.versioned.value, b.versioned.value);
    }
  }

  lemma AllMembers(cs: Candidates, changes: multiset<Change>, c: Change)
    requires Summarises(cs, changes) && c in All(cs)
    ensures c in changes
  {
    if c in cs.unversioned {
      assert multiset(cs.unversioned)[c] > 0;
    }
  }

  // ---- What may be said ----

  /** The changes can be put in order: all have a version, or there is only one. */
  ghost predicate Ordered(changes: multiset<Change>) {
    |changes| == 1 || forall c :: c in changes ==> Versioned(c)
  }

  /** Every other change has a version and is strictly smaller; a change without a version stands alone. */
  ghost predicate Latest(changes: multiset<Change>, w: Change) {
    && w in changes && (!Versioned(w) ==> |changes| == 1)
    && (forall c :: c in changes && c != w ==> Versioned(c) && Versioned(w) && After(w, c))
  }

  lemma Cardinality(cs: Candidates, changes: multiset<Change>)
    requires Summarises(cs, changes)
    ensures (All(cs) == [] <==> changes == multiset{})
    ensures changes != multiset{} ==> (Ambiguous(cs) <==> !Ordered(changes))
  {
    var plain := multiset(cs.unversioned);
    assert plain <= changes;
    assert changes == plain + (changes - plain);
    assert |plain| == |cs.unversioned|;
    if cs.versioned.Some? {
      var top := cs.versioned.value;
      assert top in changes - plain;
      if cs.unversioned != [] {
        var u := cs.unversioned[0];
        assert plain[u] > 0 && u in changes && !Versioned(u);
        assert |changes - plain| >= 1 && |plain| >= 1;
      } else {
        assert plain == multiset{};
      }
    } else {
      assert changes - plain == multiset{};
      if cs.unversioned != [] {
        assert plain[cs.unversioned[0]] > 0;
      }
    }
  }

  function Winner(cs: Candidates): Change
    requires All(cs) != []
  {
    if cs.versioned.Some? then cs.versioned.value else cs.unversioned[0]
  }

  lemma WinnerIsLatest(cs: Candidates, changes: multiset<Change>)
    requires Summarises(cs, changes) && All(cs) != [] && !Ambiguous(cs) && DistinctIds(changes)
    ensures Latest(changes, Winner(cs)) && forall c :: c in changes && c != Winner(cs) ==> Outranks(Winner(cs), c)
  {
    var w := Winner(cs);
    AllMembers(cs, changes, w);
    if cs.versioned.Some? {
      assert cs.unversioned == [];
      forall c | c in changes && c != w ensures Versioned(c) && Versioned(w) && After(w, c) {
        assert multiset(cs.unversioned)[c] == 0;
        if !After(w, c) {
          NotAfterTies(c, w);
        }
      }
      forall c | c in changes && c != w ensures Outranks(w, c) {
        AfterOutranks(w, c);
      }
    } else {
      assert cs.unversioned == [w];
      assert changes == multiset(cs.unversioned);
    }
  }

  lemma LatestUnique(changes: multiset<Change>, v: Change, w: Change)
    requires Latest(changes, v) && Latest(changes, w)
    ensures v == w
  {
    AfterTotal(v, w);
  }

  /** What the entry may report, from all its changes and all legacy rows that apply to it. */
  ghost predicate Answers(r: Option<Entry>, key: Key, changes: multiset<Change>, legacy: multiset<Change>,
                          complete: bool, truncated: bool)
  {
    if r.None? then changes == multiset{} && legacy == multiset{} && complete
    else
      var e := r.value;
      && e.key == key
      && (changes == multiset{} && legacy == multiset{} ==> !complete && e.status == Partial)
      && (changes == multiset{} && legacy != multiset{} ==> e.status == Unknown)
      && (changes != multiset{} && truncated ==> e.status == Partial)
      && (changes != multiset{} && !truncated ==>
            && (e.status == AmbiguousOrder <==> !Ordered(changes))
            && (e.status == Known <==> exists w :: Latest(changes, w) && forall l :: l in legacy ==> !NotOlder(l, w)))
      && (changes != multiset{} && !truncated && Ordered(changes) ==> e.status == Known || e.status == Unknown)
      && (e.change.Some? <==> changes != multiset{} && Ordered(changes))
      && (e.change.Some? ==> Latest(changes, e.change.value))
      && (if changes != multiset{} && (truncated || !Ordered(changes)) then ContenderIds(e.candidateIds, changes)
          else e.candidateIds == [])
      && LegacyIds(e, changes, legacy, truncated)
  }

  /** In order of time: every unversioned change, and the latest versioned one. */
  ghost predicate ContenderIds(ids: seq<string>, changes: multiset<Change>) {
    exists cs :: Summarises(cs, changes) && ids == Ids(Sort(Earlier, All(cs)))
  }

  /** Every legacy row when no change is known, else those that are not older. */
  ghost predicate LegacyIds(e: Entry, changes: multiset<Change>, legacy: multiset<Change>, truncated: bool) {
    if changes == multiset{} then exists all :: multiset(all) == legacy && e.legacyIds == Ids(all)
    else if truncated || !Ordered(changes) then e.legacyIds == []
    else e.change.Some? && exists all :: multiset(all) == legacy && e.legacyIds == Ids(Newer(all, e.change.value))
  }

  function Newer(legacy: seq<Change>, known: Change): seq<Change> {
    if legacy == [] then []
    else
      var last := legacy[|legacy| - 1];
      Newer(legacy[..|legacy| - 1], known) + if NotOlder(last, known) then [last] else []
  }

  lemma {:induction false} NewerHolds(legacy: seq<Change>, known: Change)
    ensures Newer(legacy, known) == [] <==> forall l :: l in legacy ==> !NotOlder(l, known)
  {
    if legacy != [] {
      var front, last := legacy[..|legacy| - 1], legacy[|legacy| - 1];
      NewerHolds(front, known);
      assert legacy == front + [last];
      assert last in legacy;
      forall l | l in front ensures l in legacy {
      }
    }
  }

  /** resolveEntry. No candidates are passed for an entry without changes. */
  function ResolveEntry(key: Key, cs: Candidates, legacy: seq<Change>, complete: bool, truncated: bool): Option<Entry> {
    if All(cs) == [] then
      if legacy != [] then Some(Entry(key, Unknown, None, [], Ids(legacy)))
      else if complete then None else Some(Entry(key, Partial, None, [], []))
    else if truncated then
      Some(Entry(key, Partial, if Ambiguous(cs) then None else Some(Winner(cs)), Ids(Sort(Earlier, All(cs))), []))
    else if Ambiguous(cs) then Some(Entry(key, AmbiguousOrder, None, Ids(Sort(Earlier, All(cs))), []))
    else
      var newer := Newer(legacy, Winner(cs));
      Some(Entry(key, if newer != [] then Unknown else Known, Some(Winner(cs)), [], Ids(newer)))
  }

  /** The few candidates that are kept say what all the changes say. */
  lemma ResolveAnswers(key: Key, cs: Candidates, changes: multiset<Change>, legacy: seq<Change>, complete: bool,
        truncated: bool)
    requires Summarises(cs, changes) && DistinctIds(changes)
    ensures Answers(ResolveEntry(key, cs, legacy, complete, truncated), key, changes, multiset(legacy), complete,
            truncated)
  {
    Cardinality(cs, changes);
    if All(cs) != [] && !Ambiguous(cs) {
      ResolveOrdered(key, cs, changes, legacy, complete, truncated);
    } else if All(cs) != [] {
      NotOrderedNotLatest(changes);
    } else {
      assert legacy != [] ==> legacy[0] in multiset(legacy);
      var all := legacy;
      assert multiset(all) == multiset(legacy) && Ids(all) == if legacy == [] then [] else Ids(legacy);
    }
  }

  lemma NotOrderedNotLatest(changes: multiset<Change>)
    requires !Ordered(changes)
    ensures forall w :: !Latest(changes, w)
  {
  }

  lemma ResolveOrdered(key: Key, cs: Candidates, changes: multiset<Change>, legacy: seq<Change>, complete: bool,
        truncated: bool)
    requires Summarises(cs, changes) && DistinctIds(changes) && All(cs) != [] && !Ambiguous(cs)
    requires changes != multiset{} && Ordered(changes)
    ensures Answers(ResolveEntry(key, cs, legacy, complete, truncated), key, changes, multiset(legacy), complete,
            truncated)
  {
    var w := Winner(cs);
    WinnerIsLatest(cs, changes);
    NewerHolds(legacy, w);
    forall l ensures l in legacy <==> l in multiset(legacy) {
    }
    forall v | Latest(changes, v) ensures v == w {
      LatestUnique(changes, v, w);
    }
  }

  // ---- The answer is determined ----

  /** Equal up to the order inside the list of legacy ids. */
  ghost predicate SameEntry(a: Entry, b: Entry) {
    a.(legacyIds := []) == b.(legacyIds := []) && multiset(a.legacyIds) == multiset(b.legacyIds)
  }

  lemma {:induction false} IdsConcat(a: seq<Change>, b: seq<Change>)
    ensures Ids(a + b) == Ids(a) + Ids(b)
  {
    if b == [] {
      assert a + b == a;
    } else {
      IdsConcat(a, b[..|b| - 1]);
      assert (a + b)[..|a + b| - 1] == a + b[..|b| - 1];
    }
  }

  lemma IdsAround(x: seq<Change>, c: Change, y: seq<Change>)
    ensures multiset(Ids(x + [c] + y)) == multiset(Ids(x + y)) + multiset{c.eventId}
  {
    IdsConcat(x + [c], y);
    IdsConcat(x, [c]);
    IdsConcat(x, y);
    assert [c][..0] == [];
    assert Ids([c]) == [c.eventId];
  }

  lemma WithoutOne(front: seq<Change>, last: Change, x: seq<Change>, y: seq<Change>)
    requires multiset(front + [last]) == multiset(x + [last] + y)
    ensures multiset(front) == multiset(x + y)
  {
    assert multiset(front + [last]) == multiset(front) + multiset{last};
    assert multiset(x + [last] + y) == multiset(x) + multiset{last} + multiset(y);
    assert multiset(x + y) == multiset(x) + multiset(y);
    assert multiset(front) == multiset(front + [last]) - multiset{last};
  }

  lemma {:induction false} IdsContents(a: seq<Change>, b: seq<Change>)
    requires multiset(a) == multiset(b)
    ensures multiset(Ids(a)) == multiset(Ids(b))
  {
    assert |a| == |multiset(a)| == |multiset(b)| == |b|;
    if a != [] {
      var front, last := a[..|a| - 1], a[|a| - 1];
      assert a == front + [last];
      assert last in multiset(b);
      var i :| 0 <= i < |b| && b[i] == last;
      var x, y := b[..i], b[i + 1..];
      assert b == x + [last] + y;
      WithoutOne(front, last, x, y);
      IdsContents(front, x + y);
      IdsAround(x, last, y);
    }
  }

  lemma {:induction false} NewerContents(legacy: seq<Change>, known: Change, l: Change)
    ensures multiset(Newer(legacy, known))[l] == if NotOlder(l, known) then multiset(legacy)[l] else 0
  {
    if legacy != [] {
      var front, last := legacy[..|legacy| - 1], legacy[|legacy| - 1];
      NewerContents(front, known, l);
      assert legacy == front + [last];
    }
  }

  lemma NewerSame(a: seq<Change>, b: seq<Change>, known: Change)
    requires multiset(a) == multiset(b)
    ensures multiset(Ids(Newer(a, known))) == multiset(Ids(Newer(b, known)))
  {
    forall l ensures multiset(Newer(a, known))[l] == multiset(Newer(b, known))[l] {
      NewerContents(a, known, l);
      NewerContents(b, known, l);
    }
    IdsContents(Newer(a, known), Newer(b, known));
  }

  lemma ContendersDetermined(a: seq<string>, b: seq<string>, changes: multiset<Change>)
    requires ContenderIds(a, changes) && ContenderIds(b, changes) && DistinctIds(changes)
    ensures a == b
  {
    var cs :| Summarises(cs, changes) && a == Ids(Sort(Earlier, All(cs)));
    var ds :| Summarises(ds, changes) && b == Ids(Sort(Earlier, All(ds)));
    SummaryUnique(cs, ds, changes);
    assert multiset(All(cs)) == multiset(All(ds));
    EarlierOrder();
    ContendersApart(cs, changes);
    SortOfSameContents(Earlier, All(cs), All(ds));
  }

  lemma ContendersApart(cs: Candidates, changes: multiset<Change>)
    requires Summarises(cs, changes) && DistinctIds(changes)
    ensures NoTies(Earlier, All(cs))
  {
    StringOrder();
    forall x, y | x in All(cs) && y in All(cs) && Earlier(x, y) && Earlier(y, x) ensures x == y {
      AllMembers(cs, changes, x);
      AllMembers(cs, changes, y);
    }
  }

  lemma LegacyDetermined(e: Entry, f: Entry, changes: multiset<Change>, legacy: multiset<Change>, truncated: bool)
    requires LegacyIds(e, changes, legacy, truncated) && LegacyIds(f, changes, legacy, truncated)
             && e.change == f.change
    ensures multiset(e.legacyIds) == multiset(f.legacyIds)
  {
    if changes == multiset{} {
      var a :| multiset(a) == legacy && e.legacyIds == Ids(a);
      var b :| multiset(b) == legacy && f.legacyIds == Ids(b);
      IdsContents(a, b);
    } else if !truncated && Ordered(changes) {
      var a :| multiset(a) == legacy && e.legacyIds == Ids(Newer(a, e.change.value));
      var b :| multiset(b) == legacy && f.legacyIds == Ids(Newer(b, e.change.value));
      NewerSame(a, b, e.change.value);
    }
  }

  /** One set of changes and legacy rows has one answer. */
  lemma AnswerDetermined(r: Option<Entry>, q: Option<Entry>, key: Key, changes: multiset<Change>,
        legacy: multiset<Change>,
                         complete: bool, truncated: bool)
    requires Answers(r, key, changes, legacy, complete, truncated)
             && Answers(q, key, changes, legacy, complete, truncated)
    requires DistinctIds(changes)
    ensures r.Some? == q.Some? && (r.Some? ==> SameEntry(r.value, q.value))
  {
    if r.Some? && q.Some? {
      var e, f := r.value, q.value;
      if e.change.Some? {
        LatestUnique(changes, e.change.value, f.change.value);
      }
      LegacyDetermined(e, f, changes, legacy, truncated);
      if changes != multiset{} && (truncated || !Ordered(changes)) {
        ContendersDetermined(e.candidateIds, f.candidateIds, changes);
      }
    }
  }
}
