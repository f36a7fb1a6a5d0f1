/**
 Read manifests: the targets of one read are grouped in order into JSON arrays, and the
 event carries the digest of those arrays and their number. A target is its JSON encoding.
 */
module ManifestParts {
  import opened Common
  import opened Bytes
  import opened Transport

  const MAX_ENTRIES := 256

  const OPEN: byte := 0x5B
  const CLOSE: byte := 0x5D
  const COMMA: byte := 0x2C
  const OBJECT: byte := 0x7B

  // ---- Arrays ----

  /** Nonempty array contents, up to and including the closing bracket. */
  function Elements(ts: seq<Text>): Text
    requires ts != []
  {
    if |ts| == 1 then ts[0] + [CLOSE] else ts[0] + ([COMMA] + Elements(ts[1..]))
  }

  function Render(ts: seq<Text>): Text {
    [OPEN] + if ts == [] then [CLOSE] else Elements(ts)
  }

  function Rendered(groups: seq<seq<Text>>): seq<Text> {
    if groups == [] then [] else Rendered(groups[..|groups| - 1]) + [Render(groups[|groups| - 1])]
  }

  /** The builder's running estimate: both brackets, and a comma after every target. */
  function Estimate(ts: seq<Text>): nat {
    if ts == [] then 2 else Estimate(ts[..|ts| - 1]) + |ts[|ts| - 1]| + 1
  }

  lemma {:induction false} EstimateFromFront(ts: seq<Text>)
    requires ts != []
    ensures Estimate(ts) == |ts[0]| + 1 + Estimate(ts[1..])
  {
    if |ts| > 1 {
      var front := ts[..|ts| - 1];
      EstimateFromFront(front);
      assert front[1..] == ts[1..][..|ts| - 2];
      assert ts[1..][|ts| - 2] == ts[|ts| - 1];
    } else {
      assert ts[..0] == [] && ts[1..] == [];
    }
  }

  /** The estimate counts one comma too many, except for the empty array. */
  lemma {:induction false} RenderedSize(ts: seq<Text>)
    ensures |Render(ts)| == if ts == [] then 2 else Estimate(ts) - 1
  {
    if ts != [] {
      EstimateFromFront(ts);
      if |ts| > 1 {
        RenderedSize(ts[1..]);
      } else {
        assert ts[1..] == [];
      }
    }
  }

  // ---- Grouping ----

  predicate Fits(group: seq<Text>, t: Text) {
    |group| < MAX_ENTRIES && Estimate(group) + |t| + 1 <= PART_MAX_BYTES
  }

  /** A target that cannot fit in one array is refused. */
  predicate Accepted(t: Text) {
    |t| + 2 <= PART_MAX_BYTES
  }

  function Place(all: seq<seq<Text>>, t: Text): seq<seq<Text>>
    requires all != []
  {
    var last := all[|all| - 1];
    if Fits(last, t) then all[..|all| - 1] + [last + [t]] else all + [[t]]
  }

  /** Every finished array, and the unfinished one. */
  function Arrange(targets: seq<Text>): (all: seq<seq<Text>>)
    ensures all != []
  {
    if targets == [] then [[]] else Place(Arrange(targets[..|targets| - 1]), targets[|targets| - 1])
  }

  function Groups(targets: seq<Text>): seq<seq<Text>> {
    if targets == [] then [] else Arrange(targets)
  }

  function Flatten(groups: seq<seq<Text>>): seq<Text> {
    if groups == [] then [] else Flatten(groups[..|groups| - 1]) + groups[|groups| - 1]
  }

  /** Arrays within the limits, each begun only because its first target did not fit before it. */
  ghost predicate Packing(all: seq<seq<Text>>) {
    all != [] &&
    var last := all[|all| - 1];
    && |last| <= MAX_ENTRIES && (forall t :: t in last ==> Accepted(t))
    && (Estimate(last) <= PART_MAX_BYTES || (|all| > 1 && |last| == 1))
    && (|all| > 1 ==> last != [] && !Fits(all[|all| - 2], last[0]) && Packing(all[..|all| - 1]))
  }

  lemma PlaceKeepsPacking(all: seq<seq<Text>>, t: Text)
    requires Packing(all) && Accepted(t)
    ensures Packing(Place(all, t)) && Flatten(Place(all, t)) == Flatten(all) + [t]
  {
    var last := all[|all| - 1];
    var placed := Place(all, t);
    assert placed[..|placed| - 1] == if Fits(last, t) then all[..|all| - 1] else all;
    if Fits(last, t) {
      assert (last + [t])[..|last|] == last;
      assert Flatten(all[..|all| - 1]) + (last + [t]) == Flatten(all) + [t];
      if last != [] {
        assert (last + [t])[0] == last[0];
      }
    } else {
      assert [t][..0] == [];
      assert Estimate([t]) == |t| + 3;
    }
  }

  /** What the packer produces: the targets in order, in arrays within the limits. */
  lemma {:induction false} ArrangeIsPacking(targets: seq<Text>)
    requires forall t :: t in targets ==> Accepted(t)
    ensures Packing(Arrange(targets)) && Flatten(Arrange(targets)) == targets
  {
    if targets != [] {
      var front, last := targets[..|targets| - 1], targets[|targets| - 1];
      ArrangeIsPacking(front);
      var all := Arrange(front);
      PlaceKeepsPacking(all, last);
      assert targets == front + [last] && Arrange(targets) == Place(all, last);
    } else {
      assert Arrange(targets)[..0] == [];
    }
  }

  /** The packing without its last target, when the last array keeps others. */
  lemma ShorterPacking(all: seq<seq<Text>>, shorter: seq<seq<Text>>)
    requires Packing(all) && all[|all| - 1] != [] && (|all| == 1 || |all[|all| - 1]| > 1)
    requires var last := all[|all| - 1]; shorter == all[..|all| - 1] + [last[..|last| - 1]]
    ensures var last := all[|all| - 1];
            && Packing(shorter) && Place(shorter, last[|last| - 1]) == all
            && Flatten(all) == Flatten(shorter) + [last[|last| - 1]]
  {
    var last := all[|all| - 1];
    var rest, t := last[..|last| - 1], last[|last| - 1];
    assert rest + [t] == last && shorter[..|shorter| - 1] == all[..|all| - 1];
    assert Flatten(all[..|all| - 1]) + last == Flatten(all[..|all| - 1]) + rest + [t];
    assert Estimate(last) <= PART_MAX_BYTES;
    if |all| > 1 {
      assert rest[0] == last[0];
    }
  }

  /** The packing is unique: a reader that groups the same targets by the same rule finds the same arrays. */
  lemma {:induction false} PackingIsArrange(all: seq<seq<Text>>)
    requires Packing(all)
    ensures all == Arrange(Flatten(all))
    decreases |Flatten(all)|, 1
  {
    var last := all[|all| - 1];
    if last == [] {
      assert all == [[]] && all[..0] == [];
    } else if |all| == 1 || |last| > 1 {
      var shorter := all[..|all| - 1] + [last[..|last| - 1]];
      ShorterPacking(all, shorter);
      ArrangeLast(shorter, last[|last| - 1], all);
    } else {
      var shorter := all[..|all| - 1];
      assert last == [last[0]];
      assert Place(shorter, last[0]) == all;
      ArrangeLast(shorter, last[0], all);
    }
  }

  lemma {:induction false} ArrangeLast(shorter: seq<seq<Text>>, t: Text, all: seq<seq<Text>>)
    requires Packing(shorter) && Place(shorter, t) == all && Flatten(all) == Flatten(shorter) + [t]
    ensures all == Arrange(Flatten(all))
    decreases |Flatten(all)|, 0
  {
    PackingIsArrange(shorter);
    assert Flatten(all)[..|Flatten(all)| - 1] == Flatten(shorter);
  }

  lemma {:induction false} PackingFront(all: seq<seq<Text>>, n: nat)
    requires Packing(all) && 0 < n <= |all|
    ensures Packing(all[..n])
    decreases |all|
  {
    if n < |all| {
      PackingFront(all[..|all| - 1], n);
      assert all[..|all| - 1][..n] == all[..n];
    } else {
      assert all[..n] == all;
    }
  }

  lemma {:induction false} FlattenStarts(all: seq<seq<Text>>)
    requires |all| > 0 && all[0] != []
    ensures Flatten(all) != [] && Flatten(all)[0] == all[0][0]
  {
    if |all| > 1 {
      FlattenStarts(all[..|all| - 1]);
    } else {
      assert all[..0] == [];
    }
  }

  lemma {:induction false} FlattenStartsSecond(all: seq<seq<Text>>)
    requires |all| > 1 && all[0] == [] && all[1] != []
    ensures Flatten(all) != [] && Flatten(all)[0] == all[1][0]
  {
    if |all| > 2 {
      FlattenStartsSecond(all[..|all| - 1]);
    } else {
      assert all[..1][..0] == [];
      assert Flatten(all[..1]) == [];
    }
  }

  /** Each array keeps to both limits, and only the leading one can be empty. */
  lemma PartsWithinLimits(targets: seq<Text>, i: nat)
    requires (forall t :: t in targets ==> Accepted(t)) && i < |Groups(targets)|
    ensures |Groups(targets)[i]| <= 256 && |Render(Groups(targets)[i])| <= 65536
    ensures i > 0 ==> Groups(targets)[i] != []
  {
    var all := Arrange(targets);
    ArrangeIsPacking(targets);
    PackingFront(all, i + 1);
    assert all[..i + 1][i] == all[i];
    LastWithinLimits(all[..i + 1]);
  }

  /** An array ends because it is full, or because the next target with its comma does not surely fit. */
  lemma BegunOnlyWhenFull(targets: seq<Text>, i: nat)
    requires (forall t :: t in targets ==> Accepted(t)) && i + 1 < |Groups(targets)|
    ensures var group, next := Groups(targets)[i], Groups(targets)[i + 1];
            && next != []
            && (|group| == 256 || |Render(group)| + |next[0]| + (if group == [] then 1 else 2) > 65536)
  {
    var all := Arrange(targets);
    ArrangeIsPacking(targets);
    PackingFront(all, i + 2);
    PackingFront(all, i + 1);
    assert all[..i + 2][..i + 1] == all[..i + 1];
    RenderedSize(all[i]);
  }

  /** The elements with commas between them. */
  ghost function Separated(ts: seq<Text>): Text {
    if ts == [] then [] else if |ts| == 1 then ts[0] else ts[0] + ([44] + Separated(ts[1..]))
  }

  /** An array is an opening bracket, the elements with commas between them, and a closing bracket. */
  lemma {:induction false} RenderIsArray(ts: seq<Text>)
    ensures Render(ts) == [91] + (Separated(ts) + [93])
  {
    if |ts| > 1 {
      RenderIsArray(ts[1..]);
      assert Render(ts[1..])[1..] == Elements(ts[1..]);
      assert ([91] + (Separated(ts[1..]) + [93]))[1..] == Separated(ts[1..]) + [93];
      assert Separated(ts) + [93] == ts[0] + ([44] + (Separated(ts[1..]) + [93]));
    }
  }

  lemma LastWithinLimits(all: seq<seq<Text>>)
    requires Packing(all)
    ensures var last := all[|all| - 1];
            |last| <= MAX_ENTRIES && |Render(last)| <= PART_MAX_BYTES && (|all| > 1 ==> last != [])
  {
    var last := all[|all| - 1];
    RenderedSize(last);
    if |last| == 1 {
      assert Estimate(last) == Estimate(last[..0]) + |last[0]| + 1 && Accepted(last[0]);
    }
  }

  lemma FlattenOne(all: seq<seq<Text>>)
    ensures |all| == 1 ==> Flatten(all) == all[0]
  {
    if |all| == 1 {
      assert all[..0] == [];
    }
  }

  /** An empty array leads exactly when the first target takes a whole part to itself. */
  lemma LeadingEmptyPart(targets: seq<Text>)
    requires (forall t :: t in targets ==> Accepted(t)) && targets != []
    ensures Groups(targets)[0] == [] <==> |targets[0]| == PART_MAX_BYTES - 2
  {
    var all := Arrange(targets);
    ArrangeIsPacking(targets);
    PackingFront(all, 1);
    assert all[..1][0] == all[0];
    if all[0] == [] {
      FlattenOne(all);
      PackingFront(all, 2);
      var two := all[..2];
      assert two[1] == all[1] && two[0] == [] && two[|two| - 2] == [];
      assert !Fits([], two[1][0]) && two[1][0] in two[1];
      FlattenStartsSecond(all);
    } else {
      FlattenStarts(all);
      EstimateFromFront(all[0]);
      EstimateAtLeastTwo(all[0][1..]);
    }
  }

  lemma {:induction false} EstimateAtLeastTwo(ts: seq<Text>)
    ensures Estimate(ts) >= 2
  {
    if ts != [] {
      EstimateAtLeastTwo(ts[..|ts| - 1]);
    }
  }

  // ---- The arrays determine the targets ----

  /** What JSON objects are to each other: none is a proper front of another. */
  ghost predicate Objects(ts: set<Text>) {
    && (forall t :: t in ts ==> t != [] && t[0] == OBJECT)
    && (forall t, u :: t in ts && u in ts && t <= u ==> t == u)
  }

  lemma OneIsFront(t: Text, u: Text, x: Text, y: Text)
    requires t + x == u + y
    ensures t <= u || u <= t
  {
    if |t| <= |u| {
      assert t == (t + x)[..|t|] == u[..|t|];
    } else {
      assert u == (u + y)[..|u|] == t[..|u|];
    }
  }

  lemma SameFirst(ts: set<Text>, t: Text, u: Text, x: Text, y: Text)
    requires Objects(ts) && t in ts && u in ts && t + x == u + y
    ensures t == u && x == y
  {
    OneIsFront(t, u, x, y);
    SplitEqual(t, x, u, y);
  }

  lemma JoinedAssoc(t: Text, b: byte, rest: Text, x: Text)
    ensures (t + ([b] + rest)) + x == t + ([b] + (rest + x))
  {
  }

  lemma HeadEqual(b: byte, x: Text, c: byte, y: Text)
    requires [b] + x == [c] + y
    ensures b == c && x == y
  {
    SplitEqual([b], x, [c], y);
    assert [b][0] == [c][0];
  }

  function Rest(ts: seq<Text>): Text
    requires ts != []
  {
    if |ts| == 1 then [] else Elements(ts[1..])
  }

  function Separator(ts: seq<Text>): byte {
    if |ts| == 1 then CLOSE else COMMA
  }

  lemma ElementsSplit(ts: seq<Text>, x: Text)
    requires ts != []
    ensures Elements(ts) + x == ts[0] + ([Separator(ts)] + (Rest(ts) + x))
  {
    JoinedAssoc(ts[0], Separator(ts), Rest(ts), x);
    assert [CLOSE] + [] == [CLOSE];
  }

  lemma {:induction false} ElementsDetermine(ts: seq<Text>, us: seq<Text>, x: Text, y: Text, objects: set<Text>)
    requires ts != [] && us != [] && Objects(objects)
    requires (forall t :: t in ts ==> t in objects) && (forall u :: u in us ==> u in objects)
    requires Elements(ts) + x == Elements(us) + y
    ensures ts == us && x == y
  {
    ElementsSplit(ts, x);
    ElementsSplit(us, y);
    SameFirst(objects, ts[0], us[0], [Separator(ts)] + (Rest(ts) + x), [Separator(us)] + (Rest(us) + y));
    HeadEqual(Separator(ts), Rest(ts) + x, Separator(us), Rest(us) + y);
    if |ts| > 1 {
      ElementsDetermine(ts[1..], us[1..], x, y, objects);
      assert ts == [ts[0]] + ts[1..] && us == [us[0]] + us[1..];
    } else {
      assert [] + x == x && [] + y == y;
    }
  }

  lemma ElementsStart(ts: seq<Text>, x: Text, objects: set<Text>)
    requires ts != [] && Objects(objects) && ts[0] in objects
    ensures Elements(ts) + x != [] && (Elements(ts) + x)[0] == OBJECT
  {
  }

  lemma RenderDetermines(ts: seq<Text>, us: seq<Text>, x: Text, y: Text, objects: set<Text>)
    requires Objects(objects)
    requires (forall t :: t in ts ==> t in objects) && (forall u :: u in us ==> u in objects)
    requires Render(ts) + x == Render(us) + y
    ensures ts == us && x == y
  {
    var p, q := if ts == [] then [CLOSE] else Elements(ts), if us == [] then [CLOSE] else Elements(us);
    assert Render(ts) + x == [OPEN] + (p + x) && Render(us) + y == [OPEN] + (q + y);
    HeadEqual(OPEN, p + x, OPEN, q + y);
    if ts != [] {
      ElementsStart(ts, x, objects);
    }
    if us != [] {
      ElementsStart(us, y, objects);
    }
    if ts == [] && us == [] {
      SplitEqual(p, x, q, y);
    } else if ts != [] && us != [] {
      ElementsDetermine(ts, us, x, y, objects);
    }
  }

  /** The bytes that are hashed: the arrays one after the other. */
  function Manifest(groups: seq<seq<Text>>): Text {
    if groups == [] then [] else Render(groups[0]) + Manifest(groups[1..])
  }

  lemma {:induction false} ManifestDeterminesGroups(gs: seq<seq<Text>>, hs: seq<seq<Text>>, objects: set<Text>)
    requires Objects(objects)
    requires forall g, t :: g in gs && t in g ==> t in objects
    requires forall h, t :: h in hs && t in h ==> t in objects
    requires Manifest(gs) == Manifest(hs)
    ensures gs == hs
  {
    if gs != [] && hs != [] {
      RenderDetermines(gs[0], hs[0], Manifest(gs[1..]), Manifest(hs[1..]), objects);
      ManifestDeterminesGroups(gs[1..], hs[1..], objects);
      assert gs == [gs[0]] + gs[1..] && hs == [hs[0]] + hs[1..];
    }
  }

  lemma {:induction false} FlattenHolds(groups: seq<seq<Text>>, g: seq<Text>, t: Text)
    requires g in groups && t in g
    ensures t in Flatten(groups)
  {
    if g != groups[|groups| - 1] {
      FlattenHolds(groups[..|groups| - 1], g, t);
    }
  }

  /** Read evidence pins the read: equal digests come from equal target lists. */
  lemma DigestPinsTargets(sha: Hash, ts: seq<Text>, us: seq<Text>)
    requires Objects((set t | t in ts) + (set u | u in us))
    requires (forall t :: t in ts ==> Accepted(t)) && (forall u :: u in us ==> Accepted(u))
    requires CollisionFree(sha, {Manifest(Groups(ts)), Manifest(Groups(us))})
    ensures sha(Manifest(Groups(ts))) == sha(Manifest(Groups(us))) <==> ts == us
  {
    if sha(Manifest(Groups(ts))) == sha(Manifest(Groups(us))) {
      var objects := (set t | t in ts) + (set u | u in us);
      ArrangeIsPacking(ts);
      ArrangeIsPacking(us);
      assert Flatten(Groups(ts)) == ts && Flatten(Groups(us)) == us;
      forall g, t | g in Groups(ts) && t in g ensures t in objects {
        FlattenHolds(Groups(ts), g, t);
      }
      forall g, t | g in Groups(us) && t in g ensures t in objects {
        FlattenHolds(Groups(us), g, t);
      }
      ManifestDeterminesGroups(Groups(ts), Groups(us), objects);
    }
  }

  // ---- The builder ----

  lemma {:induction false} RenderedConcat(groups: seq<seq<Text>>, last: seq<Text>)
    ensures Manifest(groups + [last]) == Manifest(groups) + Render(last)
  {
    if groups == [] {
      assert groups + [last] == [last] && [last][1..] == [];
    } else {
      RenderedConcat(groups[1..], last);
      assert (groups + [last])[1..] == groups[1..] + [last];
    }
  }

  lemma ArrangeNext(added: seq<Text>, groups: seq<seq<Text>>, current: seq<Text>, target: Text)
    requires Arrange(added) == groups + [current]
    ensures Arrange(added + [target]) ==
            if Fits(current, target) then groups + [current + [target]] else groups + [current] + [[] + [target]]
  {
    var all := groups + [current];
    assert all[|all| - 1] == current && all[..|all| - 1] == groups;
    assert (added + [target])[..|added|] == added;
    assert [] + [target] == [target];
  }

  lemma EstimateNext(current: seq<Text>, target: Text)
    ensures Estimate(current + [target]) == Estimate(current) + |target| + 1
  {
    assert (current + [target])[..|current|] == current;
  }

  /** Groups targets in order and passes each finished array on. */
  class ManifestBuilder {
    var current: seq<Text>
    var currentBytes: nat
    var emitted: seq<Text>
    ghost var groups: seq<seq<Text>>
    ghost var added: seq<Text>

    constructor ()
      ensures Valid() && added == [] && emitted == []
    {
      current, currentBytes, emitted := [], 2, [];
      groups, added := [], [];
    }

    ghost predicate Valid()
      reads this
    {
      && currentBytes == Estimate(current) && emitted == Rendered(groups)
      && Arrange(added) == groups + [current]
    }

    method Add(target: Text) returns (ok: bool)
      requires Valid()
      modifies this
      ensures Valid() && ok == Accepted(target)
      ensures added == if ok then old(added) + [target] else old(added)
      ensures old(emitted) <= emitted
    {
      var targetBytes := |target| + 1;
      if |target| + 2 > PART_MAX_BYTES {
        return false;
      }
      ArrangeNext(added, groups, current, target);
      if |current| >= MAX_ENTRIES || currentBytes + targetBytes > PART_MAX_BYTES {
        Flush();
      }
      EstimateNext(current, target);
      current := current + [target];
      currentBytes := currentBytes + targetBytes;
      added := added + [target];
      ok := true;
    }

    method Flush()
      requires currentBytes == Estimate(current) && emitted == Rendered(groups)
      modifies this
      ensures current == [] && currentBytes == 2 && added == old(added)
      ensures groups == old(groups) + [old(current)] && emitted == Rendered(groups) && old(emitted) <= emitted
    {
      var payload := Render(current);
      ghost var finished := groups + [current];
      assert finished[..|groups|] == groups;
      groups := finished;
      current := [];
      currentBytes := 2;
      emitted := emitted + [payload];
    }

    method Finish()
      requires Valid()
      modifies this
      ensures emitted == Rendered(Groups(added)) && added == old(added) && old(emitted) <= emitted
    {
      CurrentEmptyAtStart(added, groups, current);
      if |current| == 0 {
        return;
      }
      Flush();
    }
  }

  /** The unfinished array is empty only before the first target. */
  lemma CurrentEmptyAtStart(added: seq<Text>, groups: seq<seq<Text>>, current: seq<Text>)
    requires Arrange(added) == groups + [current]
    ensures current == [] <==> added == []
    ensures added == [] ==> groups == []
  {
    assert (groups + [current])[|groups|] == current;
    if added != [] {
      var placed := Place(Arrange(added[..|added| - 1]), added[|added| - 1]);
      assert placed[|placed| - 1] != [];
    } else {
      assert |groups + [current]| == 1;
    }
  }

  /** readManifestParts: the whole list at once. */
  method ReadManifestParts(targets: seq<Text>) returns (ok: bool, parts: seq<Text>)
    ensures ok <==> forall t :: t in targets ==> Accepted(t)
    ensures ok ==> parts == Rendered(Groups(targets))
  {
    var builder := new ManifestBuilder();
    for i := 0 to |targets|
      invariant builder.Valid() && fresh(builder) && builder.added == targets[..i]
      invariant forall t :: t in targets[..i] ==> Accepted(t)
    {
      var added := builder.Add(targets[i]);
      if !added {
        return false, [];
      }
    }
    assert targets[..|targets|] == targets;
    builder.Finish();
    return true, builder.emitted;
  }

  // ---- The same check on a stream and on a list ----

  datatype Evidence = Evidence(digest: Text, parts: nat)

  /** checkReadManifest as a promise: no evidence goes with no targets, and evidence matches its targets. */
  ghost predicate Matches(sha: Hash, read: Option<Evidence>, targets: seq<Text>) {
    match read
    case None => targets == []
    case Some(e) =>
      || (targets == [] && e == Evidence([], 0))
      || ((forall t :: t in targets ==> Accepted(t))
          && e == Evidence(sha(Manifest(Groups(targets))), |Groups(targets)|))
  }

  lemma {:induction false} RenderedManifest(groups: seq<seq<Text>>)
    ensures Concat(Rendered(groups)) == Manifest(groups) && |Rendered(groups)| == |groups|
  {
    if groups != [] {
      var front, last := groups[..|groups| - 1], groups[|groups| - 1];
      RenderedManifest(front);
      assert front + [last] == groups;
      RenderedConcat(front, last);
      ConcatSnoc(Rendered(front), Render(last));
    }
  }

  lemma {:induction false} ConcatSnoc(parts: seq<Text>, last: Text)
    ensures Concat(parts + [last]) == Concat(parts) + last
  {
    if parts == [] {
      assert parts + [last] == [last] && [last][1..] == [];
    } else {
      ConcatSnoc(parts[1..], last);
      assert (parts + [last])[1..] == parts[1..] + [last];
    }
  }

  method CheckReadManifest(sha: Hash, read: Option<Evidence>, targets: seq<Text>) returns (ok: bool)
    ensures ok == Matches(sha, read, targets)
  {
    if read.None? {
      return |targets| == 0;
    }
    if |targets| == 0 && read.value.digest == [] && read.value.parts == 0 {
      return true;
    }
    var accepted, parts := ReadManifestParts(targets);
    if !accepted {
      return false;
    }
    var hashed, count := [], 0;
    for i := 0 to |parts|
      invariant hashed == Concat(parts[..i]) && count == i
    {
      assert parts[..i + 1] == parts[..i] + [parts[i]];
      ConcatSnoc(parts[..i], parts[i]);
      hashed := hashed + parts[i];
      count := count + 1;
    }
    assert parts[..|parts|] == parts;
    RenderedManifest(Groups(targets));
    return sha(hashed) == read.value.digest && count == read.value.parts;
  }

  /** Part `i` is under key `i`, and nothing else is there. */
  ghost predicate Holds(stored: map<nat, Text>, parts: seq<Text>) {
    && (forall i :: 0 <= i < |parts| ==> i in stored && stored[i] == parts[i])
    && (forall i :: i in stored ==> i < |parts|)
  }

  /** What the stream keeps about the arrays emitted so far. */
  ghost predicate Streamed(keep: bool, emitted: seq<Text>, hashed: Text, parts: nat, stored: map<nat, Text>) {
    hashed == Concat(emitted) && parts == |emitted| && (keep ==> Holds(stored, emitted))
  }

  /** storeManifestPart, for every array that was emitted since. */
  method StoreManifestParts(keep: bool, emitted: seq<Text>, ghost before: seq<Text>,
                            hashed: Text, parts: nat, stored: map<nat, Text>)
      returns (hashed': Text, parts': nat, stored': map<nat, Text>)
    requires before <= emitted && Streamed(keep, before, hashed, parts, stored)
    ensures Streamed(keep, emitted, hashed', parts', stored')
  {
    hashed', parts', stored' := hashed, parts, stored;
    assert emitted[..parts] == before;
    while parts' < |emitted|
      invariant parts' <= |emitted| && Streamed(keep, emitted[..parts'], hashed', parts', stored')
    {
      assert emitted[..parts' + 1] == emitted[..parts'] + [emitted[parts']];
      ConcatSnoc(emitted[..parts'], emitted[parts']);
      hashed' := hashed' + emitted[parts'];
      if keep {
        stored' := stored'[parts' := emitted[parts']];
      }
      parts' := parts' + 1;
    }
    assert emitted[..|emitted|] == emitted;
  }

  /** One target of the stream: it is added, and the arrays that it finished are stored. */
  method DecodeTarget(builder: ManifestBuilder, keep: bool, target: Text,
                      hashed: Text, parts: nat, stored: map<nat, Text>)
      returns (ok: bool, hashed': Text, parts': nat, stored': map<nat, Text>)
    requires builder.Valid() && Streamed(keep, builder.emitted, hashed, parts, stored)
    modifies builder
    ensures builder.Valid() && ok == Accepted(target)
    ensures ok ==> builder.added == old(builder.added) + [target]
    ensures ok ==> Streamed(keep, builder.emitted, hashed', parts', stored')
  {
    hashed', parts', stored' := hashed, parts, stored;
    ghost var before := builder.emitted;
    ok := builder.Add(target);
    if ok {
      hashed', parts', stored' := StoreManifestParts(keep, builder.emitted, before, hashed, parts, stored);
    }
  }

  /** The end of the stream: the last array is finished and stored. */
  method FinishTargets(builder: ManifestBuilder, keep: bool, hashed: Text, parts: nat, stored: map<nat, Text>)
      returns (hashed': Text, parts': nat, stored': map<nat, Text>)
    requires builder.Valid() && Streamed(keep, builder.emitted, hashed, parts, stored)
    modifies builder
    ensures var groups := Groups(old(builder.added));
            hashed' == Manifest(groups) && parts' == |groups| && (keep ==> Holds(stored', Rendered(groups)))
  {
    ghost var before := builder.emitted;
    builder.Finish();
    hashed', parts', stored' := StoreManifestParts(keep, builder.emitted, before, hashed, parts, stored);
    RenderedManifest(Groups(builder.added));
  }

  /** decodeTargets: one target at a time, and each array is stored as it is finished. */
  method DecodeTargets(read: Option<Evidence>, targets: seq<Text>)
      returns (ok: bool, hashed: Text, parts: nat, stored: map<nat, Text>)
    ensures ok <==> (targets != [] ==> read.Some?) && forall t :: t in targets ==> Accepted(t)
    ensures ok ==> hashed == Manifest(Groups(targets)) && parts == |Groups(targets)|
    ensures ok && read.Some? && read.value.parts > 0 ==> Holds(stored, Rendered(Groups(targets)))
  {
    hashed, parts, stored := [], 0, map[];
    var builder := new ManifestBuilder();
    var keep := read.Some? && read.value.parts > 0;
    for i := 0 to |targets|
      invariant builder.Valid() && fresh(builder) && builder.added == targets[..i]
      invariant (forall k :: 0 <= k < i ==> Accepted(targets[k])) && (i > 0 ==> read.Some?)
      invariant Streamed(keep, builder.emitted, hashed, parts, stored)
    {
      if read.None? {
        return false, hashed, parts, stored;
      }
      ok, hashed, parts, stored := DecodeTarget(builder, keep, targets[i], hashed, parts, stored);
      if !ok {
        assert targets[i] in targets;
        return;
      }
      assert targets[..i + 1] == targets[..i] + [targets[i]];
    }
    assert targets[..|targets|] == targets;
    hashed, parts, stored := FinishTargets(builder, keep, hashed, parts, stored);
    ok := true;
  }

  /** The streaming check decides as the check on the whole list does, and keeps the arrays it checked. */
  method StreamTargets(sha: Hash, read: Option<Evidence>, targets: seq<Text>) returns (ok: bool, stored: map<nat, Text>)
    ensures ok == Matches(sha, read, targets)
    ensures ok && read.Some? && read.value.parts > 0 ==> Holds(stored, Rendered(Groups(targets)))
  {
    var hashed, parts;
    ok, hashed, parts, stored := DecodeTargets(read, targets);
    if ok {
      if read.Some? && !(|targets| == 0 && read.value.digest == [] && read.value.parts == 0) {
        ok := sha(hashed) == read.value.digest && parts == read.value.parts;
      }
    }
  }
}
