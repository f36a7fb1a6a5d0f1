/** The Merkle root a notarization signs over the chain heads of one org. */
module Merkle {
  import opened Common
  import opened Bytes
  import opened Sorting

  datatype ChainHead = ChainHead(shard: int, seqNo: int, hash: seq<byte>)

  /** An int16 shard and an int64 sequence. */
  predicate InRange(h: ChainHead) {
    -0x8000 <= h.shard < 0x8000 && -0x8000_0000_0000_0000 <= h.seqNo < 0x8000_0000_0000_0000
  }

  /** The conversion of a signed number to the unsigned type of the same size. */
  function Unsigned(v: int, modulus: nat): nat
    requires 0 <= v + modulus
  {
    if v < 0 then v + modulus else v
  }

  /** Tag 0x00, the shard in 16 bits, the sequence in 64 bits, the hash. */
  function LeafInput(h: ChainHead): seq<byte>
    requires InRange(h)
  {
    [0] + BigEndian(Unsigned(h.shard, 0x1_0000), 2) + BigEndian(Unsigned(h.seqNo, 0x1_0000_0000_0000_0000), 8) + h.hash
  }

  function NodeInput(left: seq<byte>, right: seq<byte>): seq<byte> {
    [1] + left + right
  }

  lemma LeafInputInjective(g: ChainHead, h: ChainHead)
    requires InRange(g) && InRange(h) && LeafInput(g) == LeafInput(h)
    ensures g == h
  {
    var s, t := Unsigned(g.shard, 0x1_0000), Unsigned(h.shard, 0x1_0000);
    var m, n := Unsigned(g.seqNo, 0x1_0000_0000_0000_0000), Unsigned(h.seqNo, 0x1_0000_0000_0000_0000);
    SplitEqual([0] + BigEndian(s, 2) + BigEndian(m, 8), g.hash, [0] + BigEndian(t, 2) + BigEndian(n, 8), h.hash);
    SplitEqual([0] + BigEndian(s, 2), BigEndian(m, 8), [0] + BigEndian(t, 2), BigEndian(n, 8));
    SplitEqual([0], BigEndian(s, 2), [0], BigEndian(t, 2));
    Pow256Of8();
    BigEndianInjective(s, t, 2);
    BigEndianInjective(m, n, 8);
  }

  // ---- Trees of hash inputs ----

  datatype Tree = Leaf(input: seq<byte>) | Node(left: Tree, right: Tree)

  function Digest(sha: Hash, t: Tree): seq<byte> {
    match t
    case Leaf(input) => sha(input)
    case Node(l, r) => sha(NodeInput(Digest(sha, l), Digest(sha, r)))
  }

  /** Every byte string hashed to compute the digest of `t`. */
  function Inputs(sha: Hash, t: Tree): set<seq<byte>> {
    match t
    case Leaf(input) => {input}
    case Node(l, r) => {NodeInput(Digest(sha, l), Digest(sha, r))} + Inputs(sha, l) + Inputs(sha, r)
  }

  predicate LeavesTagged(t: Tree) {
    match t
    case Leaf(input) => |input| > 0 && input[0] == 0
    case Node(l, r) => LeavesTagged(l) && LeavesTagged(r)
  }

  /** The last byte string hashed for the digest of `t`; its tag tells a leaf from a node. */
  function TopInput(sha: Hash, t: Tree): (top: seq<byte>)
    ensures sha(top) == Digest(sha, t) && top in Inputs(sha, t)
    ensures LeavesTagged(t) ==> |top| > 0 && top[0] == if t.Leaf? then 0 else 1
  {
    match t
    case Leaf(input) => input
    case Node(l, r) => NodeInput(Digest(sha, l), Digest(sha, r))
  }

  lemma {:induction false} DigestInjective(sha: Hash, s: Tree, t: Tree)
    requires Sized(sha) && LeavesTagged(s) && LeavesTagged(t)
    requires CollisionFree(sha, Inputs(sha, s) + Inputs(sha, t))
    requires Digest(sha, s) == Digest(sha, t)
    ensures s == t
  {
    var x, y := TopInput(sha, s), TopInput(sha, t);
    assert x == y;
    if s.Node? {
      assert x[1..33] == Digest(sha, s.left) && x[33..] == Digest(sha, s.right);
      assert y[1..33] == Digest(sha, t.left) && y[33..] == Digest(sha, t.right);
      DigestInjective(sha, s.left, t.left);
      DigestInjective(sha, s.right, t.right);
    }
  }

  // ---- Levels: pairs, with the last node doubled on odd levels ----

  function NextLevel(ts: seq<Tree>): (next: seq<Tree>)
    ensures |next| == (|ts| + 1) / 2
  {
    if |ts| == 0 then []
    else if |ts| == 1 then [Node(ts[0], ts[0])]
    else [Node(ts[0], ts[1])] + NextLevel(ts[2..])
  }

  lemma {:induction false} NextLevelAt(ts: seq<Tree>, i: nat)
    requires i < (|ts| + 1) / 2
    ensures NextLevel(ts)[i] == Node(ts[2 * i], ts[Min(2 * i + 1, |ts| - 1)])
  {
    if i > 0 {
      NextLevelAt(ts[2..], i - 1);
    }
  }

  function Build(ts: seq<Tree>): Tree
    requires |ts| > 0
    decreases |ts|
  {
    if |ts| == 1 then ts[0] else Build(NextLevel(ts))
  }

  function Height(n: nat): nat {
    if n <= 1 then 0 else 1 + Height((n + 1) / 2)
  }

  predicate Perfect(t: Tree, depth: nat) {
    match t
    case Leaf(_) => depth == 0
    case Node(l, r) => depth > 0 && Perfect(l, depth - 1) && Perfect(r, depth - 1)
  }

  lemma {:induction false} PerfectUnique(t: Tree, d: nat, e: nat)
    requires Perfect(t, d) && Perfect(t, e)
    ensures d == e
  {
    if t.Node? {
      PerfectUnique(t.left, d - 1, e - 1);
    }
  }

  ghost predicate AllPerfect(ts: seq<Tree>, d: nat) {
    forall i :: 0 <= i < |ts| ==> Perfect(ts[i], d)
  }

  lemma NextLevelPerfect(ts: seq<Tree>, d: nat)
    requires AllPerfect(ts, d)
    ensures AllPerfect(NextLevel(ts), d + 1)
  {
    forall i | 0 <= i < |NextLevel(ts)| ensures Perfect(NextLevel(ts)[i], d + 1) {
      NextLevelAt(ts, i);
    }
  }

  lemma {:induction false} BuildPerfect(ts: seq<Tree>, d: nat)
    requires |ts| > 0 && AllPerfect(ts, d)
    ensures Perfect(Build(ts), d + Height(|ts|))
    decreases |ts|
  {
    if |ts| > 1 {
      NextLevelPerfect(ts, d);
      BuildPerfect(NextLevel(ts), d + 1);
    }
  }

  /** The list position that fills place `i` of the perfect tree over `n` nodes. */
  function Place(n: nat, i: nat): (j: nat)
    requires n > 0
    ensures j < n
  {
    if n == 1 then 0 else Min(2 * Place((n + 1) / 2, i / 2) + i % 2, n - 1)
  }

  lemma {:induction false} PlaceOfPresent(n: nat, i: nat)
    requires i < n
    ensures Place(n, i) == i
  {
    if n > 1 {
      PlaceOfPresent((n + 1) / 2, i / 2);
    }
  }

  ghost predicate IsNext(ts: seq<Tree>, next: seq<Tree>) {
    && |next| == (|ts| + 1) / 2
    && forall i :: 0 <= i < |next| ==> next[i] == Node(ts[2 * i], ts[Min(2 * i + 1, |ts| - 1)])
  }

  lemma NextLevelIsNext(ts: seq<Tree>)
    ensures IsNext(ts, NextLevel(ts))
  {
    forall i | 0 <= i < |NextLevel(ts)| ensures NextLevel(ts)[i] == Node(ts[2 * i], ts[Min(2 * i + 1, |ts| - 1)]) {
      NextLevelAt(ts, i);
    }
  }

  function Child(t: Tree, side: nat): Tree
    requires t.Node?
  {
    if side == 0 then t.left else t.right
  }

  lemma ChildPlace(ts: seq<Tree>, next: seq<Tree>, j: nat, side: nat)
    requires IsNext(ts, next) && j < |next| && side < 2
    ensures next[j].Node? && ts[Min(2 * j + side, |ts| - 1)] == Child(next[j], side)
  {
    assert Min(2 * j, |ts| - 1) == 2 * j;
  }

  lemma SameHeight(a: seq<Tree>, b: seq<Tree>, d: nat)
    requires |a| > 0 && |b| > 0 && AllPerfect(a, d) && AllPerfect(b, d) && Build(a) == Build(b)
    ensures Height(|a|) == Height(|b|)
  {
    BuildPerfect(a, d);
    BuildPerfect(b, d);
    var t, x, y := Build(a), d + Height(|a|), d + Height(|b|);
    assert Perfect(t, x) && Perfect(t, y);
    PerfectUnique(t, x, y);
  }

  lemma PlaceBelow(n: nat, m: nat, k: nat, side: nat)
    requires n > 1 && m == (n + 1) / 2 && side < 2
    ensures Place(n, 2 * k + side) == Min(2 * Place(m, k) + side, n - 1)
  {
    assert (2 * k + side) / 2 == k && (2 * k + side) % 2 == side;
  }

  lemma ChildAt(ts: seq<Tree>, next: seq<Tree>, j: nat, side: nat, p: nat)
    requires IsNext(ts, next) && j < |next| && side < 2 && p == Min(2 * j + side, |ts| - 1)
    ensures next[j].Node? && p < |ts| && ts[p] == Child(next[j], side)
  {
    ChildPlace(ts, next, j, side);
  }

  /** A place is filled by a child of what fills the place above it. */
  lemma PlaceInNext(ts: seq<Tree>, k: nat, side: nat)
    requires |ts| > 1 && side < 2
    ensures |NextLevel(ts)| == (|ts| + 1) / 2
    ensures var t := NextLevel(ts)[Place(|NextLevel(ts)|, k)];
            t.Node? && ts[Place(|ts|, 2 * k + side)] == Child(t, side)
  {
    NextLevelIsNext(ts);
    var next := NextLevel(ts);
    PlaceBelow(|ts|, |next|, k, side);
    ChildAt(ts, next, Place(|next|, k), side, Place(|ts|, 2 * k + side));
  }

  /** Lists that build the same tree fill its places alike. */
  lemma {:induction false} SameTreeSamePlaces(a: seq<Tree>, b: seq<Tree>, d: nat, i: nat)
    requires |a| > 0 && |b| > 0 && AllPerfect(a, d) && AllPerfect(b, d)
    requires Build(a) == Build(b)
    ensures a[Place(|a|, i)] == b[Place(|b|, i)]
    decreases |a|
  {
    SameHeight(a, b, d);
    if |a| > 1 {
      NextLevelPerfect(a, d);
      NextLevelPerfect(b, d);
      SameTreeSamePlaces(NextLevel(a), NextLevel(b), d + 1, i / 2);
      assert i == 2 * (i / 2) + i % 2;
      PlaceInNext(a, i / 2, i % 2);
      PlaceInNext(b, i / 2, i % 2);
    }
  }

  ghost predicate Distinct<T(!new)>(s: seq<T>) {
    forall i, j :: 0 <= i < j < |s| ==> s[i] != s[j]
  }

  lemma LongerListRepeats(a: seq<Tree>, b: seq<Tree>)
    requires 0 < |a| < |b| && Build(a) == Build(b)
    requires (forall t :: t in a ==> t.Leaf?) && (forall t :: t in b ==> t.Leaf?)
    ensures !Distinct(b)
  {
    var j := Place(|a|, |a|);
    SameTreeSamePlaces(a, b, 0, |a|);
    SameTreeSamePlaces(a, b, 0, j);
    PlaceOfPresent(|a|, j);
    PlaceOfPresent(|b|, |a|);
    PlaceOfPresent(|b|, j);
    assert b[j] == b[|a|];
  }

  /** A tree over distinct leaves determines their list, although odd levels double a node. */
  lemma BuildInjective(a: seq<Tree>, b: seq<Tree>)
    requires |a| > 0 && |b| > 0 && Build(a) == Build(b) && Distinct(a) && Distinct(b)
    requires (forall t :: t in a ==> t.Leaf?) && (forall t :: t in b ==> t.Leaf?)
    ensures a == b
  {
    if |a| < |b| {
      LongerListRepeats(a, b);
    } else if |b| < |a| {
      LongerListRepeats(b, a);
    } else {
      forall i | 0 <= i < |a| ensures a[i] == b[i] {
        SameTreeSamePlaces(a, b, 0, i);
        PlaceOfPresent(|a|, i);
      }
    }
  }

  /** Without distinct heads the root is ambiguous: a repeated last head changes nothing. */
  lemma RepeatedLastHeadKeepsTree(a: seq<Tree>)
    requires |a| >= 3 && |a| % 2 == 1
    ensures Build(a + [a[|a| - 1]]) == Build(a)
  {
    var b := a + [a[|a| - 1]];
    NextLevelIsNext(a);
    NextLevelIsNext(b);
    SameNext(a, NextLevel(a), NextLevel(b));
  }

  lemma SameNext(a: seq<Tree>, next: seq<Tree>, other: seq<Tree>)
    requires |a| >= 3 && |a| % 2 == 1 && IsNext(a, next) && IsNext(a + [a[|a| - 1]], other)
    ensures next == other
  {
    forall i | 0 <= i < |next| ensures next[i] == other[i] {
    }
  }

  // ---- The root over a list of heads ----

  predicate ShardLe(g: ChainHead, h: ChainHead) {
    g.shard <= h.shard
  }

  function SortByShard(list: seq<ChainHead>): seq<ChainHead> {
    Sort(ShardLe, list)
  }

  ghost predicate OneHeadPerShard(list: seq<ChainHead>) {
    forall i, j :: 0 <= i < j < |list| ==> list[i].shard != list[j].shard
  }

  ghost predicate AllInRange(list: seq<ChainHead>) {
    forall h :: h in list ==> InRange(h)
  }

  lemma {:induction false} CountPerShard(list: seq<ChainHead>, h: ChainHead)
    requires OneHeadPerShard(list)
    ensures multiset(list)[h] <= 1
  {
    if list != [] {
      assert list == [list[0]] + list[1..];
      CountPerShard(list[1..], h);
    }
  }

  /** Sorting keeps one head per shard. */
  lemma SameHeadsOnePerShard(a: seq<ChainHead>, b: seq<ChainHead>)
    requires OneHeadPerShard(a) && multiset(a) == multiset(b)
    ensures OneHeadPerShard(b)
  {
    forall i, j | 0 <= i < j < |b| ensures b[i].shard != b[j].shard {
      assert b[i] in multiset(b) && b[j] in multiset(b);
      assert b[i] in a && b[j] in a;
      if b[i] == b[j] {
        assert b == b[..j] + [b[j]] + b[j + 1..] && b[i] in b[..j];
        assert multiset(b)[b[i]] >= 2;
        CountPerShard(a, b[i]);
      }
    }
  }

  function Leaves(list: seq<ChainHead>): (ts: seq<Tree>)
    requires AllInRange(list)
    ensures |ts| == |list| && forall i :: 0 <= i < |ts| ==> ts[i] == Leaf(LeafInput(list[i]))
  {
    seq(|list|, i requires 0 <= i < |list| => assert list[i] in list; Leaf(LeafInput(list[i])))
  }

  lemma SortedInRange(list: seq<ChainHead>)
    requires AllInRange(list)
    ensures AllInRange(SortByShard(list))
  {
    SortContents(ShardLe, list);
    forall h | h in SortByShard(list) ensures InRange(h) {
      assert h in multiset(SortByShard(list));
    }
  }

  function Root(sha: Hash, list: seq<ChainHead>): seq<byte>
    requires AllInRange(list)
  {
    SortedInRange(list);
    var sorted := SortByShard(list);
    if sorted == [] then sha([]) else Digest(sha, Build(Leaves(sorted)))
  }

  /** Every byte string hashed to compute the root. */
  function RootInputs(sha: Hash, list: seq<ChainHead>): set<seq<byte>>
    requires AllInRange(list)
  {
    SortedInRange(list);
    var sorted := SortByShard(list);
    if sorted == [] then {[]} else Inputs(sha, Build(Leaves(sorted)))
  }

  lemma {:induction false} BuildTagged(ts: seq<Tree>)
    requires |ts| > 0 && forall i :: 0 <= i < |ts| ==> LeavesTagged(ts[i])
    ensures LeavesTagged(Build(ts))
    decreases |ts|
  {
    if |ts| > 1 {
      var next := NextLevel(ts);
      forall i | 0 <= i < |next| ensures LeavesTagged(next[i]) {
        NextLevelAt(ts, i);
      }
      BuildTagged(next);
    }
  }

  lemma LeavesDistinct(list: seq<ChainHead>)
    requires AllInRange(list) && OneHeadPerShard(list)
    ensures Distinct(Leaves(list))
  {
    forall i, j | 0 <= i < j < |list| ensures Leaves(list)[i] != Leaves(list)[j] {
      assert list[i] in list && list[j] in list;
      if LeafInput(list[i]) == LeafInput(list[j]) {
        LeafInputInjective(list[i], list[j]);
      }
    }
  }

  lemma SameLeavesSameList(a: seq<ChainHead>, b: seq<ChainHead>)
    requires AllInRange(a) && AllInRange(b) && Leaves(a) == Leaves(b)
    ensures a == b
  {
    assert |a| == |Leaves(a)| == |b|;
    forall i | 0 <= i < |a| ensures a[i] == b[i] {
      assert a[i] in a && b[i] in b && Leaves(a)[i] == Leaves(b)[i];
      LeafInputInjective(a[i], b[i]);
    }
  }

  lemma SortedListFromRoot(sha: Hash, a: seq<ChainHead>, b: seq<ChainHead>)
    requires Sized(sha) && AllInRange(a) && AllInRange(b) && OneHeadPerShard(a) && OneHeadPerShard(b)
    requires |a| > 0 && |b| > 0
    requires CollisionFree(sha, Inputs(sha, Build(Leaves(a))) + Inputs(sha, Build(Leaves(b))))
    requires Digest(sha, Build(Leaves(a))) == Digest(sha, Build(Leaves(b)))
    ensures a == b
  {
    BuildTagged(Leaves(a));
    BuildTagged(Leaves(b));
    DigestInjective(sha, Build(Leaves(a)), Build(Leaves(b)));
    LeavesDistinct(a);
    LeavesDistinct(b);
    BuildInjective(Leaves(a), Leaves(b));
    SameLeavesSameList(a, b);
  }

  /**
   Two head lists with one head per shard have the same root exactly when they hold the
   same heads, whatever their lengths and their order.
   */
  lemma RootDeterminesHeads(sha: Hash, a: seq<ChainHead>, b: seq<ChainHead>)
    requires Sized(sha) && AllInRange(a) && AllInRange(b) && OneHeadPerShard(a) && OneHeadPerShard(b)
    requires CollisionFree(sha, RootInputs(sha, a) + RootInputs(sha, b))
    ensures Root(sha, a) == Root(sha, b) <==> multiset(a) == multiset(b)
  {
    var s, t := SortByShard(a), SortByShard(b);
    SortContents(ShardLe, a);
    SortContents(ShardLe, b);
    SortedInRange(a);
    SortedInRange(b);
    SameHeadsOnePerShard(a, s);
    SameHeadsOnePerShard(b, t);
    if multiset(a) == multiset(b) {
      SortOfSameContents(ShardLe, a, b);
    } else if Root(sha, a) == Root(sha, b) {
      RootsDiffer(sha, s, t);
    }
  }

  /** Different sorted lists have different roots, the empty one included. */
  lemma RootsDiffer(sha: Hash, s: seq<ChainHead>, t: seq<ChainHead>)
    requires Sized(sha) && AllInRange(s) && AllInRange(t) && OneHeadPerShard(s) && OneHeadPerShard(t) && s != t
    requires CollisionFree(sha, (if s == [] then {[]} else Inputs(sha, Build(Leaves(s))))
                                + (if t == [] then {[]} else Inputs(sha, Build(Leaves(t)))))
    ensures (if s == [] then sha([]) else Digest(sha, Build(Leaves(s))))
            != (if t == [] then sha([]) else Digest(sha, Build(Leaves(t))))
  {
    if s != [] && t != [] {
      if Digest(sha, Build(Leaves(s))) == Digest(sha, Build(Leaves(t))) {
        SortedListFromRoot(sha, s, t);
      }
    } else {
      var u := if s == [] then t else s;
      BuildTagged(Leaves(u));
      var top := TopInput(sha, Build(Leaves(u)));
      assert top != [];
    }
  }

  // ---- The root in bytes ----

  /** A zero byte, the shard in two bytes, the sequence in eight, both in two's complement, and the hash. */
  ghost predicate LeafBytes(b: seq<byte>, h: ChainHead) {
    && |b| == 11 + |h.hash| && b[0] == 0 && b[11..] == h.hash
    && Number(b[1..3]) == (if h.shard < 0 then h.shard + 65536 else h.shard)
    && Number(b[3..11]) == (if h.seqNo < 0 then h.seqNo + 18446744073709551616 else h.seqNo)
  }

  /** One level above another: a one byte, the left and the right hash, and a last one without a neighbour twice. */
  ghost predicate LevelAbove(sha: Hash, level: seq<seq<byte>>, next: seq<seq<byte>>) {
    && |next| == (|level| + 1) / 2
    && forall i :: 0 <= i < |next| ==>
         next[i] == sha([1] + level[2 * i] + if 2 * i + 1 < |level| then level[2 * i + 1] else level[2 * i])
  }

  ghost predicate LeafLevel(sha: Hash, list: seq<ChainHead>, level: seq<seq<byte>>) {
    |level| == |list| && forall k :: 0 <= k < |list| ==> exists b :: LeafBytes(b, list[k]) && level[k] == sha(b)
  }

  /** Level over level, from the leaves of the list in its order up to the root alone. */
  ghost predicate Levels(sha: Hash, list: seq<ChainHead>, levels: seq<seq<seq<byte>>>, root: seq<byte>) {
    && |levels| > 0 && LeafLevel(sha, list, levels[0]) && levels[|levels| - 1] == [root]
    && forall d :: 0 <= d < |levels| - 1 ==> |levels[d]| > 1 && LevelAbove(sha, levels[d], levels[d + 1])
  }

  ghost predicate RootOver(sha: Hash, list: seq<ChainHead>, root: seq<byte>) {
    if list == [] then root == sha([]) else exists levels :: Levels(sha, list, levels, root)
  }

  lemma LeafInputBytes(h: ChainHead)
    requires InRange(h)
    ensures LeafBytes(LeafInput(h), h)
  {
    var b, s := LeafInput(h), Unsigned(h.shard, 0x1_0000);
    var m := Unsigned(h.seqNo, 0x1_0000_0000_0000_0000);
    Pow256Of8();
    BigEndianNumber(s, 2);
    BigEndianNumber(m, 8);
    assert b[1..3] == BigEndian(s, 2) && b[3..11] == BigEndian(m, 8);
  }

  ghost function Digests(sha: Hash, ts: seq<Tree>): (level: seq<seq<byte>>)
    ensures |level| == |ts| && forall i :: 0 <= i < |ts| ==> level[i] == Digest(sha, ts[i])
  {
    seq(|ts|, i requires 0 <= i < |ts| => Digest(sha, ts[i]))
  }

  lemma NextLevelDigest(sha: Hash, ts: seq<Tree>, i: nat)
    requires i < |NextLevel(ts)|
    ensures |NextLevel(ts)| == (|ts| + 1) / 2
    ensures var left, right := Digest(sha, ts[2 * i]), ts[if 2 * i + 1 < |ts| then 2 * i + 1 else 2 * i];
            Digest(sha, NextLevel(ts)[i]) == sha([1] + left + Digest(sha, right))
  {
    NextLevelAt(ts, i);
  }

  lemma NextLevelAbove(sha: Hash, ts: seq<Tree>)
    requires |ts| > 1
    ensures LevelAbove(sha, Digests(sha, ts), Digests(sha, NextLevel(ts)))
  {
    var level, next := Digests(sha, ts), Digests(sha, NextLevel(ts));
    forall i | 0 <= i < |next|
      ensures next[i] == sha([1] + level[2 * i] + if 2 * i + 1 < |level| then level[2 * i + 1] else level[2 * i])
    {
      NextLevelDigest(sha, ts, i);
    }
  }

  /** The levels above some trees, each one level up. */
  ghost predicate Climbs(sha: Hash, levels: seq<seq<seq<byte>>>) {
    |levels| > 0 && forall d :: 0 <= d < |levels| - 1 ==> |levels[d]| > 1 && LevelAbove(sha, levels[d], levels[d + 1])
  }

  lemma ClimbsFrom(sha: Hash, level: seq<seq<byte>>, levels: seq<seq<seq<byte>>>)
    requires Climbs(sha, levels) && |level| > 1 && LevelAbove(sha, level, levels[0])
    ensures Climbs(sha, [level] + levels)
  {
    var all := [level] + levels;
    forall d | 0 <= d < |all| - 1 ensures |all[d]| > 1 && LevelAbove(sha, all[d], all[d + 1]) {
      if d > 0 {
        assert all[d] == levels[d - 1] && all[d + 1] == levels[d - 1 + 1];
      }
    }
  }

  lemma {:induction false} BuildClimbs(sha: Hash, ts: seq<Tree>) returns (levels: seq<seq<seq<byte>>>)
    requires |ts| > 0
    ensures Climbs(sha, levels) && levels[0] == Digests(sha, ts) && levels[|levels| - 1] == [Digest(sha, Build(ts))]
    decreases |ts|
  {
    if |ts| == 1 {
      levels := [Digests(sha, ts)];
    } else {
      levels := BuildClimbs(sha, NextLevel(ts));
      NextLevelAbove(sha, ts);
      ClimbsFrom(sha, Digests(sha, ts), levels);
      levels := [Digests(sha, ts)] + levels;
    }
  }

  lemma RootIsOver(sha: Hash, list: seq<ChainHead>)
    requires AllInRange(list) && list != []
    ensures RootOver(sha, list, Digest(sha, Build(Leaves(list))))
  {
    var levels := BuildClimbs(sha, Leaves(list));
    forall k | 0 <= k < |list| ensures exists b :: LeafBytes(b, list[k]) && levels[0][k] == sha(b) {
      assert list[k] in list;
      LeafInputBytes(list[k]);
    }
    assert Levels(sha, list, levels, Digest(sha, Build(Leaves(list))));
  }

  // ---- The loops ----

  /** One level: neighbours are hashed together, and the last of an odd level with itself. */
  method HashPairs(sha: Hash, level: seq<seq<byte>>, ghost ts: seq<Tree>) returns (next: seq<seq<byte>>)
    requires |level| == |ts| && forall i :: 0 <= i < |level| ==> level[i] == Digest(sha, ts[i])
    ensures |next| == |NextLevel(ts)| && forall k :: 0 <= k < |next| ==> next[k] == Digest(sha, NextLevel(ts)[k])
  {
    next := [];
    var i := 0;
    NextLevelIsNext(ts);
    while i < |level|
      invariant 0 <= i <= |level| + 1 && i % 2 == 0 && |next| == i / 2
      invariant forall k :: 0 <= k < |next| ==> next[k] == Digest(sha, NextLevel(ts)[k])
    {
      var right := if i + 1 < |level| then level[i + 1] else level[i];
      NextLevelAt(ts, i / 2);
      next := next + [sha(NodeInput(level[i], right))];
      i := i + 2;
    }
  }

  /** merkleRoot over leaf digests; `trees` names what each digest stands for. */
  method MerkleRoot(sha: Hash, leaves: seq<seq<byte>>, ghost trees: seq<Tree>) returns (root: seq<byte>)
    requires |leaves| == |trees| && forall i :: 0 <= i < |leaves| ==> leaves[i] == Digest(sha, trees[i])
    ensures leaves == [] ==> root == sha([])
    ensures leaves != [] ==> root == Digest(sha, Build(trees))
  {
    if |leaves| == 0 {
      return sha([]);
    }
    var level := leaves;
    ghost var ts := trees;
    while |level| > 1
      invariant |level| == |ts| > 0 && Build(ts) == Build(trees)
      invariant forall i :: 0 <= i < |level| ==> level[i] == Digest(sha, ts[i])
      decreases |level|
    {
      level := HashPairs(sha, level, ts);
      ts := NextLevel(ts);
    }
    root := level[0];
  }

  /** merkleAndManifest without its JSON rendering of the sorted list. */
  method MerkleAndManifest(sha: Hash, list: seq<ChainHead>) returns (root: seq<byte>, manifest: seq<ChainHead>)
    requires AllInRange(list)
    ensures root == Root(sha, list)
    ensures multiset(manifest) == multiset(list) && RootOver(sha, manifest, root)
    ensures forall i, j :: 0 <= i < j < |manifest| ==> manifest[i].shard <= manifest[j].shard
  {
    manifest := SortByShard(list);
    SortContents(ShardLe, list);
    SortSorts(ShardLe, list);
    SortedInRange(list);
    var leaves: seq<seq<byte>> := [];
    for i := 0 to |manifest|
      invariant |leaves| == i
      invariant forall k :: 0 <= k < i ==> leaves[k] == Digest(sha, Leaves(manifest)[k])
    {
      assert manifest[i] in manifest;
      leaves := leaves + [sha(LeafInput(manifest[i]))];
    }
    root := MerkleRoot(sha, leaves, Leaves(manifest));
    if manifest != [] {
      RootIsOver(sha, manifest);
    }
  }
}
