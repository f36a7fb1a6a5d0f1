/**
 Exporters that share one bundle directory: each writes its rows under a name of its own,
 syncs them, publishes by renaming its manifest over the one published name, and afterwards
 reclaims what no manifest names. Any of them can be killed, and power can be lost, at any step.
 */
module ExportRuns {
  import opened Common

  type ExportId = nat

  /** Rows and staged manifests carry the id of their export; Legacy is the fixed name of old bundles. */
  datatype Name = Rows(id: ExportId) | Staged(id: ExportId) | Legacy | Foreign(tag: nat)

  predicate Owned(n: Name) {
    !n.Foreign?
  }

  /** A manifest names its rows file and signs how many rows it holds; an old or broken one may not resolve. */
  datatype Manifest = Readable(names: Name, count: nat) | Unreadable

  /** Where an exporter is. Every state after Started and before Renamed is followed by a step that can fail. */
  datatype Pc =
    | Idle
    | Started
    | Streaming(encoded: nat)
    | Flushed(count: nat)
    | RowsSynced(count: nat)
    | RowsReady(count: nat)
    | Staging(count: nat)
    | StagedSynced(count: nat)
    | Cleaning
    | Renamed
    | Released
    | Reclaiming(todo: set<Name>)
    | Gone

  /**
   The directory as processes see it (`files` and `published`) and what a power loss can leave of it.
   A name in `firm` was there at the last directory sync and ever since, so it is on disk.
   A name in `lingering` may be on disk. The manifest on disk is one of `possible`.
   `written` and `durable` count the rows of each rows file in the page cache and on disk.
   */
  datatype State = State(
    lockable: bool, pcs: map<ExportId, Pc>, held: set<ExportId>, exclusive: Option<ExportId>,
    files: set<Name>, firm: set<Name>, lingering: set<Name>,
    published: Option<Manifest>, possible: set<Option<Manifest>>,
    written: map<Name, nat>, durable: map<Name, nat>)

  function PcOf(s: State, e: ExportId): Pc {
    if e in s.pcs then s.pcs[e] else Idle
  }

  function Goto(s: State, e: ExportId, pc: Pc): State {
    s.(pcs := s.pcs[e := pc])
  }

  function Create(s: State, n: Name): State {
    s.(files := s.files + {n}, lingering := s.lingering + {n})
  }

  function Remove(s: State, n: Name): State {
    s.(files := s.files - {n}, firm := s.firm - {n})
  }

  function SyncDirectory(s: State): State {
    s.(firm := s.files, lingering := s.files, possible := {s.published})
  }

  function Rename(s: State, e: ExportId, count: nat): State {
    var m := Some(Readable(Rows(e), count));
    Remove(s, Staged(e)).(published := m, possible := s.possible + {m})
  }

  /** Leaving drops both sides of the lock, as the kernel does for a process that dies. */
  function Leave(s: State, e: ExportId): State {
    Goto(s, e, Gone).(held := s.held - {e}, exclusive := if s.exclusive == Some(e) then None else s.exclusive)
  }

  /** What a reclaim that starts now may remove. */
  function Reclaimable(s: State): set<Name> {
    match s.published
    case None => set n | n in s.files && Owned(n)
    case Some(Unreadable) => {}
    case Some(Readable(keep, _)) => set n | n in s.files && Owned(n) && n != keep
  }

  datatype Op =
    | Begin(locked: bool)
    | Open
    | Encode
    | Spill(upTo: nat)
    | FinishStream
    | SyncRows
    | SyncRowsDirectory
    | WriteManifest
    | SyncManifest
    | Publish
    | SyncPublished
    | SyncPublishedFails
    | TryReclaim
    | Reclaim(name: Name)
    | Unlock
    | Fail
    | Clean(name: Name)
    | Kill

  /** The exporters a reclaim can tell are writing: the shared lock, or a file system that has no locks at all. */
  predicate Active(s: State, e: ExportId) {
    e in s.held || !s.lockable
  }

  predicate Writing(pc: Pc) {
    pc.Started? || pc.Streaming? || pc.Flushed? || pc.RowsSynced? || pc.RowsReady? || pc.Staging? || pc.StagedSynced?
  }

  /** Any step of any exporter. An operation that is not due changes nothing. */
  function Step(s: State, e: ExportId, op: Op): State {
    var pc := PcOf(s, e);
    match op
    // Any error of the shared-lock attempt lets the export go on without it.
    case Begin(locked) =>
      if !pc.Idle? || (locked && (!s.lockable || s.exclusive.Some?)) then s
      else if locked then Goto(s, e, Started).(held := s.held + {e}) else Goto(s, e, Started)
    case Open =>
      if !pc.Started? || Rows(e) in s.files then s
      else Goto(Create(s, Rows(e)), e, Streaming(0)).(written := s.written[Rows(e) := 0])
    case Encode => if pc.Streaming? then Goto(s, e, Streaming(pc.encoded + 1)) else s
    case Spill(n) =>
      if pc.Streaming? && Rows(e) in s.written && s.written[Rows(e)] <= n <= pc.encoded
      then s.(written := s.written[Rows(e) := n]) else s
    case FinishStream =>
      if pc.Streaming? then Goto(s, e, Flushed(pc.encoded)).(written := s.written[Rows(e) := pc.encoded]) else s
    case SyncRows =>
      if pc.Flushed? && Rows(e) in s.written
      then Goto(s, e, RowsSynced(pc.count)).(durable := s.durable[Rows(e) := s.written[Rows(e)]]) else s
    case SyncRowsDirectory => if pc.RowsSynced? then Goto(SyncDirectory(s), e, RowsReady(pc.count)) else s
    case WriteManifest => if pc.RowsReady? then Goto(Create(s, Staged(e)), e, Staging(pc.count)) else s
    case SyncManifest => if pc.Staging? then Goto(s, e, StagedSynced(pc.count)) else s
    case Publish => if pc.StagedSynced? then Goto(Rename(s, e, pc.count), e, Renamed) else s
    case SyncPublished => if pc.Renamed? then Goto(SyncDirectory(s), e, Released).(held := s.held - {e}) else s
    case SyncPublishedFails => if pc.Renamed? then Leave(s, e) else s
    case TryReclaim =>
      if !pc.Released? then s
      else if s.lockable && s.held == {} && s.exclusive.None?
      then Goto(s, e, Reclaiming(Reclaimable(s))).(exclusive := Some(e)) else Leave(s, e)
    case Reclaim(n) => if pc.Reclaiming? && n in pc.todo then Remove(s, n) else s
    case Unlock => if pc.Reclaiming? then Leave(s, e) else s
    case Fail => if Writing(pc) then Goto(s, e, Cleaning) else s
    case Clean(n) => if pc.Cleaning? && (n == Rows(e) || n == Staged(e)) then Remove(s, n) else s
    case Kill => if pc.Idle? then s else Leave(s, e)
  }

  datatype Action = Action(e: ExportId, op: Op)

  function After(s: State, trace: seq<Action>): State {
    if trace == [] then s
    else Step(After(s, trace[..|trace| - 1]), trace[|trace| - 1].e, trace[|trace| - 1].op)
  }

  // ---- What is promised ----

  /** The published manifest stands beside the rows it was signed for, all of them. */
  ghost predicate BundleWhole(s: State) {
    s.published.Some? && s.published.value.Readable? ==>
      var m := s.published.value;
      m.names in s.files && m.names in s.written && s.written[m.names] == m.count
  }

  /** A directory that a host can come back with after losing power now. */
  datatype Disk = Disk(files: set<Name>, published: Option<Manifest>)

  ghost predicate CanSurvive(s: State, d: Disk) {
    s.firm <= d.files <= s.lingering && d.published in s.possible
  }

  ghost predicate DiskWhole(s: State, d: Disk) {
    d.published.Some? && d.published.value.Readable? ==>
      var m := d.published.value;
      m.names in d.files && m.names in s.durable && s.durable[m.names] == m.count
  }

  /** Export ids are new: nothing in the directory carries the id of an export that has not begun. */
  ghost predicate Unused(s: State, e: ExportId) {
    && Rows(e) !in s.files && Staged(e) !in s.files
    && (forall p :: p in s.possible && p.Some? && p.value.Readable? ==>
          p.value.names != Rows(e) && p.value.names != Staged(e))
  }

  /** A directory that earlier exports left settled, with nobody at work in it. */
  ghost predicate Init(s: State) {
    && s.held == {} && s.exclusive.None?
    && (forall e :: PcOf(s, e).Idle? || PcOf(s, e).Gone?)
    && (forall e :: PcOf(s, e).Idle? ==> Unused(s, e))
    && s.firm == s.files == s.lingering && s.possible == {s.published}
    && BundleWhole(s) && (forall n :: n in s.files && n in s.written ==> n in s.durable && s.durable[n] == s.written[n])
  }

  /** Whoever finishes its stream holds the shared lock, or the directory has no locks. */
  ghost predicate Shown(s: State, a: Action) {
    a.op.FinishStream? && PcOf(s, a.e).Streaming? ==> Active(s, a.e)
  }

  ghost predicate AllShown(s: State, trace: seq<Action>) {
    trace == [] || (var front := trace[..|trace| - 1]; AllShown(s, front) && Shown(After(s, front), trace[|trace| - 1]))
  }

  // ---- Invariants ----

  /** Past the rename, or not part of any bundle. */
  predicate MayBeNamed(pc: Pc) {
    pc.Renamed? || pc.Released? || pc.Reclaiming? || pc.Gone?
  }

  /** A reclaim leaves the published bundle alone, and everything when it cannot tell what that is. */
  predicate Spares(published: Option<Manifest>, todo: set<Name>) {
    match published
    case None => true
    case Some(Unreadable) => todo == {}
    case Some(Readable(keep, _)) => keep !in todo
  }

  ghost predicate LocksOk(s: State) {
    && (s.exclusive.Some? ==> s.lockable && s.held == {})
    && (forall e: ExportId :: PcOf(s, e).Reclaiming? ==> s.exclusive == Some(e) && Spares(s.published, PcOf(s, e).todo))
    && (forall e: ExportId :: e in s.held ==> Writing(PcOf(s, e)) || PcOf(s, e).Cleaning? || PcOf(s, e).Renamed?)
  }

  predicate Streamed(pc: Pc) {
    pc.Flushed? || pc.RowsSynced? || pc.RowsReady? || pc.Staging? || pc.StagedSynced?
  }

  ghost predicate ExporterOk(s: State, e: ExportId) {
    var pc := PcOf(s, e);
    && ((Streamed(pc) || pc.Renamed?) ==> Active(s, e))
    && (pc.Streaming? && Active(s, e) ==> Rows(e) in s.files)
    && (Streamed(pc) ==> Rows(e) in s.files && Rows(e) in s.written && s.written[Rows(e)] == pc.count)
    && (Streamed(pc) && !pc.Flushed? ==> Rows(e) in s.durable && s.durable[Rows(e)] == pc.count)
    && (pc.RowsReady? || pc.Staging? || pc.StagedSynced? ==> Rows(e) in s.firm)
    && (pc.Idle? ==> Rows(e) !in s.lingering && Staged(e) !in s.lingering)
  }

  /** A manifest that names a file with an export's id in its name. */
  predicate Names(p: Option<Manifest>) {
    p.Some? && p.value.Readable? && (p.value.names.Rows? || p.value.names.Staged?)
  }

  ghost predicate NamesOk(s: State) {
    && s.published in s.possible
    && (forall p :: p in s.possible && Names(p) ==> MayBeNamed(PcOf(s, p.value.names.id)))
  }

  ghost predicate Inv(s: State) {
    && LocksOk(s) && NamesOk(s) && BundleWhole(s)
    && s.firm <= s.files <= s.lingering
    && forall e :: ExporterOk(s, e)
  }

  /** A step moves one exporter, and lets one exporter in or out. */
  lemma OthersStay(s: State, e: ExportId, op: Op, x: ExportId)
    requires x != e
    ensures var t := Step(s, e, op);
              PcOf(t, x) == PcOf(s, x) && (x in t.held <==> x in s.held) && t.lockable == s.lockable
  {
  }

  /** While a reclaim runs nobody publishes, so what it spares stays published. */
  lemma ReclaimSpares(s: State, e: ExportId, op: Op, x: ExportId)
    requires Inv(s) && PcOf(Step(s, e, op), x).Reclaiming?
    ensures var t := Step(s, e, op); t.exclusive == Some(x) && Spares(t.published, PcOf(t, x).todo)
  {
    assert ExporterOk(s, e);
    if x != e {
      OthersStay(s, e, op, x);
    }
  }

  lemma StepKeepsLocks(s: State, e: ExportId, op: Op)
    requires Inv(s)
    ensures LocksOk(Step(s, e, op))
  {
    var t := Step(s, e, op);
    forall x: ExportId | PcOf(t, x).Reclaiming? ensures t.exclusive == Some(x) && Spares(t.published, PcOf(t, x).todo) {
      ReclaimSpares(s, e, op, x);
    }
    forall x: ExportId | x in t.held ensures Writing(PcOf(t, x)) || PcOf(t, x).Cleaning? || PcOf(t, x).Renamed? {
      HoldersWork(s, e, op, x);
    }
    ExclusiveAlone(s, e, op);
  }

  lemma HoldersWork(s: State, e: ExportId, op: Op, x: ExportId)
    requires LocksOk(s) && x in Step(s, e, op).held
    ensures var pc := PcOf(Step(s, e, op), x); Writing(pc) || pc.Cleaning? || pc.Renamed?
  {
    if x != e {
      OthersStay(s, e, op, x);
    }
  }

  lemma ExclusiveAlone(s: State, e: ExportId, op: Op)
    requires LocksOk(s)
    ensures var t := Step(s, e, op); t.exclusive.Some? ==> t.lockable && t.held == {}
  {
  }

  lemma StepKeepsNames(s: State, e: ExportId, op: Op)
    requires Inv(s)
    ensures NamesOk(Step(s, e, op))
  {
    var t := Step(s, e, op);
    forall p | p in t.possible && Names(p) ensures MayBeNamed(PcOf(t, p.value.names.id)) {
      if p.value.names.id != e {
        OthersStay(s, e, op, p.value.names.id);
      }
    }
  }

  lemma StepKeepsBundle(s: State, e: ExportId, op: Op)
    requires Inv(s)
    ensures BundleWhole(Step(s, e, op)) && Step(s, e, op).firm <= Step(s, e, op).files <= Step(s, e, op).lingering
  {
    assert ExporterOk(s, e);
  }

  lemma StepKeepsOwn(s: State, e: ExportId, op: Op)
    requires LocksOk(s) && ExporterOk(s, e) && s.firm <= s.files <= s.lingering && Shown(s, Action(e, op))
    ensures ExporterOk(Step(s, e, op), e)
  {
  }

  lemma StepKeepsOther(s: State, e: ExportId, op: Op, x: ExportId)
    requires Inv(s) && x != e
    ensures ExporterOk(Step(s, e, op), x)
  {
    OthersStay(s, e, op, x);
    assert ExporterOk(s, x);
  }

  lemma StepKeepsInv(s: State, e: ExportId, op: Op)
    requires Inv(s) && Shown(s, Action(e, op))
    ensures Inv(Step(s, e, op))
  {
    StepKeepsLocks(s, e, op);
    StepKeepsNames(s, e, op);
    StepKeepsBundle(s, e, op);
    StepKeepsOwn(s, e, op);
    forall x: ExportId | x != e ensures ExporterOk(Step(s, e, op), x) {
      StepKeepsOther(s, e, op, x);
    }
  }

  lemma {:induction false} RunKeepsInv(s: State, trace: seq<Action>)
    requires Init(s) && AllShown(s, trace)
    ensures Inv(After(s, trace))
  {
    if trace == [] {
      forall e: ExportId ensures ExporterOk(s, e) {
        assert PcOf(s, e).Idle? || PcOf(s, e).Gone?;
      }
      forall p | p in s.possible && Names(p) ensures MayBeNamed(PcOf(s, p.value.names.id)) {
        var e := p.value.names.id;
        assert PcOf(s, e).Idle? ==> Unused(s, e);
      }
    } else {
      var front := trace[..|trace| - 1];
      RunKeepsInv(s, front);
      StepKeepsInv(After(s, front), trace[|trace| - 1].e, trace[|trace| - 1].op);
    }
  }

  /** However the exporters interleave and wherever they are killed, a manifest stands beside its rows. */
  lemma EveryBundleIsWhole(s: State, trace: seq<Action>)
    requires Init(s) && AllShown(s, trace)
    ensures BundleWhole(After(s, trace))
  {
    RunKeepsInv(s, trace);
  }

  // ---- Power loss ----

  /** What a reclaim that starts now may remove is named by no manifest that may be on disk. */
  ghost predicate Undoubted(s: State) {
    forall p :: p in s.possible && p.Some? && p.value.Readable? ==> p.value.names !in Reclaimable(s)
  }

  predicate TakesLock(s: State, a: Action) {
    a.op.TryReclaim? && PcOf(s, a.e).Released? && s.lockable && s.held == {} && s.exclusive.None?
  }

  /** No reclaim takes the lock while a manifest that names what it may remove is in doubt. */
  ghost predicate Careful(s: State, trace: seq<Action>) {
    trace == [] ||
    (var front, a := trace[..|trace| - 1], trace[|trace| - 1];
     Careful(s, front) && (TakesLock(After(s, front), a) ==> Undoubted(After(s, front))))
  }

  /** Whatever manifest is on disk, its rows are, and no reclaim is after them. */
  ghost predicate DurableInv(s: State) {
    && (forall p :: p in s.possible && p.Some? && p.value.Readable? ==>
          p.value.names in s.firm && p.value.names in s.durable && s.durable[p.value.names] == p.value.count)
    && (forall e: ExportId, p :: PcOf(s, e).Reclaiming? && p in s.possible && p.Some? && p.value.Readable? ==>
          p.value.names !in PcOf(s, e).todo)
  }

  lemma StepKeepsNamedRows(s: State, e: ExportId, op: Op, p: Option<Manifest>)
    requires Inv(s) && DurableInv(s) && p in Step(s, e, op).possible && p.Some? && p.value.Readable?
    ensures var t := Step(s, e, op);
            p.value.names in t.firm && p.value.names in t.durable && t.durable[p.value.names] == p.value.count
  {
    assert ExporterOk(s, e);
    if p in s.possible {
      OldRowsStay(s, e, op, p.value);
    }
  }

  /** The rows of a manifest that may be on disk are not what a step removes or rewrites. */
  lemma OldRowsStay(s: State, e: ExportId, op: Op, m: Manifest)
    requires Inv(s) && m.Readable? && Some(m) in s.possible && m.names in s.firm && m.names in s.durable
    requires PcOf(s, e).Reclaiming? ==> m.names !in PcOf(s, e).todo
    ensures var t := Step(s, e, op);
              m.names in t.firm && m.names in t.durable && t.durable[m.names] == s.durable[m.names]
  {
    assert Names(Some(m)) ==> MayBeNamed(PcOf(s, m.names.id));
  }

  /** While a reclaim runs nobody renames, so no manifest comes into doubt. */
  lemma NoNewDoubt(s: State, e: ExportId, op: Op, x: ExportId)
    requires Inv(s) && PcOf(s, x).Reclaiming? && PcOf(Step(s, e, op), x).Reclaiming?
    ensures Step(s, e, op).possible <= s.possible && PcOf(Step(s, e, op), x) == PcOf(s, x)
  {
    assert ExporterOk(s, e);
    if x != e {
      OthersStay(s, e, op, x);
    }
  }

  lemma ReclaimStarts(s: State, e: ExportId, op: Op, x: ExportId)
    requires !PcOf(s, x).Reclaiming? && PcOf(Step(s, e, op), x).Reclaiming?
    ensures x == e && TakesLock(s, Action(e, op)) && PcOf(Step(s, e, op), x).todo == Reclaimable(s)
    ensures Step(s, e, op).possible == s.possible
  {
    if x != e {
      OthersStay(s, e, op, x);
    }
  }

  lemma StepKeepsClear(s: State, e: ExportId, op: Op, x: ExportId, p: Option<Manifest>)
    requires Inv(s) && DurableInv(s) && (TakesLock(s, Action(e, op)) ==> Undoubted(s))
    requires PcOf(Step(s, e, op), x).Reclaiming? && p in Step(s, e, op).possible && p.Some? && p.value.Readable?
    ensures p.value.names !in PcOf(Step(s, e, op), x).todo
  {
    if PcOf(s, x).Reclaiming? {
      NoNewDoubt(s, e, op, x);
    } else {
      ReclaimStarts(s, e, op, x);
    }
  }

  lemma StepKeepsDurable(s: State, e: ExportId, op: Op)
    requires Inv(s) && DurableInv(s) && (TakesLock(s, Action(e, op)) ==> Undoubted(s))
    ensures DurableInv(Step(s, e, op))
  {
    var t := Step(s, e, op);
    forall p | p in t.possible && p.Some? && p.value.Readable?
      ensures p.value.names in t.firm && p.value.names in t.durable && t.durable[p.value.names] == p.value.count
    {
      StepKeepsNamedRows(s, e, op, p);
    }
    forall x: ExportId, p | PcOf(t, x).Reclaiming? && p in t.possible && p.Some? && p.value.Readable?
      ensures p.value.names !in PcOf(t, x).todo
    {
      StepKeepsClear(s, e, op, x, p);
    }
  }

  lemma {:induction false} RunKeepsDurable(s: State, trace: seq<Action>)
    requires Init(s) && AllShown(s, trace) && Careful(s, trace)
    ensures DurableInv(After(s, trace))
  {
    if trace != [] {
      var front, a := trace[..|trace| - 1], trace[|trace| - 1];
      RunKeepsInv(s, front);
      RunKeepsDurable(s, front);
      StepKeepsDurable(After(s, front), a.e, a.op);
    }
  }

  /** Power can go at any moment of such a run: the manifest a host comes back with has its rows, in full. */
  lemma EveryDiskIsWhole(s: State, trace: seq<Action>, d: Disk)
    requires Init(s) && AllShown(s, trace) && Careful(s, trace) && CanSurvive(After(s, trace), d)
    ensures DiskWhole(After(s, trace), d)
  {
    RunKeepsDurable(s, trace);
  }

  /** At every point of the run, and after one more removal by whoever is reclaiming, every disk is whole. */
  ghost predicate DisksWhole(s: State, trace: seq<Action>) {
    forall n: nat, e, name, d :: n <= |trace| && CanSurvive(Step(After(s, trace[..n]), e, Reclaim(name)), d) ==>
      DiskWhole(Step(After(s, trace[..n]), e, Reclaim(name)), d)
  }

  lemma {:induction false} CarefulPrefix(s: State, trace: seq<Action>, n: nat)
    requires n <= |trace| && AllShown(s, trace)
    ensures AllShown(s, trace[..n]) && (Careful(s, trace) ==> Careful(s, trace[..n]))
  {
    if n < |trace| {
      assert trace[..|trace| - 1][..n] == trace[..n];
      CarefulPrefix(s, trace[..|trace| - 1], n);
    } else {
      assert trace[..n] == trace;
    }
  }

  lemma CarefulRunKeepsDisks(s: State, trace: seq<Action>)
    requires Init(s) && AllShown(s, trace) && Careful(s, trace)
    ensures DisksWhole(s, trace)
  {
    forall n: nat, e, name, d | n <= |trace| && CanSurvive(Step(After(s, trace[..n]), e, Reclaim(name)), d)
      ensures DiskWhole(Step(After(s, trace[..n]), e, Reclaim(name)), d)
    {
      CarefulPrefix(s, trace, n);
      RunKeepsInv(s, trace[..n]);
      RunKeepsDurable(s, trace[..n]);
      StepKeepsDurable(After(s, trace[..n]), e, Reclaim(name));
    }
  }

  /** A reclaim that started in doubt can remove the rows of a manifest that is on disk. */
  lemma CarelessStepLosesRows(s: State, e: ExportId, p: Option<Manifest>)
    requires s.firm <= s.lingering && TakesLock(s, Action(e, TryReclaim)) && p in s.possible && p.Some?
             && p.value.Readable?
    requires p.value.names in Reclaimable(s)
    ensures var t := Step(Step(s, e, TryReclaim), e, Reclaim(p.value.names));
            CanSurvive(t, Disk(t.firm, p)) && !DiskWhole(t, Disk(t.firm, p))
  {
    var u := Step(s, e, TryReclaim);
    assert PcOf(u, e) == Reclaiming(Reclaimable(s));
  }

  /** The last careless step of the run, or an earlier one. */
  lemma {:induction false} CarelessRunLosesRows(s: State, trace: seq<Action>) returns (n: nat, e: ExportId,
        name: Name, d: Disk)
    requires Init(s) && AllShown(s, trace) && !Careful(s, trace)
    ensures n <= |trace| && CanSurvive(Step(After(s, trace[..n]), e, Reclaim(name)), d)
    ensures !DiskWhole(Step(After(s, trace[..n]), e, Reclaim(name)), d)
  {
    var front, a := trace[..|trace| - 1], trace[|trace| - 1];
    if Careful(s, front) {
      var u := After(s, front);
      RunKeepsInv(s, front);
      var p :| p in u.possible && p.Some? && p.value.Readable? && p.value.names in Reclaimable(u);
      CarelessStepLosesRows(u, a.e, p);
      n, e, name := |trace|, a.e, p.value.names;
      assert trace[..n] == trace;
      d := Disk(Step(After(s, trace), e, Reclaim(name)).firm, p);
    } else {
      n, e, name, d := CarelessRunLosesRows(s, front);
      assert front[..n] == trace[..n];
    }
  }

  /** Every disk that the run can leave is whole exactly when no reclaim starts in doubt. */
  lemma DisksAreWholeExactlyWhenReclaimsAreCareful(s: State, trace: seq<Action>)
    requires Init(s) && AllShown(s, trace)
    ensures DisksWhole(s, trace) <==> Careful(s, trace)
  {
    if Careful(s, trace) {
      CarefulRunKeepsDisks(s, trace);
    } else {
      var n, e, name, d := CarelessRunLosesRows(s, trace);
    }
  }

  // ---- Coming back ----

  /** The directory as the next host finds it: nobody at work, and what was on disk is all there is. */
  function Restart(s: State, d: Disk): State {
    State(s.lockable, map e | e in s.pcs && !s.pcs[e].Idle? :: Gone, {}, None,
          d.files, d.files, d.files, d.published, {d.published}, s.durable, s.durable)
  }

  /** After power loss the exports can begin again: the directory that came back is a settled one. */
  lemma RestartIsSettled(s: State, trace: seq<Action>, d: Disk)
    requires Init(s) && AllShown(s, trace) && Careful(s, trace) && CanSurvive(After(s, trace), d)
    ensures Init(Restart(After(s, trace), d))
  {
    RunKeepsInv(s, trace);
    EveryDiskIsWhole(s, trace, d);
    var u := After(s, trace);
    var t := Restart(u, d);
    forall e | PcOf(t, e).Idle? ensures Unused(t, e) {
      assert ExporterOk(u, e);
      assert PcOf(u, e).Idle?;
    }
  }

  // ---- Exporters that sync before they leave are careful ----

  /** No exporter loses the lock between its rename and the directory sync that follows it. */
  ghost predicate SyncsBeforeLeaving(s: State, a: Action) {
    PcOf(s, a.e).Renamed? ==> !a.op.Kill? && !a.op.SyncPublishedFails?
  }

  ghost predicate Disciplined(s: State, trace: seq<Action>) {
    trace == [] ||
    (var front := trace[..|trace| - 1];
          Disciplined(s, front) && SyncsBeforeLeaving(After(s, front), trace[|trace| - 1]))
  }

  /** Only a rename that is about to be synced is in doubt. */
  ghost predicate DoubtHeld(s: State) {
    forall p :: p in s.possible ==> p == s.published || exists e: ExportId :: PcOf(s, e).Renamed?
  }

  /** A manifest in doubt was in doubt before, or this step renamed another over it. */
  lemma DoubtComesFrom(s: State, e: ExportId, op: Op, p: Option<Manifest>)
    requires p in Step(s, e, op).possible && p != Step(s, e, op).published
    ensures PcOf(Step(s, e, op), e).Renamed? || (p in s.possible && p != s.published
            && !(op.SyncPublished? && PcOf(s, e).Renamed?))
  {
  }

  lemma RenamedStays(s: State, e: ExportId, op: Op)
    requires PcOf(s, e).Renamed? && SyncsBeforeLeaving(s, Action(e, op)) && !op.SyncPublished?
    ensures PcOf(Step(s, e, op), e).Renamed?
  {
  }

  lemma StepKeepsDoubt(s: State, e: ExportId, op: Op)
    requires DoubtHeld(s) && SyncsBeforeLeaving(s, Action(e, op))
    ensures DoubtHeld(Step(s, e, op))
  {
    var t := Step(s, e, op);
    forall p | p in t.possible ensures p == t.published || exists x: ExportId :: PcOf(t, x).Renamed? {
      if p != t.published && !PcOf(t, e).Renamed? {
        DoubtComesFrom(s, e, op, p);
        var x: ExportId :| PcOf(s, x).Renamed?;
        if x == e {
          RenamedStays(s, e, op);
        } else {
          OthersStay(s, e, op, x);
          assert PcOf(t, x).Renamed?;
        }
      }
    }
  }

  /** While the lock is free nobody is between a rename and its sync. */
  lemma FreeLockMeansUndoubted(s: State, a: Action)
    requires Inv(s) && DoubtHeld(s) && TakesLock(s, a)
    ensures Undoubted(s)
  {
    forall x: ExportId ensures !PcOf(s, x).Renamed? {
      assert ExporterOk(s, x);
    }
  }

  /** Exporters that keep the lock until their directory sync leave no reclaim in doubt. */
  lemma {:induction false} SyncingBeforeLeavingIsCareful(s: State, trace: seq<Action>)
    requires Init(s) && AllShown(s, trace) && Disciplined(s, trace)
    ensures Careful(s, trace) && DoubtHeld(After(s, trace))
  {
    if trace != [] {
      var front, a := trace[..|trace| - 1], trace[|trace| - 1];
      SyncingBeforeLeavingIsCareful(s, front);
      RunKeepsInv(s, front);
      StepKeepsDoubt(After(s, front), a.e, a.op);
      if TakesLock(After(s, front), a) {
        FreeLockMeansUndoubted(After(s, front), a);
      }
    }
  }

  /** An exporter that renamed over a bundle and an earlier one that is about to reclaim. */
  ghost predicate Overlap(s: State, e: ExportId, c: ExportId, prior: Name, count: nat) {
    && s.lockable && s.held == {e} && s.exclusive.None? && e != c
    && PcOf(s, e).Renamed? && PcOf(s, c).Released?
    && s.published.Some? && s.published.value.Readable? && s.published.value.names == Rows(e)
    && Some(Readable(prior, count)) in s.possible && prior != Rows(e) && prior in s.files && Owned(prior)
  }

  lemma AfterThree(s: State, a: Action, b: Action, c: Action)
    ensures After(s, [a, b, c]) == Step(Step(Step(s, a.e, a.op), b.e, b.op), c.e, c.op)
  {
    assert [a, b, c][..2] == [a, b] && [a, b][..1] == [a] && [a][..0] == [];
    assert After(s, [a]) == Step(s, a.e, a.op);
    assert After(s, [a, b]) == Step(Step(s, a.e, a.op), b.e, b.op);
  }

  /** The lock is free, so the earlier exporter takes it and may free what it once published. */
  lemma ReclaimTakesPrior(s: State, e: ExportId, c: ExportId, prior: Name, count: nat, leave: Op)
    requires Overlap(s, e, c, prior, count) && (leave.Kill? || leave.SyncPublishedFails?)
    ensures var t := Step(Step(s, e, leave), c, TryReclaim);
            && PcOf(t, c).Reclaiming? && prior in PcOf(t, c).todo
            && t.firm == s.firm && t.lingering == s.lingering && t.possible == s.possible
  {
    var u := Step(s, e, leave);
    assert u.held == {} && PcOf(u, c).Released?;
  }

  /**
   The condition cannot be dropped. If the renaming exporter dies, or its directory sync fails, while
   an earlier exporter has yet to reclaim, that reclaim frees rows that the manifest on disk still names.
   */
  lemma LeavingEarlyLosesRows(s: State, e: ExportId, c: ExportId, prior: Name, count: nat, leave: Op)
    requires Overlap(s, e, c, prior, count) && s.firm <= s.files <= s.lingering
             && (leave.Kill? || leave.SyncPublishedFails?)
    ensures var t := After(s, [Action(e, leave), Action(c, TryReclaim), Action(c, Reclaim(prior))]);
            CanSurvive(t, Disk(s.firm - {prior}, Some(Readable(prior, count))))
            && !DiskWhole(t, Disk(s.firm - {prior}, Some(Readable(prior, count))))
  {
    AfterThree(s, Action(e, leave), Action(c, TryReclaim), Action(c, Reclaim(prior)));
    ReclaimTakesPrior(s, e, c, prior, count, leave);
  }

  /** One exporter does these steps, undisturbed. */
  function Drive(s: State, e: ExportId, ops: seq<Op>): State
    decreases |ops|
  {
    if ops == [] then s else Drive(Step(s, e, ops[0]), e, ops[1..])
  }

  lemma DriveFour(s: State, e: ExportId, a: Op, b: Op, c: Op, d: Op)
    ensures Drive(s, e, [a, b, c, d]) == Step(Step(Step(Step(s, e, a), e, b), e, c), e, d)
  {
    var s1, s2, s3 := Step(s, e, a), Step(Step(s, e, a), e, b), Step(Step(Step(s, e, a), e, b), e, c);
    assert [a, b, c, d][1..] == [b, c, d] && [b, c, d][1..] == [c, d] && [c, d][1..] == [d] && [d][1..] == [];
    assert Drive(s3, e, [d]) == Step(s3, e, d);
    assert Drive(s2, e, [c, d]) == Drive(s3, e, [d]);
    assert Drive(s1, e, [b, c, d]) == Drive(s2, e, [c, d]);
  }

  const WRITE := [Begin(true), Open, FinishStream, SyncRows]
  const PUBLISH := [SyncRowsDirectory, WriteManifest, SyncManifest, Publish]

  ghost predicate Ready(s: State, e: ExportId) {
    s.lockable && s.exclusive.None? && PcOf(s, e).Idle? && Rows(e) !in s.files
  }

  lemma WriteEffect(s: State, e: ExportId)
    requires Ready(s, e)
    ensures var t := Drive(s, e, WRITE);
            && t.pcs == s.pcs[e := RowsSynced(0)] && t.held == s.held + {e} && t.files == s.files + {Rows(e)}
            && t.published == s.published && t.lockable && t.exclusive.None?
  {
    DriveFour(s, e, Begin(true), Open, FinishStream, SyncRows);
    var s1 := Step(s, e, Begin(true));
    assert s1.pcs == s.pcs[e := Started];
    var s2 := Step(s1, e, Open);
    assert s2.pcs == s.pcs[e := Streaming(0)];
    var s3 := Step(s2, e, FinishStream);
    assert s3.pcs == s.pcs[e := Flushed(0)];
  }

  lemma PublishEffect(s: State, e: ExportId, n: nat)
    requires PcOf(s, e) == RowsSynced(n)
    ensures var t := Drive(s, e, PUBLISH);
            && t.pcs == s.pcs[e := Renamed] && t.held == s.held && t.files == s.files - {Staged(e)}
            && t.published == Some(Readable(Rows(e), n)) && t.possible == {s.published, t.published}
            && t.lockable == s.lockable && t.exclusive == s.exclusive
  {
    DriveFour(s, e, SyncRowsDirectory, WriteManifest, SyncManifest, Publish);
    var s1 := Step(s, e, SyncRowsDirectory);
    assert s1.pcs == s.pcs[e := RowsReady(n)];
    var s2 := Step(s1, e, WriteManifest);
    assert s2.pcs == s.pcs[e := Staging(n)];
    var s3 := Step(s2, e, SyncManifest);
    assert s3.pcs == s.pcs[e := StagedSynced(n)];
  }

  const EMPTY := State(true, map[], {}, None, {}, {}, {}, None, {None}, map[], map[])

  /** One export has synced its bundle and is about to reclaim. */
  ghost predicate Settled(s: State) {
    && s.lockable && s.exclusive.None? && s.held == {} && s.pcs == map[1 := Released]
    && s.files == {Rows(1)} && s.published == Some(Readable(Rows(1), 0))
  }

  lemma FirstSync(s: State)
    requires s.lockable && s.exclusive.None? && s.held == {1} && s.pcs == map[1 := Renamed]
    requires s.files == {Rows(1)} && s.published == Some(Readable(Rows(1), 0))
    ensures Settled(Step(s, 1, SyncPublished))
  {
  }

  lemma FirstExport(s: State)
    requires s.lockable && s.exclusive.None? && s.held == {} && s.pcs == map[] && s.files == {}
    ensures Settled(Step(Drive(Drive(s, 1, WRITE), 1, PUBLISH), 1, SyncPublished))
  {
    WriteEffect(s, 1);
    PublishEffect(Drive(s, 1, WRITE), 1, 0);
    FirstSync(Drive(Drive(s, 1, WRITE), 1, PUBLISH));
  }

  lemma SecondExport(s: State)
    requires Settled(s)
    ensures Overlap(Drive(Drive(s, 2, WRITE), 2, PUBLISH), 2, 1, Rows(1), 0)
  {
    WriteEffect(s, 2);
    PublishEffect(Drive(s, 2, WRITE), 2, 0);
  }

  /** Such an overlap happens, in an empty directory with two exporters. */
  lemma OverlapHappens()
    ensures Init(EMPTY)
    ensures var s := Step(Drive(Drive(EMPTY, 1, WRITE), 1, PUBLISH), 1, SyncPublished);
            Overlap(Drive(Drive(s, 2, WRITE), 2, PUBLISH), 2, 1, Rows(1), 0)
  {
    FirstExport(EMPTY);
    SecondExport(Step(Drive(Drive(EMPTY, 1, WRITE), 1, PUBLISH), 1, SyncPublished));
  }

  // ---- An exporter that nobody can see ----

  /** An exporter streams without the lock while another is about to reclaim. */
  ghost predicate Unseen(s: State, e: ExportId, c: ExportId, n: nat) {
    && s.lockable && s.held == {} && s.exclusive.None? && e != c
    && PcOf(s, e) == Streaming(n) && PcOf(s, c).Released? && Rows(e) in Reclaimable(s)
  }

  lemma UnseenRowsGo(s: State, e: ExportId, c: ExportId, n: nat)
    requires Unseen(s, e, c, n)
    ensures var t := Step(Step(Step(s, c, TryReclaim), c, Reclaim(Rows(e))), c, Unlock);
            PcOf(t, e) == Streaming(n) && Rows(e) !in t.files
  {
    var u := Step(s, c, TryReclaim);
    assert PcOf(u, c) == Reclaiming(Reclaimable(s));
  }

  lemma FinishEffect(s: State, e: ExportId, n: nat)
    requires PcOf(s, e) == Streaming(n)
    ensures var t := Step(Step(s, e, FinishStream), e, SyncRows); PcOf(t, e) == RowsSynced(n) && t.files == s.files
  {
  }

  /**
   The lock is what separates rows still being written from abandoned ones: the rows of an exporter
   that goes on without it are reclaimed, and the manifest it then publishes names nothing.
   */
  lemma UnlockedExporterPublishesNothing(s: State, e: ExportId, c: ExportId, n: nat)
    requires Unseen(s, e, c, n)
    ensures var t := Step(Step(Step(s, c, TryReclaim), c, Reclaim(Rows(e))), c, Unlock);
            var u := Drive(Step(Step(t, e, FinishStream), e, SyncRows), e, PUBLISH);
            u.published == Some(Readable(Rows(e), n)) && Rows(e) !in u.files && !BundleWhole(u)
  {
    UnseenRowsGo(s, e, c, n);
    var t := Step(Step(Step(s, c, TryReclaim), c, Reclaim(Rows(e))), c, Unlock);
    FinishEffect(t, e, n);
    PublishEffect(Step(Step(t, e, FinishStream), e, SyncRows), e, n);
  }

  lemma OpenUnlocked(s: State, e: ExportId)
    requires PcOf(s, e).Idle? && Rows(e) !in s.files
    ensures var t := Step(Step(s, e, Begin(false)), e, Open);
            && t.lockable == s.lockable && t.exclusive == s.exclusive && t.held == s.held
            && t.pcs == s.pcs[e := Streaming(0)] && t.files == s.files + {Rows(e)} && t.published == s.published
  {
    var t := Step(s, e, Begin(false));
    assert t.pcs == s.pcs[e := Started];
  }

  /** An exporter is streaming unlocked, and another has synced its bundle beside it. */
  lemma OtherPublishes(s: State, e: ExportId, c: ExportId)
    requires Ready(s, c) && s.held == {} && e != c && PcOf(s, e) == Streaming(0) && Rows(e) in s.files
    ensures Unseen(Step(Drive(Drive(s, c, WRITE), c, PUBLISH), c, SyncPublished), e, c, 0)
  {
    WriteEffect(s, c);
    PublishEffect(Drive(s, c, WRITE), c, 0);
    SyncReleases(Drive(Drive(s, c, WRITE), c, PUBLISH), e, c);
  }

  lemma SyncReleases(s: State, e: ExportId, c: ExportId)
    requires s.lockable && s.exclusive.None? && s.held == {c} && PcOf(s, c).Renamed? && PcOf(s, e) == Streaming(0)
    requires e != c && Rows(e) in s.files && s.published == Some(Readable(Rows(c), 0))
    ensures Unseen(Step(s, c, SyncPublished), e, c, 0)
  {
  }

  /** Such an exporter can start in every settled directory that has locks. */
  lemma UnseenHappens(s: State, e: ExportId, c: ExportId)
    requires Init(s) && s.lockable && PcOf(s, e).Idle? && PcOf(s, c).Idle? && e != c
    ensures var t := Step(Step(s, e, Begin(false)), e, Open);
            Unseen(Step(Drive(Drive(t, c, WRITE), c, PUBLISH), c, SyncPublished), e, c, 0)
  {
    assert Unused(s, e) && Unused(s, c);
    OpenUnlocked(s, e);
    OtherPublishes(Step(Step(s, e, Begin(false)), e, Open), e, c);
  }

  // ---- Exactly when every bundle is whole ----

  /** Only these exporters go on without the lock, because their attempt to take it failed. */
  ghost predicate LocksFailOnly(trace: seq<Action>, failing: iset<ExportId>) {
    forall a :: a in trace && a.op == Begin(false) ==> a.e in failing
  }

  /** Every run in which only these attempts fail leaves the bundle whole. */
  ghost predicate BundlesStayWhole(s: State, failing: iset<ExportId>) {
    forall trace :: LocksFailOnly(trace, failing) ==> BundleWhole(After(s, trace))
  }

  /** Some run in which only these attempts fail ends in `t`. */
  ghost predicate Reaches(s: State, failing: iset<ExportId>, t: State) {
    exists trace :: LocksFailOnly(trace, failing) && After(s, trace) == t
  }

  lemma ReachStep(s: State, failing: iset<ExportId>, t: State, e: ExportId, op: Op)
    requires Reaches(s, failing, t) && (op == Begin(false) ==> e in failing)
    ensures Reaches(s, failing, Step(t, e, op))
  {
    var trace :| LocksFailOnly(trace, failing) && After(s, trace) == t;
    var more := trace + [Action(e, op)];
    assert more[..|more| - 1] == trace;
    assert LocksFailOnly(more, failing) && After(s, more) == Step(t, e, op);
  }

  lemma {:induction false} ReachDrive(s: State, failing: iset<ExportId>, t: State, e: ExportId, ops: seq<Op>)
    requires Reaches(s, failing, t) && Begin(false) !in ops
    ensures Reaches(s, failing, Drive(t, e, ops))
    decreases |ops|
  {
    if ops != [] {
      assert ops[0] in ops;
      ReachStep(s, failing, t, e, ops[0]);
      ReachDrive(s, failing, Step(t, e, ops[0]), e, ops[1..]);
    }
  }

  lemma ReachUnseen(s: State, failing: iset<ExportId>, e: ExportId, c: ExportId) returns (t: State)
    requires Init(s) && s.lockable && e in failing && PcOf(s, e).Idle? && PcOf(s, c).Idle? && e != c
    ensures Reaches(s, failing, t) && Unseen(t, e, c, 0)
  {
    assert After(s, []) == s && LocksFailOnly([], failing);
    ReachStep(s, failing, s, e, Begin(false));
    ReachStep(s, failing, Step(s, e, Begin(false)), e, Open);
    var u := Step(Step(s, e, Begin(false)), e, Open);
    ReachDrive(s, failing, u, c, WRITE);
    ReachDrive(s, failing, Drive(u, c, WRITE), c, PUBLISH);
    t := Step(Drive(Drive(u, c, WRITE), c, PUBLISH), c, SyncPublished);
    ReachStep(s, failing, Drive(Drive(u, c, WRITE), c, PUBLISH), c, SyncPublished);
    UnseenHappens(s, e, c);
  }

  lemma ReachReclaimed(s: State, failing: iset<ExportId>, t: State, e: ExportId, c: ExportId)
    requires Reaches(s, failing, t)
    ensures Reaches(s, failing, Step(Step(Step(t, c, TryReclaim), c, Reclaim(Rows(e))), c, Unlock))
  {
    ReachStep(s, failing, t, c, TryReclaim);
    ReachStep(s, failing, Step(t, c, TryReclaim), c, Reclaim(Rows(e)));
    ReachStep(s, failing, Step(Step(t, c, TryReclaim), c, Reclaim(Rows(e))), c, Unlock);
  }

  lemma ReachPublished(s: State, failing: iset<ExportId>, t: State, e: ExportId)
    requires Reaches(s, failing, t)
    ensures Reaches(s, failing, Drive(Step(Step(t, e, FinishStream), e, SyncRows), e, PUBLISH))
  {
    ReachStep(s, failing, t, e, FinishStream);
    ReachStep(s, failing, Step(t, e, FinishStream), e, SyncRows);
    ReachDrive(s, failing, Step(Step(t, e, FinishStream), e, SyncRows), e, PUBLISH);
  }

  lemma ReachBroken(s: State, failing: iset<ExportId>, t: State, e: ExportId, c: ExportId) returns (u: State)
    requires Reaches(s, failing, t) && Unseen(t, e, c, 0)
    ensures Reaches(s, failing, u) && !BundleWhole(u)
  {
    ReachReclaimed(s, failing, t, e, c);
    var v := Step(Step(Step(t, c, TryReclaim), c, Reclaim(Rows(e))), c, Unlock);
    ReachPublished(s, failing, v, e);
    u := Drive(Step(Step(v, e, FinishStream), e, SyncRows), e, PUBLISH);
    UnlockedExporterPublishesNothing(t, e, c, 0);
  }

  lemma {:induction false} NewId(used: set<ExportId>) returns (c: ExportId)
    ensures forall e :: e in used ==> e < c
  {
    if used == {} {
      c := 0;
    } else {
      var e :| e in used;
      var d := NewId(used - {e});
      c := if e < d then d else e + 1;
      assert forall x :: x in used ==> x == e || x in used - {e};
    }
  }

  /** An attempt that fails where others can lock leads to a run that breaks the bundle. */
  lemma FailedAttemptBreaksABundle(s: State, failing: iset<ExportId>, e: ExportId)
    requires Init(s) && s.lockable && e in failing && PcOf(s, e).Idle?
    ensures !BundlesStayWhole(s, failing)
  {
    var c := NewId(s.pcs.Keys + {e});
    assert e in s.pcs.Keys + {e};
    assert c !in s.pcs.Keys + {e};
    var t := ReachUnseen(s, failing, e, c);
    var u := ReachBroken(s, failing, t, e, c);
    var trace :| LocksFailOnly(trace, failing) && After(s, trace) == u;
  }

  /** Where locks work every exporter that writes has one, and those whose attempt fails are past it. */
  ghost predicate WritersHold(s: State, failing: iset<ExportId>) {
    && (forall e: ExportId :: Writing(PcOf(s, e)) ==> e in s.held)
    && (forall e: ExportId :: e in failing ==> !PcOf(s, e).Idle?)
  }

  lemma StepKeepsHolding(s: State, failing: iset<ExportId>, e: ExportId, op: Op)
    requires s.lockable && WritersHold(s, failing) && (op == Begin(false) ==> e in failing)
    ensures Step(s, e, op).lockable && WritersHold(Step(s, e, op), failing)
  {
    var t := Step(s, e, op);
    OwnHolds(s, e, op);
    forall x: ExportId | x != e ensures Writing(PcOf(t, x)) ==> x in t.held {
      OthersStay(s, e, op, x);
    }
    forall x: ExportId | x in failing ensures !PcOf(t, x).Idle? {
      if x != e {
        OthersStay(s, e, op, x);
      }
    }
  }

  lemma OwnHolds(s: State, e: ExportId, op: Op)
    requires s.lockable && (Writing(PcOf(s, e)) ==> e in s.held) && (op == Begin(false) ==> !PcOf(s, e).Idle?)
    ensures var t := Step(s, e, op);
            t.lockable && (Writing(PcOf(t, e)) ==> e in t.held) && (!PcOf(s, e).Idle? ==> !PcOf(t, e).Idle?)
  {
  }

  lemma LockableStays(s: State, e: ExportId, op: Op)
    ensures Step(s, e, op).lockable == s.lockable
  {
  }

  lemma {:induction false} HoldersAreShown(s: State, failing: iset<ExportId>, trace: seq<Action>)
    requires LocksFailOnly(trace, failing) && (s.lockable ==> WritersHold(s, failing))
    ensures AllShown(s, trace) && After(s, trace).lockable == s.lockable
    ensures s.lockable ==> WritersHold(After(s, trace), failing)
  {
    if trace != [] {
      var front, a := trace[..|trace| - 1], trace[|trace| - 1];
      assert a in trace && LocksFailOnly(front, failing);
      HoldersAreShown(s, failing, front);
      LockableStays(After(s, front), a.e, a.op);
      if s.lockable {
        StepKeepsHolding(After(s, front), failing, a.e, a.op);
      }
    }
  }

  /**
   Every run leaves the bundle whole exactly when no exporter whose attempt to lock can fail has
   yet to begin, or nobody can lock in the directory.
   */
  lemma BundlesAreWholeExactlyWhenLocksHold(s: State, failing: iset<ExportId>)
    requires Init(s)
    ensures BundlesStayWhole(s, failing) <==> (s.lockable ==> forall e: ExportId :: e in failing ==> !PcOf(s, e).Idle?)
  {
    if s.lockable && exists e: ExportId :: e in failing && PcOf(s, e).Idle? {
      var e: ExportId :| e in failing && PcOf(s, e).Idle?;
      FailedAttemptBreaksABundle(s, failing, e);
    } else {
      forall trace | LocksFailOnly(trace, failing) ensures BundleWhole(After(s, trace)) {
        assert s.lockable ==> WritersHold(s, failing) by {
          forall e: ExportId ensures !Writing(PcOf(s, e)) {
            assert PcOf(s, e).Idle? || PcOf(s, e).Gone?;
          }
        }
        HoldersAreShown(s, failing, trace);
        EveryBundleIsWhole(s, trace);
      }
    }
  }
}
