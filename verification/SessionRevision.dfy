/** The session store: plugin-state revisions across turns, compactions, failed saves and reopens. */
module SessionRevision {
  import opened Wrappers
  import opened Checkpoints

  const INITIAL_STATE_REVISION: U64 := 0

  datatype Entry = Message | Compaction(entries: seq<Entry>, stateRevision: Option<U64>)

  /** The part of a stored session that the revision protocol reads and writes. */
  datatype Session = Session(metaRevision: U64, snapshot: Option<Snapshot>, checkpoints: CheckpointSet,
                             transcript: seq<Entry>)

  const NEW_SESSION := Session(0, None, Kept([]), [])

  /** A store in memory: its copy of the session and the highest revision it knows. */
  datatype Store = Store(session: Session, stateRevision: U64)

  function SaturatingSucc(n: U64): U64 { if n == U64_MAX then n else n + 1 }

  function Max(a: U64, b: U64): U64 { if a >= b then a else b }

  /** `state_revision_or_initial`. */
  function RevisionOf(s: Option<Snapshot>): U64 {
    if s.Some? && s.value.Supported? then s.value.revision else INITIAL_STATE_REVISION
  }

  function OuterRevision(transcript: seq<Entry>): Option<U64> {
    if transcript != [] && transcript[0].Compaction? then transcript[0].stateRevision else None
  }

  /** `transcript_referenced_revisions`. */
  function Referenced(entries: seq<Entry>): set<U64> {
    if entries == [] then {} else ReferencedIn(entries[0]) + Referenced(entries[1..])
  }

  function ReferencedIn(e: Entry): set<U64> {
    match e
    case Message => {}
    case Compaction(entries, r) => (if r.Some? then {r.value} else {}) + Referenced(entries)
  }

  // ---------------------------------------------------------------- hydrating

  /** `hydration_snapshot`. */
  function HydrationSnapshot(codec: Codec, s: Session): Result<Option<Snapshot>> {
    var outer := OuterRevision(s.transcript);
    if outer.None? || RevisionOf(s.snapshot) >= outer.value then Ok(s.snapshot)
    else
      match SnapshotAt(codec, s.checkpoints, outer.value)
      case Ok(checkpoint) => Ok(Some(checkpoint))
      case Err(e) => if e.MissingRevision? || e.FutureRevision? then Ok(s.snapshot) else Err(e)
  }

  /** The snapshot a store starts from; a failure to select one falls back to the latest. */
  function Hydrated(codec: Codec, s: Session): Option<Snapshot> {
    match HydrationSnapshot(codec, s)
    case Ok(snapshot) => snapshot
    case Err(_) => s.snapshot
  }

  function Opened(codec: Codec, s: Session): Store { Store(s, RevisionOf(Hydrated(codec, s))) }

  // ---------------------------------------------------------------- capturing

  function CaptureRevision(store: Store): U64 {
    Max(Max(store.session.metaRevision, SaturatingSucc(store.stateRevision)),
        SaturatingSucc(RevisionOf(store.session.snapshot)))
  }

  /** `capture_plugin_state`: `captured` is what the plugins answer, if there are any and they do. */
  function Capture(store: Store, captured: Option<string>): Store {
    if captured.None? then store
    else
      var revision := CaptureRevision(store);
      Store(store.session.(snapshot := Some(Supported(revision, captured.value))), revision)
  }

  function NextTurn(s: Session): Session { s.(metaRevision := SaturatingSucc(s.metaRevision)) }

  // ------------------------------------------------------------- checkpointing

  /** What the outside world decides during one compaction. */
  datatype Outside = Outside(plugins: bool, captured: Option<string>, advances: bool)

  /** `compaction_snapshot`: the snapshot to insert, or `None` if the boundary already has one. */
  function CompactionSnapshot(codec: Codec, s: Session, revision: U64, out: Outside): Result<Option<Snapshot>> {
    match SnapshotAt(codec, s.checkpoints, revision)
    case Ok(_) => Ok(None)
    case Err(e) =>
      if !e.MissingRevision? && !e.FutureRevision? then Err(e)
      else if out.plugins then
        (if out.captured.None? then Err(CaptureFailed) else Ok(Some(Supported(revision, out.captured.value))))
      else if s.snapshot.Some? then
        if s.snapshot.value.Unusable? then Err(UnsupportedSchema)
        else if revision < s.snapshot.value.revision then Err(RevisionRegression)
        else if !out.advances then Err(InvalidSnapshot)
        else Ok(Some(Supported(revision, s.snapshot.value.body)))
      else Ok(Some(Supported(revision, "")))
  }

  predicate Quarantined(codec: Codec, s: Session, revision: U64) {
    var at := SnapshotAt(codec, s.checkpoints, revision);
    at.Err? && (at.error.UnsupportedSchema? || at.error.InvalidEnvelope?)
  }

  /** The session `checkpoint_compaction` wants to save, or why it gives up. */
  function Compacted(codec: Codec, s: Session, transcript: seq<Entry>, revision: U64, out: Outside): Result<Session> {
    if OuterRevision(transcript) != Some(revision) then Err(MissingRevision)
    else
      var candidate := s.(transcript := transcript);
      if Quarantined(codec, candidate, revision) then Ok(candidate)
      else
        match CompactionSnapshot(codec, candidate, revision, out)
        case Err(e) => Err(e)
        case Ok(None) => Ok(candidate)
        case Ok(Some(snapshot)) =>
          match Insert(codec, candidate.checkpoints, snapshot, Referenced(transcript))
          case Err(e) => Err(e)
          case Ok(checkpoints) =>
            Ok(candidate.(checkpoints := checkpoints,
                          snapshot := if RevisionOf(candidate.snapshot) <= revision then Some(snapshot)
                                      else candidate.snapshot))
  }

  // ----------------------------------------------------------------- the store

  /** The session file: a save replaces it whole, or fails and leaves it. */
  class Disk {
    var file: Option<Session>

    constructor ()
      ensures file == None
    {
      file := None;
    }

    method Save(s: Session, ok: bool)
      modifies this
      ensures file == if ok then Some(s) else old(file)
    {
      if ok {
        file := Some(s);
      }
    }
  }

  class SessionStore {
    const disk: Disk
    const codec: Codec
    const plugins: bool
    var session: Session
    var stateRevision: U64

    ghost function View(): Store reads this { Store(session, stateRevision) }

    /**
     * `open_in_with_state`, once the session is loaded or known to be new; a new one is captured and
     * saved at once, unless its metadata cannot be written down.
     */
    constructor (disk: Disk, codec: Codec, plugins: bool, metaOk: bool, captured: Option<string>, saveOk: bool)
      modifies disk
      ensures this.disk == disk && this.codec == codec && this.plugins == plugins
      ensures var w := OnOpen(codec, World(old(disk.file), None, []), metaOk, if plugins then captured else None, saveOk);
              w.store == Some(View()) && w.disk == disk.file
    {
      this.disk, this.codec, this.plugins := disk, codec, plugins;
      session := if disk.file.Some? then disk.file.value else NEW_SESSION;
      stateRevision := RevisionOf(Hydrated(codec, if disk.file.Some? then disk.file.value else NEW_SESSION));
      new;
      if disk.file.None? && metaOk {
        session := NextTurn(session);
        CapturePluginState(captured);
        disk.Save(session, saveOk);
      }
    }

    method CapturePluginState(captured: Option<string>)
      modifies this
      ensures View() == Capture(old(View()), if plugins then captured else None)
    {
      if !plugins || captured.None? {
        return;
      }
      var persisted := RevisionOf(session.snapshot);
      var revision := Max(Max(session.metaRevision, SaturatingSucc(stateRevision)), SaturatingSucc(persisted));
      stateRevision := revision;
      session := session.(snapshot := Some(Supported(revision, captured.value)));
    }

    /** `record_turn_started`: metadata, capture, save; a failed save is only logged. */
    method RecordTurnStarted(metaOk: bool, captured: Option<string>, saveOk: bool) returns (ok: bool)
      modifies this, disk
      ensures ok == metaOk
      ensures !ok ==> View() == old(View()) && disk.file == old(disk.file)
      ensures ok ==> View() == Capture(old(View()).(session := NextTurn(old(session))), if plugins then captured else None)
      ensures ok ==> disk.file == if saveOk then Some(session) else old(disk.file)
    {
      if !metaOk {
        return false;
      }
      session := NextTurn(session);
      CapturePluginState(captured);
      disk.Save(session, saveOk);
      return true;
    }

    /** `checkpoint_compaction`: nothing changes unless the save succeeds. */
    method CheckpointCompaction(transcript: seq<Entry>, revision: U64, captured: Option<string>, advances: bool, saveOk: bool)
      returns (ok: bool)
      modifies this, disk
      ensures var r := Compacted(codec, old(session), transcript, revision, Outside(plugins, captured, advances));
              ok == (r.Ok? && saveOk) &&
              (ok ==> View() == Store(r.value, Max(old(stateRevision), revision)) && disk.file == Some(r.value))
      ensures !ok ==> View() == old(View()) && disk.file == old(disk.file)
    {
      if OuterRevision(transcript) != Some(revision) {
        return false;
      }
      var candidate := session.(transcript := transcript);
      if !Quarantined(codec, candidate, revision) {
        var snapshot := CompactionSnapshot(codec, candidate, revision, Outside(plugins, captured, advances));
        if snapshot.Err? {
          return false;
        }
        if snapshot.value.Some? {
          var s := snapshot.value.value;
          var checkpoints := InsertPruning(codec, candidate.checkpoints, s, Referenced(transcript));
          if checkpoints.Err? {
            return false;
          }
          candidate := candidate.(checkpoints := checkpoints.value);
          if RevisionOf(candidate.snapshot) <= revision {
            candidate := candidate.(snapshot := Some(s));
          }
        }
      }
      disk.Save(candidate, saveOk);
      if !saveOk {
        return false;
      }
      stateRevision := Max(stateRevision, revision);
      session := candidate;
      return true;
    }

    /** `record_turn`: the store keeps the turn even when saving it fails. */
    method RecordTurn(transcript: seq<Entry>, metaOk: bool, captured: Option<string>, saveOk: bool) returns (ok: bool)
      modifies this, disk
      ensures ok == (metaOk && saveOk)
      ensures !metaOk ==> View() == old(View()) && disk.file == old(disk.file)
      ensures metaOk ==>
        View() == Capture(old(View()).(session := NextTurn(old(session)).(transcript := transcript)),
                          if plugins then captured else None) &&
        disk.file == if saveOk then Some(session) else old(disk.file)
    {
      if !metaOk {
        return false;
      }
      session := NextTurn(session).(transcript := transcript);
      CapturePluginState(captured);
      disk.Save(session, saveOk);
      return saveOk;
    }
  }

  // ------------------------------------------------------------ runs of stores

  /** One session file and at most one live store; `recorded` are the revisions that store adopted. */
  datatype World = World(disk: Option<Session>, store: Option<Store>, recorded: seq<U64>)

  datatype Step =
    | Open(loadOk: bool, metaOk: bool, captured: Option<string>, saveOk: bool)
    | Close
    | TurnStarted(metaOk: bool, captured: Option<string>, saveOk: bool)
    | Turn(transcript: seq<Entry>, metaOk: bool, captured: Option<string>, saveOk: bool)
    | Checkpoint(transcript: seq<Entry>, revision: U64, out: Outside, saveOk: bool)

  /** A capture followed by a save. */
  function Saved(w: World, store: Store, captured: Option<string>, saveOk: bool): World {
    var s := Capture(store, captured);
    World(if saveOk then Some(s.session) else w.disk, Some(s),
          if captured.Some? then w.recorded + [s.stateRevision] else w.recorded)
  }

  function OnOpen(codec: Codec, w: World, metaOk: bool, captured: Option<string>, saveOk: bool): World {
    var isNew := w.disk.None?;
    var store := Opened(codec, if isNew then NEW_SESSION else w.disk.value);
    var w' := World(w.disk, Some(store), [store.stateRevision]);
    if isNew && metaOk then Saved(w', store.(session := NextTurn(store.session)), captured, saveOk) else w'
  }

  function OnTurn(w: World, store: Store, transcript: seq<Entry>, captured: Option<string>, saveOk: bool): World {
    Saved(w, store.(session := NextTurn(store.session).(transcript := transcript)), captured, saveOk)
  }

  function OnCheckpoint(codec: Codec, w: World, store: Store, transcript: seq<Entry>, revision: U64, out: Outside,
                        saveOk: bool): World
  {
    var r := Compacted(codec, store.session, transcript, revision, out);
    if r.Err? || !saveOk then w
    else World(Some(r.value), Some(Store(r.value, Max(store.stateRevision, revision))), w.recorded + [revision])
  }

  function Apply(codec: Codec, w: World, step: Step): World {
    match step
    case Open(loadOk, metaOk, captured, saveOk) =>
      if w.store.Some? || !loadOk then w else OnOpen(codec, w, metaOk, captured, saveOk)
    case Close => w.(store := None, recorded := [])
    case TurnStarted(metaOk, captured, saveOk) =>
      if w.store.None? || !metaOk then w
      else OnTurn(w, w.store.value, w.store.value.session.transcript, captured, saveOk)
    case Turn(transcript, metaOk, captured, saveOk) =>
      if w.store.None? || !metaOk then w else OnTurn(w, w.store.value, transcript, captured, saveOk)
    case Checkpoint(transcript, revision, out, saveOk) =>
      if w.store.None? then w else OnCheckpoint(codec, w, w.store.value, transcript, revision, out, saveOk)
  }

  const EMPTY_WORLD := World(None, None, [])

  function Run(codec: Codec, steps: seq<Step>): World
    decreases |steps|
  {
    if steps == [] then EMPTY_WORLD else Apply(codec, Run(codec, steps[..|steps| - 1]), steps[|steps| - 1])
  }

  function DiskRevision(w: World): U64 { if w.disk.Some? then RevisionOf(w.disk.value.snapshot) else INITIAL_STATE_REVISION }

  /** A live store is never behind its file, nor its session's snapshot ahead of the store. */
  ghost predicate Inv(w: World) {
    w.store.Some? ==>
      var store := w.store.value;
      && DiskRevision(w) <= RevisionOf(store.session.snapshot) <= store.stateRevision
      && (forall i :: 0 <= i < |w.recorded| ==> w.recorded[i] <= store.stateRevision)
  }

  // ---------------------------------------------------------------- properties

  lemma OuterIsReferenced(transcript: seq<Entry>)
    requires OuterRevision(transcript).Some?
    ensures OuterRevision(transcript).value in Referenced(transcript)
  {
  }

  /** Which revision a reopened session hydrates: the larger of the two whenever the checkpoint can be read. */
  lemma HydratesLarger(codec: Codec, s: Session)
    ensures var outer := OuterRevision(s.transcript);
            RevisionOf(Hydrated(codec, s)) ==
            if outer.Some? && SnapshotAt(codec, s.checkpoints, outer.value).Ok? then Max(RevisionOf(s.snapshot), outer.value)
            else RevisionOf(s.snapshot)
  {
    hide Referenced;
    if s.checkpoints.Kept? && OuterRevision(s.transcript).Some? {
      var found := Find(s.checkpoints.list, OuterRevision(s.transcript).value);
      assert found.Some? ==> HasRevision(found.value, OuterRevision(s.transcript).value);
    }
  }

  /** The snapshot hydrated is one of those stored, never made up. */
  lemma HydratesStored(codec: Codec, s: Session)
    ensures var h := Hydrated(codec, s);
            h == s.snapshot || (h.Some? && s.checkpoints.Kept? && h.value in s.checkpoints.list)
  {
  }

  lemma CaptureExceeds(store: Store, body: string)
    ensures var after := Capture(store, Some(body));
            after.stateRevision == RevisionOf(after.session.snapshot) &&
            after.stateRevision >= store.session.metaRevision &&
            (after.stateRevision > Max(store.stateRevision, RevisionOf(store.session.snapshot)) ||
             after.stateRevision == U64_MAX)
  {
  }

  lemma CompactedKeeps(codec: Codec, s: Session, transcript: seq<Entry>, revision: U64, out: Outside)
    requires Compacted(codec, s, transcript, revision, out).Ok?
    ensures var c := Compacted(codec, s, transcript, revision, out).value;
            RevisionOf(s.snapshot) <= RevisionOf(c.snapshot) <= Max(RevisionOf(s.snapshot), revision)
  {
    hide Insert, Referenced, SnapshotAt;
  }

  lemma StepKeepsInv(codec: Codec, w: World, step: Step)
    requires Inv(w)
    ensures Inv(Apply(codec, w, step)) && DiskRevision(w) <= DiskRevision(Apply(codec, w, step))
  {
    hide Hydrated, Compacted;
    match step
    case Open(_, _, _, _) => HydratesLarger(codec, if w.disk.Some? then w.disk.value else NEW_SESSION);
    case Checkpoint(transcript, revision, out, _) =>
      if w.store.Some? && Compacted(codec, w.store.value.session, transcript, revision, out).Ok? {
        CompactedKeeps(codec, w.store.value.session, transcript, revision, out);
      }
    case _ =>
  }

  lemma {:induction false} RunKeepsInv(codec: Codec, steps: seq<Step>)
    ensures Inv(Run(codec, steps))
    decreases |steps|
  {
    if steps != [] {
      hide Inv, Apply;
      RunKeepsInv(codec, steps[..|steps| - 1]);
      StepKeepsInv(codec, Run(codec, steps[..|steps| - 1]), steps[|steps| - 1]);
    }
  }

  /** However a run continues, the revision on disk is never below what it was. */
  lemma {:induction false} DiskNeverRegresses(codec: Codec, steps: seq<Step>, n: nat)
    requires n <= |steps|
    ensures DiskRevision(Run(codec, steps[..n])) <= DiskRevision(Run(codec, steps))
    decreases |steps|
  {
    if n == |steps| {
      assert steps[..n] == steps;
    } else {
      hide Inv, Apply;
      var before := steps[..|steps| - 1];
      DiskNeverRegresses(codec, before, n);
      assert before[..n] == steps[..n];
      RunKeepsInv(codec, before);
      StepKeepsInv(codec, Run(codec, before), steps[|steps| - 1]);
    }
  }

  /**
   * A turn records a revision exactly when its capture succeeds, whether or not the save does, and
   * that revision is above everything its store recorded before, until u64 is exhausted.
   */
  lemma CapturesIncrease(codec: Codec, steps: seq<Step>, step: Step)
    requires Run(codec, steps).store.Some? && (step.Turn? || step.TurnStarted?)
    ensures var w, w' := Run(codec, steps), Apply(codec, Run(codec, steps), step);
            if step.metaOk && step.captured.Some? then
              |w'.recorded| == |w.recorded| + 1 && w'.recorded[..|w.recorded|] == w.recorded &&
              (forall i :: 0 <= i < |w.recorded| ==>
                 w.recorded[i] < w'.recorded[|w.recorded|] || w'.recorded[|w.recorded|] == U64_MAX)
            else w'.recorded == w.recorded
  {
    hide Run;
    RunKeepsInv(codec, steps);
  }

  /** After a successful compaction, reopening the file restores at least its revision, unless it was quarantined. */
  lemma CheckpointSurvivesReopen(codec: Codec, s: Session, transcript: seq<Entry>, revision: U64, out: Outside)
    requires Compacted(codec, s, transcript, revision, out).Ok?
    ensures var c := Compacted(codec, s, transcript, revision, out).value;
            Opened(codec, c).stateRevision >= revision <==>
            !Quarantined(codec, s, revision) || RevisionOf(s.snapshot) >= revision
    ensures !Quarantined(codec, s, revision) ==>
              SnapshotAt(codec, Compacted(codec, s, transcript, revision, out).value.checkpoints, revision).Ok?
  {
    hide Insert, Referenced, SnapshotAt, Hydrated;
    var c := Compacted(codec, s, transcript, revision, out).value;
    HydratesLarger(codec, c);
    OuterIsReferenced(transcript);
    if !Quarantined(codec, s, revision) {
      var candidate := s.(transcript := transcript);
      var snapshot := CompactionSnapshot(codec, candidate, revision, out).value;
      if snapshot.Some? {
        InsertedIsFound(codec, candidate.checkpoints, snapshot.value, Referenced(transcript));
      }
    }
  }

  // ---------------------------------------------------- what each step stores

  /** A capture stores the plugins' own state under the least revision that is fresh, and changes nothing else. */
  lemma CaptureStores(store: Store, body: string)
    ensures Capture(store, None) == store
    ensures var after := Capture(store, Some(body));
            && after.session.snapshot == Some(Supported(after.stateRevision, body))
            && after.session == store.session.(snapshot := after.session.snapshot)
            && (after.stateRevision == store.session.metaRevision || after.stateRevision == store.stateRevision + 1 ||
                after.stateRevision == RevisionOf(store.session.snapshot) + 1 || after.stateRevision == U64_MAX)
  {
  }

  /** A turn counts one metadata revision on, until u64 is exhausted. */
  lemma TurnCounts(s: Session)
    ensures NextTurn(s).metaRevision == if s.metaRevision == 0xFFFF_FFFF_FFFF_FFFF then s.metaRevision else s.metaRevision + 1
    ensures NextTurn(s) == Session(NextTurn(s).metaRevision, s.snapshot, s.checkpoints, s.transcript)
  {
  }

  /** Some compaction of the transcript names the revision, or one inside a compaction does. */
  ghost predicate Mentions(entries: seq<Entry>, r: U64) {
    exists i :: 0 <= i < |entries| && entries[i].Compaction? &&
                (entries[i].stateRevision == Some(r) || Mentions(entries[i].entries, r))
  }

  /** Every revision a compaction names is referenced, however deep it lies, and no other. */
  lemma {:induction false} ReferencedIff(entries: seq<Entry>, r: U64)
    ensures r in Referenced(entries) <==> Mentions(entries, r)
    decreases entries
  {
    if entries != [] {
      assert entries[0] in entries;
      ReferencedIff(entries[1..], r);
      if entries[0].Compaction? {
        ReferencedIff(entries[0].entries, r);
      }
      MentionsHead(entries, r);
    }
  }

  lemma MentionsHead(entries: seq<Entry>, r: U64)
    requires entries != []
    ensures Mentions(entries, r) <==>
            Mentions(entries[1..], r) ||
            (entries[0].Compaction? && (entries[0].stateRevision == Some(r) || Mentions(entries[0].entries, r)))
  {
    if i :| 0 <= i < |entries[1..]| && entries[1..][i].Compaction? &&
            (entries[1..][i].stateRevision == Some(r) || Mentions(entries[1..][i].entries, r)) {
      assert entries[i + 1] == entries[1..][i];
    }
    if i :| 1 <= i < |entries| && entries[i].Compaction? &&
            (entries[i].stateRevision == Some(r) || Mentions(entries[i].entries, r)) {
      assert entries[1..][i - 1] == entries[i];
    }
  }

  /** A compaction evicts a checkpoint that its transcript still mentions only if all it keeps are mentioned. */
  lemma MentionedGoLast(codec: Codec, s: Session, transcript: seq<Entry>, revision: U64, out: Outside, lost: Snapshot)
    requires Compacted(codec, s, transcript, revision, out).Ok? && s.checkpoints.Kept? && lost in s.checkpoints.list
    requires lost.Supported? && Mentions(transcript, lost.revision)
    ensures var c := Compacted(codec, s, transcript, revision, out).value;
            c.checkpoints.Kept? &&
            (lost !in c.checkpoints.list ==>
               forall t :: t in c.checkpoints.list ==> t.Supported? && Mentions(transcript, t.revision))
  {
    hide Referenced, SnapshotAt, Mentions, Prune, Validate;
    var candidate := s.(transcript := transcript);
    forall r: U64 { ReferencedIff(transcript, r); }
    if !Quarantined(codec, candidate, revision) {
      var snapshot := CompactionSnapshot(codec, candidate, revision, out).value;
      if snapshot.Some? {
        InsertKeepsProtected(codec, s.checkpoints.list, snapshot.value, Referenced(transcript), lost);
      }
    }
  }

  lemma InsertKeepsProtected(codec: Codec, list: seq<Snapshot>, s: Snapshot, protected: set<U64>, lost: Snapshot)
    requires Insert(codec, Kept(list), s, protected).Ok? && lost in list && IsProtected(lost, protected)
    ensures var after := Insert(codec, Kept(list), s, protected).value;
            after.Kept? && (lost !in after.list ==> forall t :: t in after.list ==> IsProtected(t, protected))
  {
    hide Prune;
    var candidate := CandidateWith(codec, Kept(list), s).value;
    if candidate.Some? {
      ProtectedLast(codec, candidate.value, protected, lost);
    }
  }

  /**
   What a compaction checkpoints: the state the plugins hold now; without plugins the latest
   snapshot's, or nothing; and the checkpoint already there if the boundary has one.
   */
  lemma CompactionStores(codec: Codec, s: Session, transcript: seq<Entry>, revision: U64, out: Outside)
    requires Compacted(codec, s, transcript, revision, out).Ok? && !Quarantined(codec, s, revision)
    ensures var c := Compacted(codec, s, transcript, revision, out).value;
            var there := SnapshotAt(codec, s.checkpoints, revision);
            && c.transcript == transcript && c.metaRevision == s.metaRevision
            && (there.Ok? ==> c.checkpoints == s.checkpoints && c.snapshot == s.snapshot)
            && (there.Err? ==>
                  (out.plugins ==> out.captured.Some?) && (!out.plugins && s.snapshot.Some? ==> s.snapshot.value.Supported?) &&
                  var body := if out.plugins then out.captured.value
                              else if s.snapshot.Some? then s.snapshot.value.body else "";
                  SnapshotAt(codec, c.checkpoints, revision) == Ok(Supported(revision, body)) &&
                  c.snapshot == if RevisionOf(s.snapshot) <= revision then Some(Supported(revision, body)) else s.snapshot)
  {
    hide Insert, Referenced, SnapshotAt;
    OuterIsReferenced(transcript);
    var candidate := s.(transcript := transcript);
    var snapshot := CompactionSnapshot(codec, candidate, revision, out).value;
    if snapshot.Some? {
      InsertedIsFound(codec, candidate.checkpoints, snapshot.value, Referenced(transcript));
    }
  }

  /** A quarantined file keeps its checkpoints and its snapshot as they are. */
  lemma QuarantineKeeps(codec: Codec, s: Session, transcript: seq<Entry>, revision: U64, out: Outside)
    requires transcript != [] && transcript[0].Compaction? && transcript[0].stateRevision == Some(revision)
    ensures s.checkpoints.Foreign? ==>
              Compacted(codec, s, transcript, revision, out) == Ok(Session(s.metaRevision, s.snapshot, s.checkpoints, transcript))
    ensures s.checkpoints.Kept? ==> !Quarantined(codec, s, revision)
  {
    hide Find, Insert, Referenced;
  }

  /** When a compaction gives up. */
  lemma CompactionRefused(codec: Codec, s: Session, transcript: seq<Entry>, revision: U64, out: Outside)
    ensures transcript == [] || transcript[0].Message? || transcript[0].stateRevision != Some(revision) ==>
              Compacted(codec, s, transcript, revision, out) == Err(MissingRevision)
    ensures OuterRevision(transcript) == Some(revision) && s.checkpoints == Kept([]) ==>
              var r := Compacted(codec, s, transcript, revision, out);
              && (out.plugins && out.captured.None? ==> r == Err(CaptureFailed))
              && (!out.plugins && s.snapshot.Some? && s.snapshot.value.Unusable? ==> r == Err(UnsupportedSchema))
              && (!out.plugins && s.snapshot.Some? && s.snapshot.value.Supported? && revision < s.snapshot.value.revision ==>
                    r == Err(RevisionRegression))
              && (!out.plugins && s.snapshot.Some? && s.snapshot.value.Supported? && revision >= s.snapshot.value.revision ==>
                    (!out.advances ==> r == Err(InvalidSnapshot)))
  {
    hide Insert, Referenced;
  }

  /** A checkpoint at the boundary that cannot be applied stops the compaction. */
  lemma UnusableCheckpointStops(codec: Codec, s: Session, transcript: seq<Entry>, revision: U64, out: Outside)
    requires transcript != [] && transcript[0].Compaction? && transcript[0].stateRevision == Some(revision)
    requires SnapshotAt(codec, s.checkpoints, revision) == Err(InvalidSnapshot)
    ensures Compacted(codec, s, transcript, revision, out) == Err(InvalidSnapshot)
  {
    hide SnapshotAt, Insert, Referenced;
  }

  /** Otherwise a new boundary gets the state there is, and the compaction stands or falls with its insertion. */
  lemma CompactionProceeds(codec: Codec, s: Session, transcript: seq<Entry>, revision: U64, out: Outside, body: string)
    requires transcript != [] && transcript[0].Compaction? && transcript[0].stateRevision == Some(revision)
    requires SnapshotAt(codec, s.checkpoints, revision) in {Err(MissingRevision), Err(FutureRevision)}
    requires if out.plugins then out.captured == Some(body)
             else if s.snapshot.None? then body == ""
             else s.snapshot.value.Supported? && s.snapshot.value.revision <= revision && s.snapshot.value.body == body && out.advances
    ensures var inserted := Insert(codec, s.checkpoints, Supported(revision, body), Referenced(transcript));
            var c := Compacted(codec, s, transcript, revision, out);
            if inserted.Err? then c == Err(inserted.error) else c.Ok? && c.value.checkpoints == inserted.value
  {
    hide SnapshotAt, Insert, Referenced;
  }

  /** Only unusable metadata is an error when a snapshot is selected, and only if a newer one is asked for. */
  lemma HydrationFails(codec: Codec, s: Session, r: U64)
    requires s.transcript != [] && s.transcript[0].Compaction? && s.transcript[0].stateRevision == Some(r)
    requires r > RevisionOf(s.snapshot)
    ensures s.checkpoints.Foreign? ==> HydrationSnapshot(codec, s).Err?
    ensures s.checkpoints == Kept([]) ==> HydrationSnapshot(codec, s) == Ok(s.snapshot)
    ensures SnapshotAt(codec, s.checkpoints, r) == Err(FutureRevision) ==> HydrationSnapshot(codec, s) == Ok(s.snapshot)
    ensures SnapshotAt(codec, s.checkpoints, r) == Err(InvalidSnapshot) ==> HydrationSnapshot(codec, s) == Err(InvalidSnapshot)
  {
    hide Find;
    NoSnapshotAt(codec, r);
  }

  /** Runs go step by step from nothing on disk; one store is live at a time. */
  lemma RunSteps(codec: Codec, steps: seq<Step>, step: Step, w: World)
    ensures Run(codec, []) == World(None, None, [])
    ensures Run(codec, steps + [step]) == Apply(codec, Run(codec, steps), step)
    ensures Apply(codec, w, Close) == World(w.disk, None, [])
    ensures step.Open? && w.store.Some? ==> Apply(codec, w, step) == w
    ensures !step.Open? && w.store.None? && !step.Close? ==> Apply(codec, w, step) == w
  {
    hide OnOpen, OnTurn, OnCheckpoint;
    assert (steps + [step])[..|steps|] == steps;
  }

  /** What counts as the revision on disk. */
  lemma DiskRevisionIs(w: World, s: Session)
    requires w.disk == Some(s)
    ensures s.snapshot.Some? && s.snapshot.value.Supported? ==> DiskRevision(w) == s.snapshot.value.revision
    ensures s.snapshot.None? || s.snapshot.value.Unusable? ==> DiskRevision(w) == 0
  {
  }

  /** A turn of a live store: the store moves on, and the file follows it exactly if the save succeeds. */
  lemma TurnSaved(codec: Codec, w: World, transcript: seq<Entry>, captured: Option<string>, saveOk: bool)
    requires w.store.Some?
    ensures Apply(codec, w, Turn(transcript, false, captured, saveOk)) == w
    ensures Apply(codec, w, TurnStarted(false, captured, saveOk)) == w
    ensures var a := Apply(codec, w, Turn(transcript, true, captured, saveOk));
            && a.store.Some? && a.store.value.session.transcript == transcript
            && a.store.value.session.checkpoints == w.store.value.session.checkpoints
            && (captured.Some? ==> a.store.value.session.snapshot == Some(Supported(a.store.value.stateRevision, captured.value)))
            && (captured.None? ==> a.store.value.session.snapshot == w.store.value.session.snapshot)
            && a.disk == if saveOk then Some(a.store.value.session) else w.disk
    ensures var a := Apply(codec, w, TurnStarted(true, captured, saveOk));
            a == Apply(codec, w, Turn(w.store.value.session.transcript, true, captured, saveOk))
  {
  }

  /** A checkpoint step changes the store and the file together, or neither. */
  lemma CheckpointSaved(codec: Codec, w: World, transcript: seq<Entry>, revision: U64, out: Outside, saveOk: bool)
    requires w.store.Some?
    ensures var r := Compacted(codec, w.store.value.session, transcript, revision, out);
            var a := Apply(codec, w, Checkpoint(transcript, revision, out, saveOk));
            if r.Ok? && saveOk then
              a.store.Some? && a.store.value.session == r.value && a.disk == Some(r.value) &&
              a.store.value.stateRevision >= revision && a.store.value.stateRevision >= w.store.value.stateRevision &&
              (a.store.value.stateRevision == revision || a.store.value.stateRevision == w.store.value.stateRevision) &&
              a.recorded == w.recorded + [revision]
            else a == w
  {
    hide Compacted;
  }

  /** Opening a file reads it back; opening none starts a session at revision 0 and saves its first turn. */
  lemma OpenReads(codec: Codec, w: World, metaOk: bool, captured: Option<string>, saveOk: bool)
    requires w.store.None?
    ensures Apply(codec, w, Open(false, metaOk, captured, saveOk)) == w
    ensures var a := Apply(codec, w, Open(true, metaOk, captured, saveOk));
            && a.store.Some?
            && (w.disk.Some? ==> a.disk == w.disk && a.store.value.session == w.disk.value &&
                                 a.store.value.stateRevision == RevisionOf(Hydrated(codec, w.disk.value)))
            && (w.disk.None? && metaOk ==>
                  a.store.value.session.metaRevision == 1 && a.store.value.session.transcript == [] &&
                  a.disk == (if saveOk then Some(a.store.value.session) else None) &&
                  (captured.Some? ==> a.store.value.session.snapshot == Some(Supported(1, captured.value))))
            && (w.disk.None? && !metaOk ==> a.disk == None && a.store.value.session == Session(0, None, Kept([]), []))
  {
    hide Find;
  }

  /** Which snapshot a reopened session starts from. */
  lemma HydratedIs(codec: Codec, s: Session, r: U64)
    ensures s.transcript == [] || s.transcript[0].Message? ==> Hydrated(codec, s) == s.snapshot
    ensures s.transcript != [] && s.transcript[0].Compaction? && s.transcript[0].stateRevision == Some(r) ==>
              var at := SnapshotAt(codec, s.checkpoints, r);
              Hydrated(codec, s) == if r > RevisionOf(s.snapshot) && at.Ok? then Some(at.value) else s.snapshot
  {
    hide SnapshotAt;
  }
}
