/** The run lock and the event files, over every run of store operations and crashes. */
module RunStoreSafety {
  import opened Common
  import opened Events
  import opened RunStore
  import IncidentRuns

  // ---------------------------------------------------------------- what the disk always satisfies

  /** A manifest vouches for a valid stream; the event file holds it, or one event more. */
  predicate FolderKept(id: string, f: Folder) {
    && SafeId(id)
    && (f.manifest.Stored? ==>
      var m := f.manifest.manifest;
      && m.incidentId == id && m.eventCount == |m.digest.content| && ValidStream(m.digest.content)
      && (f.events.Some? ==> HeldOrTorn(m.digest.content, f.events.value)))
  }

  predicate HeldOrTorn(committed: seq<Event>, file: seq<Event>) {
    file == committed || (|file| == |committed| + 1 && committed <= file)
  }

  predicate DiskKept(disk: Disk) {
    forall id :: id in disk ==> FolderKept(id, disk[id])
  }

  /** The stream a manifest vouches for. */
  function Committed(disk: Disk, id: string): Option<seq<Event>> {
    if id in disk && disk[id].manifest.Stored? then Some(disk[id].manifest.manifest.digest.content) else None
  }

  /** A committed stream is kept, and grows only by appending. */
  predicate Extends(before: Option<seq<Event>>, after: Option<seq<Event>>) {
    before.Some? ==> after.Some? && before.value <= after.value
  }

  // ---------------------------------------------------------------- disks at write boundaries

  /** The disk after the first `k` writes of an operation. */
  function Boundary(disk: Disk, ws: seq<DiskWrite>, k: nat): Disk
    requires k <= |ws|
  {
    PerformAll(disk, ws[..k])
  }

  lemma {:induction false} StartBoundary(disk: Disk, id: string, backend: string, k: nat)
    requires k <= 3 && id !in disk
    ensures Boundary(disk, StartWrites(id, backend), k) ==
      if k == 0 then disk
      else if k == 1 then disk[id := Folder(NoManifest, None)]
      else if k == 2 then disk[id := Folder(NoManifest, Some([]))]
      else disk[id := Folder(Stored(NewManifest(id, backend)), Some([]))]
  {
    var ws := StartWrites(id, backend);
    assert ws[..0] == [] && ws[..1] == [ws[0]] && ws[..2] == [ws[0], ws[1]] && ws[..3] == [ws[0], ws[1], ws[2]];
    PerformOne(disk, ws[0]);
    PerformTwo(disk, ws[0], ws[1]);
    PerformThree(disk, ws[0], ws[1], ws[2]);
  }

  lemma {:induction false} AppendBoundary(disk: Disk, m: Manifest, events: seq<Event>, event: Event, k: nat)
    requires k <= 2 && event.incidentId in disk && m.incidentId == event.incidentId
    requires disk[event.incidentId] == Folder(Stored(m), Some(events))
    ensures Boundary(disk, AppendWrites(m, events, event), k) ==
      if k == 0 then disk
      else disk[event.incidentId := Folder(
        Stored(if k == 1 then m else m.(eventCount := |events| + 1, digest := Sha256(events + [event]))),
        Some(events + [event]))]
  {
    var ws := AppendWrites(m, events, event);
    assert ws[..0] == [] && ws[..1] == [ws[0]] && ws[..2] == [ws[0], ws[1]];
    PerformOne(disk, ws[0]);
    PerformTwo(disk, ws[0], ws[1]);
  }

  lemma {:induction false} OneWriteBoundary(disk: Disk, m: Manifest, k: nat)
    requires k <= 1 && m.incidentId in disk
    ensures Boundary(disk, [WriteManifest(m)], k) ==
      if k == 0 then disk else disk[m.incidentId := disk[m.incidentId].(manifest := Stored(m))]
  {
    assert [WriteManifest(m)][..0] == [] && [WriteManifest(m)][..1] == [WriteManifest(m)];
    PerformOne(disk, WriteManifest(m));
  }

  lemma {:induction false} DeleteBoundary(disk: Disk, id: string, k: nat)
    requires id in disk && k <= |DeleteWrites(disk, id)|
    ensures var after := Boundary(disk, DeleteWrites(disk, id), k);
      if k == 0 then after == disk
      else if k == |DeleteWrites(disk, id)| then after == disk - {id}
      else after == disk[id := Folder(NoManifest, if k == 1 then disk[id].events else None)]
  {
    var ws := DeleteWrites(disk, id);
    assert ws[..0] == [] && ws[..1] == [ws[0]] && ws[..2] == [ws[0], ws[1]];
    PerformOne(disk, ws[0]);
    PerformTwo(disk, ws[0], ws[1]);
    if |ws| == 3 {
      assert ws[..3] == [ws[0], ws[1], ws[2]];
      PerformThree(disk, ws[0], ws[1], ws[2]);
    }
  }

  /** What an accepted append works on. */
  lemma {:induction false} AppendPlanned(disk: Disk, event: Event)
    requires DiskKept(disk) && PlanAppend(disk, event).Ok?
    ensures var id := event.incidentId;
      && id in disk && GetManifest(disk, id).Ok? && GetEvents(disk, id).Ok?
      && var m, events := GetManifest(disk, id).value, GetEvents(disk, id).value;
      && disk[id] == Folder(Stored(m), Some(events)) && m.incidentId == id && m.digest == Sha256(events)
      && ValidStream(events + [event]) && m.mode == Live && m.status != RunFailed
      && PlanAppend(disk, event).value == AppendWrites(m, events, event)
  {
    assert FolderKept(event.incidentId, disk[event.incidentId]);
  }

  // ---------------------------------------------------------------- one operation, stopped anywhere

  /** Only this folder changed, it is still kept, and its stream was kept or grew. */
  ghost predicate OneFolderChanged(disk: Disk, after: Disk, id: string) {
    && (forall x :: x != id ==> (x in after <==> x in disk) && (x in disk ==> after[x] == disk[x]))
    && (id in after ==> FolderKept(id, after[id]))
  }

  lemma {:induction false} AppendFolders(disk: Disk, event: Event, k: nat)
    requires DiskKept(disk) && PlanAppend(disk, event).Ok? && k <= |PlanAppend(disk, event).value|
    ensures var after := Boundary(disk, PlanAppend(disk, event).value, k);
      OneFolderChanged(disk, after, event.incidentId) && Extends(Committed(disk, event.incidentId), Committed(after, event.incidentId))
  {
    hide ValidStream, ValidateStream;
    AppendPlanned(disk, event);
    AppendBoundary(disk, GetManifest(disk, event.incidentId).value, GetEvents(disk, event.incidentId).value, event, k);
  }

  /** Folders other than the operation's own are untouched at every boundary, and its own stays kept. */
  lemma {:induction false} BoundaryFolders(disk: Disk, active: Option<string>, op: Op, k: nat)
    requires DiskKept(disk) && Plan(disk, active, op).Ok? && k <= |Plan(disk, active, op).value|
    ensures var after := Boundary(disk, Plan(disk, active, op).value, k);
      && OneFolderChanged(disk, after, OpId(op))
      && (!op.DeleteRun? ==> Extends(Committed(disk, OpId(op)), Committed(after, OpId(op))))
  {
    match op
    case StartRun(id, backend) => StartBoundary(disk, id, backend, k);
    case AppendEvent(event) => AppendFolders(disk, event, k);
    case DeleteRun(id) => DeleteBoundary(disk, id, k);
    case _ =>
      assert FolderKept(op.id, disk[op.id]);
      OneWriteBoundary(disk, Plan(disk, active, op).value[0].manifest, k);
  }

  lemma {:induction false} BoundaryKept(disk: Disk, active: Option<string>, op: Op, k: nat)
    requires DiskKept(disk) && Plan(disk, active, op).Ok? && k <= |Plan(disk, active, op).value|
    ensures DiskKept(Boundary(disk, Plan(disk, active, op).value, k))
    ensures forall id :: !(op.DeleteRun? && op.id == id) ==>
      Extends(Committed(disk, id), Committed(Boundary(disk, Plan(disk, active, op).value, k), id))
  {
    BoundaryFolders(disk, active, op, k);
    var after := Boundary(disk, Plan(disk, active, op).value, k);
    forall id | id in after ensures FolderKept(id, after[id]) {
      if id != OpId(op) { assert FolderKept(id, disk[id]); }
    }
  }

  lemma {:induction false} StartLock(disk: Disk, id: string, backend: string, k: nat)
    requires k <= 3 && id !in disk && Locked(disk, None)
    ensures Locked(Boundary(disk, StartWrites(id, backend), k), if k == 3 then Some(id) else None)
  {
    StartBoundary(disk, id, backend, k);
  }

  lemma {:induction false} SameStatusLock(disk: Disk, after: Disk, id: string, active: Option<string>)
    requires Locked(disk, active)
    requires forall x :: x != id ==> (x in after <==> x in disk) && (x in disk ==> after[x] == disk[x])
    requires LiveRunning(after, id) <==> LiveRunning(disk, id)
    ensures Locked(after, active)
  {
    forall x ensures LiveRunning(after, x) <==> active == Some(x) {
      assert x != id ==> (LiveRunning(after, x) <==> LiveRunning(disk, x));
    }
  }

  lemma {:induction false} AppendLock(disk: Disk, active: Option<string>, event: Event, k: nat)
    requires DiskKept(disk) && Locked(disk, active) && PlanAppend(disk, event).Ok? && k <= 2
    ensures Locked(Boundary(disk, PlanAppend(disk, event).value, k), active)
  {
    hide GetEvents, GetManifest, Boundary, ValidStream, Locked;
    AppendPlanned(disk, event);
    AppendBoundary(disk, GetManifest(disk, event.incidentId).value, GetEvents(disk, event.incidentId).value, event, k);
    SameStatusLock(disk, Boundary(disk, PlanAppend(disk, event).value, k), event.incidentId, active);
  }

  lemma {:induction false} DeleteLock(disk: Disk, active: Option<string>, id: string, k: nat)
    requires Locked(disk, active) && id in disk && !LiveRunning(disk, id) && k <= |DeleteWrites(disk, id)|
    ensures Locked(Boundary(disk, DeleteWrites(disk, id), k), active)
  {
    hide Boundary, DeleteWrites, Locked;
    DeleteBoundary(disk, id, k);
    SameStatusLock(disk, Boundary(disk, DeleteWrites(disk, id), k), id, active);
  }

  /** A manifest that ends a run gives up its lock; any other leaves the lock alone. */
  lemma {:induction false} ManifestLock(disk: Disk, active: Option<string>, m: Manifest)
    requires m.incidentId in disk && Locked(disk, active)
    requires disk[m.incidentId].manifest.Stored?
    requires var before := disk[m.incidentId].manifest.manifest;
      m.mode == before.mode && (m.status == before.status || m.status != Running)
    ensures Locked(disk[m.incidentId := disk[m.incidentId].(manifest := Stored(m))],
      if m.status != Running && active == Some(m.incidentId) then None else active)
  {
    var after := disk[m.incidentId := disk[m.incidentId].(manifest := Stored(m))];
    forall x ensures x != m.incidentId ==> (LiveRunning(after, x) <==> LiveRunning(disk, x)) {}
  }

  lemma {:induction false} OneWriteLock(disk: Disk, active: Option<string>, op: Op, k: nat)
    requires DiskKept(disk) && Locked(disk, active) && (op.FinishRun? || op.FailRun? || op.UpdateState?)
    requires Plan(disk, active, op).Ok? && k <= |Plan(disk, active, op).value|
    ensures var ws := Plan(disk, active, op).value;
      Locked(Boundary(disk, ws, k), if k == |ws| then ActiveAfter(active, op) else active)
  {
    hide Boundary, GetEvents, Locked;
    var ws := Plan(disk, active, op).value;
    assert FolderKept(op.id, disk[op.id]);
    OneWriteBoundary(disk, ws[0].manifest, k);
    ManifestLock(disk, active, ws[0].manifest);
    if op.UpdateState? { UpdatedLock(disk, active, op.id); }
  }

  /** The lock of a run that is not running is not held, so giving it up changes nothing. */
  lemma {:induction false} UpdatedLock(disk: Disk, active: Option<string>, id: string)
    requires Locked(disk, active) && id in disk && disk[id].manifest.Stored?
    ensures disk[id].manifest.manifest.status != Running ==> active != Some(id)
  {
    assert LiveRunning(disk, id) <==> active == Some(id);
  }

  /** At every write boundary the lock that the process holds is the one the manifests show. */
  lemma {:induction false} BoundaryLock(disk: Disk, active: Option<string>, op: Op, k: nat)
    requires DiskKept(disk) && Locked(disk, active) && Plan(disk, active, op).Ok? && k <= |Plan(disk, active, op).value|
    ensures var ws := Plan(disk, active, op).value;
      Locked(Boundary(disk, ws, k), if k == |ws| then ActiveAfter(active, op) else active)
  {
    hide Boundary, Locked, DiskKept, GetEvents, PlanAppend;
    match op
    case StartRun(id, backend) => StartLock(disk, id, backend, k);
    case AppendEvent(event) =>
      AppendPlanned(disk, event);
      AppendLock(disk, active, event, k);
    case DeleteRun(id) =>
      UpdatedLock(disk, active, id);
      DeleteLock(disk, active, id, k);
    case _ => OneWriteLock(disk, active, op, k);
  }

  /** Reopening finds the lock that was held. */
  lemma {:induction false} RebuiltIsLock(disk: Disk, held: Option<string>, reopened: Option<string>)
    requires DiskKept(disk) && Locked(disk, held) && Rebuilt(disk, reopened)
    ensures reopened == held
  {
    match reopened
    case Some(id) =>
      var folder :| LiveRunning(disk, folder) && disk[folder].manifest.manifest.incidentId == id;
      assert FolderKept(folder, disk[folder]);
    case None =>
      assert forall id :: !LiveRunning(disk, id);
  }

  // ---------------------------------------------------------------- whole runs

  datatype World = World(disk: Disk, active: Option<string>)

  /** An operation that completes, or one stopped after some writes by a crash and a reopening. */
  datatype Step = Complete(op: Op) | Crash(op: Op, writes: nat, reopened: Option<string>)

  function WritesOf(w: World, op: Op): seq<DiskWrite> {
    var plan := Plan(w.disk, w.active, op);
    if plan.Ok? then plan.value else []
  }

  ghost predicate Enabled(w: World, s: Step) {
    s.Crash? ==> s.writes <= |WritesOf(w, s.op)| && Rebuilt(Boundary(w.disk, WritesOf(w, s.op), s.writes), s.reopened)
  }

  function After(w: World, s: Step): World
    requires s.Crash? ==> s.writes <= |WritesOf(w, s.op)|
  {
    match s
    case Complete(op) =>
      if Plan(w.disk, w.active, op).Err? then w
      else World(PerformAll(w.disk, WritesOf(w, op)), ActiveAfter(w.active, op))
    case Crash(op, k, reopened) => World(Boundary(w.disk, WritesOf(w, op), k), reopened)
  }

  /** `worlds` is a run through `steps`. */
  ghost predicate IsRun(worlds: seq<World>, steps: seq<Step>) {
    && |worlds| == |steps| + 1
    && forall i :: 0 <= i < |steps| ==> Enabled(worlds[i], steps[i]) && worlds[i + 1] == After(worlds[i], steps[i])
  }

  ghost predicate Sound(w: World) {
    DiskKept(w.disk) && Locked(w.disk, w.active)
  }

  predicate Deletes(s: Step, id: string) {
    s.op.DeleteRun? && s.op.id == id
  }

  lemma {:induction false} StepIsSound(w: World, s: Step)
    requires Sound(w) && Enabled(w, s)
    ensures Sound(After(w, s))
    ensures forall id :: !Deletes(s, id) ==> Extends(Committed(w.disk, id), Committed(After(w, s).disk, id))
  {
    var ws := WritesOf(w, s.op);
    assert ws[..|ws|] == ws && ws[..0] == [];
    if Plan(w.disk, w.active, s.op).Ok? {
      var k := if s.Crash? then s.writes else |ws|;
      BoundaryKept(w.disk, w.active, s.op, k);
      BoundaryLock(w.disk, w.active, s.op, k);
      if s.Crash? {
        RebuiltIsLock(Boundary(w.disk, ws, k), if k == |ws| then ActiveAfter(w.active, s.op) else w.active, s.reopened);
      }
    } else if s.Crash? {
      RebuiltIsLock(w.disk, w.active, s.reopened);
    }
  }

  /** After any sequence of operations and crashes, at most one live run is running, and it is exactly
      the one the lock names; so a store reopened at any write boundary holds the right lock. */
  lemma {:induction false} RunLock(worlds: seq<World>, steps: seq<Step>, i: nat)
    requires IsRun(worlds, steps) && Sound(worlds[0]) && i < |worlds|
    ensures Sound(worlds[i])
    ensures forall a, b :: LiveRunning(worlds[i].disk, a) && LiveRunning(worlds[i].disk, b) ==> a == b
  {
    if i > 0 {
      RunLock(worlds, steps, i - 1);
      StepIsSound(worlds[i - 1], steps[i - 1]);
      assert worlds[i] == After(worlds[i - 1], steps[i - 1]);
    }
  }

  lemma {:induction false} ExtendsTwice(a: Option<seq<Event>>, b: Option<seq<Event>>, c: Option<seq<Event>>)
    requires Extends(a, b) && Extends(b, c)
    ensures Extends(a, c)
  {
  }

  lemma {:induction false} StepExtends(worlds: seq<World>, steps: seq<Step>, id: string, k: nat)
    requires IsRun(worlds, steps) && k < |steps| && Sound(worlds[k]) && !Deletes(steps[k], id)
    ensures Extends(Committed(worlds[k].disk, id), Committed(worlds[k + 1].disk, id))
  {
    StepIsSound(worlds[k], steps[k]);
  }

  lemma {:induction false} StreamsExtend(worlds: seq<World>, steps: seq<Step>, id: string, i: nat, j: nat)
    requires IsRun(worlds, steps) && Sound(worlds[0]) && i <= j < |worlds|
    requires forall k :: i <= k < j ==> !Deletes(steps[k], id)
    ensures Extends(Committed(worlds[i].disk, id), Committed(worlds[j].disk, id))
    decreases j
  {
    if i < j {
      StreamsExtend(worlds, steps, id, i, j - 1);
      RunLock(worlds, steps, j - 1);
      StepExtends(worlds, steps, id, j - 1);
      ExtendsTwice(Committed(worlds[i].disk, id), Committed(worlds[j - 1].disk, id), Committed(worlds[j].disk, id));
    }
  }

  /** No torn reads: with crashes anywhere, a read returns a valid committed stream or raises, and of
      two reads without a deletion between them the later returns an extension of the earlier. */
  lemma {:induction false} NoTornReads(worlds: seq<World>, steps: seq<Step>, id: string, i: nat, j: nat)
    requires IsRun(worlds, steps) && Sound(worlds[0]) && i <= j < |worlds|
    requires forall k :: i <= k < j ==> !Deletes(steps[k], id)
    requires GetEvents(worlds[i].disk, id).Ok? && GetEvents(worlds[j].disk, id).Ok?
    ensures ValidStream(GetEvents(worlds[j].disk, id).value)
    ensures GetEvents(worlds[i].disk, id).value <= GetEvents(worlds[j].disk, id).value
  {
    StreamsExtend(worlds, steps, id, i, j);
  }

  // ---------------------------------------------------------------- what a crash leaves behind

  /** When a run can be read: its file is the one the manifest vouches for, and no event breaks its line. */
  lemma {:induction false} ReadableIff(disk: Disk, id: string)
    requires DiskKept(disk) && id in disk && disk[id].manifest.Stored?
    ensures var content := disk[id].manifest.manifest.digest.content;
      && (GetEvents(disk, id).Ok? <==> disk[id].events == Some(content) && forall e :: e in content ==> StorableEvent(e))
      && (GetEvents(disk, id).Ok? ==> GetEvents(disk, id).value == content)
  {
    assert FolderKept(id, disk[id]);
    var content := disk[id].manifest.manifest.digest.content;
    if FirstBroken(content) < |content| {
      assert content[FirstBroken(content)] in content;
    }
  }

  /** Before an append the run can be read; between its two writes a read raises; after them it returns
      the longer stream exactly when the new event does not break its line, and raises otherwise. */
  lemma {:induction false} ReadDuringAppend(disk: Disk, event: Event, k: nat)
    requires DiskKept(disk) && PlanAppend(disk, event).Ok? && k <= 2
    ensures var id := event.incidentId;
      var before, during := GetEvents(disk, id).value, GetEvents(Boundary(disk, PlanAppend(disk, event).value, k), id);
      during ==
        if k == 0 then Ok(before)
        else if k == 1 then Err(DigestMismatch)
        else if StorableEvent(event) then Ok(before + [event])
        else Err(InvalidStream(InvalidLine(|before| + 1)))
  {
    AppendPlanned(disk, event);
    var before := GetEvents(disk, event.incidentId).value;
    AppendBoundary(disk, GetManifest(disk, event.incidentId).value, before, event, k);
    FirstBrokenLast(before, event);
  }

  lemma {:induction false} FirstBrokenLast(events: seq<Event>, event: Event)
    requires FirstBroken(events) == |events|
    ensures FirstBroken(events + [event]) == if StorableEvent(event) then |events| + 1 else |events|
  {
    assert forall i :: 0 <= i < |events| ==> (events + [event])[i] == events[i];
    assert (events + [event])[|events|] == event;
  }

  /** There is a manifest, and reading the events raises. */
  predicate Unreadable(disk: Disk, id: string) {
    id in disk && disk[id].manifest.Stored? && GetEvents(disk, id).Err?
  }

  /** The same file, digest and count; the status is what it was, or failed. */
  predicate SameFile(before: Folder, after: Folder)
    requires before.manifest.Stored?
  {
    && after.manifest.Stored? && after.events == before.events
    && after.manifest.manifest.digest == before.manifest.manifest.digest
    && after.manifest.manifest.eventCount == before.manifest.manifest.eventCount
    && after.manifest.manifest.mode == before.manifest.manifest.mode
    && (after.manifest.manifest.status == before.manifest.manifest.status || after.manifest.manifest.status == RunFailed)
  }

  /** What an unreadable run still allows: it can be failed, its incident state can be updated, and it
      can be deleted once it is not running. It cannot be appended to, finished, exported or restarted. */
  lemma {:induction false} UnreadableAllows(disk: Disk, active: Option<string>, id: string, op: Op, destination: Disk)
    requires DiskKept(disk) && Unreadable(disk, id) && OpId(op) == id
    ensures PlanExport(disk, destination, id).Err?
    ensures Plan(disk, active, op).Ok? <==>
      op.FailRun? || op.UpdateState? || (op.DeleteRun? && disk[id].manifest.manifest.status != Running)
  {
    assert FolderKept(id, disk[id]);
  }

  lemma {:induction false} UnreadableStep(w: World, s: Step, id: string)
    requires Sound(w) && Enabled(w, s) && Unreadable(w.disk, id) && !Deletes(s, id)
    ensures id in After(w, s).disk && SameFile(w.disk[id], After(w, s).disk[id])
  {
    hide GetEvents;
    var ws := WritesOf(w, s.op);
    assert ws[..|ws|] == ws && ws[..0] == [];
    var k := if s.Crash? then s.writes else |ws|;
    if Plan(w.disk, w.active, s.op).Ok? {
      BoundaryFolders(w.disk, w.active, s.op, k);
      if OpId(s.op) == id {
        UnreadableAllows(w.disk, w.active, id, s.op, map[]);
        assert FolderKept(id, w.disk[id]);
        OneWriteBoundary(w.disk, ws[0].manifest, k);
      }
    }
  }

  lemma {:induction false} SameFileReadsAlike(disk: Disk, after: Disk, id: string)
    requires id in disk && id in after && disk[id].manifest.Stored? && SameFile(disk[id], after[id])
    ensures GetEvents(after, id) == GetEvents(disk, id)
  {
  }

  /** A run that cannot be read stays so for the same reason, through operations and further crashes,
      until it is deleted. */
  lemma {:induction false} UnreadableStays(worlds: seq<World>, steps: seq<Step>, id: string, i: nat, j: nat)
    requires IsRun(worlds, steps) && Sound(worlds[0]) && i <= j < |worlds| && Unreadable(worlds[i].disk, id)
    requires forall k :: i <= k < j ==> !Deletes(steps[k], id)
    ensures Unreadable(worlds[j].disk, id) && SameFile(worlds[i].disk[id], worlds[j].disk[id])
    ensures GetEvents(worlds[j].disk, id) == GetEvents(worlds[i].disk, id)
    decreases j
  {
    hide GetEvents;
    if i < j {
      UnreadableStays(worlds, steps, id, i, j - 1);
      RunLock(worlds, steps, j - 1);
      UnreadableStep(worlds[j - 1], steps[j - 1], id);
      assert worlds[j] == After(worlds[j - 1], steps[j - 1]);
      SameFileReadsAlike(worlds[i].disk, worlds[j].disk, id);
    }
  }

  /** From world `j` on the run is read as `error`, and refuses all but failing, updating and deleting. */
  ghost predicate StuckAt(w: World, id: string, op: Op, error: StoreError) {
    && GetEvents(w.disk, id) == Err(error)
    && id in w.disk && w.disk[id].manifest.Stored?
    && (Plan(w.disk, w.active, op).Ok? <==>
      op.FailRun? || op.UpdateState? || (op.DeleteRun? && w.disk[id].manifest.manifest.status != Running))
  }

  lemma {:induction false} UnreadableIsStuck(worlds: seq<World>, steps: seq<Step>, i: nat, j: nat, id: string, op: Op)
    requires IsRun(worlds, steps) && Sound(worlds[0]) && i <= j < |worlds| && Unreadable(worlds[i].disk, id) && OpId(op) == id
    requires forall k :: i <= k < j ==> !Deletes(steps[k], id)
    ensures StuckAt(worlds[j], id, op, GetEvents(worlds[i].disk, id).error)
  {
    RunLock(worlds, steps, j);
    UnreadableStays(worlds, steps, id, i, j);
    UnreadableAllows(worlds[j].disk, worlds[j].active, id, op, map[]);
  }

  /** An append that crashes between its two writes is never completed: in every later world, until
      the run is deleted, an operation on it is accepted exactly when it fails it, updates its
      incident state, or deletes it after it was failed. */
  lemma {:induction false} TornAppendIsStuck(worlds: seq<World>, steps: seq<Step>, i: nat, j: nat, event: Event, op: Op)
    requires IsRun(worlds, steps) && Sound(worlds[0]) && i < j < |worlds|
    requires steps[i].Crash? && steps[i].op == AppendEvent(event) && steps[i].writes == 1
    requires PlanAppend(worlds[i].disk, event).Ok? && OpId(op) == event.incidentId
    requires forall k :: i < k < j ==> !Deletes(steps[k], event.incidentId)
    ensures StuckAt(worlds[j], event.incidentId, op, DigestMismatch)
  {
    RunLock(worlds, steps, i);
    assert worlds[i + 1] == After(worlds[i], steps[i]);
    AppendedFolder(worlds[i].disk, event, 1);
    ReadDuringAppend(worlds[i].disk, event, 1);
    UnreadableIsStuck(worlds, steps, i + 1, j, event.incidentId, op);
  }

  lemma {:induction false} AppendedFolder(disk: Disk, event: Event, k: nat)
    requires DiskKept(disk) && PlanAppend(disk, event).Ok? && k <= 2
    ensures var after := Boundary(disk, PlanAppend(disk, event).value, k);
      event.incidentId in after && after[event.incidentId].manifest.Stored?
  {
    AppendPlanned(disk, event);
    AppendBoundary(disk, GetManifest(disk, event.incidentId).value, GetEvents(disk, event.incidentId).value, event, k);
  }

  /** An append that did both its writes, completed or followed by a crash. */
  predicate Appended(s: Step, event: Event) {
    s.op == AppendEvent(event) && (s.Crash? ==> s.writes == 2)
  }

  /** The store accepts an event that it can never read again: after the append of one that breaks its
      line, every read raises in every later world until the run is deleted, and so does every append,
      finish and export; the run can only be failed, have its state updated, and be deleted once failed. */
  lemma {:induction false} BrokenAppendIsStuck(worlds: seq<World>, steps: seq<Step>, i: nat, j: nat, event: Event, op: Op)
    requires IsRun(worlds, steps) && Sound(worlds[0]) && i < j < |worlds|
    requires Appended(steps[i], event) && PlanAppend(worlds[i].disk, event).Ok? && !StorableEvent(event)
    requires OpId(op) == event.incidentId
    requires forall k :: i < k < j ==> !Deletes(steps[k], event.incidentId)
    ensures StuckAt(worlds[j], event.incidentId, op, InvalidStream(InvalidLine(event.sequence + 1)))
  {
    RunLock(worlds, steps, i);
    assert worlds[i + 1] == After(worlds[i], steps[i]);
    var ws := PlanAppend(worlds[i].disk, event).value;
    AppendPlanned(worlds[i].disk, event);
    assert |ws| == 2 && ws[..2] == ws;
    AppendedFolder(worlds[i].disk, event, 2);
    ReadDuringAppend(worlds[i].disk, event, 2);
    assert event.sequence == |GetEvents(worlds[i].disk, event.incidentId).value|;
    UnreadableIsStuck(worlds, steps, i + 1, j, event.incidentId, op);
  }

  /** The event that records the creation of an incident with this symptom. */
  function CreatedEvent(id: string, symptom: string, payload: map<string, string>): Event {
    IncidentRuns.KnownDraftsAreValid(symptom, payload);
    EventFrom(id, 0, IncidentRuns.CreatedDraft(symptom, payload))
  }

  lemma {:induction false} BrokenCreation(id: string, symptom: string, payload: map<string, string>)
    requires '\U{2028}' in symptom
    ensures var event := CreatedEvent(id, symptom, payload);
      event.incidentId == id && event.sequence == 0 && !StorableEvent(event)
  {
    var event := CreatedEvent(id, symptom, payload);
    var i :| 0 <= i < |symptom| && symptom[i] == '\U{2028}';
    assert !Storable(event.payload["symptom"]);
  }

  lemma {:induction false} FreshRun(worlds: seq<World>, steps: seq<Step>, id: string, backend: string)
    requires IsRun(worlds, steps) && worlds[0] == World(map[], None) && |worlds| > 1
    requires SafeId(id) && steps[0] == Complete(StartRun(id, backend))
    ensures id in worlds[1].disk && worlds[1].disk[id] == Folder(Stored(NewManifest(id, backend)), Some([]))
  {
    assert worlds[1] == After(worlds[0], steps[0]);
    StartBoundary(map[], id, backend, 3);
    var ws := StartWrites(id, backend);
    assert ws[..3] == ws;
  }

  lemma {:induction false} FirstAppend(disk: Disk, event: Event, backend: string)
    requires SafeId(event.incidentId) && event.incidentId in disk && event.sequence == 0
    requires disk[event.incidentId] == Folder(Stored(NewManifest(event.incidentId, backend)), Some([]))
    ensures PlanAppend(disk, event).Ok?
  {
    assert [] + [event] == [event];
  }

  /** Reported symptoms are free text. One with U+2028 in it, which JSON does not escape, strands its
      run: the append of the creation is accepted, and nothing can be read or appended after it. */
  lemma {:induction false} SymptomStrandsRun(worlds: seq<World>, steps: seq<Step>, event: Event, symptom: string, payload: map<string, string>,
    backend: string, j: nat, op: Op)
    requires IsRun(worlds, steps) && worlds[0] == World(map[], None) && 2 <= j < |worlds|
    requires SafeId(event.incidentId) && event == CreatedEvent(event.incidentId, symptom, payload) && '\U{2028}' in symptom
    requires steps[0] == Complete(StartRun(event.incidentId, backend)) && steps[1] == Complete(AppendEvent(event))
    requires OpId(op) == event.incidentId && forall k :: 2 <= k < j ==> !Deletes(steps[k], event.incidentId)
    ensures PlanAppend(worlds[1].disk, event).Ok?
    ensures StuckAt(worlds[j], event.incidentId, op, InvalidStream(InvalidLine(1)))
  {
    hide IncidentRuns.CreatedDraft, EventFrom, StartWrites, After, CreatedEvent, PlanAppend, StorableEvent, StuckAt;
    BrokenCreation(event.incidentId, symptom, payload);
    FreshRun(worlds, steps, event.incidentId, backend);
    FirstAppend(worlds[1].disk, event, backend);
    BrokenAppendIsStuck(worlds, steps, 1, j, event, op);
  }

  /** A folder without a manifest refuses every operation on its incident. */
  lemma {:induction false} NamelessRefuses(disk: Disk, active: Option<string>, id: string, op: Op)
    requires id in disk && disk[id].manifest == NoManifest && OpId(op) == id
    ensures Plan(disk, active, op).Err?
  {
  }

  lemma {:induction false} NamelessStep(w: World, s: Step, id: string)
    requires Sound(w) && Enabled(w, s) && id in w.disk && w.disk[id].manifest == NoManifest
    ensures id in After(w, s).disk && After(w, s).disk[id] == w.disk[id]
  {
    hide Rebuilt, Locked;
    var ws := WritesOf(w, s.op);
    assert ws[..|ws|] == ws && ws[..0] == [];
    if OpId(s.op) == id {
      NamelessRefuses(w.disk, w.active, id, s.op);
    } else if Plan(w.disk, w.active, s.op).Ok? {
      hide Plan, Boundary;
      BoundaryFolders(w.disk, w.active, s.op, if s.Crash? then s.writes else |ws|);
    }
  }

  lemma {:induction false} NamelessStays(worlds: seq<World>, steps: seq<Step>, id: string, i: nat, j: nat)
    requires IsRun(worlds, steps) && Sound(worlds[0]) && i <= j < |worlds|
    requires id in worlds[i].disk && worlds[i].disk[id].manifest == NoManifest
    ensures id in worlds[j].disk && worlds[j].disk[id] == worlds[i].disk[id]
    decreases j
  {
    if i < j {
      NamelessStays(worlds, steps, id, i, j - 1);
      RunLock(worlds, steps, j - 1);
      NamelessStep(worlds[j - 1], steps[j - 1], id);
      assert worlds[j] == After(worlds[j - 1], steps[j - 1]);
    }
  }

  /** A start that crashes before its manifest holds the name for good: in every later world every
      operation on that incident is refused, starting and deleting included. */
  lemma {:induction false} CrashedStartIsStuck(worlds: seq<World>, steps: seq<Step>, i: nat, j: nat, id: string, backend: string, op: Op)
    requires IsRun(worlds, steps) && Sound(worlds[0]) && i < j < |worlds|
    requires steps[i].Crash? && steps[i].op == StartRun(id, backend) && 1 <= steps[i].writes <= 2
    requires Plan(worlds[i].disk, worlds[i].active, StartRun(id, backend)).Ok? && OpId(op) == id
    ensures Plan(worlds[j].disk, worlds[j].active, op).Err?
  {
    assert worlds[i + 1] == After(worlds[i], steps[i]);
    StartBoundary(worlds[i].disk, id, backend, steps[i].writes);
    NamelessStays(worlds, steps, id, i + 1, j);
    NamelessRefuses(worlds[j].disk, worlds[j].active, id, op);
  }

  /** Appending never changes what a reader of the manifest sees of the status, at any boundary. */
  lemma {:induction false} AppendKeepsStatus(disk: Disk, event: Event, k: nat)
    requires DiskKept(disk) && PlanAppend(disk, event).Ok? && k <= 2
    ensures var id, after := event.incidentId, Boundary(disk, PlanAppend(disk, event).value, k);
      GetManifest(disk, id).Ok? && GetManifest(after, id).Ok?
      && GetManifest(after, id).value.status == GetManifest(disk, id).value.status
  {
    AppendPlanned(disk, event);
    AppendBoundary(disk, GetManifest(disk, event.incidentId).value, GetEvents(disk, event.incidentId).value, event, k);
  }

  /** An exported replay reads back as the run it was made from, and is never live. */
  lemma {:induction false} ExportReadsBack(disk: Disk, destination: Disk, id: string)
    requires DiskKept(disk) && PlanExport(disk, destination, id).Ok?
    ensures var after := PerformAll(destination, PlanExport(disk, destination, id).value);
      && GetEvents(after, id) == GetEvents(disk, id)
      && !LiveRunning(after, id)
      && forall x :: x != id ==> (x in after <==> x in destination) && (x in after ==> after[x] == destination[x])
  {
    assert FolderKept(id, disk[id]);
    var ws := PlanExport(disk, destination, id).value;
    PerformThree(destination, ws[0], ws[1], ws[2]);
  }
}
