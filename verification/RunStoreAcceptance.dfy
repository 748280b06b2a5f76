/** When each store operation is accepted, in terms of what is on the disk, and what it leaves there. */
module RunStoreAcceptance {
  import opened Common
  import opened Events
  import opened RunStore
  import opened RunStoreSafety

  predicate HasManifest(disk: Disk, id: string) {
    id in disk && disk[id].manifest.Stored?
  }

  function ManifestOf(disk: Disk, id: string): Manifest
    requires HasManifest(disk, id)
  {
    disk[id].manifest.manifest
  }

  /** The event file is the one the manifest vouches for, and no event in it breaks its line. */
  predicate Readable(disk: Disk, id: string) {
    HasManifest(disk, id) && disk[id].events == Some(ManifestOf(disk, id).digest.content)
    && forall i :: 0 <= i < |disk[id].events.value| ==> StorableEvent(disk[id].events.value[i])
  }

  lemma {:induction false} ReadableReads(disk: Disk, id: string)
    requires DiskKept(disk) && HasManifest(disk, id)
    ensures Readable(disk, id) <==> GetEvents(disk, id).Ok?
    ensures Readable(disk, id) ==> GetEvents(disk, id) == Ok(disk[id].events.value)
    ensures SafeId(id) && GetManifest(disk, id) == Ok(ManifestOf(disk, id)) && ManifestOf(disk, id).incidentId == id
  {
    ReadableIff(disk, id);
    assert FolderKept(id, disk[id]);
    var content := ManifestOf(disk, id).digest.content;
    if Readable(disk, id) {
      forall e | e in content ensures StorableEvent(e) {
        var i :| 0 <= i < |content| && content[i] == e;
      }
    }
  }

  lemma {:induction false} WithoutManifestRefused(disk: Disk, active: Option<string>, op: Op)
    requires !HasManifest(disk, OpId(op)) && !op.StartRun?
    ensures Plan(disk, active, op).Err?
  {
  }

  /** A letter or a digit, by its code. */
  predicate AlphanumericCode(n: int) {
    65 <= n <= 90 || 97 <= n <= 122 || 48 <= n <= 57
  }

  /** The names a run may have: 1 to 64 letters, digits, dots, underscores and dashes, the first a letter or digit. */
  lemma {:induction false} SafeIdReads(id: string)
    ensures SafeId(id) <==>
      && 1 <= |id| <= 64 && AlphanumericCode(id[0] as int)
      && forall i :: 0 <= i < |id| ==> AlphanumericCode(id[i] as int) || id[i] == '.' || id[i] == '_' || id[i] == '-'
  {
    assert forall c: char {:trigger SafeStart(c)} {:trigger AlphanumericCode(c as int)} :: SafeStart(c) <==> AlphanumericCode(c as int);
    assert forall c: char :: c in "._-" <==> c == '.' || c == '_' || c == '-';
  }

  /** Why a run cannot be read, in the order in which it is found out. */
  lemma {:induction false} ReadRefusedWith(disk: Disk, id: string)
    requires DiskKept(disk)
    ensures var read := GetEvents(disk, id);
      && (!SafeId(id) ==> read == Err(UnsafeId))
      && (SafeId(id) && (id !in disk || disk[id].manifest == NoManifest) ==> read == Err(NotFound(id)))
      && (id in disk && disk[id].manifest == ManifestFile.Unreadable ==> read == Err(UnreadableManifest(id)))
      && (HasManifest(disk, id) && disk[id].events.None? ==> read == Err(MissingEvents))
      && (HasManifest(disk, id) && disk[id].events.Some? && disk[id].events.value != ManifestOf(disk, id).digest.content
          ==> read == Err(DigestMismatch))
      && (forall n: nat :: BreaksAt(disk, id, n) ==> read == Err(InvalidStream(InvalidLine(n + 1))))
  {
    if id in disk { assert FolderKept(id, disk[id]); }
    forall n: nat | BreaksAt(disk, id, n) ensures GetEvents(disk, id) == Err(InvalidStream(InvalidLine(n + 1))) {
      ReadableIff(disk, id);
      assert FirstBroken(disk[id].events.value) == n;
    }
  }

  /** The vouched file is there and its first event that breaks its line is number `n`. */
  predicate BreaksAt(disk: Disk, id: string, n: nat) {
    && HasManifest(disk, id) && disk[id].events == Some(ManifestOf(disk, id).digest.content)
    && n < |disk[id].events.value| && !StorableEvent(disk[id].events.value[n])
    && forall i :: 0 <= i < n ==> StorableEvent(disk[id].events.value[i])
  }

  // ---------------------------------------------------------------- appending

  /** An event continues a stream: the next number, the same incident, and a fresh identifier. */
  predicate Continues(stream: seq<Event>, event: Event) {
    && event.sequence == |stream|
    && forall i :: 0 <= i < |stream| ==> stream[i].incidentId == event.incidentId && stream[i].eventId != event.eventId
  }

  lemma {:induction false} ContinuesIsValid(stream: seq<Event>, event: Event)
    requires ValidStream(stream)
    ensures event.sequence == |stream| && ValidateStream(stream + [event]).None? <==> Continues(stream, event)
  {
    var all := stream + [event];
    if event.sequence == |stream| && ValidateStream(all).None? {
      forall i | 0 <= i < |stream| ensures stream[i].incidentId == event.incidentId && stream[i].eventId != event.eventId {
        assert all[i] == stream[i] && all[|stream|] == event;
      }
    }
  }

  /** An append is accepted exactly when the run is live and RUNNING or COMPLETED, its file is readable
      and the event continues it. */
  lemma {:induction false} AppendAcceptedIff(disk: Disk, event: Event)
    requires DiskKept(disk)
    ensures PlanAppend(disk, event).Ok? <==>
      var id := event.incidentId;
      && HasManifest(disk, id) && ManifestOf(disk, id).mode == Live
      && (ManifestOf(disk, id).status == Running || ManifestOf(disk, id).status == Completed)
      && Readable(disk, id) && Continues(disk[id].events.value, event)
  {
    hide GetEvents, ValidateStream, Readable, StorableEvent, Continues;
    var id := event.incidentId;
    if HasManifest(disk, id) {
      ReadableReads(disk, id);
      assert FolderKept(id, disk[id]);
      if Readable(disk, id) { ReadableHolds(disk, id); KeptFileIsValid(disk, id); ContinuesIsValid(disk[id].events.value, event); }
    } else {
      WithoutManifestRefused(disk, None, AppendEvent(event));
    }
  }

  lemma {:induction false} KeptFileIsValid(disk: Disk, id: string)
    requires DiskKept(disk) && Readable(disk, id)
    ensures ValidStream(disk[id].events.value)
  {
    assert FolderKept(id, disk[id]);
  }

  /** An accepted append adds the event to the file and to what the manifest vouches for. */
  lemma {:induction false} AppendLeaves(disk: Disk, event: Event)
    requires DiskKept(disk) && PlanAppend(disk, event).Ok?
    ensures var id := event.incidentId;
      && HasManifest(disk, id) && disk[id].events.Some?
      && var m, stream := ManifestOf(disk, id), disk[id].events.value + [event];
      PerformAll(disk, PlanAppend(disk, event).value)
        == disk[id := Folder(Stored(m.(eventCount := |stream|, digest := Sha256(stream))), Some(stream))]
  {
    AppendPlanned(disk, event);
    var m, events := GetManifest(disk, event.incidentId).value, GetEvents(disk, event.incidentId).value;
    AppendBoundary(disk, m, events, event, 2);
    var ws := AppendWrites(m, events, event);
    assert ws[..2] == ws;
  }

  // ---------------------------------------------------------------- starting and ending

  /** A run is started exactly when its name is safe and free and no live run is running; it then holds the lock. */
  lemma {:induction false} StartAcceptedIff(disk: Disk, active: Option<string>, id: string, backend: string)
    requires Locked(disk, active)
    ensures var op := Op.StartRun(id, backend);
      && (Plan(disk, active, op).Ok? <==> SafeId(id) && id !in disk && forall x :: !LiveRunning(disk, x))
      && (Plan(disk, active, op).Ok? ==>
        && PerformAll(disk, Plan(disk, active, op).value) == disk[id := Folder(
            Stored(Manifest(id, Live, Running, "HEALTHY", backend, 0, Sha256([]), None, None)), Some([]))]
        && ActiveAfter(active, op) == Some(id))
  {
    if active.Some? {
      assert LiveRunning(disk, active.value);
    }
    if id !in disk {
      StartBoundary(disk, id, backend, 3);
      assert StartWrites(id, backend)[..3] == StartWrites(id, backend);
    }
  }

  /** The manifest of one run is replaced and nothing else. */
  predicate Rewritten(disk: Disk, after: Disk, id: string, m: Manifest) {
    id in disk && after == disk[id := disk[id].(manifest := Stored(m))]
  }

  lemma {:induction false} ManifestWritten(disk: Disk, id: string, m: Manifest)
    requires id in disk && m.incidentId == id
    ensures Rewritten(disk, PerformAll(disk, [WriteManifest(m)]), id, m)
  {
    PerformOne(disk, WriteManifest(m));
  }

  /** A run, of any status, is finished exactly when it can be read. */
  lemma {:induction false} FinishAcceptedIff(disk: Disk, active: Option<string>, id: string, state: string, backend: string)
    requires DiskKept(disk)
    ensures var op := Op.FinishRun(id, state, backend);
      && (Plan(disk, active, op).Ok? <==> Readable(disk, id))
      && (Plan(disk, active, op).Ok? ==>
        && Rewritten(disk, PerformAll(disk, Plan(disk, active, op).value), id,
            ManifestOf(disk, id).(status := Completed, incidentState := state, backend := backend))
        && ActiveAfter(active, op) == if active == Some(id) then None else active)
  {
    hide GetEvents, Rewritten, PerformAll;
    if HasManifest(disk, id) {
      ReadableReads(disk, id);
      ManifestWritten(disk, id, ManifestOf(disk, id).(status := Completed, incidentState := state, backend := backend));
    } else {
      WithoutManifestRefused(disk, active, Op.FinishRun(id, state, backend));
    }
  }

  /** At most the first two thousand characters of a reason are stored. */
  predicate Shortened(reason: string, stored: string) {
    stored <= reason && |stored| == if |reason| < 2000 then |reason| else 2000
  }

  ghost predicate FailedWith(disk: Disk, after: Disk, id: string, reason: string)
    requires HasManifest(disk, id)
  {
    exists e :: Shortened(reason, e) && Rewritten(disk, after, id, ManifestOf(disk, id).(status := RunFailed, error := Some(e)))
  }

  /** A run is failed exactly when it has a manifest. */
  lemma {:induction false} FailAcceptedIff(disk: Disk, active: Option<string>, id: string, reason: string)
    requires DiskKept(disk)
    ensures var op := Op.FailRun(id, reason);
      && (Plan(disk, active, op).Ok? <==> HasManifest(disk, id))
      && (Plan(disk, active, op).Ok? ==>
        && FailedWith(disk, PerformAll(disk, Plan(disk, active, op).value), id, reason)
        && ActiveAfter(active, op) == if active == Some(id) then None else active)
  {
    hide GetEvents, Rewritten, PerformAll;
    if HasManifest(disk, id) {
      ReadableReads(disk, id);
      assert Shortened(reason, Truncated(reason));
      ManifestWritten(disk, id, ManifestOf(disk, id).(status := RunFailed, error := Some(Truncated(reason))));
    } else {
      WithoutManifestRefused(disk, active, Op.FailRun(id, reason));
    }
  }

  /** The incident state of a run is updated exactly when it has a manifest; the lock stays. */
  lemma {:induction false} UpdateAcceptedIff(disk: Disk, active: Option<string>, id: string, state: string)
    requires DiskKept(disk)
    ensures var op := Op.UpdateState(id, state);
      && (Plan(disk, active, op).Ok? <==> HasManifest(disk, id))
      && (Plan(disk, active, op).Ok? ==>
        && Rewritten(disk, PerformAll(disk, Plan(disk, active, op).value), id, ManifestOf(disk, id).(incidentState := state))
        && ActiveAfter(active, op) == active)
  {
    hide GetEvents, Rewritten, PerformAll;
    if HasManifest(disk, id) {
      ReadableReads(disk, id);
      ManifestWritten(disk, id, ManifestOf(disk, id).(incidentState := state));
    } else {
      WithoutManifestRefused(disk, active, Op.UpdateState(id, state));
    }
  }

  /** A directory can only be removed when it is empty: before its last write a deletion has emptied it,
      removing the event file when there is one. */
  lemma {:induction false} DeleteEmptiesFirst(disk: Disk, id: string)
    requires id in disk
    ensures var ws := DeleteWrites(disk, id);
      && ws[|ws| - 1] == DropFolder(id) && (DropEvents(id) in ws <==> disk[id].events.Some?)
      && Boundary(disk, ws, |ws| - 1) == disk[id := Folder(NoManifest, None)]
  {
    var ws := DeleteWrites(disk, id);
    DeleteBoundary(disk, id, |ws| - 1);
    if |ws| == 2 {
      assert disk[id := Folder(NoManifest, disk[id].events)] == disk[id := Folder(NoManifest, None)];
    }
  }

  /** A run is deleted exactly when it has a manifest that is not RUNNING; only its folder goes. */
  lemma {:induction false} DeleteAcceptedIff(disk: Disk, active: Option<string>, id: string)
    requires DiskKept(disk)
    ensures var op := Op.DeleteRun(id);
      && (Plan(disk, active, op).Ok? <==> HasManifest(disk, id) && ManifestOf(disk, id).status != Running)
      && (Plan(disk, active, op).Ok? ==>
        PerformAll(disk, Plan(disk, active, op).value) == disk - {id} && ActiveAfter(active, op) == active)
  {
    hide GetEvents;
    if HasManifest(disk, id) {
      ReadableReads(disk, id);
      DeleteBoundary(disk, id, |DeleteWrites(disk, id)|);
      var ws := DeleteWrites(disk, id);
      assert ws[..|ws|] == ws;
    } else {
      WithoutManifestRefused(disk, active, Op.DeleteRun(id));
    }
  }

  /** A run is exported exactly when it is COMPLETED and readable and the place is free; the replay is
      the run itself, marked as recorded and naming its source. */
  lemma {:induction false} ExportAcceptedIff(disk: Disk, destination: Disk, id: string)
    requires DiskKept(disk)
    ensures PlanExport(disk, destination, id).Ok? <==>
      && Readable(disk, id) && ManifestOf(disk, id).status == Completed
      && (id in destination ==> destination[id].manifest == NoManifest && destination[id].events.None?)
    ensures PlanExport(disk, destination, id).Ok? ==>
      PerformAll(destination, PlanExport(disk, destination, id).value) == destination[id := Folder(
        Stored(ManifestOf(disk, id).(mode := RecordedReplay, sourceRun := Some(id))), disk[id].events)]
  {
    hide GetEvents, Readable;
    if HasManifest(disk, id) {
      ReadableReads(disk, id);
      if PlanExport(disk, destination, id).Ok? {
        ReadableHolds(disk, id);
        var ws := PlanExport(disk, destination, id).value;
        PerformThree(destination, ws[0], ws[1], ws[2]);
      }
    } else {
      assert !Readable(disk, id) by { UnreadableWithout(disk, id); }
    }
  }

  lemma {:induction false} UnreadableWithout(disk: Disk, id: string)
    requires !HasManifest(disk, id)
    ensures !Readable(disk, id)
  {
  }

  lemma {:induction false} ReadableHolds(disk: Disk, id: string)
    requires Readable(disk, id)
    ensures HasManifest(disk, id) && disk[id].events == Some(ManifestOf(disk, id).digest.content)
  {
  }

  // ---------------------------------------------------------------- the recorder of one run

  /** A live run, RUNNING or COMPLETED, whose readable stream is a recorder's own. */
  predicate OpenRun(w: World, id: string) {
    && Readable(w.disk, id) && ManifestOf(w.disk, id).mode == Live && ManifestOf(w.disk, id).status != RunFailed
    && Recorded(id, w.disk[id].events.value)
  }

  /** What the process does with one run once it is started. */
  datatype Act = Emit(draft: Draft) | Finish(state: string, backend: string) | Update(state: string)

  /** A valid draft, of which the event can be stored under every number. */
  ghost predicate Fit(id: string, a: Act) {
    a.Emit? ==> DraftError(a.draft).None? && forall n: nat :: StorableEvent(EventFrom(id, n, a.draft))
  }

  function ActOp(w: World, id: string, a: Act): Op
    requires OpenRun(w, id) && (a.Emit? ==> DraftError(a.draft).None?)
  {
    match a
    case Emit(draft) => AppendEvent(EventFrom(id, |w.disk[id].events.value|, draft))
    case Finish(state, backend) => FinishRun(id, state, backend)
    case Update(state) => UpdateState(id, state)
  }

  lemma {:induction false} RecordedContinues(id: string, stream: seq<Event>, d: Draft)
    requires Recorded(id, stream) && DraftError(d).None?
    ensures var event := EventFrom(id, |stream|, d);
      Continues(stream, event) && Recorded(id, stream + [event])
  {
    hide DraftError;
    var event := EventFrom(id, |stream|, d);
    forall i | 0 <= i < |stream| ensures stream[i].eventId != event.eventId {
      if stream[i].eventId == event.eventId {
        EventIdInjective(id, i, stream[i].eventType, |stream|, d.eventType);
      }
    }
  }

  /** The recorder's next event is accepted by every open run, finished or not. */
  lemma {:induction false} NextEventAccepted(w: World, id: string, d: Draft)
    requires Sound(w) && OpenRun(w, id) && DraftError(d).None?
    ensures Plan(w.disk, w.active, AppendEvent(EventFrom(id, |w.disk[id].events.value|, d))).Ok?
  {
    hide Locked, DiskKept, PlanAppend, EventFrom, Readable, Recorded;
    OpenHolds(w, id);
    RecordedContinues(id, w.disk[id].events.value, d);
    assert EventFrom(id, |w.disk[id].events.value|, d).incidentId == id by { EventFromNames(id, |w.disk[id].events.value|, d); }
    AppendAcceptedIff(w.disk, EventFrom(id, |w.disk[id].events.value|, d));
  }

  lemma {:induction false} EventFromNames(id: string, n: nat, d: Draft)
    requires DraftError(d).None?
    ensures EventFrom(id, n, d).incidentId == id
  {
  }

  lemma {:induction false} OpenHolds(w: World, id: string)
    requires OpenRun(w, id)
    ensures HasManifest(w.disk, id) && w.disk[id].events.Some? && ManifestOf(w.disk, id).mode == Live
    ensures ManifestOf(w.disk, id).status == Running || ManifestOf(w.disk, id).status == Completed
  {
  }

  lemma {:induction false} EmitStaysOpen(w: World, id: string, d: Draft)
    requires Sound(w) && OpenRun(w, id) && DraftError(d).None?
    requires StorableEvent(EventFrom(id, |w.disk[id].events.value|, d))
    ensures var stream, event := w.disk[id].events.value, EventFrom(id, |w.disk[id].events.value|, d);
      var after := After(w, Complete(AppendEvent(event)));
      OpenRun(after, id) && after.disk[id].events.value == stream + [event]
  {
    hide Locked, DiskKept, PlanAppend, EventFrom, StorableEvent, EventId;
    NextEventAccepted(w, id, d);
    var stream, event := w.disk[id].events.value, EventFrom(id, |w.disk[id].events.value|, d);
    EventFromNames(id, |stream|, d);
    RecordedContinues(id, stream, d);
    AppendLeaves(w.disk, event);
    var after := After(w, Complete(AppendEvent(event)));
    assert forall i :: 0 <= i < |stream| + 1 ==> StorableEvent((stream + [event])[i]);
  }

  /** The act applies, and the store accepts the operation it makes. */
  ghost predicate Takes(w: World, id: string, a: Act) {
    Fit(id, a) && OpenRun(w, id) && Plan(w.disk, w.active, ActOp(w, id, a)).Ok?
  }

  lemma {:induction false} ActAccepted(w: World, id: string, a: Act)
    requires Sound(w) && OpenRun(w, id) && Fit(id, a)
    ensures Takes(w, id, a)
    ensures var after := After(w, Complete(ActOp(w, id, a)));
      Sound(after) && OpenRun(after, id)
      && after.disk[id].events.value == w.disk[id].events.value
        + (if a.Emit? then [EventFrom(id, |w.disk[id].events.value|, a.draft)] else [])
  {
    hide Locked, DiskKept, PlanAppend, EventFrom, StorableEvent, EventId, PerformAll;
    StepIsSound(w, Complete(ActOp(w, id, a)));
    match a {
      case Emit(d) =>
        NextEventAccepted(w, id, d);
        EmitStaysOpen(w, id, d);
      case Finish(state, backend) => FinishAcceptedIff(w.disk, w.active, id, state, backend);
      case Update(state) => UpdateAcceptedIff(w.disk, w.active, id, state);
    }
  }

  /** The world after a list of acts on one run. */
  ghost predicate Acted(worlds: seq<World>, id: string, acts: seq<Act>) {
    && |worlds| == |acts| + 1
    && forall i :: 0 <= i < |acts| ==>
      Takes(worlds[i], id, acts[i]) ==> worlds[i + 1] == After(worlds[i], Complete(ActOp(worlds[i], id, acts[i])))
  }

  /** A run that was started takes every event of its recorder, before and after it is finished: in any
      list of events, state updates and finishes, each is accepted. So every repair action, which needs
      a COMPLETED run, can record its events. */
  lemma {:induction false} FinishedRunKeepsRecording(worlds: seq<World>, id: string, acts: seq<Act>, i: nat)
    requires Acted(worlds, id, acts) && Sound(worlds[0]) && OpenRun(worlds[0], id)
    requires i < |worlds| && forall k :: 0 <= k < |acts| ==> Fit(id, acts[k])
    ensures Sound(worlds[i]) && OpenRun(worlds[i], id)
    ensures i < |acts| ==> Takes(worlds[i], id, acts[i])
  {
    hide Sound, OpenRun, Takes, Fit, ActOp, After;
    if i > 0 {
      FinishedRunKeepsRecording(worlds, id, acts, i - 1);
      ActAccepted(worlds[i - 1], id, acts[i - 1]);
    }
    if i < |acts| {
      ActAccepted(worlds[i], id, acts[i]);
    }
  }

  /** After an accepted start the run is open, with nothing recorded. */
  lemma {:induction false} StartedRunIsOpen(w: World, id: string, backend: string)
    requires Sound(w) && Plan(w.disk, w.active, Op.StartRun(id, backend)).Ok?
    ensures var after := After(w, Complete(Op.StartRun(id, backend)));
      Sound(after) && OpenRun(after, id) && after.disk[id].events == Some([])
  {
    StepIsSound(w, Complete(Op.StartRun(id, backend)));
    StartAcceptedIff(w.disk, w.active, id, backend);
  }

  /** After an accepted finish of an open run, whose status it makes COMPLETED, the recorder's next event is accepted. */
  lemma {:induction false} FinishedTakesNextEvent(w: World, id: string, state: string, backend: string, d: Draft)
    requires Sound(w) && OpenRun(w, id) && DraftError(d).None?
    ensures Plan(w.disk, w.active, Op.FinishRun(id, state, backend)).Ok?
    ensures var after := After(w, Complete(Op.FinishRun(id, state, backend)));
      && OpenRun(after, id) && ManifestOf(after.disk, id).status == Completed
      && Plan(after.disk, after.active, AppendEvent(EventFrom(id, |after.disk[id].events.value|, d))).Ok?
  {
    hide Locked, DiskKept, PlanAppend, EventFrom, StorableEvent, EventId;
    ActAccepted(w, id, Finish(state, backend));
    FinishAcceptedIff(w.disk, w.active, id, state, backend);
    NextEventAccepted(After(w, Complete(Op.FinishRun(id, state, backend))), id, d);
  }
}
