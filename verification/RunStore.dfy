/** One directory per incident, a single active live run, and digest-checked reads.

    Every operation is a list of atomic disk writes, so that a crash can stop it between any two.
    A file is kept as the events that were written to it, and its digest is an injective constructor
    over them; a read decodes the file again, which fails on an event that breaks its line. */
module RunStore {
  import opened Common
  import opened Events

  datatype RunMode = Live | RecordedReplay

  datatype RunStatus = Running | Completed | RunFailed

  datatype Digest = Sha256(content: seq<Event>)

  datatype Manifest = Manifest(
    incidentId: string,
    mode: RunMode,
    status: RunStatus,
    incidentState: string,
    backend: string,
    eventCount: nat,
    digest: Digest,
    sourceRun: Option<string>,
    error: Option<string>)

  datatype ManifestFile = NoManifest | Unreadable | Stored(manifest: Manifest)

  datatype Folder = Folder(manifest: ManifestFile, events: Option<seq<Event>>)

  type Disk = map<string, Folder>

  datatype DiskWrite =
    | MakeFolder(id: string)
    | WriteEvents(id: string, events: seq<Event>)
    | WriteManifest(manifest: Manifest)
    | DropManifest(id: string)
    | DropEvents(id: string)
    | DropFolder(id: string)

  datatype StoreError =
    | UnsafeId
    | ActiveRun(id: string)
    | AlreadyExists(id: string)
    | NotFound(id: string)
    | UnreadableManifest(id: string)
    | MissingEvents
    | DigestMismatch
    | CountMismatch
    | InvalidStream(reason: EventError)
    | NotAppendable
    | WrongSequence(expected: nat, got: nat)
    | NotCompleted

  // ---------------------------------------------------------------- the disk

  function FolderOf(disk: Disk, id: string): Folder {
    if id in disk then disk[id] else Folder(NoManifest, None)
  }

  function Perform(disk: Disk, w: DiskWrite): Disk {
    match w
    case MakeFolder(id) => disk[id := FolderOf(disk, id)]
    case WriteEvents(id, events) => disk[id := FolderOf(disk, id).(events := Some(events))]
    case WriteManifest(m) => disk[m.incidentId := FolderOf(disk, m.incidentId).(manifest := Stored(m))]
    case DropManifest(id) => disk[id := FolderOf(disk, id).(manifest := NoManifest)]
    case DropEvents(id) => disk[id := FolderOf(disk, id).(events := None)]
    case DropFolder(id) => disk - {id}
  }

  function PerformAll(disk: Disk, ws: seq<DiskWrite>): Disk {
    if ws == [] then disk else Perform(PerformAll(disk, ws[..|ws| - 1]), ws[|ws| - 1])
  }

  predicate SafeStart(c: char) {
    'A' <= c <= 'Z' || 'a' <= c <= 'z' || '0' <= c <= '9'
  }

  predicate SafeId(id: string) {
    1 <= |id| <= 64 && SafeStart(id[0]) && forall i :: 0 <= i < |id| ==> SafeStart(id[i]) || id[i] in "._-"
  }

  // ---------------------------------------------------------------- reading

  function GetManifest(disk: Disk, id: string): Result<Manifest, StoreError> {
    if !SafeId(id) then Err(UnsafeId)
    else match FolderOf(disk, id).manifest
      case NoManifest => Err(NotFound(id))
      case Unreadable => Err(UnreadableManifest(id))
      case Stored(m) => Ok(m)
  }

  /** The event file against a manifest already read: digest, decoding, validation, count. */
  function CheckedEvents(folder: Folder, m: Manifest): Result<seq<Event>, StoreError> {
    if folder.events.None? then Err(MissingEvents)
    else
      var events := folder.events.value;
      if Sha256(events) != m.digest then Err(DigestMismatch)
      else match LoadError(events)
        case Some(reason) => Err(InvalidStream(reason))
        case None => if |events| != m.eventCount then Err(CountMismatch) else Ok(events)
  }

  /** The same checks on texts: the event file, and the text that the digest was taken of. */
  function CheckedText(decode: string -> Option<Event>, file: Option<string>, digested: string, count: nat):
    Result<seq<Event>, StoreError>
  {
    if file.None? then Err(MissingEvents)
    else if file.value != digested then Err(DigestMismatch)
    else match LoadEvents(decode, file.value)
      case Err(reason) => Err(InvalidStream(reason))
      case Ok(events) => if |events| != count then Err(CountMismatch) else Ok(events)
  }

  function FileText(encode: Event -> string, file: Option<seq<Event>>): Option<string> {
    if file.None? then None else Some(Jsonl(encode, file.value))
  }

  /** The disk holds what was written, not its text; reading it is reading the text. */
  lemma {:induction false} CheckedAsText(encode: Event -> string, decode: string -> Option<Event>, folder: Folder, m: Manifest)
    requires DocumentCodec(encode, decode)
    ensures CheckedEvents(folder, m) ==
      CheckedText(decode, FileText(encode, folder.events), Jsonl(encode, m.digest.content), m.eventCount)
  {
    if folder.events.Some? {
      SaveLoadRoundTrip(encode, decode, folder.events.value);
      if Jsonl(encode, folder.events.value) == Jsonl(encode, m.digest.content) {
        SavedFilesDiffer(encode, decode, folder.events.value, m.digest.content);
      }
    }
  }

  function GetEvents(disk: Disk, id: string): Result<seq<Event>, StoreError> {
    match GetManifest(disk, id)
    case Err(e) => Err(e)
    case Ok(m) => CheckedEvents(FolderOf(disk, id), m)
  }

  // ---------------------------------------------------------------- operations as disk writes

  datatype Op =
    | StartRun(id: string, backend: string)
    | AppendEvent(event: Event)
    | FinishRun(id: string, state: string, backend: string)
    | FailRun(id: string, reason: string)
    | UpdateState(id: string, state: string)
    | DeleteRun(id: string)

  function OpId(op: Op): string {
    if op.AppendEvent? then op.event.incidentId else op.id
  }

  function NewManifest(id: string, backend: string): Manifest {
    Manifest(id, Live, Running, "HEALTHY", backend, 0, Sha256([]), None, None)
  }

  function StartWrites(id: string, backend: string): seq<DiskWrite> {
    [MakeFolder(id), WriteEvents(id, []), WriteManifest(NewManifest(id, backend))]
  }

  function AppendWrites(m: Manifest, events: seq<Event>, event: Event): seq<DiskWrite> {
    [WriteEvents(event.incidentId, events + [event]),
     WriteManifest(m.(eventCount := |events| + 1, digest := Sha256(events + [event])))]
  }

  function DeleteWrites(disk: Disk, id: string): seq<DiskWrite> {
    [DropManifest(id)] + (if FolderOf(disk, id).events.Some? then [DropEvents(id)] else []) + [DropFolder(id)]
  }

  function PlanAppend(disk: Disk, event: Event): Result<seq<DiskWrite>, StoreError> {
    match GetManifest(disk, event.incidentId)
    case Err(e) => Err(e)
    case Ok(m) =>
      if m.mode != Live || m.status == RunFailed then Err(NotAppendable)
      else match GetEvents(disk, event.incidentId)
        case Err(e) => Err(e)
        case Ok(events) =>
          if event.sequence != |events| then Err(WrongSequence(|events|, event.sequence))
          else match ValidateStream(events + [event])
            case Some(reason) => Err(InvalidStream(reason))
            case None => Ok(AppendWrites(m, events, event))
  }

  function Truncated(s: string): string {
    if |s| <= 2000 then s else s[..2000]
  }

  /** The disk writes of an operation, in order, or why it is refused before any. */
  function Plan(disk: Disk, active: Option<string>, op: Op): Result<seq<DiskWrite>, StoreError> {
    match op
    case StartRun(id, backend) =>
      if !SafeId(id) then Err(UnsafeId)
      else if active.Some? then Err(ActiveRun(active.value))
      else if id in disk then Err(AlreadyExists(id))
      else Ok(StartWrites(id, backend))
    case AppendEvent(event) => PlanAppend(disk, event)
    case FinishRun(id, state, backend) =>
      (match GetManifest(disk, id)
      case Err(e) => Err(e)
      case Ok(m) =>
        match GetEvents(disk, id)
        case Err(e) => Err(e)
        case Ok(_) => Ok([WriteManifest(m.(status := Completed, incidentState := state, backend := backend))]))
    case FailRun(id, reason) =>
      (match GetManifest(disk, id)
      case Err(e) => Err(e)
      case Ok(m) => Ok([WriteManifest(m.(status := RunFailed, error := Some(Truncated(reason))))]))
    case UpdateState(id, state) =>
      (match GetManifest(disk, id)
      case Err(e) => Err(e)
      case Ok(m) => Ok([WriteManifest(m.(incidentState := state))]))
    case DeleteRun(id) =>
      (match GetManifest(disk, id)
      case Err(e) => Err(e)
      case Ok(m) => if m.status == Running then Err(ActiveRun(id)) else Ok(DeleteWrites(disk, id)))
  }

  /** The lock, changed after the last write. */
  function ActiveAfter(active: Option<string>, op: Op): Option<string> {
    match op
    case StartRun(id, _) => Some(id)
    case FinishRun(id, _, _) => if active == Some(id) then None else active
    case FailRun(id, _) => if active == Some(id) then None else active
    case _ => active
  }

  // ---------------------------------------------------------------- the lock on disk

  predicate LiveRunning(disk: Disk, id: string) {
    id in disk && disk[id].manifest.Stored? && disk[id].manifest.manifest.mode == Live && disk[id].manifest.manifest.status == Running
  }

  /** What a scan of the manifests may find: some live running run, or none when there is none. */
  ghost predicate Rebuilt(disk: Disk, active: Option<string>) {
    match active
    case Some(id) => exists folder :: LiveRunning(disk, folder) && disk[folder].manifest.manifest.incidentId == id
    case None => forall id :: !LiveRunning(disk, id)
  }

  /** Exactly the active incident is live and running. */
  ghost predicate Locked(disk: Disk, active: Option<string>) {
    forall id :: LiveRunning(disk, id) <==> active == Some(id)
  }

  // ---------------------------------------------------------------- the store

  class RunStore {
    var disk: Disk
    var active: Option<string>

    /** A store opened on what is on disk: the first live running manifest found holds the lock. */
    constructor Open(disk: Disk)
      ensures this.disk == disk && Rebuilt(disk, active)
    {
      this.disk := disk;
      active := None;
      new;
      var folders := disk.Keys;
      while folders != {}
        invariant this.disk == disk && active.None? && folders <= disk.Keys
        invariant forall id :: id in disk && id !in folders ==> !LiveRunning(disk, id)
        decreases |folders|
      {
        var folder :| folder in folders;
        folders := folders - {folder};
        var file := disk[folder].manifest;
        if file.Stored? && file.manifest.mode == Live && file.manifest.status == Running {
          active := Some(file.manifest.incidentId);
          assert LiveRunning(disk, folder);
          break;
        }
      }
    }

    method Write(w: DiskWrite)
      modifies this`disk
      ensures disk == Perform(old(disk), w)
    {
      disk := Perform(disk, w);
    }

    method StartRun(id: string, backend: string) returns (result: Result<Manifest, StoreError>)
      modifies this
      ensures var op := Op.StartRun(id, backend);
        match Plan(old(disk), old(active), op)
        case Err(e) => result == Err(e) && disk == old(disk) && active == old(active)
        case Ok(ws) => result == Ok(NewManifest(id, backend)) && disk == PerformAll(old(disk), ws) && active == ActiveAfter(old(active), op)
    {
      if !SafeId(id) {
        return Err(UnsafeId);
      }
      if active.Some? {
        return Err(ActiveRun(active.value));
      }
      if id in disk {
        return Err(AlreadyExists(id));
      }
      PerformThree(disk, MakeFolder(id), WriteEvents(id, []), WriteManifest(NewManifest(id, backend)));
      Write(MakeFolder(id));
      Write(WriteEvents(id, []));
      Write(WriteManifest(NewManifest(id, backend)));
      active := Some(id);
      return Ok(NewManifest(id, backend));
    }

    method AppendEvent(event: Event) returns (error: Option<StoreError>)
      modifies this`disk
      ensures match Plan(old(disk), active, Op.AppendEvent(event))
        case Err(e) => error == Some(e) && disk == old(disk)
        case Ok(ws) => error == None && disk == PerformAll(old(disk), ws)
    {
      var manifest := GetManifest(disk, event.incidentId);
      if manifest.Err? {
        return Some(manifest.error);
      }
      if manifest.value.mode != Live || manifest.value.status == RunFailed {
        return Some(NotAppendable);
      }
      var events := GetEvents(disk, event.incidentId);
      if events.Err? {
        return Some(events.error);
      }
      if event.sequence != |events.value| {
        return Some(WrongSequence(|events.value|, event.sequence));
      }
      var invalid := ValidateStream(events.value + [event]);
      if invalid.Some? {
        return Some(InvalidStream(invalid.value));
      }
      var ws := AppendWrites(manifest.value, events.value, event);
      PerformTwo(disk, ws[0], ws[1]);
      Write(ws[0]);
      Write(ws[1]);
      return None;
    }

    method FinishRun(id: string, state: string, backend: string) returns (error: Option<StoreError>)
      modifies this
      ensures var op := Op.FinishRun(id, state, backend);
        match Plan(old(disk), old(active), op)
        case Err(e) => error == Some(e) && disk == old(disk) && active == old(active)
        case Ok(ws) => error == None && disk == PerformAll(old(disk), ws) && active == ActiveAfter(old(active), op)
    {
      var manifest := GetManifest(disk, id);
      if manifest.Err? {
        return Some(manifest.error);
      }
      var events := GetEvents(disk, id);
      if events.Err? {
        return Some(events.error);
      }
      var w := WriteManifest(manifest.value.(status := Completed, incidentState := state, backend := backend));
      PerformOne(disk, w);
      Write(w);
      if active == Some(id) {
        active := None;
      }
      return None;
    }

    method FailRun(id: string, reason: string) returns (error: Option<StoreError>)
      modifies this
      ensures var op := Op.FailRun(id, reason);
        match Plan(old(disk), old(active), op)
        case Err(e) => error == Some(e) && disk == old(disk) && active == old(active)
        case Ok(ws) => error == None && disk == PerformAll(old(disk), ws) && active == ActiveAfter(old(active), op)
    {
      var manifest := GetManifest(disk, id);
      if manifest.Err? {
        return Some(manifest.error);
      }
      var w := WriteManifest(manifest.value.(status := RunFailed, error := Some(Truncated(reason))));
      PerformOne(disk, w);
      Write(w);
      if active == Some(id) {
        active := None;
      }
      return None;
    }

    method UpdateState(id: string, state: string) returns (error: Option<StoreError>)
      modifies this`disk
      ensures match Plan(old(disk), active, Op.UpdateState(id, state))
        case Err(e) => error == Some(e) && disk == old(disk)
        case Ok(ws) => error == None && disk == PerformAll(old(disk), ws)
    {
      var manifest := GetManifest(disk, id);
      if manifest.Err? {
        return Some(manifest.error);
      }
      var w := WriteManifest(manifest.value.(incidentState := state));
      PerformOne(disk, w);
      Write(w);
      return None;
    }

    method DeleteRun(id: string) returns (error: Option<StoreError>)
      modifies this`disk
      ensures match Plan(old(disk), active, Op.DeleteRun(id))
        case Err(e) => error == Some(e) && disk == old(disk)
        case Ok(ws) => error == None && disk == PerformAll(old(disk), ws)
    {
      var manifest := GetManifest(disk, id);
      if manifest.Err? {
        return Some(manifest.error);
      }
      if manifest.value.status == Running {
        return Some(ActiveRun(id));
      }
      if FolderOf(disk, id).events.Some? {
        assert DeleteWrites(disk, id) == [DropManifest(id), DropEvents(id), DropFolder(id)];
        PerformThree(disk, DropManifest(id), DropEvents(id), DropFolder(id));
        Write(DropManifest(id));
        Write(DropEvents(id));
      } else {
        assert DeleteWrites(disk, id) == [DropManifest(id), DropFolder(id)];
        PerformTwo(disk, DropManifest(id), DropFolder(id));
        Write(DropManifest(id));
      }
      Write(DropFolder(id));
      return None;
    }

    /** Copy a completed run into another store as a recorded replay. */
    method ExportReplay(destination: RunStore, id: string) returns (error: Option<StoreError>)
      requires destination != this
      modifies destination`disk
      ensures match PlanExport(disk, old(destination.disk), id)
        case Err(e) => error == Some(e) && destination.disk == old(destination.disk)
        case Ok(ws) => error == None && destination.disk == PerformAll(old(destination.disk), ws)
    {
      var manifest := GetManifest(disk, id);
      if manifest.Err? {
        return Some(manifest.error);
      }
      var events := GetEvents(disk, id);
      if events.Err? {
        return Some(events.error);
      }
      if manifest.value.status != Completed {
        return Some(NotCompleted);
      }
      if Occupied(FolderOf(destination.disk, id)) {
        return Some(AlreadyExists(id));
      }
      var replay := WriteManifest(ReplayManifest(manifest.value, id, events.value));
      PerformThree(destination.disk, MakeFolder(id), WriteEvents(id, events.value), replay);
      destination.Write(MakeFolder(id));
      destination.Write(WriteEvents(id, events.value));
      destination.Write(replay);
      return None;
    }
  }

  predicate Occupied(folder: Folder) {
    folder.manifest != NoManifest || folder.events.Some?
  }

  function ReplayManifest(m: Manifest, id: string, events: seq<Event>): Manifest {
    m.(mode := RecordedReplay, sourceRun := Some(id), digest := Sha256(events))
  }

  function PlanExport(disk: Disk, destination: Disk, id: string): Result<seq<DiskWrite>, StoreError> {
    match GetManifest(disk, id)
    case Err(e) => Err(e)
    case Ok(m) =>
      match GetEvents(disk, id)
      case Err(e) => Err(e)
      case Ok(events) =>
        if m.status != Completed then Err(NotCompleted)
        else if Occupied(FolderOf(destination, id)) then Err(AlreadyExists(id))
        else Ok([MakeFolder(id), WriteEvents(id, events), WriteManifest(ReplayManifest(m, id, events))])
  }

  lemma {:induction false} PerformOne(disk: Disk, a: DiskWrite)
    ensures PerformAll(disk, [a]) == Perform(disk, a)
  {
    assert [a][..0] == [];
  }

  lemma {:induction false} PerformTwo(disk: Disk, a: DiskWrite, b: DiskWrite)
    ensures PerformAll(disk, [a, b]) == Perform(Perform(disk, a), b)
  {
    assert [a, b][..1] == [a];
    PerformOne(disk, a);
  }

  lemma {:induction false} PerformThree(disk: Disk, a: DiskWrite, b: DiskWrite, c: DiskWrite)
    ensures PerformAll(disk, [a, b, c]) == Perform(Perform(Perform(disk, a), b), c)
  {
    assert [a, b, c][..2] == [a, b];
    PerformTwo(disk, a, b);
  }
}
