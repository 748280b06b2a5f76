/** Streaming an incident's events to one reader while the run is written.

    The reader alternates two reads of the store: the manifest, which it may see between any two
    writes, and the events, which the store's lock shows only between operations. The protocol is
    proved on a small system of its own, which the run store together with a reader refines. */
module StreamDelivery {
  import opened Common
  import opened Events
  import opened RunStore
  import Safety = RunStoreSafety

  /** What the reader does next; it remembers whether the manifest it read was final. A read that
      raises disconnects it. */
  datatype Reader = ReadManifestNext | ReadEventsNext(final: bool) | Stopped | Disconnected

  /** `finishedAt` records how many events there were when the run first finished or failed. */
  datatype System = System(
    events: seq<Event>,
    status: RunStatus,
    finishedAt: Option<nat>,
    cursor: int,
    delivered: seq<Event>,
    reader: Reader)

  datatype Action =
    | Append(event: Event)
    | Finish
    | Fail
    | ReadManifest
    | ReadEvents
    | Disconnect

  predicate Final(status: RunStatus) {
    status != Running
  }

  /** The events after the cursor, in order. */
  function Undelivered(events: seq<Event>, cursor: int): seq<Event> {
    if events == [] then []
    else
      var last := events[|events| - 1];
      Undelivered(events[..|events| - 1], cursor) + (if last.sequence <= cursor then [] else [last])
  }

  /** The first sequence number past the cursor; a reader may ask for any number, below -1 too. */
  function First(cursor: int): nat {
    if cursor < 0 then 0 else cursor + 1
  }

  function NewCursor(events: seq<Event>, cursor: int): int {
    if |events| > First(cursor) then |events| - 1 else cursor
  }

  /** The delivery loop of one cycle: each event is skipped or delivered, and the cursor follows. */
  method Deliver(events: seq<Event>, from: int) returns (frames: seq<Event>, cursor: int)
    requires Contiguous(events)
    ensures frames == Undelivered(events, from)
    ensures cursor == NewCursor(events, from)
  {
    frames, cursor := [], from;
    for i := 0 to |events|
      invariant frames == Undelivered(events[..i], from)
      invariant cursor == NewCursor(events[..i], from)
    {
      assert events[..i + 1][..i] == events[..i];
      if events[i].sequence <= cursor {
        continue;
      }
      frames := frames + [events[i]];
      cursor := events[i].sequence;
    }
    assert events[..|events|] == events;
  }

  /** The events from an index on. */
  function From(events: seq<Event>, lo: nat): seq<Event> {
    if lo <= |events| then events[lo..] else []
  }

  lemma {:induction false} FromSnoc(init: seq<Event>, last: Event, lo: nat)
    ensures From(init + [last], lo) == if lo <= |init| then From(init, lo) + [last] else []
  {
    if lo <= |init| {
      assert (init + [last])[lo..] == init[lo..] + [last];
    }
  }

  lemma {:induction false} UndeliveredSnoc(init: seq<Event>, last: Event, cursor: int)
    ensures Undelivered(init + [last], cursor) == Undelivered(init, cursor) + (if last.sequence <= cursor then [] else [last])
  {
    assert (init + [last])[..|init|] == init;
  }

  lemma {:induction false} UndeliveredIsSuffix(events: seq<Event>, cursor: int)
    requires Contiguous(events)
    ensures Undelivered(events, cursor) == From(events, First(cursor))
  {
    if events != [] {
      var init, last := events[..|events| - 1], events[|events| - 1];
      UndeliveredIsSuffix(init, cursor);
      assert events == init + [last] && last.sequence == |init|;
      assert last.sequence <= cursor <==> First(cursor) > |init|;
      hide Contiguous, First, Undelivered;
      UndeliveredSnoc(init, last, cursor);
      FromSnoc(init, last, First(cursor));
    }
  }

  predicate Enabled(s: System, a: Action) {
    match a
    case Append(e) => s.status != RunFailed && e.sequence == |s.events|
    case ReadManifest => s.reader == ReadManifestNext
    case ReadEvents => s.reader.ReadEventsNext?
    case _ => true
  }

  /** Reading decodes every event of the file; one that breaks its line makes the read raise, which
      ends the stream. */
  predicate Readable(events: seq<Event>) {
    FirstBroken(events) == |events|
  }

  function Finished(s: System, status: RunStatus): System {
    s.(status := status, finishedAt := if s.finishedAt.Some? then s.finishedAt else Some(|s.events|))
  }

  function Next(s: System, a: Action): System
    requires Enabled(s, a)
  {
    match a
    case Append(e) => s.(events := s.events + [e])
    case Finish => Finished(s, Completed)
    case Fail => Finished(s, RunFailed)
    case ReadManifest => s.(reader := ReadEventsNext(Final(s.status)))
    case ReadEvents =>
      if !Readable(s.events) then s.(reader := Disconnected)
      else s.(
        delivered := s.delivered + Undelivered(s.events, s.cursor),
        cursor := NewCursor(s.events, s.cursor),
        reader := if s.reader.final then Stopped else ReadManifestNext)
    case Disconnect => if s.reader == ReadManifestNext then s.(reader := Disconnected) else s
  }

  function Run(s: System, actions: seq<Action>): Option<System> {
    if actions == [] then Some(s)
    else
      match Run(s, actions[..|actions| - 1])
      case None => None
      case Some(mid) =>
        if Enabled(mid, actions[|actions| - 1]) then Some(Next(mid, actions[|actions| - 1])) else None
  }

  /** A reader that asked for everything after `after`, on a run at any point of its life. */
  predicate Initial(s: System, after: int) {
    && s.cursor == after && s.delivered == [] && s.reader == ReadManifestNext
    && Contiguous(s.events)
    && s.finishedAt == if Final(s.status) then Some(|s.events|) else None
  }

  /** Nothing, or the events past `after` up to the cursor, each once and in order. */
  predicate UpTo(events: seq<Event>, after: int, cursor: int, delivered: seq<Event>) {
    if cursor == after then delivered == []
    else 0 <= cursor && after < cursor < |events| && delivered == events[First(after)..cursor + 1]
  }

  predicate DeliveredUpTo(s: System, after: int) {
    UpTo(s.events, after, s.cursor, s.delivered)
  }

  predicate Inv(s: System, after: int) {
    && Contiguous(s.events)
    && DeliveredUpTo(s, after)
    && (Final(s.status) <==> s.finishedAt.Some?)
    && (s.finishedAt.Some? ==> s.finishedAt.value <= |s.events|)
    && (s.reader == ReadEventsNext(true) ==> s.finishedAt.Some?)
    && (s.reader == Stopped ==> s.finishedAt.Some? && First(s.cursor) >= s.finishedAt.value)
  }

  lemma {:induction false} SlicesJoin<T>(s: seq<T>, a: nat, b: nat)
    requires a <= b <= |s|
    ensures s[a..b] + s[b..] == s[a..|s|]
  {
  }

  lemma {:induction false} MoreUpTo(events: seq<Event>, after: int, cursor: int, delivered: seq<Event>)
    requires UpTo(events, after, cursor, delivered)
    ensures UpTo(events, after, NewCursor(events, cursor), delivered + From(events, First(cursor)))
    ensures First(NewCursor(events, cursor)) >= |events|
  {
    var more := From(events, First(cursor));
    if |events| <= First(cursor) {
      assert more == [] && delivered + more == delivered;
    } else if cursor == after {
      SlicesJoin(events, First(after), First(after));
      assert delivered + more == [] + events[First(after)..];
    } else {
      SlicesJoin(events, First(after), cursor + 1);
    }
  }

  lemma {:induction false} ReadKeepsDelivered(s: System, after: int)
    requires Contiguous(s.events) && DeliveredUpTo(s, after) && s.reader.ReadEventsNext?
    ensures DeliveredUpTo(Next(s, ReadEvents), after)
    ensures Readable(s.events) ==> First(Next(s, ReadEvents).cursor) >= |s.events|
  {
    hide Undelivered, Contiguous, Readable, UpTo, From, NewCursor;
    UndeliveredIsSuffix(s.events, s.cursor);
    MoreUpTo(s.events, after, s.cursor, s.delivered);
  }

  lemma {:induction false} AppendKeepsDelivered(s: System, e: Event, after: int)
    requires DeliveredUpTo(s, after)
    ensures DeliveredUpTo(s.(events := s.events + [e]), after)
  {
    if s.cursor != after {
      assert (s.events + [e])[First(after)..s.cursor + 1] == s.events[First(after)..s.cursor + 1];
    }
  }

  lemma {:induction false} StepKeepsInv(s: System, a: Action, after: int)
    requires Inv(s, after) && Enabled(s, a)
    ensures Inv(Next(s, a), after)
  {
    match a
    case ReadEvents => ReadKeepsDelivered(s, after);
    case Append(e) => AppendKeepsDelivered(s, e, after);
    case _ =>
  }

  lemma {:induction false} RunKeepsInv(s: System, actions: seq<Action>, after: int)
    requires Initial(s, after) && Run(s, actions).Some?
    ensures Inv(Run(s, actions).value, after)
  {
    if actions != [] {
      RunKeepsInv(s, actions[..|actions| - 1], after);
      StepKeepsInv(Run(s, actions[..|actions| - 1]).value, actions[|actions| - 1], after);
    }
  }

  /** Over every interleaving with a writer: a stream that stopped has delivered a run of consecutive
      events past `after`, each exactly once and in order, and misses none that was appended
      before the run finished. */
  lemma {:induction false} StoppedStreamIsComplete(s: System, actions: seq<Action>, after: int)
    requires Initial(s, after) && Run(s, actions).Some? && Run(s, actions).value.reader == Stopped
    ensures var end := Run(s, actions).value;
      && end.finishedAt.Some?
      && (forall k :: 0 <= k < |end.delivered| ==> First(after) + k < |end.events| && end.delivered[k] == end.events[First(after) + k])
      && First(after) + |end.delivered| >= end.finishedAt.value
  {
    RunKeepsInv(s, actions, after);
    DeliveredPlaces(Run(s, actions).value, after);
  }

  /** Where each delivered event stands in the log. */
  lemma {:induction false} DeliveredPlaces(s: System, after: int)
    requires Contiguous(s.events) && DeliveredUpTo(s, after)
    ensures |s.delivered| == First(s.cursor) - First(after)
    ensures forall k :: 0 <= k < |s.delivered| ==> First(after) + k < |s.events| && s.delivered[k] == s.events[First(after) + k]
  {
  }

  /** While it is open, a stream never repeats or skips an event. */
  lemma {:induction false} OpenStreamIsInOrder(s: System, actions: seq<Action>, after: int)
    requires Initial(s, after) && Run(s, actions).Some?
    ensures var end := Run(s, actions).value;
      forall k :: 0 <= k < |end.delivered| ==> end.delivered[k].sequence == First(after) + k
  {
    RunKeepsInv(s, actions, after);
    DeliveredPlaces(Run(s, actions).value, after);
  }

  lemma {:induction false} RunConcat(s: System, a: seq<Action>, b: seq<Action>)
    requires Run(s, a).Some?
    ensures Run(s, a + b) == Run(Run(s, a).value, b)
    decreases |b|
  {
    if b == [] {
      assert a + b == a;
    } else {
      assert (a + b)[..|a + b| - 1] == a + b[..|b| - 1];
      RunConcat(s, a, b[..|b| - 1]);
    }
  }

  // ---------------------------------------------------------------- the store refines it

  /** The run store and one reader of one incident. */
  datatype Session = Session(world: Safety.World, cursor: int, delivered: seq<Event>, reader: Reader)

  /** A store operation, with or without a manifest read after some of its writes, or a reader's move. */
  datatype Move = Write(op: Op) | WriteSeen(op: Op, writes: nat) | Look | Fetch | Leave

  /** The reader reads the manifest on this disk. */
  function Seen(c: Session, id: string, disk: Disk): Session {
    if c.reader == ReadManifestNext && GetManifest(disk, id).Ok?
    then c.(reader := ReadEventsNext(Final(GetManifest(disk, id).value.status)))
    else c
  }

  function Moved(c: Session, id: string, m: Move): Session {
    match m
    case Write(op) => c.(world := Safety.After(c.world, Safety.Complete(op)))
    case WriteSeen(op, k) =>
      var ws := Safety.WritesOf(c.world, op);
      Seen(c, id, Safety.Boundary(c.world.disk, ws, if k < |ws| then k else |ws|))
        .(world := Safety.After(c.world, Safety.Complete(op)))
    case Look => Seen(c, id, c.world.disk)
    case Fetch =>
      if !c.reader.ReadEventsNext? then c
      else if GetEvents(c.world.disk, id).Err? then c.(reader := Disconnected)
      else
        var events := GetEvents(c.world.disk, id).value;
        c.(
          delivered := c.delivered + Undelivered(events, c.cursor),
          cursor := NewCursor(events, c.cursor),
          reader := if c.reader.final then Stopped else ReadManifestNext)
    case Leave => if c.reader == ReadManifestNext then c.(reader := Disconnected) else c
  }

  function Play(c: Session, id: string, moves: seq<Move>): Session {
    if moves == [] then c else Moved(Play(c, id, moves[..|moves| - 1]), id, moves[|moves| - 1])
  }

  /** The system's view of a session whose run can be read. */
  ghost predicate Mirrors(c: Session, id: string, s: System) {
    && Safety.Sound(c.world)
    && Shows(c.world.disk, id, s)
    && c.cursor == s.cursor && c.delivered == s.delivered && c.reader == s.reader
  }

  /** The file holds the system's events, the manifest vouches for them and shows the status. */
  predicate Shows(disk: Disk, id: string, s: System) {
    && id in disk && disk[id].events == Some(s.events)
    && GetManifest(disk, id).Ok? && GetManifest(disk, id).value.status == s.status
    && GetManifest(disk, id).value.digest == Sha256(s.events)
  }

  lemma {:induction false} ShownReads(disk: Disk, id: string, s: System)
    requires Safety.DiskKept(disk) && Shows(disk, id, s)
    ensures GetEvents(disk, id).Ok? <==> Readable(s.events)
    ensures GetEvents(disk, id).Ok? ==> GetEvents(disk, id).value == s.events
    ensures Contiguous(s.events)
  {
    assert Safety.FolderKept(id, disk[id]);
  }

  predicate Spares(m: Move, id: string) {
    (m.Write? || m.WriteSeen?) ==> !(m.op.DeleteRun? && m.op.id == id)
  }

  /** What an operation is to the system: at most one step of its writer. */
  function WriterSteps(w: Safety.World, op: Op, id: string): seq<Action> {
    if Plan(w.disk, w.active, op).Err? || OpId(op) != id then []
    else match op
      case AppendEvent(event) => [Append(event)]
      case FinishRun(_, _, _) => [Finish]
      case FailRun(_, _) => [Fail]
      case _ => []
  }

  lemma {:induction false} RunOne(s: System, a: Action)
    ensures Run(s, [a]) == if Enabled(s, a) then Some(Next(s, a)) else None
    ensures Run(s, []) == Some(s)
  {
    assert [a][..0] == [];
  }

  lemma {:induction false} OtherFolder(w: Safety.World, op: Op, id: string, k: nat)
    requires Safety.Sound(w) && Plan(w.disk, w.active, op).Ok? && OpId(op) != id && k <= |Safety.WritesOf(w, op)|
    ensures var after := Safety.Boundary(w.disk, Safety.WritesOf(w, op), k);
      (id in after <==> id in w.disk) && (id in after ==> after[id] == w.disk[id])
  {
    Safety.BoundaryFolders(w.disk, w.active, op, k);
  }

  /** An operation on the run changes what it shows only with its last write, and as its step says. */
  lemma {:induction false} OwnFolder(w: Safety.World, op: Op, id: string, s: System, k: nat)
    requires Safety.Sound(w) && Shows(w.disk, id, s) && !(op.DeleteRun? && op.id == id)
    requires Plan(w.disk, w.active, op).Ok? && OpId(op) == id && k <= |Safety.WritesOf(w, op)|
    ensures Run(s, WriterSteps(w, op, id)).Some?
    ensures var ws := Safety.WritesOf(w, op);
      var after := Safety.Boundary(w.disk, ws, k);
      && GetManifest(after, id).Ok?
      && (k < |ws| ==> GetManifest(after, id).value.status == s.status)
      && (k == |ws| ==> Shows(after, id, Run(s, WriterSteps(w, op, id)).value))
  {
    var ws := Safety.WritesOf(w, op);
    match op
    case AppendEvent(event) =>
      RunOne(s, Append(event));
      Safety.AppendPlanned(w.disk, event);
      Safety.AppendBoundary(w.disk, GetManifest(w.disk, id).value, GetEvents(w.disk, id).value, event, k);
    case FinishRun(_, _, _) =>
      RunOne(s, Finish);
      Safety.OneWriteBoundary(w.disk, ws[0].manifest, k);
    case FailRun(_, _) =>
      RunOne(s, Fail);
      Safety.OneWriteBoundary(w.disk, ws[0].manifest, k);
    case UpdateState(_, _) =>
      Safety.OneWriteBoundary(w.disk, ws[0].manifest, k);
    case StartRun(_, _) =>
    case DeleteRun(_) =>
  }

  /** Between the writes of an operation the manifest shows the status from before; after the last
      one the store shows what the writer's steps make of the system. */
  lemma {:induction false} WriterRefines(w: Safety.World, op: Op, id: string, s: System, k: nat)
    requires Safety.Sound(w) && Shows(w.disk, id, s) && !(op.DeleteRun? && op.id == id)
    requires k <= |Safety.WritesOf(w, op)|
    ensures Run(s, WriterSteps(w, op, id)).Some?
    ensures var ws, s' := Safety.WritesOf(w, op), Run(s, WriterSteps(w, op, id)).value;
      var seen := GetManifest(Safety.Boundary(w.disk, ws, k), id);
      && Safety.Sound(Safety.After(w, Safety.Complete(op)))
      && Shows(Safety.After(w, Safety.Complete(op)).disk, id, s')
      && seen.Ok? && seen.value.status == (if k < |ws| then s.status else s'.status)
  {
    var ws := Safety.WritesOf(w, op);
    assert ws[..|ws|] == ws && ws[..0] == [];
    Safety.StepIsSound(w, Safety.Complete(op));
    RunOne(s, Finish);
    if Plan(w.disk, w.active, op).Ok? {
      if OpId(op) == id {
        OwnFolder(w, op, id, s, k);
        OwnFolder(w, op, id, s, |ws|);
      } else {
        OtherFolder(w, op, id, k);
        OtherFolder(w, op, id, |ws|);
      }
    }
  }

  /** A manifest read is the system's, when the manifest shows the system's status. */
  lemma {:induction false} SeenIsRead(c: Session, id: string, disk: Disk, s: System)
    requires c.cursor == s.cursor && c.delivered == s.delivered && c.reader == s.reader
    requires GetManifest(disk, id).Ok? && GetManifest(disk, id).value.status == s.status
    ensures var actions := if c.reader == ReadManifestNext then [ReadManifest] else [];
      && Run(s, actions).Some?
      && var s', c' := Run(s, actions).value, Seen(c, id, disk);
        && s' == s.(reader := s'.reader)
        && c'.cursor == s'.cursor && c'.delivered == s'.delivered && c'.reader == s'.reader && c'.world == c.world
  {
    RunOne(s, ReadManifest);
  }

  /** The writer does not care where the reader is. */
  lemma {:induction false} WriterIgnoresReader(w: Safety.World, op: Op, id: string, s: System, reader: Reader)
    requires Run(s, WriterSteps(w, op, id)).Some?
    ensures Run(s.(reader := reader), WriterSteps(w, op, id)) == Some(Run(s, WriterSteps(w, op, id)).value.(reader := reader))
    ensures Run(s, WriterSteps(w, op, id)).value.reader == s.reader
    ensures Run(s, WriterSteps(w, op, id)).value.cursor == s.cursor && Run(s, WriterSteps(w, op, id)).value.delivered == s.delivered
  {
    var actions := WriterSteps(w, op, id);
    if actions != [] {
      RunOne(s, actions[0]);
      RunOne(s.(reader := reader), actions[0]);
      assert actions == [actions[0]];
    }
  }

  /** Every move of a session is a few steps of the system. */
  lemma {:induction false} MoveRefines(c: Session, id: string, m: Move, s: System) returns (actions: seq<Action>)
    requires Mirrors(c, id, s) && Spares(m, id)
    ensures Run(s, actions).Some? && Mirrors(Moved(c, id, m), id, Run(s, actions).value)
  {
    match m {
      case Write(op) =>
        actions := WriterSteps(c.world, op, id);
        WriterRefines(c.world, op, id, s, 0);
        WriterIgnoresReader(c.world, op, id, s, s.reader);
      case WriteSeen(op, writes) =>
        actions := SeenWriteRefines(c, id, op, writes, s);
      case Look =>
        actions := if c.reader == ReadManifestNext then [ReadManifest] else [];
        SeenIsRead(c, id, c.world.disk, s);
      case Fetch =>
        actions := if c.reader.ReadEventsNext? then [ReadEvents] else [];
        ShownReads(c.world.disk, id, s);
        RunOne(s, ReadEvents);
      case Leave =>
        actions := [Disconnect];
        RunOne(s, Disconnect);
    }
  }

  lemma {:induction false} SeenWriteRefines(c: Session, id: string, op: Op, writes: nat, s: System) returns (actions: seq<Action>)
    requires Mirrors(c, id, s) && Spares(WriteSeen(op, writes), id)
    ensures Run(s, actions).Some? && Mirrors(Moved(c, id, WriteSeen(op, writes)), id, Run(s, actions).value)
  {
    var w, ws := c.world, Safety.WritesOf(c.world, op);
    var k: nat := if writes < |ws| then writes else |ws|;
    var disk, steps := Safety.Boundary(w.disk, ws, k), WriterSteps(w, op, id);
    var look := if c.reader == ReadManifestNext then [ReadManifest] else [];
    WriterRefines(w, op, id, s, k);
    WriterIgnoresReader(w, op, id, s, s.reader);
    if k < |ws| {
      SeenIsRead(c, id, disk, s);
      var seen := Run(s, look).value;
      WriterIgnoresReader(w, op, id, s, seen.reader);
      actions := look + steps;
      RunConcat(s, look, steps);
    } else {
      var written := Run(s, steps).value;
      SeenIsRead(c, id, disk, written);
      actions := steps + look;
      RunConcat(s, steps, look);
    }
  }

  lemma {:induction false} SessionRefines(c: Session, id: string, moves: seq<Move>, s: System) returns (actions: seq<Action>)
    requires Mirrors(c, id, s) && forall m :: m in moves ==> Spares(m, id)
    ensures Run(s, actions).Some? && Mirrors(Play(c, id, moves), id, Run(s, actions).value)
  {
    if moves == [] {
      actions := [];
    } else {
      var init, last := moves[..|moves| - 1], moves[|moves| - 1];
      var before := SessionRefines(c, id, init, s);
      var step := MoveRefines(Play(c, id, init), id, last, Run(s, before).value);
      RunConcat(s, before, step);
      actions := before + step;
    }
  }

  /** The event file is the one the manifest vouches for. */
  predicate Whole(disk: Disk, id: string) {
    && id in disk && disk[id].manifest.Stored?
    && disk[id].events == Some(disk[id].manifest.manifest.digest.content)
  }

  /** The events in the file, whether they can be read or not. */
  function StoredEvents(disk: Disk, id: string): seq<Event>
    requires Whole(disk, id)
  {
    disk[id].events.value
  }

  /** A reader that has just asked for everything after `after`. */
  ghost predicate Opened(c: Session, id: string, after: int) {
    && Safety.Sound(c.world) && Whole(c.world.disk, id)
    && c.cursor == after && c.delivered == [] && c.reader == ReadManifestNext
  }

  function Viewed(c: Session, id: string): (s: System)
    requires Whole(c.world.disk, id)
  {
    var events, status := StoredEvents(c.world.disk, id), c.world.disk[id].manifest.manifest.status;
    System(events, status, if Final(status) then Some(|events|) else None, c.cursor, c.delivered, c.reader)
  }

  lemma {:induction false} OpenedMirrors(c: Session, id: string, after: int)
    requires Opened(c, id, after)
    ensures Mirrors(c, id, Viewed(c, id)) && Initial(Viewed(c, id), after)
  {
    assert Safety.FolderKept(id, c.world.disk[id]);
  }

  lemma {:induction false} MirroredIsWhole(c: Session, id: string, s: System)
    requires Mirrors(c, id, s)
    ensures Whole(c.world.disk, id) && StoredEvents(c.world.disk, id) == s.events
    ensures c.world.disk[id].manifest.manifest.status == s.status
    ensures GetEvents(c.world.disk, id).Ok? <==> Readable(s.events)
  {
    ShownReads(c.world.disk, id, s);
  }

  /** What a session has delivered stands in the stored stream, consecutively, whoever wrote when. The
      file always matches its manifest, and can be read exactly while no event in it breaks its line. */
  lemma {:induction false} StoredStreamIsInOrder(c: Session, id: string, moves: seq<Move>, after: int)
    requires Opened(c, id, after) && forall m :: m in moves ==> Spares(m, id)
    ensures var end := Play(c, id, moves);
      && Whole(end.world.disk, id)
      && var stored := StoredEvents(end.world.disk, id);
      && (GetEvents(end.world.disk, id).Ok? <==> Readable(stored))
      && forall k :: 0 <= k < |end.delivered| ==>
        First(after) + k < |stored| && end.delivered[k] == stored[First(after) + k]
  {
    var s := Viewed(c, id);
    OpenedMirrors(c, id, after);
    var actions := SessionRefines(c, id, moves, s);
    RunKeepsInv(s, actions, after);
    DeliveredPlaces(Run(s, actions).value, after);
    MirroredIsWhole(Play(c, id, moves), id, Run(s, actions).value);
  }

  lemma {:induction false} EventsGrow(s: System, actions: seq<Action>)
    requires Run(s, actions).Some?
    ensures |Run(s, actions).value.events| >= |s.events|
    ensures s.finishedAt.None? && Run(s, actions).value.finishedAt.Some? ==>
      Run(s, actions).value.finishedAt.value >= |s.events|
  {
    if actions != [] {
      EventsGrow(s, actions[..|actions| - 1]);
    }
  }

  lemma {:induction false} PlayConcat(c: Session, id: string, a: seq<Move>, b: seq<Move>)
    ensures Play(c, id, a + b) == Play(Play(c, id, a), id, b)
    decreases |b|
  {
    if b == [] {
      assert a + b == a;
    } else {
      assert (a + b)[..|a + b| - 1] == a + b[..|b| - 1];
      PlayConcat(c, id, a, b[..|b| - 1]);
    }
  }

  /** The system at a moment of a session, and its actions up to there and from there. */
  lemma {:induction false} SessionAt(c: Session, id: string, moves: seq<Move>, after: int, n: nat)
    returns (before: seq<Action>, later: seq<Action>)
    requires Opened(c, id, after) && n <= |moves| && forall m :: m in moves ==> Spares(m, id)
    ensures Initial(Viewed(c, id), after)
    ensures Run(Viewed(c, id), before).Some? && Mirrors(Play(c, id, moves[..n]), id, Run(Viewed(c, id), before).value)
    ensures Run(Run(Viewed(c, id), before).value, later) == Run(Viewed(c, id), before + later)
    ensures Run(Viewed(c, id), before + later).Some? && Mirrors(Play(c, id, moves), id, Run(Viewed(c, id), before + later).value)
  {
    var s := Viewed(c, id);
    assert moves == moves[..n] + moves[n..];
    OpenedMirrors(c, id, after);
    PlayConcat(c, id, moves[..n], moves[n..]);
    before := SessionRefines(c, id, moves[..n], s);
    later := SessionRefines(Play(c, id, moves[..n]), id, moves[n..], Run(s, before).value);
    RunConcat(s, before, later);
  }

  /** A session that stopped by itself has delivered every event past `after` that was stored at any
      moment at which the run was still running. */
  lemma {:induction false} StoredStreamIsComplete(c: Session, id: string, moves: seq<Move>, after: int, n: nat)
    requires Opened(c, id, after) && forall m :: m in moves ==> Spares(m, id)
    requires n <= |moves| && Play(c, id, moves).reader == Stopped
    ensures var then_ := Play(c, id, moves[..n]).world.disk;
      && Whole(then_, id)
      && (then_[id].manifest.manifest.status == Running ==>
        First(after) + |Play(c, id, moves).delivered| >= |StoredEvents(then_, id)|)
  {
    var s := Viewed(c, id);
    var before, later := SessionAt(c, id, moves, after, n);
    var mid := Run(s, before).value;
    MirroredIsWhole(Play(c, id, moves[..n]), id, mid);
    RunKeepsInv(s, before, after);
    StoppedStreamIsComplete(s, before + later, after);
    EventsGrow(mid, later);
  }

  lemma {:induction false} BrokenAfterAppend(events: seq<Event>, e: Event)
    requires !Readable(events)
    ensures !Readable(events + [e])
  {
    assert (events + [e])[FirstBroken(events)] == events[FirstBroken(events)];
  }

  lemma {:induction false} BrokenNeverStops(s: System, actions: seq<Action>)
    requires !Readable(s.events) && s.reader != Stopped && Run(s, actions).Some?
    ensures !Readable(Run(s, actions).value.events) && Run(s, actions).value.reader != Stopped
    ensures Run(s, actions).value.delivered == s.delivered
  {
    if actions != [] {
      var init, a := actions[..|actions| - 1], actions[|actions| - 1];
      BrokenNeverStops(s, init);
      if a.Append? { BrokenAfterAppend(Run(s, init).value.events, a.event); }
    }
  }

  /** From the moment an event that breaks its line is stored, a stream still open delivers nothing
      more and never stops by itself: its next read of the events ends it with an error. */
  lemma {:induction false} BrokenEventEndsStream(c: Session, id: string, moves: seq<Move>, after: int, n: nat)
    requires Opened(c, id, after) && forall m :: m in moves ==> Spares(m, id)
    requires n <= |moves| && Play(c, id, moves[..n]).reader != Stopped
    requires GetEvents(Play(c, id, moves[..n]).world.disk, id).Err?
    ensures Play(c, id, moves).reader != Stopped
    ensures Play(c, id, moves).delivered == Play(c, id, moves[..n]).delivered
    ensures GetEvents(Play(c, id, moves).world.disk, id).Err?
  {
    var s := Viewed(c, id);
    var before, later := SessionAt(c, id, moves, after, n);
    MirroredIsWhole(Play(c, id, moves[..n]), id, Run(s, before).value);
    BrokenNeverStops(Run(s, before).value, later);
    MirroredIsWhole(Play(c, id, moves), id, Run(s, before + later).value);
  }

  // ---------------------------------------------------------------- the other order

  /** The same reader reading the events before the manifest. */
  function EventsFirst(s: System): System {
    s.(delivered := s.delivered + Undelivered(s.events, s.cursor), cursor := NewCursor(s.events, s.cursor))
  }

  function ManifestSecond(s: System): System {
    s.(reader := if Final(s.status) then Stopped else ReadManifestNext)
  }

  /** It can stop without an event that was appended before the run finished: the event arrives and
      the run finishes between its two reads. */
  lemma {:induction false} EventsFirstLosesEvents(s: System, e: Event)
    requires Initial(s, -1) && s.status == Running && Readable(s.events) && e.sequence == |s.events|
    ensures var end := ManifestSecond(Next(Next(EventsFirst(s), Append(e)), Finish));
      end.reader == Stopped && end.finishedAt == Some(|s.events| + 1) && |end.delivered| == |s.events|
  {
    UndeliveredIsSuffix(s.events, -1);
    assert From(s.events, 0) == s.events;
  }
}
