/** The public sandbox: a sliding-window rate limiter with a single-run lock. Times are milliseconds. */
module SandboxLimiter {
  import opened Common

  const RATE_WINDOW_MS := 600000
  const RATE_LIMIT := 3
  const CLIENT_RATE_LIMIT := 12
  const MAX_RUNS := 20
  const STALE_RUN_MS := 20000
  const FIXED_SCENARIO := "KELVIN_CELSIUS_B042"

  datatype RunStatus = Running | Completed | Failed

  datatype Run = Run(
    id: string, status: RunStatus, session: string, idempotencyKey: string, createdAt: int, started: bool, eventCount: nat)

  /** Sessions and clients are counted under keys of their own. */
  datatype Key = SessionKey(session: string) | ClientKey(client: string)

  /** `runs` is in insertion order. */
  datatype Sandbox = Sandbox(
    runs: seq<Run>, attempts: map<Key, seq<int>>, idempotency: map<(string, string), string>)

  datatype Body = NotJson | Json(scenario: Option<string>)

  datatype CreateRequest = CreateRequest(session: string, contentLength: int, body: Body, client: string, key: string)

  datatype Response =
    | InvalidSession
    | PayloadTooLarge
    | InvalidJson
    | FixedScenarioOnly
    | InvalidKey
    | IdempotentReplay(id: string)
    | RateLimited
    | ClientRateLimited
    | Busy
    | Created(id: string)
    | IncidentRequired
    | RunNotFound
    | RunActive
    | WasReset(id: string)

  predicate WordChar(c: char) {
    'A' <= c <= 'Z' || 'a' <= c <= 'z' || '0' <= c <= '9' || c == '_' || c == '-'
  }

  predicate SessionOk(s: string) {
    16 <= |s| <= 80 && forall i :: 0 <= i < |s| ==> WordChar(s[i])
  }

  predicate KeyOk(s: string) {
    8 <= |s| <= 100 && forall i :: 0 <= i < |s| ==> WordChar(s[i]) || s[i] == '.' || s[i] == ':'
  }

  // ---------------------------------------------------------------- stored runs

  function Find(runs: seq<Run>, id: string): Option<Run> {
    if runs == [] then None
    else if runs[|runs| - 1].id == id then Some(runs[|runs| - 1])
    else Find(runs[..|runs| - 1], id)
  }

  predicate AnyRunning(runs: seq<Run>) {
    exists i :: 0 <= i < |runs| && runs[i].status == Running
  }

  /** A run past its time is failed, in memory. */
  function Aged(run: Run, now: int): Run {
    if run.status == Running && now - run.createdAt > STALE_RUN_MS then run.(status := Failed) else run
  }

  function MarkStale(runs: seq<Run>, now: int): (r: seq<Run>)
    ensures |r| == |runs| && forall i :: 0 <= i < |r| ==> r[i] == Aged(runs[i], now)
  {
    seq(|runs|, i requires 0 <= i < |runs| => Aged(runs[i], now))
  }

  /** Without the run of this id. */
  function Dropped(runs: seq<Run>, id: string): seq<Run> {
    if runs == [] then []
    else
      var last := runs[|runs| - 1];
      Dropped(runs[..|runs| - 1], id) + (if last.id == id then [] else [last])
  }

  // ---------------------------------------------------------------- pruning

  /** Newest first; runs of one instant keep their order. */
  function InsertRun(sorted: seq<Run>, run: Run): seq<Run> {
    if sorted == [] || sorted[|sorted| - 1].createdAt >= run.createdAt then sorted + [run]
    else InsertRun(sorted[..|sorted| - 1], run) + [sorted[|sorted| - 1]]
  }

  function NewestFirst(runs: seq<Run>): seq<Run> {
    if runs == [] then [] else InsertRun(NewestFirst(runs[..|runs| - 1]), runs[|runs| - 1])
  }

  lemma {:induction false} InsertRunKeeps(sorted: seq<Run>, run: Run)
    ensures multiset(InsertRun(sorted, run)) == multiset(sorted) + multiset{run}
  {
    if sorted != [] && sorted[|sorted| - 1].createdAt < run.createdAt {
      InsertRunKeeps(sorted[..|sorted| - 1], run);
      assert sorted == sorted[..|sorted| - 1] + [sorted[|sorted| - 1]];
    }
  }

  lemma {:induction false} NewestFirstKeeps(runs: seq<Run>)
    ensures multiset(NewestFirst(runs)) == multiset(runs)
  {
    if runs != [] {
      NewestFirstKeeps(runs[..|runs| - 1]);
      InsertRunKeeps(NewestFirst(runs[..|runs| - 1]), runs[|runs| - 1]);
      assert runs == runs[..|runs| - 1] + [runs[|runs| - 1]];
    }
  }

  /** Beyond the newest twenty, runs that are not running are deleted. */
  predicate Kept(run: Run, tail: seq<Run>) {
    run !in tail || run.status == Running
  }

  function KeepOnly(runs: seq<Run>, tail: seq<Run>): seq<Run> {
    if runs == [] then []
    else
      var last := runs[|runs| - 1];
      KeepOnly(runs[..|runs| - 1], tail) + (if Kept(last, tail) then [last] else [])
  }

  function Pruned(runs: seq<Run>): seq<Run> {
    var sorted := NewestFirst(runs);
    if |sorted| <= MAX_RUNS then runs else KeepOnly(runs, sorted[MAX_RUNS..])
  }

  // ---------------------------------------------------------------- handlers as functions

  function InWindow(times: seq<int>, now: int): seq<int> {
    if times == [] then []
    else
      var last := times[|times| - 1];
      InWindow(times[..|times| - 1], now) + (if now - last < RATE_WINDOW_MS then [last] else [])
  }

  function AttemptsOf(s: Sandbox, k: Key): seq<int> {
    if k in s.attempts then s.attempts[k] else []
  }

  function Malformed(r: CreateRequest): Option<Response> {
    if !SessionOk(r.session) then Some(InvalidSession)
    else if r.contentLength > 1024 then Some(PayloadTooLarge)
    else if r.body.NotJson? then Some(InvalidJson)
    else if r.body.scenario.Some? && r.body.scenario.value != FIXED_SCENARIO then Some(FixedScenarioOnly)
    else if !KeyOk(r.key) then Some(InvalidKey)
    else None
  }

  /** A run already created under this session and key. */
  function Earlier(s: Sandbox, r: CreateRequest): Option<string> {
    if (r.session, r.key) in s.idempotency && Find(s.runs, s.idempotency[(r.session, r.key)]).Some?
    then Some(s.idempotency[(r.session, r.key)])
    else None
  }

  /** Why a create request starts nothing. */
  function Refusal(s: Sandbox, r: CreateRequest, now: int): Option<Response> {
    if Malformed(r).Some? then Malformed(r)
    else if Earlier(s, r).Some? then Some(IdempotentReplay(Earlier(s, r).value))
    else if |InWindow(AttemptsOf(s, SessionKey(r.session)), now)| >= RATE_LIMIT then Some(RateLimited)
    else if |InWindow(AttemptsOf(s, ClientKey(r.client)), now)| >= CLIENT_RATE_LIMIT then Some(ClientRateLimited)
    else if AnyRunning(MarkStale(s.runs, now)) then Some(Busy)
    else None
  }

  function NewRun(r: CreateRequest, now: int, id: string): Run {
    Run(id, Running, r.session, r.key, now, false, 0)
  }

  /** Both logs, cut to the window and extended. */
  function AcceptedAttempts(s: Sandbox, session: string, client: string, now: int): map<Key, seq<int>> {
    s.attempts
      [SessionKey(session) := InWindow(AttemptsOf(s, SessionKey(session)), now) + [now]]
      [ClientKey(client) := InWindow(AttemptsOf(s, ClientKey(client)), now) + [now]]
  }

  function Accepted(s: Sandbox, r: CreateRequest, now: int, id: string): Sandbox {
    Sandbox(
      Pruned(Dropped(MarkStale(s.runs, now), id) + [NewRun(r, now, id)]),
      AcceptedAttempts(s, r.session, r.client, now),
      s.idempotency[(r.session, r.key) := id])
  }

  function CreateAnswer(s: Sandbox, r: CreateRequest, now: int, id: string): (Sandbox, Response) {
    if Refusal(s, r, now).Some? then (s, Refusal(s, r, now).value) else (Accepted(s, r, now, id), Created(id))
  }

  function ResetAnswer(s: Sandbox, session: string, id: string): (Sandbox, Response) {
    if !SessionOk(session) then (s, InvalidSession)
    else if id == "" then (s, IncidentRequired)
    else match Find(s.runs, id)
      case None => (s, RunNotFound)
      case Some(run) =>
        if run.session != session then (s, RunNotFound)
        else if run.status == Running then (s, RunActive)
        else (s.(runs := Dropped(s.runs, id), idempotency := s.idempotency - {(session, run.idempotencyKey)}), WasReset(id))
  }

  /** What the event stream writes to a stored run. */
  datatype StreamWrite = MarkStarted | AddEvent | Complete | Abort

  function Written(run: Run, w: StreamWrite): Run {
    match w
    case MarkStarted => run.(started := true)
    case AddEvent => run.(eventCount := run.eventCount + 1)
    case Complete => run.(status := Completed)
    case Abort => run.(status := Failed)
  }

  /** How many events are written before the stream ends. */
  function Events(generated: nat, failsAt: Option<nat>): nat {
    if failsAt.Some? && failsAt.value < generated then failsAt.value else generated
  }

  /** The writes of a stream that executes its run. */
  function StreamWrites(generated: nat, failsAt: Option<nat>): seq<StreamWrite> {
    var last := if failsAt.Some? && failsAt.value < generated then Abort else Complete;
    [MarkStarted] + seq(Events(generated, failsAt), _ => AddEvent) + [last]
  }

  function WriteAll(runs: seq<Run>, id: string, ws: seq<StreamWrite>): seq<Run> {
    if ws == [] then runs else WriteRun(WriteAll(runs, id, ws[..|ws| - 1]), id, ws[|ws| - 1])
  }

  lemma {:induction false} WriteAllSnoc(runs: seq<Run>, id: string, ws: seq<StreamWrite>, w: StreamWrite)
    ensures WriteAll(runs, id, ws + [w]) == WriteRun(WriteAll(runs, id, ws), id, w)
  {
    assert (ws + [w])[..|ws|] == ws;
  }

  /** What any stream leaves of the stored runs: as many, in order, with their ids, owners and times;
      the other runs as they were; and none that is running again. */
  lemma {:induction false} StreamKeepsRuns(runs: seq<Run>, id: string, ws: seq<StreamWrite>)
    ensures var after := WriteAll(runs, id, ws);
      |after| == |runs| && forall i :: 0 <= i < |runs| ==>
        && (runs[i].id != id ==> after[i] == runs[i])
        && after[i].id == runs[i].id && after[i].session == runs[i].session && after[i].createdAt == runs[i].createdAt
        && (after[i].status == Running ==> runs[i].status == Running)
  {
    if ws != [] {
      StreamKeepsRuns(runs, id, ws[..|ws| - 1]);
    }
  }

  /** The stored runs after the start and `n` events. */
  function Streamed(runs: seq<Run>, id: string, n: nat): seq<Run> {
    WriteAll(runs, id, [MarkStarted] + seq(n, _ => AddEvent))
  }

  lemma {:induction false} StreamStarts(runs: seq<Run>, id: string)
    ensures Streamed(runs, id, 0) == WriteRun(runs, id, MarkStarted)
  {
    assert [MarkStarted] + seq(0, _ => AddEvent) == [] + [MarkStarted];
    WriteAllSnoc(runs, id, [], MarkStarted);
  }

  lemma {:induction false} StreamAdds(runs: seq<Run>, id: string, n: nat)
    ensures Streamed(runs, id, n + 1) == WriteRun(Streamed(runs, id, n), id, AddEvent)
  {
    assert [MarkStarted] + seq(n + 1, _ => AddEvent) == [MarkStarted] + seq(n, _ => AddEvent) + [AddEvent];
    WriteAllSnoc(runs, id, [MarkStarted] + seq(n, _ => AddEvent), AddEvent);
  }

  lemma {:induction false} StreamEnds(runs: seq<Run>, id: string, generated: nat, failsAt: Option<nat>, n: nat)
    requires n <= generated && (n == generated || failsAt == Some(n))
    requires failsAt.Some? ==> n <= failsAt.value || failsAt.value >= generated
    ensures WriteAll(runs, id, StreamWrites(generated, failsAt))
         == WriteRun(Streamed(runs, id, n), id, if n < generated then Abort else Complete)
  {
    var last := if n < generated then Abort else Complete;
    assert n == Events(generated, failsAt);
    WriteAllSnoc(runs, id, [MarkStarted] + seq(n, _ => AddEvent), last);
  }

  lemma {:induction false} EventsAdded(runs: seq<Run>, id: string, n: nat, i: nat)
    requires i < |runs| && runs[i].id == id
    ensures |Streamed(runs, id, n)| == |runs|
    ensures Streamed(runs, id, n)[i] == runs[i].(started := true, eventCount := runs[i].eventCount + n)
  {
    if n == 0 {
      StreamStarts(runs, id);
    } else {
      EventsAdded(runs, id, n - 1, i);
      StreamAdds(runs, id, n - 1);
    }
  }

  /** What an executing stream makes of its run: every event before the failure, and a final status. */
  lemma {:induction false} StreamedRun(runs: seq<Run>, id: string, generated: nat, failsAt: Option<nat>, i: nat)
    requires i < |runs| && runs[i].id == id
    ensures var after, n := WriteAll(runs, id, StreamWrites(generated, failsAt)), Events(generated, failsAt);
      i < |after| && after[i] == runs[i].(
        started := true, eventCount := runs[i].eventCount + n, status := if n < generated then Failed else Completed)
  {
    var n := Events(generated, failsAt);
    EventsAdded(runs, id, n, i);
    StreamEnds(runs, id, generated, failsAt, n);
  }

  function WriteRun(runs: seq<Run>, id: string, w: StreamWrite): (r: seq<Run>)
    ensures |r| == |runs| && forall i :: 0 <= i < |r| ==> r[i] == if runs[i].id == id then Written(runs[i], w) else runs[i]
  {
    seq(|runs|, i requires 0 <= i < |runs| => if runs[i].id == id then Written(runs[i], w) else runs[i])
  }

  // ---------------------------------------------------------------- the object

  class LiveSandbox {
    var runs: seq<Run>
    var attempts: map<Key, seq<int>>
    var idempotency: map<(string, string), string>

    function Value(): Sandbox
      reads this
    {
      Sandbox(runs, attempts, idempotency)
    }

    constructor ()
      ensures Value() == Sandbox([], map[], map[])
    {
      runs, attempts, idempotency := [], map[], map[];
    }

    /** A refused request leaves the stored state as it was, stale runs included. */
    method HandleCreate(r: CreateRequest, now: int, id: string) returns (response: Response)
      modifies this
      ensures (Value(), response) == CreateAnswer(old(Value()), r, now, id)
    {
      var malformed := Malformed(r);
      if malformed.Some? {
        return malformed.value;
      }
      if (r.session, r.key) in idempotency {
        var existing := idempotency[(r.session, r.key)];
        if Find(runs, existing).Some? {
          return IdempotentReplay(existing);
        }
      }
      var sessionKey, clientKey := SessionKey(r.session), ClientKey(r.client);
      var recent := InWindow(if sessionKey in attempts then attempts[sessionKey] else [], now);
      var clientRecent := InWindow(if clientKey in attempts then attempts[clientKey] else [], now);
      if |recent| >= RATE_LIMIT {
        return RateLimited;
      }
      if |clientRecent| >= CLIENT_RATE_LIMIT {
        return ClientRateLimited;
      }
      var marked := MarkStale(runs, now);
      if AnyRunning(marked) {
        return Busy;
      }
      runs := Pruned(Dropped(marked, id) + [NewRun(r, now, id)]);
      attempts := attempts[sessionKey := recent + [now]][clientKey := clientRecent + [now]];
      idempotency := idempotency[(r.session, r.key) := id];
      return Created(id);
    }

    method HandleReset(session: string, id: string) returns (response: Response)
      modifies this
      ensures (Value(), response) == ResetAnswer(old(Value()), session, id)
      ensures attempts == old(attempts)
    {
      if !SessionOk(session) {
        return InvalidSession;
      }
      if id == "" {
        return IncidentRequired;
      }
      var run := Find(runs, id);
      if run.None? || run.value.session != session {
        return RunNotFound;
      }
      if run.value.status == Running {
        return RunActive;
      }
      runs := Dropped(runs, id);
      idempotency := idempotency - {(session, run.value.idempotencyKey)};
      return WasReset(id);
    }

    /** Stream a run. The first stream of a run executes it: it marks the run started, adds the
        generated events one by one and completes it, or fails it when event `failsAt` raises. Any
        later stream only reads. */
    method StreamRun(id: string, generated: nat, failsAt: Option<nat>) returns (found: bool)
      modifies this`runs
      ensures found <==> Find(old(runs), id).Some?
      ensures !found || Find(old(runs), id).value.started ==> runs == old(runs)
      ensures found && !Find(old(runs), id).value.started ==> runs == WriteAll(old(runs), id, StreamWrites(generated, failsAt))
    {
      var run := Find(runs, id);
      if run.None? {
        return false;
      }
      if run.value.started {
        return true;
      }
      ghost var before := runs;
      StreamStarts(before, id);
      runs := WriteRun(runs, id, MarkStarted);
      hide Streamed, WriteRun, Events, StreamWrites;
      var i := 0;
      while i < generated && failsAt != Some(i)
        invariant i <= generated && runs == Streamed(before, id, i)
        invariant failsAt.Some? ==> i <= failsAt.value || failsAt.value >= generated
      {
        StreamAdds(before, id, i);
        runs := WriteRun(runs, id, AddEvent);
        i := i + 1;
      }
      StreamEnds(before, id, generated, failsAt, i);
      runs := WriteRun(runs, id, if i < generated then Abort else Complete);
      return true;
    }
  }

  // ---------------------------------------------------------------- whole runs

  datatype Action =
    | CreateAt(request: CreateRequest, now: int, id: string)
    | ResetAt(session: string, resetId: string)
    | StreamAt(streamId: string, write: StreamWrite)

  /** An accepted create request. */
  datatype Entry = Entry(time: int, session: string, client: string)

  /** The sandbox, everything it ever accepted, and the clock. */
  datatype World = World(sandbox: Sandbox, history: seq<Entry>, clock: int)

  predicate Enabled(w: World, a: Action) {
    a.CreateAt? ==> w.clock <= a.now
  }

  function After(w: World, a: Action): World {
    match a
    case CreateAt(r, now, id) =>
      var (s, response) := CreateAnswer(w.sandbox, r, now, id);
      World(s, if response.Created? then w.history + [Entry(now, r.session, r.client)] else w.history, now)
    case ResetAt(session, id) => w.(sandbox := ResetAnswer(w.sandbox, session, id).0)
    case StreamAt(id, write) => w.(sandbox := w.sandbox.(runs := WriteRun(w.sandbox.runs, id, write)))
  }

  /** A run whose clock never goes back. */
  function RunAll(w: World, actions: seq<Action>): Option<World> {
    if actions == [] then Some(w)
    else
      match RunAll(w, actions[..|actions| - 1])
      case None => None
      case Some(mid) => if Enabled(mid, actions[|actions| - 1]) then Some(After(mid, actions[|actions| - 1])) else None
  }

  function Counts(e: Entry, k: Key): bool {
    match k
    case SessionKey(session) => e.session == session
    case ClientKey(client) => e.client == client
  }

  /** The times of everything ever accepted under a key. */
  function TimesOf(history: seq<Entry>, k: Key): seq<int> {
    if history == [] then []
    else
      var last := history[|history| - 1];
      TimesOf(history[..|history| - 1], k) + (if Counts(last, k) then [last.time] else [])
  }

  function LimitOf(k: Key): nat {
    if k.SessionKey? then RATE_LIMIT else CLIENT_RATE_LIMIT
  }

  predicate NonDecreasing(times: seq<int>) {
    forall i, j :: 0 <= i < j < |times| ==> times[i] <= times[j]
  }

  /** Any `limit` + 1 acceptances span at least the whole window. */
  predicate Spaced(times: seq<int>, limit: nat) {
    forall i :: 0 <= i && i + limit < |times| ==> times[i + limit] - times[i] >= RATE_WINDOW_MS
  }

  predicate OneRunning(runs: seq<Run>) {
    forall i, j :: 0 <= i < j < |runs| ==> !(runs[i].status == Running && runs[j].status == Running)
  }

  /** The pruned log says about the window what the full history says. */
  predicate LogAgrees(w: World, k: Key) {
    var times := TimesOf(w.history, k);
    && InWindow(AttemptsOf(w.sandbox, k), w.clock) == InWindow(times, w.clock)
    && NonDecreasing(times) && (forall i :: 0 <= i < |times| ==> times[i] <= w.clock)
    && Spaced(times, LimitOf(k))
  }

  ghost predicate Inv(w: World) {
    && (forall k :: LogAgrees(w, k))
    && OneRunning(w.sandbox.runs)
    && |w.sandbox.runs| <= MAX_RUNS + 1
  }

  // ---------------------------------------------------------------- the window

  lemma {:induction false} WindowShrinks(times: seq<int>, earlier: int, later: int)
    requires earlier <= later
    ensures InWindow(InWindow(times, earlier), later) == InWindow(times, later)
  {
    if times != [] {
      var init, last := times[..|times| - 1], times[|times| - 1];
      WindowShrinks(init, earlier, later);
      var kept := InWindow(init, earlier);
      if earlier - last < RATE_WINDOW_MS {
        assert (kept + [last])[..|kept|] == kept;
      } else {
        assert kept + [] == kept;
        assert InWindow(init, later) + [] == InWindow(init, later);
      }
    }
  }

  lemma {:induction false} WindowSnoc(times: seq<int>, t: int, now: int)
    ensures InWindow(times + [t], now) == InWindow(times, now) + (if now - t < RATE_WINDOW_MS then [t] else [])
  {
    assert (times + [t])[..|times|] == times;
  }

  /** What two logs agree on at one instant they agree on later. */
  lemma {:induction false} AgreementLasts(a: seq<int>, b: seq<int>, earlier: int, later: int)
    requires earlier <= later && InWindow(a, earlier) == InWindow(b, earlier)
    ensures InWindow(a, later) == InWindow(b, later)
  {
    WindowShrinks(a, earlier, later);
    WindowShrinks(b, earlier, later);
  }

  /** The last `m` of non-decreasing times are in the window if the first of them is. */
  lemma {:induction false} LastInWindow(times: seq<int>, m: nat, now: int)
    requires NonDecreasing(times) && 0 < m <= |times| && now - times[|times| - m] < RATE_WINDOW_MS
    ensures |InWindow(times, now)| >= m
  {
    var init := times[..|times| - 1];
    assert times[|times| - m] <= times[|times| - 1];
    if m > 1 {
      LastInWindow(init, m - 1, now);
    }
  }

  lemma {:induction false} SpacedSnoc(times: seq<int>, now: int, limit: nat)
    requires limit > 0 && Spaced(times, limit) && NonDecreasing(times) && |InWindow(times, now)| < limit
    requires forall i :: 0 <= i < |times| ==> times[i] <= now
    ensures Spaced(times + [now], limit) && NonDecreasing(times + [now])
  {
    if limit <= |times| && now - times[|times| - limit] < RATE_WINDOW_MS {
      LastInWindow(times, limit, now);
    }
  }

  // ---------------------------------------------------------------- steps

  lemma {:induction false} TimesSnoc(history: seq<Entry>, e: Entry, k: Key)
    ensures TimesOf(history + [e], k) == TimesOf(history, k) + (if Counts(e, k) then [e.time] else [])
  {
    assert (history + [e])[..|history|] == history;
  }

  lemma {:induction false} LaterAgrees(w: World, k: Key, now: int)
    requires LogAgrees(w, k) && w.clock <= now
    ensures LogAgrees(w.(clock := now), k)
  {
    AgreementLasts(AttemptsOf(w.sandbox, k), TimesOf(w.history, k), w.clock, now);
  }

  /** Extending both logs by one acceptance keeps them in agreement. */
  lemma {:induction false} ExtendedAgrees(log: seq<int>, times: seq<int>, now: int)
    requires InWindow(log, now) == InWindow(times, now)
    ensures InWindow(InWindow(log, now) + [now], now) == InWindow(times + [now], now)
  {
    WindowShrinks(log, now, now);
    WindowSnoc(InWindow(log, now), now, now);
    WindowSnoc(times, now, now);
  }

  predicate NotLimited(s: Sandbox, k: Key, now: int) {
    |InWindow(AttemptsOf(s, k), now)| < LimitOf(k)
  }

  lemma {:induction false} AcceptedIsNotLimited(s: Sandbox, r: CreateRequest, now: int)
    requires Refusal(s, r, now).None?
    ensures NotLimited(s, SessionKey(r.session), now) && NotLimited(s, ClientKey(r.client), now)
  {
  }

  /** What acceptance does to one key's log. */
  lemma {:induction false} AcceptedLog(s: Sandbox, runs: seq<Run>, ids: map<(string, string), string>, e: Entry, k: Key)
    ensures AttemptsOf(Sandbox(runs, AcceptedAttempts(s, e.session, e.client, e.time), ids), k)
      == if Counts(e, k) then InWindow(AttemptsOf(s, k), e.time) + [e.time] else AttemptsOf(s, k)
  {
  }

  lemma {:induction false} CountedAgrees(w: World, s: Sandbox, e: Entry, k: Key)
    requires LogAgrees(w, k) && w.clock <= e.time
    requires AttemptsOf(s, k) == if Counts(e, k) then InWindow(AttemptsOf(w.sandbox, k), e.time) + [e.time] else AttemptsOf(w.sandbox, k)
    requires Counts(e, k) ==> NotLimited(w.sandbox, k, e.time)
    ensures LogAgrees(World(s, w.history + [e], e.time), k)
  {
    hide InWindow, Spaced, NonDecreasing, TimesOf, Counts;
    LaterAgrees(w, k, e.time);
    var times := TimesOf(w.history, k);
    TimesSnoc(w.history, e, k);
    if Counts(e, k) {
      ExtendedAgrees(AttemptsOf(w.sandbox, k), times, e.time);
      SpacedSnoc(times, e.time, LimitOf(k));
    } else {
      assert times + [] == times;
    }
  }

  lemma {:induction false} AcceptedAgrees(w: World, r: CreateRequest, now: int, id: string, k: Key)
    requires LogAgrees(w, k) && w.clock <= now && Refusal(w.sandbox, r, now).None?
    ensures LogAgrees(World(Accepted(w.sandbox, r, now, id), w.history + [Entry(now, r.session, r.client)], now), k)
  {
    var e, s := Entry(now, r.session, r.client), Accepted(w.sandbox, r, now, id);
    AcceptedIsNotLimited(w.sandbox, r, now);
    AcceptedLog(w.sandbox, s.runs, s.idempotency, e, k);
    CountedAgrees(w, s, e, k);
  }

  lemma {:induction false} DroppedKeepsOne(runs: seq<Run>, id: string)
    ensures |Dropped(runs, id)| <= |runs|
    ensures forall r :: r in Dropped(runs, id) ==> r in runs
    ensures OneRunning(runs) ==> OneRunning(Dropped(runs, id))
  {
    if runs != [] {
      var init, last := runs[..|runs| - 1], runs[|runs| - 1];
      assert runs == init + [last];
      DroppedKeepsOne(init, id);
      if OneRunning(runs) && last.status == Running {
        forall r | r in Dropped(init, id) ensures r.status != Running {
          assert r in init;
        }
      }
    }
  }

  lemma {:induction false} KeptCount(runs: seq<Run>, tail: seq<Run>)
    ensures forall r :: multiset(KeepOnly(runs, tail))[r] == if Kept(r, tail) then multiset(runs)[r] else 0
  {
    if runs != [] {
      assert runs == runs[..|runs| - 1] + [runs[|runs| - 1]];
      KeptCount(runs[..|runs| - 1], tail);
    }
  }

  lemma {:induction false} KeptRuns(runs: seq<Run>, tail: seq<Run>)
    ensures |KeepOnly(runs, tail)| <= |runs|
    ensures forall r :: r in KeepOnly(runs, tail) ==> r in runs
    ensures OneRunning(runs) ==> OneRunning(KeepOnly(runs, tail))
  {
    if runs != [] {
      var init, last := runs[..|runs| - 1], runs[|runs| - 1];
      assert runs == init + [last];
      KeptRuns(init, tail);
      if OneRunning(runs) && last.status == Running {
        forall r | r in KeepOnly(init, tail) ensures r.status != Running {
          assert r in init;
        }
      }
    }
  }

  /** Keeping depends on which runs there are, not on their order. */
  lemma {:induction false} SameKept(a: seq<Run>, b: seq<Run>, tail: seq<Run>)
    requires multiset(a) == multiset(b)
    ensures |KeepOnly(a, tail)| == |KeepOnly(b, tail)|
  {
    KeptCount(a, tail);
    KeptCount(b, tail);
    assert multiset(KeepOnly(a, tail)) == multiset(KeepOnly(b, tail));
    assert |multiset(KeepOnly(a, tail))| == |multiset(KeepOnly(b, tail))|;
  }

  lemma {:induction false} KeepConcat(a: seq<Run>, b: seq<Run>, tail: seq<Run>)
    ensures KeepOnly(a + b, tail) == KeepOnly(a, tail) + KeepOnly(b, tail)
  {
    if b == [] {
      assert a + b == a;
    } else {
      assert (a + b)[..|a + b| - 1] == a + b[..|b| - 1];
      KeepConcat(a, b[..|b| - 1], tail);
    }
  }

  lemma {:induction false} AllSame(rs: seq<Run>, running: Run)
    requires forall r :: r in rs ==> r == running
    ensures multiset(rs)[running] == |rs|
  {
    if rs != [] {
      var init, last := rs[..|rs| - 1], rs[|rs| - 1];
      assert rs == init + [last];
      assert last in rs && forall r :: r in init ==> r in rs;
      AllSame(init, running);
    }
  }

  lemma {:induction false} TailKeepsRunning(part: seq<Run>, tail: seq<Run>, running: Run)
    requires forall r :: r in part ==> r in tail && (r.status == Running ==> r == running)
    requires multiset(part)[running] <= 1
    ensures |KeepOnly(part, tail)| <= 1
  {
    KeptCount(part, tail);
    var kept := KeepOnly(part, tail);
    forall r | r in kept ensures r == running {
      assert r in multiset(kept);
    }
    AllSame(kept, running);
  }

  lemma {:induction false} RunningIsOnce(runs: seq<Run>, run: Run)
    requires OneRunning(runs) && run.status == Running
    ensures multiset(runs)[run] <= 1
    decreases |runs|
  {
    if runs != [] {
      var init, last := runs[..|runs| - 1], runs[|runs| - 1];
      assert runs == init + [last];
      RunningIsOnce(init, run);
      if last == run {
        assert run !in init;
        assert run !in multiset(init);
      }
    }
  }

  /** Pruning never leaves more than twenty runs and the running one. */
  lemma {:induction false} PrunedIsBounded(runs: seq<Run>)
    requires OneRunning(runs)
    ensures |Pruned(runs)| <= MAX_RUNS + 1 && OneRunning(Pruned(runs))
  {
    var sorted := NewestFirst(runs);
    NewestFirstKeeps(runs);
    assert |multiset(sorted)| == |multiset(runs)|;
    if |sorted| > MAX_RUNS {
      var head, tail := sorted[..MAX_RUNS], sorted[MAX_RUNS..];
      KeptRuns(runs, tail);
      KeptRuns(head, tail);
      assert sorted == head + tail;
      SameKept(runs, sorted, tail);
      KeepConcat(head, tail, tail);
      TailIsOne(runs, sorted, tail);
    }
  }

  lemma {:induction false} TailIsOne(runs: seq<Run>, sorted: seq<Run>, tail: seq<Run>)
    requires OneRunning(runs) && multiset(sorted) == multiset(runs)
    requires |sorted| > MAX_RUNS && tail == sorted[MAX_RUNS..]
    ensures |KeepOnly(tail, tail)| <= 1
  {
    assert sorted == sorted[..MAX_RUNS] + tail;
    if r :| r in tail && r.status == Running {
      forall x | x in tail && x.status == Running ensures x == r {
        OnlyRunning(runs, sorted, x, r);
      }
      RunningIsOnce(runs, r);
      assert multiset(sorted)[r] == multiset(sorted[..MAX_RUNS])[r] + multiset(tail)[r];
      TailKeepsRunning(tail, tail, r);
    } else {
      NoneKept(tail, tail);
    }
  }

  lemma {:induction false} OnlyRunning(runs: seq<Run>, sorted: seq<Run>, x: Run, r: Run)
    requires OneRunning(runs) && multiset(sorted) == multiset(runs)
    requires x in sorted && r in sorted && x.status == Running && r.status == Running
    ensures x == r
  {
    assert x in multiset(sorted) && r in multiset(sorted);
    var i :| 0 <= i < |runs| && runs[i] == x;
    var j :| 0 <= j < |runs| && runs[j] == r;
  }

  lemma {:induction false} NoneKept(part: seq<Run>, tail: seq<Run>)
    requires forall r :: r in part ==> r in tail && r.status != Running
    ensures KeepOnly(part, tail) == []
  {
    if part != [] {
      assert part[|part| - 1] in part;
      NoneKept(part[..|part| - 1], tail);
    }
  }

  lemma {:induction false} AcceptedRuns(s: Sandbox, r: CreateRequest, now: int, id: string)
    requires Refusal(s, r, now).None?
    ensures OneRunning(Accepted(s, r, now, id).runs) && |Accepted(s, r, now, id).runs| <= MAX_RUNS + 1
  {
    var marked := MarkStale(s.runs, now);
    DroppedKeepsOne(marked, id);
    assert forall x :: x in marked ==> x.status != Running;
    var dropped := Dropped(marked, id);
    assert forall i :: 0 <= i < |dropped| ==> dropped[i] in marked;
    PrunedIsBounded(dropped + [NewRun(r, now, id)]);
  }

  lemma {:induction false} StepKeepsLog(w: World, a: Action, k: Key)
    requires LogAgrees(w, k) && Enabled(w, a)
    ensures LogAgrees(After(w, a), k)
  {
    hide LogAgrees, Accepted;
    match a
    case CreateAt(r, now, id) =>
      if Refusal(w.sandbox, r, now).Some? {
        LaterAgrees(w, k, now);
      } else {
        AcceptedAgrees(w, r, now, id, k);
      }
    case ResetAt(session, id) => SameAttempts(w, After(w, a), k);
    case StreamAt(id, write) => SameAttempts(w, After(w, a), k);
  }

  lemma {:induction false} SameAttempts(w: World, w': World, k: Key)
    requires LogAgrees(w, k)
    requires w'.sandbox.attempts == w.sandbox.attempts && w'.history == w.history && w'.clock == w.clock
    ensures LogAgrees(w', k)
  {
  }

  lemma {:induction false} StepKeepsRuns(w: World, a: Action)
    requires OneRunning(w.sandbox.runs) && |w.sandbox.runs| <= MAX_RUNS + 1
    ensures OneRunning(After(w, a).sandbox.runs) && |After(w, a).sandbox.runs| <= MAX_RUNS + 1
  {
    match a
    case CreateAt(r, now, id) =>
      if Refusal(w.sandbox, r, now).None? { AcceptedRuns(w.sandbox, r, now, id); }
    case ResetAt(session, id) => DroppedKeepsOne(w.sandbox.runs, id);
    case StreamAt(id, write) =>
  }

  lemma {:induction false} StepKeepsInv(w: World, a: Action)
    requires Inv(w) && Enabled(w, a)
    ensures Inv(After(w, a))
  {
    forall k ensures LogAgrees(After(w, a), k) {
      StepKeepsLog(w, a, k);
    }
    StepKeepsRuns(w, a);
  }

  predicate Initial(w: World) {
    w.sandbox == Sandbox([], map[], map[]) && w.history == []
  }

  lemma {:induction false} RunKeepsInv(w: World, actions: seq<Action>)
    requires Initial(w) && RunAll(w, actions).Some?
    ensures Inv(RunAll(w, actions).value)
  {
    if actions != [] {
      RunKeepsInv(w, actions[..|actions| - 1]);
      StepKeepsInv(RunAll(w, actions[..|actions| - 1]).value, actions[|actions| - 1]);
    }
  }

  /** Over any requests, resets and streams with a clock that never goes back: among everything ever
      accepted, any four runs of one session and any thirteen of one client span at least ten minutes,
      and at most one stored run is running. */
  lemma {:induction false} LimitsHold(w: World, actions: seq<Action>, session: string, client: string)
    requires Initial(w) && RunAll(w, actions).Some?
    ensures var end := RunAll(w, actions).value;
      && Spaced(TimesOf(end.history, SessionKey(session)), RATE_LIMIT)
      && Spaced(TimesOf(end.history, ClientKey(client)), CLIENT_RATE_LIMIT)
      && OneRunning(end.sandbox.runs) && |end.sandbox.runs| <= MAX_RUNS + 1
  {
    RunKeepsInv(w, actions);
    var end := RunAll(w, actions).value;
    assert LogAgrees(end, SessionKey(session)) && LogAgrees(end, ClientKey(client));
  }

  /** The limiter decides on the full history: the pruned log refuses a session at `now` exactly when
      three of its runs were ever accepted within the last ten minutes, resets notwithstanding. */
  lemma {:induction false} LimiterSeesFullHistory(w: World, actions: seq<Action>, k: Key, now: int)
    requires Initial(w) && RunAll(w, actions).Some? && RunAll(w, actions).value.clock <= now
    ensures var end := RunAll(w, actions).value;
      InWindow(AttemptsOf(end.sandbox, k), now) == InWindow(TimesOf(end.history, k), now)
  {
    RunKeepsInv(w, actions);
    LaterAgrees(RunAll(w, actions).value, k, now);
  }
}
