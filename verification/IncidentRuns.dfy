/** The incident state machine, its event stream, and replaying one to get the other. */
module IncidentRuns {
  import opened Common
  import opened TextLines
  import opened IncidentLifecycle
  import opened Events

  function StateName(s: IncidentState): string {
    match s
    case Healthy => "HEALTHY"
    case Detected => "DETECTED"
    case Investigating => "INVESTIGATING"
    case AtRisk => "AT_RISK"
    case Quarantined => "QUARANTINED"
    case RecoveryPending => "RECOVERY_PENDING"
    case Resolved => "RESOLVED"
  }

  function StateNamed(name: string): Option<IncidentState> {
    if name == "HEALTHY" then Some(Healthy)
    else if name == "DETECTED" then Some(Detected)
    else if name == "INVESTIGATING" then Some(Investigating)
    else if name == "AT_RISK" then Some(AtRisk)
    else if name == "QUARANTINED" then Some(Quarantined)
    else if name == "RECOVERY_PENDING" then Some(RecoveryPending)
    else if name == "RESOLVED" then Some(Resolved)
    else None
  }

  // ---------------------------------------------------------------- the machine as a value

  datatype Incident = Incident(id: string, events: seq<Event>, state: IncidentState)

  /** What a caller does; the flags say whether the event callback returns. */
  datatype Call =
    | Start(symptom: string, payload: map<string, string>, first: bool, second: bool)
    | Transition(target: IncidentState, draft: Draft, delivers: bool)
    | Record(draft: Draft, delivers: bool)

  /** A transition's event: the caller's text, or a default, with the two states in the payload. */
  function TransitionDraft(source: IncidentState, target: IncidentState, d: Draft): Draft {
    d.(
      eventType := StateTransitioned,
      summary := if d.summary != "" then d.summary
        else "Incident moved from " + StateName(source) + " to " + StateName(target),
      payload := d.payload["from_state" := StateName(source)]["to_state" := StateName(target)])
  }

  function CreatedDraft(symptom: string, payload: map<string, string>): Draft {
    Draft("SYSTEM", IncidentCreated, CREATED_SUMMARY, [], 0, payload["symptom" := symptom])
  }

  // Two literals each: the verifier does not look inside a long one, and these must be seen not to be blank.
  const CREATED_SUMMARY := "Incident created " + "from an escalated detection signal"
  const ESCALATED_SUMMARY := "Sentinel escalated " + "the signal for investigation"
  const ESCALATED := Draft("COORDINATOR", StateTransitioned, ESCALATED_SUMMARY, [], 0, map[])

  function Noted(inc: Incident, d: Draft): Incident {
    if DraftError(d).Some? then inc
    else inc.(events := inc.events + [EventFrom(inc.id, |inc.events|, d)])
  }

  /** Whether a transition gets as far as being recorded. */
  predicate Transitions(inc: Incident, target: IncidentState, d: Draft) {
    Legal(inc.state, target) && DraftError(TransitionDraft(inc.state, target, d)).None?
  }

  /** The state moves only after the event is recorded and delivered. */
  function Moved(inc: Incident, target: IncidentState, d: Draft, delivers: bool): Incident {
    if !Transitions(inc, target, d) then inc
    else
      var mid := Noted(inc, TransitionDraft(inc.state, target, d));
      if delivers then mid.(state := target) else mid
  }

  predicate HasCreation(events: seq<Event>) {
    exists i :: 0 <= i < |events| && events[i].eventType == IncidentCreated
  }

  predicate CanStart(inc: Incident) {
    inc.state == Healthy && !HasCreation(inc.events)
  }

  function After(inc: Incident, c: Call): Incident {
    match c
    case Start(symptom, payload, first, second) =>
      if !CanStart(inc) then inc
      else
        var mid := Noted(inc, CreatedDraft(symptom, payload));
        if first then Moved(mid, Detected, ESCALATED, second) else mid
    case Transition(target, draft, delivers) => Moved(inc, target, draft, delivers)
    case Record(draft, _) => Noted(inc, draft)
  }

  function AfterAll(inc: Incident, calls: seq<Call>): Incident {
    if calls == [] then inc else After(AfterAll(inc, calls[..|calls| - 1]), calls[|calls| - 1])
  }

  function Fresh(id: string): Incident {
    Incident(id, [], Healthy)
  }

  // ---------------------------------------------------------------- the machine as an object

  /** Owns one event stream and its strictly validated lifecycle. */
  class IncidentRun {
    const recorder: EventRecorder
    var state: IncidentState

    predicate Valid()
      reads this, recorder
    {
      recorder.Valid()
    }

    function Value(): Incident
      reads this, recorder
    {
      Incident(recorder.incidentId, recorder.events, state)
    }

    constructor (id: string)
      ensures Valid() && Value() == Fresh(id) && fresh(recorder)
    {
      recorder := new EventRecorder(id);
      state := Healthy;
    }

    method Transition(target: IncidentState, draft: Draft, delivers: bool) returns (result: Result<Event, EventError>)
      requires Valid()
      modifies this`state, recorder
      ensures Valid() && Value() == After(old(Value()), Call.Transition(target, draft, delivers))
      ensures result.Ok? <==> Transitions(old(Value()), target, draft) && delivers
      ensures !Legal(old(state), target) ==> result == Err(IllegalTransition)
    {
      if !Legal(state, target) {
        return Err(IllegalTransition);
      }
      result := recorder.Emit(TransitionDraft(state, target, draft), delivers);
      if result.Ok? {
        state := target;
      }
    }

    method Start(symptom: string, payload: map<string, string>, first: bool, second: bool)
      returns (result: Result<Event, EventError>)
      requires Valid()
      modifies this`state, recorder
      ensures Valid() && Value() == After(old(Value()), Call.Start(symptom, payload, first, second))
      ensures result.Ok? <==> CanStart(old(Value())) && first && second
    {
      var created := HasCreation(recorder.events);
      if state != Healthy || created {
        return Err(AlreadyStarted);
      }
      KnownDraftsAreValid(symptom, payload);
      ghost var before := Value();
      result := recorder.Emit(CreatedDraft(symptom, payload), first);
      if result.Err? {
        return;
      }
      assert Value() == Noted(before, CreatedDraft(symptom, payload));
      result := Transition(Detected, ESCALATED, second);
    }

    method Record(draft: Draft, delivers: bool) returns (result: Result<Event, EventError>)
      requires Valid()
      modifies this`state, recorder
      ensures Valid() && Value() == After(old(Value()), Call.Record(draft, delivers))
      ensures result.Ok? <==> DraftError(draft).None? && delivers
    {
      result := recorder.Emit(draft, delivers);
    }
  }

  lemma {:induction false} KnownDraftsAreValid(symptom: string, payload: map<string, string>)
    ensures DraftError(CreatedDraft(symptom, payload)).None?
    ensures DraftError(TransitionDraft(Healthy, Detected, ESCALATED)).None?
  {
    StripKeeps(CREATED_SUMMARY);
    StripKeeps(ESCALATED_SUMMARY);
    assert TransitionDraft(Healthy, Detected, ESCALATED).summary == ESCALATED_SUMMARY;
  }

  // ---------------------------------------------------------------- replay

  /** One event of a replay; other events leave the state alone. */
  function ReplayOne(state: IncidentState, e: Event): Result<IncidentState, EventError> {
    if e.eventType != StateTransitioned then Ok(state)
    else if "from_state" !in e.payload || "to_state" !in e.payload then Err(BadTransitionPayload)
    else match (StateNamed(e.payload["from_state"]), StateNamed(e.payload["to_state"]))
      case (Some(source), Some(target)) =>
        if source != state then Err(ClaimsOtherState)
        else if !Legal(state, target) then Err(IllegalTransition)
        else Ok(target)
      case _ => Err(BadTransitionPayload)
  }

  function Replayed(events: seq<Event>, initial: IncidentState): Result<IncidentState, EventError> {
    if events == [] then Ok(initial)
    else match Replayed(events[..|events| - 1], initial)
      case Err(e) => Err(e)
      case Ok(state) => ReplayOne(state, events[|events| - 1])
  }

  /** Replay of a whole stream: it must validate first. */
  function Replay(events: seq<Event>, initial: IncidentState): Result<IncidentState, EventError> {
    match ValidateStream(events)
    case Some(e) => Err(e)
    case None => Replayed(events, initial)
  }

  lemma {:induction false} ReplayErrorStays(events: seq<Event>, initial: IncidentState, i: nat)
    requires i <= |events| && Replayed(events[..i], initial).Err?
    ensures Replayed(events, initial) == Replayed(events[..i], initial)
    decreases |events| - i
  {
    if i < |events| {
      assert events[..i + 1][..i] == events[..i];
      ReplayErrorStays(events, initial, i + 1);
    } else {
      assert events[..i] == events;
    }
  }

  method ReplayState(events: seq<Event>, initial: IncidentState) returns (result: Result<IncidentState, EventError>)
    ensures result == Replay(events, initial)
  {
    var invalid := ValidateStream(events);
    if invalid.Some? {
      return Err(invalid.value);
    }
    var state := initial;
    for i := 0 to |events|
      invariant Replayed(events[..i], initial) == Ok(state)
    {
      assert events[..i + 1][..i] == events[..i];
      var next := ReplayOne(state, events[i]);
      if next.Err? {
        ReplayErrorStays(events, initial, i + 1);
        return next;
      }
      state := next.value;
    }
    assert events[..|events|] == events;
    return Ok(state);
  }

  lemma {:induction false} ReplaySnoc(events: seq<Event>, e: Event)
    ensures Replayed(events + [e], Healthy) ==
      match Replayed(events, Healthy) case Err(x) => Err(x) case Ok(state) => ReplayOne(state, e)
  {
    assert (events + [e])[..|events|] == events;
  }

  // ---------------------------------------------------------------- replay agrees with the machine

  /** A transition is recorded but its callback raises, so the state stays behind the stream. */
  predicate Strands(inc: Incident, c: Call) {
    match c
    case Start(_, _, first, second) => CanStart(inc) && first && !second
    case Transition(target, draft, delivers) => Transitions(inc, target, draft) && !delivers
    case Record(_, _) => false
  }

  predicate EverStranded(inc: Incident, calls: seq<Call>) {
    calls != []
    && (EverStranded(inc, calls[..|calls| - 1]) || Strands(AfterAll(inc, calls[..|calls| - 1]), calls[|calls| - 1]))
  }

  /** Transitions are recorded through the machine only. */
  predicate ThroughMachine(calls: seq<Call>) {
    forall c :: c in calls && c.Record? ==> c.draft.eventType != StateTransitioned
  }

  predicate InStep(inc: Incident) {
    Replayed(inc.events, Healthy) == Ok(inc.state)
  }

  lemma {:induction false} NamesReadBack(s: IncidentState)
    ensures StateNamed(StateName(s)) == Some(s)
  {
  }

  lemma {:induction false} RecordedReplay(inc: Incident, d: Draft)
    requires d.eventType != StateTransitioned
    ensures Replayed(Noted(inc, d).events, Healthy) == Replayed(inc.events, Healthy)
  {
    if DraftError(d).None? {
      ReplaySnoc(inc.events, EventFrom(inc.id, |inc.events|, d));
    }
  }

  lemma {:induction false} TransitionReplay(inc: Incident, target: IncidentState, d: Draft)
    requires Transitions(inc, target, d)
    ensures Replayed(Noted(inc, TransitionDraft(inc.state, target, d)).events, Healthy) ==
      match Replayed(inc.events, Healthy)
      case Err(e) => Err(e)
      case Ok(state) => if state == inc.state then Ok(target) else Err(ClaimsOtherState)
  {
    NamesReadBack(inc.state);
    NamesReadBack(target);
    hide Replayed, Legal, StateName, StateNamed;
    ReplaySnoc(inc.events, EventFrom(inc.id, |inc.events|, TransitionDraft(inc.state, target, d)));
  }

  lemma {:induction false} MovedReplay(inc: Incident, target: IncidentState, d: Draft, delivers: bool)
    ensures InStep(Moved(inc, target, d, delivers)) <==> InStep(inc) && !(Transitions(inc, target, d) && !delivers)
  {
    hide Replayed, Transitions, Noted;
    if Transitions(inc, target, d) {
      TransitionReplay(inc, target, d);
      NotedKeepsState(inc, target, d);
    }
  }

  /** Recording leaves the state, which a legal transition would change. */
  lemma {:induction false} NotedKeepsState(inc: Incident, target: IncidentState, d: Draft)
    requires Transitions(inc, target, d)
    ensures Noted(inc, TransitionDraft(inc.state, target, d)).state == inc.state && target != inc.state
  {
  }

  /** One call keeps replay and machine together unless it strands a transition, and nothing ever
      brings them together again. */
  lemma {:induction false} CallReplay(inc: Incident, c: Call)
    requires c.Record? ==> c.draft.eventType != StateTransitioned
    ensures InStep(After(inc, c)) <==> InStep(inc) && !Strands(inc, c)
  {
    match c
    case Start(symptom, payload, first, second) =>
      if CanStart(inc) {
        KnownDraftsAreValid(symptom, payload);
        RecordedReplay(inc, CreatedDraft(symptom, payload));
        var mid := Noted(inc, CreatedDraft(symptom, payload));
        MovedReplay(mid, Detected, ESCALATED, second);
        assert Transitions(mid, Detected, ESCALATED);
      }
    case Transition(target, draft, delivers) => MovedReplay(inc, target, draft, delivers);
    case Record(draft, _) => RecordedReplay(inc, draft);
  }

  lemma {:induction false} NotedRecords(inc: Incident, d: Draft)
    requires Events.Recorded(inc.id, inc.events)
    ensures Events.Recorded(inc.id, Noted(inc, d).events)
  {
  }

  lemma {:induction false} CallRecords(inc: Incident, c: Call)
    requires Events.Recorded(inc.id, inc.events)
    ensures Events.Recorded(inc.id, After(inc, c).events) && After(inc, c).id == inc.id
  {
    match c
    case Start(symptom, payload, first, second) =>
      NotedRecords(inc, CreatedDraft(symptom, payload));
      var mid := Noted(inc, CreatedDraft(symptom, payload));
      NotedRecords(mid, TransitionDraft(mid.state, Detected, ESCALATED));
    case Transition(target, draft, delivers) => NotedRecords(inc, TransitionDraft(inc.state, target, draft));
    case Record(draft, _) => NotedRecords(inc, draft);
  }

  lemma {:induction false} RunRecords(id: string, calls: seq<Call>)
    ensures Events.Recorded(id, AfterAll(Fresh(id), calls).events) && AfterAll(Fresh(id), calls).id == id
  {
    if calls != [] {
      RunRecords(id, calls[..|calls| - 1]);
      CallRecords(AfterAll(Fresh(id), calls[..|calls| - 1]), calls[|calls| - 1]);
    }
  }

  lemma {:induction false} RunReplay(id: string, calls: seq<Call>)
    requires ThroughMachine(calls)
    ensures InStep(AfterAll(Fresh(id), calls)) <==> !EverStranded(Fresh(id), calls)
  {
    if calls != [] {
      var init, c := calls[..|calls| - 1], calls[|calls| - 1];
      assert c in calls;
      RunReplay(id, init);
      CallReplay(AfterAll(Fresh(id), init), c);
    }
  }

  /** For every sequence of calls, legal or rejected: the recorded stream validates, and replaying it
      gives the machine's state exactly when no transition's callback ever raised. */
  lemma {:induction false} ReplayAgrees(id: string, calls: seq<Call>)
    requires ThroughMachine(calls)
    ensures var end := AfterAll(Fresh(id), calls);
      && ValidateStream(end.events).None?
      && (Replay(end.events, Healthy) == Ok(end.state) <==> !EverStranded(Fresh(id), calls))
  {
    RunRecords(id, calls);
    RecordedIsValid(id, AfterAll(Fresh(id), calls).events);
    RunReplay(id, calls);
  }

  /** An incident starts once: after a creation was recorded, every start is refused. */
  lemma {:induction false} CreationStays(inc: Incident, calls: seq<Call>)
    requires HasCreation(inc.events)
    ensures HasCreation(AfterAll(inc, calls).events) && inc.events <= AfterAll(inc, calls).events
  {
    if calls != [] {
      CreationStays(inc, calls[..|calls| - 1]);
      var mid := AfterAll(inc, calls[..|calls| - 1]);
      assert mid.events <= After(mid, calls[|calls| - 1]).events;
      var i :| 0 <= i < |mid.events| && mid.events[i].eventType == IncidentCreated;
      assert After(mid, calls[|calls| - 1]).events[i].eventType == IncidentCreated;
    }
  }

  // ---------------------------------------------------------------- what any accepted stream says

  predicate Contained(s: IncidentState) {
    s == AtRisk || s == Quarantined || s == RecoveryPending || s == Resolved
  }

  lemma {:induction false} ReplayedPrefix(events: seq<Event>, initial: IncidentState, i: nat)
    requires i < |events| && Replayed(events, initial).Ok?
    ensures Replayed(events[..i], initial).Ok? && Replayed(events[..i + 1], initial).Ok?
    ensures Replayed(events[..i + 1], initial) == ReplayOne(Replayed(events[..i], initial).value, events[i])
  {
    assert events[..i + 1][..i] == events[..i];
    if Replayed(events[..i], initial).Err? { ReplayErrorStays(events, initial, i); }
    if Replayed(events[..i + 1], initial).Err? { ReplayErrorStays(events, initial, i + 1); }
  }

  lemma {:induction false} ContainedStep(state: IncidentState, e: Event)
    requires Contained(state) && ReplayOne(state, e).Ok?
    ensures Contained(ReplayOne(state, e).value)
    ensures ReplayOne(state, e) == Ok(Resolved) ==> state == RecoveryPending || state == Resolved
    ensures state == Resolved ==> e.eventType != StateTransitioned && ReplayOne(state, e) == Ok(Resolved)
  {
  }

  /** RESOLVED is final in any accepted stream. */
  lemma {:induction false} ResolvedIsFinal(events: seq<Event>, initial: IncidentState, i: nat, j: nat)
    requires i <= j <= |events| && Replayed(events, initial).Ok?
    requires Replayed(events[..i], initial) == Ok(Resolved)
    ensures Replayed(events[..j], initial) == Ok(Resolved)
    ensures forall k :: i <= k < j ==> events[k].eventType != StateTransitioned
    decreases j
  {
    hide Contained, ReplayOne;
    if i < j {
      ResolvedIsFinal(events, initial, i, j - 1);
      ReplayedPrefix(events, initial, j - 1);
      ContainedStep(Replayed(events[..j - 1], initial).value, events[j - 1]);
    }
  }

  /** Once contained, an incident of an accepted stream stays contained. */
  lemma {:induction false} ContainedStays(events: seq<Event>, initial: IncidentState, i: nat, j: nat)
    requires i <= j <= |events| && Replayed(events, initial).Ok?
    requires Replayed(events[..i], initial).Ok? && Contained(Replayed(events[..i], initial).value)
    ensures Replayed(events[..j], initial).Ok? && Contained(Replayed(events[..j], initial).value)
    decreases j
  {
    if i < j {
      ContainedStays(events, initial, i, j - 1);
      ReplayedPrefix(events, initial, j - 1);
      ContainedStep(Replayed(events[..j - 1], initial).value, events[j - 1]);
    }
  }

  /** After AT_RISK or QUARANTINED, RESOLVED is entered only from RECOVERY_PENDING. */
  lemma {:induction false} ResolvedOnlyFromPending(events: seq<Event>, initial: IncidentState, i: nat, j: nat)
    requires i <= j < |events| && Replayed(events, initial).Ok?
    requires Replayed(events[..i], initial) == Ok(AtRisk) || Replayed(events[..i], initial) == Ok(Quarantined)
    requires Replayed(events[..j], initial) != Ok(Resolved) && Replayed(events[..j + 1], initial) == Ok(Resolved)
    ensures Replayed(events[..j], initial) == Ok(RecoveryPending)
  {
    ContainedStays(events, initial, i, j);
    ReplayedPrefix(events, initial, j);
    ContainedStep(Replayed(events[..j], initial).value, events[j]);
  }
}
