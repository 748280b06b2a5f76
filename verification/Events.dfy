/** The append-only incident event log. */
module Events {
  import opened Common
  import opened TextLines

  datatype EventType =
    | SignalDetected | EscalationDecided | IncidentCreated | StateTransitioned | HypothesisProposed
    | EvidenceObserved | HypothesisResolved | ImpactMapped | PolicyDecided | DatahubIncidentWritten
    | RepairBundleCreated | RepairPublished | RepairVerified | RepairApplied | ApprovalRequested
    | ApprovalRecorded | DecisionLogWritten | EnforcementApplied | NotificationRecorded
    | RecoveryEvidenceRefreshed | RecoveryChecked | IncidentResolved

  function TypeName(t: EventType): string {
    match t
    case SignalDetected => "SIGNAL_DETECTED"
    case EscalationDecided => "ESCALATION_DECIDED"
    case IncidentCreated => "INCIDENT_CREATED"
    case StateTransitioned => "STATE_TRANSITIONED"
    case HypothesisProposed => "HYPOTHESIS_PROPOSED"
    case EvidenceObserved => "EVIDENCE_OBSERVED"
    case HypothesisResolved => "HYPOTHESIS_RESOLVED"
    case ImpactMapped => "IMPACT_MAPPED"
    case PolicyDecided => "POLICY_DECIDED"
    case DatahubIncidentWritten => "DATAHUB_INCIDENT_WRITTEN"
    case RepairBundleCreated => "REPAIR_BUNDLE_CREATED"
    case RepairPublished => "REPAIR_PUBLISHED"
    case RepairVerified => "REPAIR_VERIFIED"
    case RepairApplied => "REPAIR_APPLIED"
    case ApprovalRequested => "APPROVAL_REQUESTED"
    case ApprovalRecorded => "APPROVAL_RECORDED"
    case DecisionLogWritten => "DECISION_LOG_WRITTEN"
    case EnforcementApplied => "ENFORCEMENT_APPLIED"
    case NotificationRecorded => "NOTIFICATION_RECORDED"
    case RecoveryEvidenceRefreshed => "RECOVERY_EVIDENCE_REFRESHED"
    case RecoveryChecked => "RECOVERY_CHECKED"
    case IncidentResolved => "INCIDENT_RESOLVED"
  }

  datatype Event = Event(
    eventId: string,
    incidentId: string,
    sequence: nat,
    actor: string,
    eventType: EventType,
    summary: string,
    evidenceIds: seq<string>,
    durationMs: nat,
    payload: map<string, string>)

  datatype EventError =
    | EmptyText
    | BlankEvidence
    | DuplicateEvidence
    | NegativeDuration
    | SeveralIncidents
    | NotContiguous
    | DuplicateIds
    | CallbackFailed
    | IllegalTransition
    | BadTransitionPayload
    | ClaimsOtherState
    | AlreadyStarted
    | InvalidLine(number: nat)

  // ---------------------------------------------------------------- event identifiers

  function Zeros(n: nat): string {
    seq(n, _ => '0')
  }

  /** At least four digits, as `:04d` prints. */
  function Padded(n: nat): string {
    var digits := Decimal(n);
    if |digits| < 4 then Zeros(4 - |digits|) + digits else digits
  }

  function EventId(incidentId: string, sequence: nat, eventType: EventType): string {
    incidentId + (":" + (Padded(sequence) + (":" + TypeName(eventType))))
  }

  lemma {:induction false} LeadingZeros(k: nat, digits: string)
    requires forall i :: 0 <= i < |digits| ==> IsDigit(digits[i])
    ensures forall i :: 0 <= i < |Zeros(k) + digits| ==> IsDigit((Zeros(k) + digits)[i])
    ensures Number(Zeros(k) + digits) == Number(digits)
    decreases |digits|, k
  {
    var s := Zeros(k) + digits;
    if digits == "" {
      if k > 0 {
        LeadingZeros(k - 1, "");
        assert s[..|s| - 1] == Zeros(k - 1) + "";
      }
    } else {
      LeadingZeros(k, digits[..|digits| - 1]);
      assert s[..|s| - 1] == Zeros(k) + digits[..|digits| - 1];
    }
  }

  lemma {:induction false} PaddedReads(n: nat)
    ensures forall i :: 0 <= i < |Padded(n)| ==> IsDigit(Padded(n)[i])
    ensures Number(Padded(n)) == n
  {
    NumberOfDecimal(n);
    var digits := Decimal(n);
    if |digits| < 4 {
      LeadingZeros(4 - |digits|, digits);
    }
  }

  /** Identifiers of one incident determine the sequence number, beyond four digits too. */
  lemma {:induction false} EventIdInjective(incidentId: string, m: nat, a: EventType, n: nat, b: EventType)
    requires EventId(incidentId, m, a) == EventId(incidentId, n, b)
    ensures m == n
  {
    PaddedReads(m);
    PaddedReads(n);
    var x, y := Padded(m) + (":" + TypeName(a)), Padded(n) + (":" + TypeName(b));
    PrefixOfConcat(incidentId, ":" + x);
    PrefixOfConcat(incidentId, ":" + y);
    PrefixOfConcat(":", x);
    PrefixOfConcat(":", y);
    assert x == y;
    DigitsOf(Padded(m), ":" + TypeName(a));
    DigitsOf(Padded(n), ":" + TypeName(b));
    PrefixOfConcat(Padded(m), ":" + TypeName(a));
    PrefixOfConcat(Padded(n), ":" + TypeName(b));
    assert Padded(m) == x[..Digits(x)] == Padded(n);
  }

  // ---------------------------------------------------------------- streams

  predicate OneIncident(events: seq<Event>) {
    forall i, j :: 0 <= i < j < |events| ==> events[i].incidentId == events[j].incidentId
  }

  predicate Contiguous(events: seq<Event>) {
    forall i :: 0 <= i < |events| ==> events[i].sequence == i
  }

  predicate UniqueIds(events: seq<Event>) {
    forall i, j :: 0 <= i < j < |events| ==> events[i].eventId != events[j].eventId
  }

  /** The ordering and identity invariants of one incident stream, checked in this order. */
  function ValidateStream(events: seq<Event>): Option<EventError> {
    if !OneIncident(events) then Some(SeveralIncidents)
    else if !Contiguous(events) then Some(NotContiguous)
    else if !UniqueIds(events) then Some(DuplicateIds)
    else None
  }

  predicate ValidStream(events: seq<Event>) {
    OneIncident(events) && Contiguous(events) && UniqueIds(events)
  }

  // ---------------------------------------------------------------- emitting

  /** What a caller asks to record. */
  datatype Draft = Draft(
    actor: string,
    eventType: EventType,
    summary: string,
    evidenceIds: seq<string>,
    durationMs: int,
    payload: map<string, string>)

  predicate HasBlank(ids: seq<string>) {
    exists i :: 0 <= i < |ids| && Strip(ids[i]) == ""
  }

  /** Why a draft is refused before anything is recorded. */
  function DraftError(d: Draft): Option<EventError> {
    if Strip(d.summary) == "" then Some(EmptyText)
    else if HasBlank(d.evidenceIds) then Some(BlankEvidence)
    else if !Distinct(d.evidenceIds) then Some(DuplicateEvidence)
    else if d.durationMs < 0 then Some(NegativeDuration)
    else None
  }

  function EventFrom(incidentId: string, sequence: nat, d: Draft): Event
    requires DraftError(d).None?
  {
    Event(EventId(incidentId, sequence, d.eventType), incidentId, sequence, d.actor, d.eventType,
      Strip(d.summary), d.evidenceIds, d.durationMs, d.payload)
  }

  /** Streams in which every identifier is the recorder's own. */
  predicate Recorded(incidentId: string, events: seq<Event>) {
    forall i :: 0 <= i < |events| ==>
      && events[i].incidentId == incidentId && events[i].sequence == i
      && events[i].eventId == EventId(incidentId, i, events[i].eventType)
  }

  /** A recorder's stream always validates. */
  lemma {:induction false} RecordedIsValid(incidentId: string, events: seq<Event>)
    requires Recorded(incidentId, events)
    ensures ValidStream(events) && ValidateStream(events).None?
  {
    forall i, j | 0 <= i < j < |events| ensures events[i].eventId != events[j].eventId {
      if events[i].eventId == events[j].eventId {
        EventIdInjective(incidentId, i, events[i].eventType, j, events[j].eventType);
      }
    }
  }

  /** Append-only recorder; its callback is told of each event after it is recorded. */
  class EventRecorder {
    const incidentId: string
    var events: seq<Event>

    predicate Valid()
      reads this
    {
      Recorded(incidentId, events)
    }

    constructor (incidentId: string)
      ensures Valid() && this.incidentId == incidentId && events == []
    {
      this.incidentId := incidentId;
      events := [];
    }

    /** `delivers`: whether the callback returns; an event whose callback raises stays recorded. */
    method Emit(d: Draft, delivers: bool) returns (result: Result<Event, EventError>)
      requires Valid()
      modifies this`events
      ensures Valid()
      ensures DraftError(d).Some? ==> result == Err(DraftError(d).value) && events == old(events)
      ensures DraftError(d).None? ==>
        && events == old(events) + [EventFrom(incidentId, |old(events)|, d)]
        && result == if delivers then Ok(EventFrom(incidentId, |old(events)|, d)) else Err(CallbackFailed)
    {
      var error := DraftError(d);
      if error.Some? {
        return Err(error.value);
      }
      var event := EventFrom(incidentId, |events|, d);
      events := events + [event];
      if !delivers {
        return Err(CallbackFailed);
      }
      return Ok(event);
    }
  }

  // ---------------------------------------------------------------- JSONL

  /** One JSON document per line, followed by a newline. */
  function Jsonl(encode: Event -> string, events: seq<Event>): string {
    if events == [] then "" else encode(events[0]) + "\n" + Jsonl(encode, events[1..])
  }

  function Decoded(decode: string -> Option<Event>, lines: seq<string>, number: nat): Result<seq<Event>, EventError> {
    if lines == [] then Ok([])
    else if Strip(Bare(lines[0])) == "" then Decoded(decode, lines[1..], number + 1)
    else match decode(Bare(lines[0]))
      case None => Err(InvalidLine(number))
      case Some(event) =>
        match Decoded(decode, lines[1..], number + 1)
        case Err(e) => Err(e)
        case Ok(rest) => Ok([event] + rest)
  }

  function LoadEvents(decode: string -> Option<Event>, text: string): Result<seq<Event>, EventError> {
    match Decoded(decode, SplitLines(text), 1)
    case Err(e) => Err(e)
    case Ok(events) => match ValidateStream(events) case Some(e) => Err(e) case None => Ok(events)
  }

  /** JSON escapes control characters below the space and leaves other line separators as they are. */
  predicate Storable(s: string) {
    forall i :: 0 <= i < |s| ==> s[i] < ' ' || !Separates(s[i])
  }

  predicate AllStorable(texts: seq<string>) {
    forall i :: 0 <= i < |texts| ==> Storable(texts[i])
  }

  /** No text of the event holds a separator that would end up in its document. */
  predicate StorableEvent(e: Event) {
    && AllStorable([e.eventId, e.incidentId, e.actor, e.summary]) && AllStorable(e.evidenceIds)
    && forall k :: k in e.payload ==> Storable(k) && Storable(e.payload[k])
  }

  /** A JSON encoding: it can be read back, starts visibly, no proper prefix of a document is one, and
      a document is one line exactly when no text of the event breaks it. */
  ghost predicate DocumentCodec(encode: Event -> string, decode: string -> Option<Event>) {
    && (forall e :: decode(encode(e)) == Some(e) && encode(e) != "" && !IsSpace(encode(e)[0]))
    && (forall e, a :: a < encode(e) ==> decode(a).None?)
    && (forall e :: Unbroken(encode(e)) <==> StorableEvent(e))
  }

  /** The first event that breaks its document; the length when none does. */
  function FirstBroken(events: seq<Event>): (n: nat)
    ensures n <= |events| && (forall i :: 0 <= i < n ==> StorableEvent(events[i]))
    ensures n < |events| ==> !StorableEvent(events[n])
  {
    if events == [] || !StorableEvent(events[0]) then 0 else 1 + FirstBroken(events[1..])
  }

  /** What loading says of a saved stream: its first broken line, else what validation says. */
  function LoadError(events: seq<Event>): Option<EventError> {
    if FirstBroken(events) < |events| then Some(InvalidLine(FirstBroken(events) + 1)) else ValidateStream(events)
  }

  lemma {:induction false} FirstDocument(json: string, rest: string)
    requires Unbroken(json)
    ensures SplitLines(json + "\n" + rest) == [json + "\n"] + SplitLines(rest)
    ensures Bare(json + "\n") == json
  {
    var line := json + "\n";
    LineEndAfter(json, "\n" + rest);
    assert line + rest == json + ("\n" + rest) && line[..|json|] == json;
    assert (line + rest)[..|line|] == line && (line + rest)[|line|..] == rest;
  }

  /** Where a text first breaks. */
  lemma {:induction false} FirstBreak(s: string) returns (k: nat)
    requires !Unbroken(s)
    ensures k < |s| && Separates(s[k]) && Unbroken(s[..k])
  {
    k := 0;
    if !Separates(s[0]) {
      var n := FirstBreak(s[1..]);
      k := n + 1;
      assert s[..k] == [s[0]] + s[1..][..n];
    }
  }

  lemma {:induction false} BareOfCut(a: string, end: string)
    requires Unbroken(a) && (end == ['\r', '\n'] || (|end| == 1 && Separates(end[0])))
    ensures Bare(a + end) == a
  {
    var line := a + end;
    assert line[..|a|] == a;
    if |end| == 1 && a != "" {
      assert line[|line| - 2] == a[|a| - 1];
    }
  }

  /** The first line of a document that breaks is cut short. */
  lemma {:induction false} CutDocument(json: string, rest: string)
    requires !Unbroken(json) && !IsSpace(json[0])
    ensures SplitLines(json + "\n" + rest) != []
    ensures var cut := Bare(SplitLines(json + "\n" + rest)[0]); cut < json && Strip(cut) != ""
  {
    var text := json + "\n" + rest;
    var k := FirstBreak(json);
    var a, tail := json[..k], text[k..];
    assert text == a + tail && tail[0] == json[k];
    LineEndAfter(a, tail);
    var end := tail[..LineEnd(tail)];
    assert text[..LineEnd(text)] == a + end;
    BareOfCut(a, end);
    assert a[0] == json[0];
    StripKeeps(a);
  }

  lemma {:induction false} WholeDocument(decode: string -> Option<Event>, json: string, event: Event, rest: string, number: nat)
    requires Unbroken(json) && Strip(json) != "" && decode(json) == Some(event)
    ensures Decoded(decode, SplitLines(json + "\n" + rest), number) ==
      match Decoded(decode, SplitLines(rest), number + 1) case Err(e) => Err(e) case Ok(more) => Ok([event] + more)
  {
    hide SplitLines, Strip, Bare, Unbroken;
    FirstDocument(json, rest);
    assert ([json + "\n"] + SplitLines(rest))[1..] == SplitLines(rest);
  }

  lemma {:induction false} BrokenDocument(decode: string -> Option<Event>, json: string, rest: string, number: nat)
    requires !Unbroken(json) && !IsSpace(json[0])
    requires forall a :: a < json ==> decode(a).None?
    ensures Decoded(decode, SplitLines(json + "\n" + rest), number) == Err(InvalidLine(number))
  {
    hide SplitLines, Strip, Bare, Unbroken;
    CutDocument(json, rest);
  }

  lemma {:induction false} DecodesBack(encode: Event -> string, decode: string -> Option<Event>, events: seq<Event>, number: nat)
    requires DocumentCodec(encode, decode)
    ensures Decoded(decode, SplitLines(Jsonl(encode, events)), number) ==
      if FirstBroken(events) < |events| then Err(InvalidLine(number + FirstBroken(events))) else Ok(events)
    decreases |events|
  {
    hide SplitLines, Decoded, StorableEvent, Unbroken;
    if events == [] {
      NothingDecoded(decode, number);
    } else {
      var json, rest := encode(events[0]), Jsonl(encode, events[1..]);
      DecodesBack(encode, decode, events[1..], number + 1);
      if StorableEvent(events[0]) {
        StripKeeps(json);
        WholeDocument(decode, json, events[0], rest, number);
        assert events == [events[0]] + events[1..];
      } else {
        BrokenDocument(decode, json, rest, number);
      }
    }
  }

  lemma {:induction false} NothingDecoded(decode: string -> Option<Event>, number: nat)
    ensures Decoded(decode, SplitLines(""), number) == Ok([])
  {
  }

  /** Loading a saved stream: the stream comes back exactly when it validates and no text in it holds
      a character at which the loader cuts lines; otherwise the error is the first one met. */
  lemma {:induction false} SaveLoadRoundTrip(encode: Event -> string, decode: string -> Option<Event>, events: seq<Event>)
    requires DocumentCodec(encode, decode)
    ensures LoadEvents(decode, Jsonl(encode, events)) ==
      match LoadError(events) case Some(e) => Err(e) case None => Ok(events)
  {
    DecodesBack(encode, decode, events, 1);
  }

  /** Different streams are saved as different files, so a digest of the file is one of the stream. */
  lemma {:induction false} SavedFilesDiffer(encode: Event -> string, decode: string -> Option<Event>, a: seq<Event>, b: seq<Event>)
    requires DocumentCodec(encode, decode) && Jsonl(encode, a) == Jsonl(encode, b)
    ensures a == b
    decreases |a|
  {
    hide DocumentCodec;
    if a != [] && b != [] {
      var more, rest := Jsonl(encode, a[1..]), Jsonl(encode, b[1..]);
      assert Jsonl(encode, a) == encode(a[0]) + ("\n" + more) && Jsonl(encode, b) == encode(b[0]) + ("\n" + rest);
      SameDocument(encode, decode, a[0], b[0], "\n" + more, "\n" + rest);
      assert ("\n" + more)[1..] == more && ("\n" + rest)[1..] == rest;
      SavedFilesDiffer(encode, decode, a[1..], b[1..]);
      assert a == [a[0]] + a[1..] && b == [b[0]] + b[1..];
    }
  }

  lemma {:induction false} ShorterIsPrefix(e: string, a: string, f: string, b: string)
    requires e + a == f + b && |e| <= |f|
    ensures e <= f
  {
    assert (e + a)[..|e|] == e && (f + b)[..|e|] == f[..|e|];
  }

  /** No document starts another, so a text starts with at most one. */
  lemma {:induction false} SameDocument(encode: Event -> string, decode: string -> Option<Event>, x: Event, y: Event, a: string, b: string)
    requires DocumentCodec(encode, decode) && encode(x) + a == encode(y) + b
    ensures x == y && a == b
  {
    var e, f := encode(x), encode(y);
    assert decode(e) == Some(x) && decode(f) == Some(y);
    if |e| <= |f| { ShorterIsPrefix(e, a, f, b); } else { ShorterIsPrefix(f, b, e, a); }
    assert (e + a)[|e|..] == a && (f + b)[|f|..] == b;
  }
}
