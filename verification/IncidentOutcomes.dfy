/** What the incident machine and its recorder accept, and what they record, in plain values. */
module IncidentOutcomes {
  import opened Common
  import opened TextLines
  import opened IncidentLifecycle
  import opened Events
  import opened IncidentRuns

  // ---------------------------------------------------------------- the lifecycle

  /** The states that may follow one. */
  function Successors(s: IncidentState): set<IncidentState> {
    match s
    case Healthy => {Detected}
    case Detected => {Investigating, Resolved}
    case Investigating => {AtRisk, Quarantined, Resolved}
    case AtRisk => {Quarantined, RecoveryPending}
    case Quarantined => {RecoveryPending}
    case RecoveryPending => {AtRisk, Quarantined, Resolved}
    case Resolved => {}
  }

  lemma {:induction false} LegalIff(a: IncidentState, b: IncidentState)
    ensures Legal(a, b) <==> b in Successors(a)
  {
  }

  // ---------------------------------------------------------------- drafts

  /** A character is blank, by its code. */
  predicate BlankCode(n: int) {
    || 9 <= n <= 13 || 28 <= n <= 32 || n == 133 || n == 160 || n == 5760 || 8192 <= n <= 8202
    || n == 8232 || n == 8233 || n == 8239 || n == 8287 || n == 12288
  }

  predicate AllBlank(s: string) {
    forall i :: 0 <= i < |s| ==> BlankCode(s[i] as int)
  }

  lemma {:induction false} StripsToNothing(s: string)
    ensures Strip(s) == "" <==> AllBlank(s)
  {
    assert forall c: char {:trigger IsSpace(c)} {:trigger BlankCode(c as int)} :: IsSpace(c) <==> BlankCode(c as int);
    if s != "" {
      if IsSpace(s[0]) {
        StripsToNothing(s[1..]);
        assert forall i :: 0 < i < |s| ==> s[i] == s[1..][i - 1];
      } else if IsSpace(s[|s| - 1]) {
        StripsToNothing(s[..|s| - 1]);
      }
    }
  }

  /** A draft is recorded exactly when its summary says something, its evidence is named without blanks
      or repetitions, and its duration is not negative. */
  lemma {:induction false} DraftAcceptedIff(d: Draft)
    ensures DraftError(d).None? <==>
      && !AllBlank(d.summary)
      && (forall e :: e in d.evidenceIds ==> !AllBlank(e))
      && (forall i, j :: 0 <= i < j < |d.evidenceIds| ==> d.evidenceIds[i] != d.evidenceIds[j])
      && d.durationMs >= 0
  {
    hide Strip;
    StripsToNothing(d.summary);
    forall e ensures Strip(e) == "" <==> AllBlank(e) { StripsToNothing(e); }
    if HasBlank(d.evidenceIds) {
      var i :| 0 <= i < |d.evidenceIds| && Strip(d.evidenceIds[i]) == "";
      assert d.evidenceIds[i] in d.evidenceIds;
    }
  }

  // ---------------------------------------------------------------- what is recorded

  /** The event of a transition carries the draft under its own type, with both states in the payload
      over whatever the caller put there, and a default summary when the caller gave none. */
  lemma {:induction false} TransitionRecords(inc: Incident, target: IncidentState, d: Draft, delivers: bool)
    requires Transitions(inc, target, d)
    ensures var after := After(inc, Call.Transition(target, d, delivers));
      && after.state == (if delivers then target else inc.state)
      && |after.events| == |inc.events| + 1 && after.events[..|inc.events|] == inc.events
      && var e := after.events[|inc.events|];
      && e.incidentId == inc.id && e.sequence == |inc.events| && e.eventType == StateTransitioned
      && e.actor == d.actor && e.evidenceIds == d.evidenceIds && e.durationMs == d.durationMs
      && e.summary == Strip(if d.summary == "" then "Incident moved from " + StateName(inc.state) + " to " + StateName(target) else d.summary)
      && e.payload == d.payload["from_state" := StateName(inc.state)]["to_state" := StateName(target)]
  {
    hide Legal, Strip, DraftError;
  }

  lemma {:induction false} StateNamesAre()
    ensures StateName(Healthy) == "HEALTHY" && StateName(Detected) == "DETECTED" && StateName(Investigating) == "INVESTIGATING"
    ensures StateName(AtRisk) == "AT_RISK" && StateName(Quarantined) == "QUARANTINED"
    ensures StateName(RecoveryPending) == "RECOVERY_PENDING" && StateName(Resolved) == "RESOLVED"
  {
  }

  /** A first start records the creation with the symptom, then the move to DETECTED unless the first
      callback raised; the state follows when the second returned too. */
  lemma {:induction false} StartRecords(id: string, symptom: string, payload: map<string, string>, first: bool, second: bool)
    ensures var after := After(Fresh(id), Call.Start(symptom, payload, first, second));
      && |after.events| == (if first then 2 else 1)
      && after.state == (if first && second then Detected else Healthy)
      && var e := after.events[0];
      && e.incidentId == id && e.sequence == 0 && e.actor == "SYSTEM" && e.eventType == IncidentCreated
      && e.evidenceIds == [] && e.durationMs == 0 && e.payload == payload["symptom" := symptom]
      && (first ==>
        var m := after.events[1];
        && m.incidentId == id && m.sequence == 1 && m.actor == "COORDINATOR" && m.eventType == StateTransitioned
        && m.payload == map["from_state" := "HEALTHY", "to_state" := "DETECTED"])
  {
    hide Strip, DraftError;
    KnownDraftsAreValid(symptom, payload);
    var mid := Noted(Fresh(id), CreatedDraft(symptom, payload));
    if first { TransitionRecords(mid, Detected, ESCALATED, second); }
  }

  /** How many creations a stream records. */
  function Creations(events: seq<Event>): nat {
    if events == [] then 0
    else Creations(events[..|events| - 1]) + (if events[|events| - 1].eventType == IncidentCreated then 1 else 0)
  }

  lemma {:induction false} NoCreations(events: seq<Event>)
    ensures Creations(events) == 0 <==> forall i :: 0 <= i < |events| ==> events[i].eventType != IncidentCreated
  {
    if events != [] {
      NoCreations(events[..|events| - 1]);
      assert forall i :: 0 <= i < |events| - 1 ==> events[..|events| - 1][i] == events[i];
    }
  }

  lemma {:induction false} NotedCreations(inc: Incident, d: Draft)
    ensures Creations(Noted(inc, d).events) ==
      Creations(inc.events) + (if DraftError(d).None? && d.eventType == IncidentCreated then 1 else 0)
  {
    if DraftError(d).None? {
      var e := EventFrom(inc.id, |inc.events|, d);
      assert (inc.events + [e])[..|inc.events|] == inc.events;
    }
  }

  /** Callers record creations by starting only. */
  predicate ThroughStart(calls: seq<Call>) {
    forall c :: c in calls && c.Record? ==> c.draft.eventType != IncidentCreated
  }

  lemma {:induction false} CallCreations(inc: Incident, c: Call)
    requires c.Record? ==> c.draft.eventType != IncidentCreated
    ensures Creations(After(inc, c).events) == Creations(inc.events)
      + (if c.Start? && inc.state == Healthy && Creations(inc.events) == 0 then 1 else 0)
  {
    NoCreations(inc.events);
    match c
    case Start(symptom, payload, first, second) =>
      KnownDraftsAreValid(symptom, payload);
      NotedCreations(inc, CreatedDraft(symptom, payload));
      var mid := Noted(inc, CreatedDraft(symptom, payload));
      NotedCreations(mid, TransitionDraft(mid.state, Detected, ESCALATED));
    case Transition(target, d, delivers) => NotedCreations(inc, TransitionDraft(inc.state, target, d));
    case Record(d, _) => NotedCreations(inc, d);
  }

  /** Over any calls an incident is created at most once, and from the first start in HEALTHY on exactly
      once, whatever callbacks raised. */
  lemma {:induction false} CreatedOnce(id: string, calls: seq<Call>, c: Call)
    requires ThroughStart(calls) && (c.Record? ==> c.draft.eventType != IncidentCreated)
    ensures var now, after := AfterAll(Fresh(id), calls), After(AfterAll(Fresh(id), calls), c);
      && Creations(now.events) <= 1
      && (c.Start? && now.state == Healthy ==> Creations(after.events) == 1)
      && (!(c.Start? && now.state == Healthy) ==> Creations(after.events) == Creations(now.events))
      && (c.Start? && !(now.state == Healthy && Creations(now.events) == 0) ==> after == now)
  {
    hide Creations;
    if calls != [] {
      var init, last := calls[..|calls| - 1], calls[|calls| - 1];
      assert last in calls;
      CreatedOnce(id, init, last);
    } else {
      NoCreations([]);
    }
    CallCreations(AfterAll(Fresh(id), calls), c);
    NoCreations(AfterAll(Fresh(id), calls).events);
  }

  // ---------------------------------------------------------------- identifiers

  /** The name under which each kind of event is recorded. */
  lemma {:induction false} TypeNamesAre()
    ensures TypeName(SignalDetected) == "SIGNAL_DETECTED" && TypeName(EscalationDecided) == "ESCALATION_DECIDED"
    ensures TypeName(IncidentCreated) == "INCIDENT_CREATED" && TypeName(StateTransitioned) == "STATE_TRANSITIONED"
    ensures TypeName(HypothesisProposed) == "HYPOTHESIS_PROPOSED" && TypeName(EvidenceObserved) == "EVIDENCE_OBSERVED"
    ensures TypeName(HypothesisResolved) == "HYPOTHESIS_RESOLVED" && TypeName(ImpactMapped) == "IMPACT_MAPPED"
    ensures TypeName(PolicyDecided) == "POLICY_DECIDED" && TypeName(DatahubIncidentWritten) == "DATAHUB_INCIDENT_WRITTEN"
    ensures TypeName(RepairBundleCreated) == "REPAIR_BUNDLE_CREATED" && TypeName(RepairPublished) == "REPAIR_PUBLISHED"
    ensures TypeName(RepairVerified) == "REPAIR_VERIFIED" && TypeName(RepairApplied) == "REPAIR_APPLIED"
    ensures TypeName(ApprovalRequested) == "APPROVAL_REQUESTED" && TypeName(ApprovalRecorded) == "APPROVAL_RECORDED"
    ensures TypeName(DecisionLogWritten) == "DECISION_LOG_WRITTEN" && TypeName(EnforcementApplied) == "ENFORCEMENT_APPLIED"
    ensures TypeName(NotificationRecorded) == "NOTIFICATION_RECORDED" && TypeName(IncidentResolved) == "INCIDENT_RESOLVED"
    ensures TypeName(RecoveryEvidenceRefreshed) == "RECOVERY_EVIDENCE_REFRESHED" && TypeName(RecoveryChecked) == "RECOVERY_CHECKED"
  {
  }

  /** The number in an identifier is printed with at least four digits and with no zeros beyond them. */
  lemma {:induction false} PaddedLength(n: nat)
    ensures |Padded(n)| >= 4
    ensures |Padded(n)| > 4 ==> Padded(n) == Decimal(n)
    ensures (forall i :: 0 <= i < |Padded(n)| ==> IsDigit(Padded(n)[i])) && Number(Padded(n)) == n
  {
    PaddedReads(n);
  }

  // ---------------------------------------------------------------- loading

  lemma {:induction false} DecodedJoin(decode: string -> Option<Event>, a: seq<string>, b: seq<string>, number: nat)
    ensures Decoded(decode, a + b, number).Ok? <==> Decoded(decode, a, number).Ok? && Decoded(decode, b, number + |a|).Ok?
    ensures Decoded(decode, a + b, number).Ok? ==>
      Decoded(decode, a + b, number).value == Decoded(decode, a, number).value + Decoded(decode, b, number + |a|).value
    decreases |a|
  {
    hide Strip, Bare;
    if a == [] {
      assert a + b == b;
    } else {
      assert (a + b)[1..] == a[1..] + b;
      DecodedJoin(decode, a[1..], b, number + 1);
    }
  }

  lemma {:induction false} NumberOnlyNames(decode: string -> Option<Event>, lines: seq<string>, m: nat, n: nat)
    ensures Decoded(decode, lines, m).Ok? <==> Decoded(decode, lines, n).Ok?
    ensures Decoded(decode, lines, m).Ok? ==> Decoded(decode, lines, m).value == Decoded(decode, lines, n).value
    decreases |lines|
  {
    hide Strip, Bare;
    if lines != [] { NumberOnlyNames(decode, lines[1..], m + 1, n + 1); }
  }

  /** A blank line anywhere in a saved file is skipped. */
  lemma {:induction false} BlankLinesAreSkipped(decode: string -> Option<Event>, a: seq<string>, blank: string, b: seq<string>)
    requires Strip(Bare(blank)) == ""
    ensures Decoded(decode, a + [blank] + b, 1).Ok? <==> Decoded(decode, a + b, 1).Ok?
    ensures Decoded(decode, a + b, 1).Ok? ==> Decoded(decode, a + [blank] + b, 1).value == Decoded(decode, a + b, 1).value
  {
    hide Strip, Bare;
    assert a + [blank] + b == a + ([blank] + b);
    DecodedJoin(decode, a, [blank] + b, 1);
    DecodedJoin(decode, a, b, 1);
    assert ([blank] + b)[1..] == b;
    NumberOnlyNames(decode, b, 1 + |a|, 2 + |a|);
  }

  /** What breaks a saved document: U+0085, U+2028 or U+2029 in a text, which JSON leaves as they are. */
  lemma {:induction false} StorableReads(s: string)
    ensures Storable(s) <==> forall i :: 0 <= i < |s| ==> s[i] as int != 133 && s[i] as int != 8232 && s[i] as int != 8233
  {
  }

  /** An event can be stored exactly when none of its texts holds one: identifiers, actor, summary,
      evidence, and the keys and values of its payload. */
  lemma {:induction false} StorableIff(e: Event)
    ensures StorableEvent(e) <==>
      && Storable(e.eventId) && Storable(e.incidentId) && Storable(e.actor) && Storable(e.summary)
      && (forall id :: id in e.evidenceIds ==> Storable(id))
      && (forall k :: k in e.payload.Keys ==> Storable(k) && Storable(e.payload[k]))
  {
    hide Storable;
    var texts := [e.eventId, e.incidentId, e.actor, e.summary];
    assert texts[0] == e.eventId && texts[1] == e.incidentId && texts[2] == e.actor && texts[3] == e.summary;
    assert AllStorable(texts) <==> Storable(e.eventId) && Storable(e.incidentId) && Storable(e.actor) && Storable(e.summary);
    if AllStorable(e.evidenceIds) {
      forall id | id in e.evidenceIds ensures Storable(id) {
        var i :| 0 <= i < |e.evidenceIds| && e.evidenceIds[i] == id;
      }
    }
  }
}
