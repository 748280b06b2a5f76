/** Evidence-gated recovery over the persisted incident state. */
module Recovery {
  import opened Common
  import opened IncidentLifecycle
  import opened PolicyEngine
  import opened MetadataGraph
  import opened OverlayWrites
  import opened Enforcement

  datatype RecoveryPolicy = RecoveryPolicy(
    required: seq<string>, consecutiveCleanRuns: int, allowOneCleanWithHumanApproval: bool)

  datatype Inputs = Inputs(
    checks: seq<RecoveryCheck>, approval: Option<HumanApproval>, expectedIncident: Option<string>)

  // ---------------------------------------------------------------- the gate

  /** The check reported under an id; a later report replaces an earlier one. */
  function CheckFor(checks: seq<RecoveryCheck>, id: string): Option<RecoveryCheck> {
    if checks == [] then None
    else
      var last := checks[|checks| - 1];
      if last.checkId == id then Some(last) else CheckFor(checks[..|checks| - 1], id)
  }

  predicate Passed(checks: seq<RecoveryCheck>, id: string) {
    CheckFor(checks, id).Some? && CheckFor(checks, id).value.status == Pass
  }

  predicate Clean(policy: RecoveryPolicy, checks: seq<RecoveryCheck>) {
    forall id :: id in policy.required ==> Passed(checks, id)
  }

  function RunOf(policy: RecoveryPolicy, input: Inputs): RecoveryRun {
    RecoveryRun(Clean(policy, input.checks), input.approval, input.checks)
  }

  /** Clean runs at the end of a history. */
  function TrailingClean(history: seq<RecoveryRun>): nat {
    if history == [] || !history[|history| - 1].clean then 0
    else TrailingClean(history[..|history| - 1]) + 1
  }

  predicate LastClean(history: seq<RecoveryRun>, n: nat) {
    n <= |history| && forall i :: |history| - n <= i < |history| ==> history[i].clean
  }

  lemma {:induction false} TrailingCleanCounts(history: seq<RecoveryRun>, n: nat)
    ensures TrailingClean(history) >= n <==> LastClean(history, n)
  {
    if history != [] && n > 0 {
      var init := history[..|history| - 1];
      TrailingCleanCounts(init, n - 1);
      if history[|history| - 1].clean {
        assert LastClean(history, n) <==> LastClean(init, n - 1) by {
          if LastClean(history, n) {
            forall i | |init| - (n - 1) <= i < |init| ensures init[i].clean { assert history[i].clean; }
          }
          if LastClean(init, n - 1) {
            forall i | |history| - n <= i < |history| ensures history[i].clean {
              if i < |init| { assert init[i].clean; }
            }
          }
        }
      }
    }
  }

  /** The backward scan agrees with a counter that a dirty run resets. */
  lemma {:induction false} TrailingCleanSteps(history: seq<RecoveryRun>, run: RecoveryRun)
    ensures TrailingClean(history + [run]) == if run.clean then TrailingClean(history) + 1 else 0
  {
    assert (history + [run])[..|history|] == history;
  }

  predicate ResumeByHistory(policy: RecoveryPolicy, history: seq<RecoveryRun>) {
    history != [] && history[|history| - 1].clean && TrailingClean(history) >= policy.consecutiveCleanRuns
  }

  predicate ResumeByApproval(policy: RecoveryPolicy, run: RecoveryRun) {
    && run.clean
    && run.approval.Some?
    && run.approval.value.productionAuthorized
    && policy.allowOneCleanWithHumanApproval
  }

  /** Resumption through history needs the last N stored runs clean, and this one at least. */
  lemma {:induction false} HistoryGate(policy: RecoveryPolicy, history: seq<RecoveryRun>)
    ensures ResumeByHistory(policy, history) <==>
      LastClean(history, if policy.consecutiveCleanRuns < 1 then 1 else policy.consecutiveCleanRuns)
  {
    TrailingCleanCounts(history, if policy.consecutiveCleanRuns < 1 then 1 else policy.consecutiveCleanRuns);
    TrailingCleanCounts(history, 1);
    if LastClean(history, 1) { assert history[|history| - 1].clean; }
  }

  function PreviousState(p: Props): IncidentState {
    if IncidentStateKey !in p then AtRisk
    else if p[IncidentStateKey] == State(Quarantined) then Quarantined
    else if p[IncidentStateKey].State? then p[IncidentStateKey].state
    else AtRisk
  }

  function NextState(previous: IncidentState, clean: bool, resume: bool): IncidentState {
    if resume then Resolved
    else if clean then RecoveryPending
    else if previous == Quarantined then Quarantined
    else AtRisk
  }

  // ---------------------------------------------------------------- what one evaluation writes

  function FlattenEvidence(checks: seq<RecoveryCheck>): seq<string> {
    if checks == [] then [] else checks[0].evidenceIds + FlattenEvidence(checks[1..])
  }

  function EvidenceOf(input: Inputs): seq<string> {
    Dedupe(FlattenEvidence(input.checks) + (if input.approval.Some? then [input.approval.value.receiptId] else []))
  }

  function RecoveryUpdates(state: IncidentState, history: seq<RecoveryRun>, evidence: seq<string>, resume: bool): Props {
    map[
      IncidentStateKey := State(state),
      StatusKey := LowerState(state),
      RecoveryHistory := History(history),
      RecoveryEvidenceIds := Ids(evidence),
      ResumeAuthorized := Flag(resume)
    ] + if resume then map[
      PolicyDecisionKey := Decision(Allow),
      CatalogStatusKey := State(Resolved),
      EnforcementActions := Actions([])
    ] else map[]
  }

  function ResolvedUpdates(evidence: seq<string>): Props {
    map[
      IncidentStateKey := State(Resolved),
      StatusKey := LowerState(Resolved),
      PolicyDecisionKey := Decision(Allow),
      CatalogStatusKey := State(Resolved),
      EnforcementActions := Actions([]),
      ResumeAuthorized := Flag(true),
      RecoveryEvidenceIds := Ids(evidence)
    ]
  }

  function ResolveHead(control: Urn, urn: Urn, evidence: seq<string>): seq<Write> {
    (if urn != control then [Merge(DatasetAt(urn), ResolvedUpdates(evidence))] else []) + [PutStatus(urn, ResolvedTag)]
  }

  function ResolveScript(g: Graph, control: Urn, urn: Urn, evidence: seq<string>): Script {
    Then(
      Script(ResolveHead(control, urn, evidence), None),
      ProjectionScript(g, urn, Some(ResolvedTag), ResolvedUpdates(evidence)))
  }

  function ResolveAll(g: Graph, control: Urn, urns: seq<Urn>, evidence: seq<string>): Script
    decreases |urns|
  {
    if urns == [] then Script([], None)
    else Then(ResolveScript(g, control, urns[0], evidence), ResolveAll(g, control, urns[1..], evidence))
  }

  function IncidentIn(p: Props): string {
    TextOf(p, IncidentId)
  }

  function HistoryIn(p: Props): Result<seq<RecoveryRun>, WriteError> {
    if RecoveryHistory !in p then Ok([])
    else if p[RecoveryHistory].History? then Ok(p[RecoveryHistory].runs)
    else Err(Malformed(RecoveryHistory))
  }

  function ControlledIn(p: Props, control: Urn): Result<seq<Urn>, WriteError> {
    if ControlledUrns !in p then Ok([control])
    else if p[ControlledUrns].Urns? then Ok(p[ControlledUrns].urns)
    else Err(Malformed(ControlledUrns))
  }

  /** The error raised before anything is written. */
  function Refusal(g: Graph, control: Urn, input: Inputs): Option<WriteError> {
    var p := PropsOf(g, control);
    if control !in g.datasets || IncidentIn(p) == "" then Some(NoIncident)
    else if input.expectedIncident.Some? && input.expectedIncident.value != IncidentIn(p) then Some(OtherIncident)
    else if HistoryIn(p).Err? then Some(HistoryIn(p).error)
    else None
  }

  datatype RecoveryResult = RecoveryResult(
    incidentId: string,
    resumeAllowed: bool,
    state: IncidentState,
    missing: seq<string>,
    failed: seq<string>,
    cleanRunCount: nat,
    humanApprovalUsed: bool,
    approvalReceiptId: Option<string>,
    approvalIdentityAssurance: Option<string>,
    approvalProductionAuthorized: bool,
    llmInstructionIgnored: bool)

  datatype Verdict = Verdict(history: seq<RecoveryRun>, state: IncidentState, resume: bool, evidence: seq<string>)

  function Judge(p: Props, policy: RecoveryPolicy, input: Inputs): Verdict
    requires HistoryIn(p).Ok?
  {
    var run := RunOf(policy, input);
    var history := HistoryIn(p).value + [run];
    var resume := ResumeByHistory(policy, history) || ResumeByApproval(policy, run);
    Verdict(history, NextState(PreviousState(p), run.clean, resume), resume, EvidenceOf(input))
  }

  function PersistScript(g: Graph, control: Urn, v: Verdict): Script {
    var head := [Merge(DatasetAt(control), RecoveryUpdates(v.state, v.history, v.evidence, v.resume))];
    if !v.resume then Script(head, None)
    else match ControlledIn(PropsOf(g, control), control)
      case Err(e) => Script(head, Some(e))
      case Ok(urns) => Then(Script(head, None), ResolveAll(g, control, urns, v.evidence))
  }

  function EvaluateScript(g: Graph, control: Urn, policy: RecoveryPolicy, input: Inputs): Script {
    if Refusal(g, control, input).Some? then Script([], Refusal(g, control, input))
    else PersistScript(g, control, Judge(PropsOf(g, control), policy, input))
  }

  // ---------------------------------------------------------------- scripts are overlay writes

  lemma {:induction false} RecoveryKeys(state: IncidentState, history: seq<RecoveryRun>, evidence: seq<string>, resume: bool)
    ensures RecoveryUpdates(state, history, evidence, resume).Keys <= {
      IncidentStateKey, StatusKey, RecoveryHistory, RecoveryEvidenceIds, ResumeAuthorized,
      PolicyDecisionKey, CatalogStatusKey, EnforcementActions}
    ensures ResolvedUpdates(evidence).Keys <= {
      IncidentStateKey, StatusKey, RecoveryEvidenceIds, ResumeAuthorized,
      PolicyDecisionKey, CatalogStatusKey, EnforcementActions}
    ensures RecoveryHistory in RecoveryUpdates(state, history, evidence, resume)
    ensures StatusKey in ResolvedUpdates(evidence)
  {
  }

  /** A write that resolves one of `urns`, or a native target of one. */
  ghost predicate Resolves(g: Graph, control: Urn, urns: seq<Urn>, evidence: seq<string>, w: Write) {
    && PartOf(w, Some(ResolvedTag), ResolvedUpdates(evidence))
    && (w.Merge? && w.place.DatasetAt? ==> w.place.urn in urns && w.place.urn != control)
    && (w.Merge? && w.place.NativeAt? ==> exists u :: u in urns && Targets(PropsOf(g, u)).Ok? && w.place.ref in Targets(PropsOf(g, u)).value)
    && (w.PutStatus? ==> w.urn in urns || exists u :: u in urns && TargetEntity(PropsOf(g, u), w.urn))
  }

  lemma {:induction false} ResolveParts(g: Graph, control: Urn, urn: Urn, evidence: seq<string>)
    ensures forall w :: w in ResolveScript(g, control, urn, evidence).writes ==> Resolves(g, control, [urn], evidence, w)
  {
    var targets := Targets(PropsOf(g, urn));
    assert urn in [urn];
    if targets.Ok? {
      MirrorParts(g.natives.Keys, targets.value, Some(ResolvedTag), ResolvedUpdates(evidence));
    }
  }

  lemma {:induction false} ResolveAllParts(g: Graph, control: Urn, urns: seq<Urn>, evidence: seq<string>)
    ensures forall w :: w in ResolveAll(g, control, urns, evidence).writes ==> Resolves(g, control, urns, evidence, w)
  {
    if urns != [] {
      ResolveAllParts(g, control, urns[1..], evidence);
      ResolveParts(g, control, urns[0], evidence);
      forall w | w in ResolveAll(g, control, urns, evidence).writes ensures Resolves(g, control, urns, evidence, w) {
        assert w in ResolveScript(g, control, urns[0], evidence).writes || w in ResolveAll(g, control, urns[1..], evidence).writes;
      }
    }
  }

  /** Each write of an evaluation: the control asset's own update, or a resolution. */
  ghost predicate ServesEvaluation(g: Graph, control: Urn, policy: RecoveryPolicy, input: Inputs, w: Write) {
    && Refusal(g, control, input).None?
    && var v := Judge(PropsOf(g, control), policy, input);
    || w == Merge(DatasetAt(control), RecoveryUpdates(v.state, v.history, v.evidence, v.resume))
    || (v.resume && ControlledIn(PropsOf(g, control), control).Ok?
        && Resolves(g, control, ControlledIn(PropsOf(g, control), control).value, v.evidence, w))
  }

  lemma {:induction false} EvaluationParts(g: Graph, control: Urn, policy: RecoveryPolicy, input: Inputs)
    ensures forall w :: w in EvaluateScript(g, control, policy, input).writes ==> ServesEvaluation(g, control, policy, input, w)
  {
    var p := PropsOf(g, control);
    if Refusal(g, control, input).None? && ControlledIn(p, control).Ok? {
      ResolveAllParts(g, control, ControlledIn(p, control).value, Judge(p, policy, input).evidence);
    }
  }

  lemma {:induction false} RecoveryUpdatesOverlay(
    place: Place, state: IncidentState, history: seq<RecoveryRun>, evidence: seq<string>, resume: bool)
    ensures OverlayWrite(Merge(place, RecoveryUpdates(state, history, evidence, resume)))
    ensures forall w :: PartOf(w, Some(ResolvedTag), ResolvedUpdates(evidence)) ==> OverlayWrite(w)
  {
    RecoveryKeys(state, history, evidence, resume);
  }

  lemma {:induction false} ResolveAllIsOverlay(g: Graph, control: Urn, urns: seq<Urn>, evidence: seq<string>)
    ensures OverlayOnly(ResolveAll(g, control, urns, evidence).writes)
  {
    ResolveAllParts(g, control, urns, evidence);
    RecoveryUpdatesOverlay(DatasetAt(control), Resolved, [], evidence, true);
  }

  lemma {:induction false} PersistIsOverlay(g: Graph, control: Urn, v: Verdict)
    ensures OverlayOnly(PersistScript(g, control, v).writes)
  {
    RecoveryUpdatesOverlay(DatasetAt(control), v.state, v.history, v.evidence, v.resume);
    var urns := ControlledIn(PropsOf(g, control), control);
    if urns.Ok? {
      ResolveAllIsOverlay(g, control, urns.value, v.evidence);
    }
  }

  lemma {:induction false} EvaluationIsOverlay(g: Graph, control: Urn, policy: RecoveryPolicy, input: Inputs)
    ensures OverlayOnly(EvaluateScript(g, control, policy, input).writes)
  {
    if Refusal(g, control, input).None? {
      PersistIsOverlay(g, control, Judge(PropsOf(g, control), policy, input));
    }
  }

  // ---------------------------------------------------------------- the operation

  lemma {:induction false} ResolveAllSplit(g: Graph, control: Urn, a: seq<Urn>, b: seq<Urn>, evidence: seq<string>)
    ensures ResolveAll(g, control, a + b, evidence)
         == Then(ResolveAll(g, control, a, evidence), ResolveAll(g, control, b, evidence))
  {
    if a == [] {
      assert a + b == b;
      assert [] + ResolveAll(g, control, b, evidence).writes == ResolveAll(g, control, b, evidence).writes;
    } else {
      assert (a + b)[1..] == a[1..] + b;
      ResolveAllSplit(g, control, a[1..], b, evidence);
      var first := ResolveScript(g, control, a[0], evidence);
      var mid, last := ResolveAll(g, control, a[1..], evidence), ResolveAll(g, control, b, evidence);
      assert first.writes + (mid.writes + last.writes) == (first.writes + mid.writes) + last.writes;
    }
  }

  lemma {:induction false} ResolveProgress(g: Graph, control: Urn, urns: seq<Urn>, i: nat, evidence: seq<string>)
    requires i < |urns|
    ensures ResolveAll(g, control, urns[..i + 1], evidence)
         == Then(ResolveAll(g, control, urns[..i], evidence), ResolveScript(g, control, urns[i], evidence))
    ensures ResolveAll(g, control, urns[..i + 1], evidence).error.Some? ==>
      ResolveAll(g, control, urns, evidence) == ResolveAll(g, control, urns[..i + 1], evidence)
  {
    assert urns[..i + 1] == urns[..i] + [urns[i]];
    ResolveAllSplit(g, control, urns[..i], [urns[i]], evidence);
    assert [urns[i]][1..] == [];
    var step := ResolveScript(g, control, urns[i], evidence);
    assert step.writes + [] == step.writes;
    assert urns == urns[..i + 1] + urns[i + 1..];
    ResolveAllSplit(g, control, urns[..i + 1], urns[i + 1..], evidence);
  }

  lemma {:induction false} ResolveSteady(g: Graph, ws: seq<Write>, control: Urn, urn: Urn, evidence: seq<string>)
    requires OverlayOnly(ws)
    ensures ResolveScript(DoAll(g, ws), control, urn, evidence) == ResolveScript(g, control, urn, evidence)
  {
    WritesAreOverlay(g, ws);
    assert BaseProps(PropsAt(DoAll(g, ws), DatasetAt(urn))) == BaseProps(PropsAt(g, DatasetAt(urn)));
    TargetsIgnoreOverlay(PropsOf(DoAll(g, ws), urn), PropsOf(g, urn));
  }

  /** Resolve the dataset itself; the control asset already carries its own update. */
  method ResolveDataset(graph: DataHub, control: Urn, urn: Urn, evidence: seq<string>)
    modifies graph
    ensures graph.State() == DoAll(old(graph.State()), ResolveHead(control, urn, evidence))
  {
    ghost var before := graph.State();
    var updates := ResolvedUpdates(evidence);
    RecoveryKeys(Resolved, [], evidence, true);
    ghost var merge := if urn != control then [Merge(DatasetAt(urn), updates)] else [];
    if urn != control {
      var merged := AddCustomProperties(graph, urn, updates);
      DoAllSnoc(before, [], Merge(DatasetAt(urn), updates));
      assert [] + merge == merge;
    }
    assert graph.State() == DoAll(before, merge);
    PutStatusTag(graph, urn, Some(ResolvedTag));
    DoAllConcat(before, merge, [PutStatus(urn, ResolvedTag)]);
  }

  method ResolveOne(graph: DataHub, control: Urn, urn: Urn, evidence: seq<string>)
    returns (error: Option<WriteError>)
    modifies graph
    ensures var script := ResolveScript(old(graph.State()), control, urn, evidence);
      graph.State() == DoAll(old(graph.State()), script.writes) && error == script.error
  {
    ghost var before := graph.State();
    var existing := if urn in graph.datasets then graph.datasets[urn].props else map[];
    ResolveDataset(graph, control, urn, evidence);
    assert graph.State().natives.Keys == before.natives.Keys;
    var mirrored := MirrorNativeProjectionState(graph, existing, ResolvedUpdates(evidence), Some(ResolvedTag));
    ghost var projection := ProjectionScript(before, urn, Some(ResolvedTag), ResolvedUpdates(evidence));
    DoAllConcat(before, ResolveHead(control, urn, evidence), projection.writes);
    error := if mirrored.Err? then Some(mirrored.error) else None;
  }

  method ResolveControlled(graph: DataHub, control: Urn, urns: seq<Urn>, evidence: seq<string>)
    returns (error: Option<WriteError>)
    modifies graph
    ensures var script := ResolveAll(old(graph.State()), control, urns, evidence);
      graph.State() == DoAll(old(graph.State()), script.writes) && error == script.error
  {
    ghost var before := graph.State();
    ghost var script := Script([], None);
    assert urns[..0] == [];
    for i := 0 to |urns|
      invariant script == ResolveAll(before, control, urns[..i], evidence) && script.error.None?
      invariant graph.State() == DoAll(before, script.writes)
    {
      ResolveAllIsOverlay(before, control, urns[..i], evidence);
      ResolveSteady(before, script.writes, control, urns[i], evidence);
      ghost var step := ResolveScript(before, control, urns[i], evidence);
      ResolveProgress(before, control, urns, i, evidence);
      DoAllConcat(before, script.writes, step.writes);
      script := Then(script, step);
      assert script == ResolveAll(before, control, urns[..i + 1], evidence);
      error := ResolveOne(graph, control, urns[i], evidence);
      assert graph.State() == DoAll(before, script.writes);
      if error.Some? {
        return;
      }
      assert script.error.None?;
    }
    assert urns[..|urns|] == urns;
    error := None;
  }

  /** The source's backward scan over the history. */
  method CountConsecutive(history: seq<RecoveryRun>) returns (consecutive: nat)
    ensures consecutive == TrailingClean(history)
  {
    consecutive := 0;
    var i := |history|;
    assert history[..|history|] == history;
    while i > 0
      invariant 0 <= i <= |history|
      invariant consecutive + TrailingClean(history[..i]) == TrailingClean(history)
    {
      var prior := history[i - 1];
      assert history[..i][..i - 1] == history[..i - 1];
      if !prior.clean {
        break;
      }
      consecutive := consecutive + 1;
      i := i - 1;
    }
  }

  method UnmetChecks(policy: RecoveryPolicy, checks: seq<RecoveryCheck>)
    returns (missing: seq<string>, failed: seq<string>)
    ensures forall id :: id in missing <==> id in policy.required && CheckFor(checks, id).None?
    ensures forall id :: id in failed <==> id in policy.required && CheckFor(checks, id).Some? && CheckFor(checks, id).value.status == Fail
    ensures missing == [] && failed == [] <==> Clean(policy, checks)
  {
    missing, failed := [], [];
    for i := 0 to |policy.required|
      invariant forall id :: id in missing <==> id in policy.required[..i] && CheckFor(checks, id).None?
      invariant forall id :: id in failed <==> id in policy.required[..i] && CheckFor(checks, id).Some? && CheckFor(checks, id).value.status == Fail
      invariant missing == [] && failed == [] <==> forall id :: id in policy.required[..i] ==> Passed(checks, id)
    {
      var id := policy.required[i];
      assert policy.required[..i + 1] == policy.required[..i] + [id];
      assert id in policy.required[..i + 1];
      var check := CheckFor(checks, id);
      if check.None? {
        missing := missing + [id];
      } else if check.value.status == Fail {
        failed := failed + [id];
      }
    }
    assert policy.required[..|policy.required|] == policy.required;
  }

  /** Write a verdict to the control asset and, when it resumes, to everything controlled. */
  method Persist(graph: DataHub, control: Urn, v: Verdict) returns (error: Option<WriteError>)
    modifies graph
    ensures var script := PersistScript(old(graph.State()), control, v);
      graph.State() == DoAll(old(graph.State()), script.writes) && error == script.error
  {
    ghost var before := graph.State();
    var urns := ControlledIn(if control in graph.datasets then graph.datasets[control].props else map[], control);
    var updates := RecoveryUpdates(v.state, v.history, v.evidence, v.resume);
    RecoveryKeys(v.state, v.history, v.evidence, v.resume);
    var persisted := AddCustomProperties(graph, control, updates);
    ghost var head := [Merge(DatasetAt(control), updates)];
    DoAllSnoc(before, [], head[0]);
    assert [] + head == head;
    assert graph.State() == DoAll(before, head);
    if !v.resume {
      return None;
    }
    if urns.Err? {
      return Some(urns.error);
    }
    RecoveryUpdatesOverlay(DatasetAt(control), v.state, v.history, v.evidence, v.resume);
    AfterHead(before, head, control, urns.value, v.evidence);
    error := ResolveControlled(graph, control, urns.value, v.evidence);
    DoAllConcat(before, head, ResolveAll(before, control, urns.value, v.evidence).writes);
  }

  /** Judge one recovery attempt against the stored history and persist the outcome. A
      caller-supplied LLM instruction has no influence on it. */
  method Evaluate(graph: DataHub, control: Urn, policy: RecoveryPolicy, input: Inputs, llmInstruction: Option<string>)
    returns (result: Result<RecoveryResult, WriteError>)
    modifies graph
    ensures var before := old(graph.State());
      var script := EvaluateScript(before, control, policy, input);
      && graph.State() == DoAll(before, script.writes)
      && (result.Err? <==> script.error.Some?)
      && (result.Err? ==> result.error == script.error.value)
      && (result.Ok? ==>
        && Refusal(before, control, input).None?
        && var v := Judge(PropsOf(before, control), policy, input);
        && result.value.incidentId == IncidentIn(PropsOf(before, control))
        && result.value.resumeAllowed == v.resume
        && result.value.state == v.state
        && result.value.cleanRunCount == TrailingClean(v.history)
        && result.value.humanApprovalUsed == ResumeByApproval(policy, RunOf(policy, input))
        && result.value.approvalReceiptId
          == (if result.value.humanApprovalUsed then Some(input.approval.value.receiptId) else None)
        && result.value.approvalIdentityAssurance
          == (if result.value.humanApprovalUsed then Some(input.approval.value.identityAssurance) else None)
        && result.value.approvalProductionAuthorized == result.value.humanApprovalUsed
        && (forall id :: id in result.value.missing <==> id in policy.required && CheckFor(input.checks, id).None?)
        && (forall id :: id in result.value.failed <==>
          id in policy.required && CheckFor(input.checks, id).Some? && CheckFor(input.checks, id).value.status == Fail)
        && (result.value.missing == [] && result.value.failed == [] <==> Clean(policy, input.checks))
        && result.value.llmInstructionIgnored == llmInstruction.Some?)
  {
    if control !in graph.datasets {
      return Err(NoIncident);
    }
    var p := graph.datasets[control].props;
    var incidentId := IncidentIn(p);
    if incidentId == "" {
      return Err(NoIncident);
    }
    if input.expectedIncident.Some? && input.expectedIncident.value != incidentId {
      return Err(OtherIncident);
    }
    var stored := HistoryIn(p);
    if stored.Err? {
      return Err(stored.error);
    }
    var v, missing, failed, consecutive, byHuman := Gate(p, policy, input);
    var error := Persist(graph, control, v);
    if error.Some? {
      return Err(error.value);
    }
    return Ok(RecoveryResult(
      incidentId, v.resume, v.state, missing, failed, consecutive, byHuman,
      if byHuman then Some(input.approval.value.receiptId) else None,
      if byHuman then Some(input.approval.value.identityAssurance) else None,
      if byHuman then input.approval.value.productionAuthorized else false,
      llmInstruction.Some?));
  }

  /** The decision itself, before anything is written. */
  method Gate(p: Props, policy: RecoveryPolicy, input: Inputs)
    returns (v: Verdict, missing: seq<string>, failed: seq<string>, consecutive: nat, byHuman: bool)
    requires HistoryIn(p).Ok?
    ensures v == Judge(p, policy, input)
    ensures forall id :: id in missing <==> id in policy.required && CheckFor(input.checks, id).None?
    ensures forall id :: id in failed <==>
      id in policy.required && CheckFor(input.checks, id).Some? && CheckFor(input.checks, id).value.status == Fail
    ensures missing == [] && failed == [] <==> Clean(policy, input.checks)
    ensures consecutive == TrailingClean(v.history)
    ensures byHuman == ResumeByApproval(policy, RunOf(policy, input))
  {
    hide CheckFor, TrailingClean, FlattenEvidence, NextState, PreviousState, Clean;
    missing, failed := UnmetChecks(policy, input.checks);
    var clean := missing == [] && failed == [];
    var history := HistoryIn(p).value + [RecoveryRun(clean, input.approval, input.checks)];
    consecutive := CountConsecutive(history);
    var byHistory := clean && consecutive >= policy.consecutiveCleanRuns;
    byHuman := clean && input.approval.Some? && input.approval.value.productionAuthorized
      && policy.allowOneCleanWithHumanApproval;
    var resume := byHistory || byHuman;
    v := Verdict(history, NextState(PreviousState(p), clean, resume), resume, EvidenceOf(input));
  }

  lemma {:induction false} AfterHead(g: Graph, head: seq<Write>, control: Urn, urns: seq<Urn>, evidence: seq<string>)
    requires OverlayOnly(head)
    ensures ResolveAll(DoAll(g, head), control, urns, evidence) == ResolveAll(g, control, urns, evidence)
    decreases |urns|
  {
    if urns != [] {
      ResolveSteady(g, head, control, urns[0], evidence);
      AfterHead(g, head, control, urns[1..], evidence);
    }
  }
}
