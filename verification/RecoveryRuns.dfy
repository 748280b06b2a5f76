/** The resume gate and the recovery states over whole runs of enforcement and recovery. */
module RecoveryRuns {
  import opened Common
  import opened IncidentLifecycle
  import opened PolicyEngine
  import opened MetadataGraph
  import opened OverlayWrites
  import opened Enforcement
  import opened Recovery
  import opened OverlayRuns
  import opened UndoRuns

  // ---------------------------------------------------------------- the control asset, step by step

  /** An accepted evaluation leaves its verdict on the control asset; a refused one leaves no trace. */
  lemma {:induction false} EvaluatedControl(g: Graph, control: Urn, policy: RecoveryPolicy, input: Inputs)
    ensures var g' := DoAll(g, EvaluateScript(g, control, policy, input).writes);
      && (Refusal(g, control, input).Some? ==> g' == g)
      && (Refusal(g, control, input).None? ==>
        var v := Judge(PropsOf(g, control), policy, input);
        PropsOf(g', control) == PropsOf(g, control) + RecoveryUpdates(v.state, v.history, v.evidence, v.resume))
  {
    if Refusal(g, control, input).None? {
      var ws, place := EvaluateScript(g, control, policy, input).writes, DatasetAt(control);
      var v := Judge(PropsOf(g, control), policy, input);
      var updates := RecoveryUpdates(v.state, v.history, v.evidence, v.resume);
      forall w | w in ws && w.Merge? && w.place == place ensures w.updates == updates {
        EvaluationParts(g, control, policy, input);
        assert ServesEvaluation(g, control, policy, input, w);
      }
      LastMergeWins(g, ws, place, updates.Keys);
      assert ws[0] == Merge(place, updates) && ws[0] in ws;
      LastMergeIsOne(ws, place);
      assert PropsAt(DoAll(g, ws), place) == PropsOf(DoAll(g, ws), control);
    }
  }

  /** A control asset that the enforcement reaches, complete or not: it belongs to the plan's
      incident, keeps a history of the same incident and starts an empty one otherwise. */
  lemma {:induction false} EnforcedControl(g: Graph, control: Urn, plan: PolicyPlan)
    ensures var p := PropsOf(DoAll(g, PlanScript(g, plan, plan.decisions).writes), control);
      && (!Reached(g, plan.decisions, control) ==> p == PropsOf(g, control))
      && (Reached(g, plan.decisions, control) ==>
        && BelongsTo(p, plan.incidentId)
        && RecoveryHistory in p && p[RecoveryHistory] == HistoryKept(PropsOf(g, control), plan.incidentId))
  {
    hide PlanScript, Controlled, Reached;
    var ws, place := PlanScript(g, plan, plan.decisions).writes, DatasetAt(control);
    ReachedIsMerged(g, plan, plan.decisions, control);
    EnforcedPlace(g, plan, place);
    LastMergeIsOne(ws, place);
    assert PropsAt(DoAll(g, ws), place) == PropsOf(DoAll(g, ws), control);
    if MergesInto(ws, place) {
      PlanParts(g, plan, plan.decisions);
      assert ServesPlan(g, plan, plan.decisions, Merge(place, LastMerge(ws, place)));
    }
  }

  lemma {:induction false} ReachedStays(g0: Graph, g: Graph, ds: seq<AssetDecision>, u: Urn)
    requires Overlay(g0, g)
    ensures Reached(g, ds, u) <==> Reached(g0, ds, u)
  {
    if ds != [] {
      ReachedStays(g0, g, ds[1..], u);
      OverlayTargets(g0, g, ds[0].asset.urn);
    }
  }

  // ---------------------------------------------------------------- the history a run has stored

  /** The incident on the control asset and the evaluations stored for it. */
  datatype Tracked = Tracked(incident: string, runs: seq<RecoveryRun>)

  predicate Accepts(t: Option<Tracked>, input: Inputs) {
    && t.Some? && t.value.incident != ""
    && (input.expectedIncident.Some? ==> input.expectedIncident.value == t.value.incident)
  }

  function TrackStep(g0: Graph, t: Option<Tracked>, control: Urn, s: Step): Option<Tracked> {
    match s
    case Enforced(plan) =>
      if !Reached(g0, plan.decisions, control) || (t.Some? && t.value.incident == plan.incidentId) then t
      else Some(Tracked(plan.incidentId, []))
    case Evaluated(policy, input) =>
      if Accepts(t, input) then Some(t.value.(runs := t.value.runs + [RunOf(policy, input)])) else t
  }

  /** The evaluations accepted since the control asset last changed incident. */
  function Track(g0: Graph, control: Urn, steps: seq<Step>): Option<Tracked> {
    if steps == [] then None
    else TrackStep(g0, Track(g0, control, steps[..|steps| - 1]), control, steps[|steps| - 1])
  }

  predicate Tracks(p: Props, t: Option<Tracked>) {
    match t
    case None => IncidentId !in p
    case Some(t) =>
      BelongsTo(p, t.incident) && RecoveryHistory in p && p[RecoveryHistory] == History(t.runs)
  }

  lemma {:induction false} EvaluationIsTracked(p: Props, t: Tracked, policy: RecoveryPolicy, input: Inputs)
    requires Tracks(p, Some(t))
    ensures var v := Judge(p, policy, input);
      Tracks(p + RecoveryUpdates(v.state, v.history, v.evidence, v.resume), Some(t.(runs := t.runs + [RunOf(policy, input)])))
  {
    var v := Judge(p, policy, input);
    RecoveryKeys(v.state, v.history, v.evidence, v.resume);
  }

  lemma {:induction false} StepIsTracked(g0: Graph, g: Graph, control: Urn, t: Option<Tracked>, s: Step)
    requires Overlay(g0, g) && Tracks(PropsOf(g, control), t)
    ensures Tracks(PropsOf(DoAll(g, StepWrites(g, control, s)), control), TrackStep(g0, t, control, s))
  {
    match s
    case Enforced(plan) =>
      ReachedStays(g0, g, plan.decisions, control);
      EnforcedControl(g, control, plan);
    case Evaluated(policy, input) =>
      EvaluatedControl(g, control, policy, input);
      if Accepts(t, input) {
        EvaluationIsTracked(PropsOf(g, control), t.value, policy, input);
      }
  }

  /** After any run, the stored history is exactly the evaluations accepted for this incident. */
  lemma {:induction false} HistoryIsTracked(g0: Graph, control: Urn, steps: seq<Step>)
    requires IncidentId !in PropsOf(g0, control)
    ensures Tracks(PropsOf(Run(g0, control, steps), control), Track(g0, control, steps))
  {
    if steps != [] {
      var init, s := steps[..|steps| - 1], steps[|steps| - 1];
      HistoryIsTracked(g0, control, init);
      RunIsOverlay(g0, control, init);
      StepIsTracked(g0, Run(g0, control, init), control, Track(g0, control, init), s);
    }
  }

  /** Clean evaluations since the last dirty one or the last change of incident, counted forward. */
  function Counter(g0: Graph, control: Urn, steps: seq<Step>): nat {
    if steps == [] then 0
    else
      var init, s := steps[..|steps| - 1], steps[|steps| - 1];
      var t := Track(g0, control, init);
      match s
      case Enforced(plan) => if TrackStep(g0, t, control, s) == t then Counter(g0, control, init) else 0
      case Evaluated(policy, input) =>
        if !Accepts(t, input) then Counter(g0, control, init)
        else if Clean(policy, input.checks) then Counter(g0, control, init) + 1
        else 0
  }

  lemma {:induction false} CounterAgrees(g0: Graph, control: Urn, steps: seq<Step>)
    ensures Counter(g0, control, steps) == match Track(g0, control, steps) case None => 0 case Some(t) => TrailingClean(t.runs)
  {
    if steps != [] {
      var init, s := steps[..|steps| - 1], steps[|steps| - 1];
      CounterAgrees(g0, control, init);
      if s.Evaluated? && Accepts(Track(g0, control, init), s.input) {
        TrailingCleanSteps(Track(g0, control, init).value.runs, RunOf(s.policy, s.input));
      }
    }
  }

  function Needed(policy: RecoveryPolicy): nat {
    if policy.consecutiveCleanRuns < 1 then 1 else policy.consecutiveCleanRuns
  }

  /** One more accepted evaluation, tracked and counted. */
  lemma {:induction false} CountedEvaluation(g0: Graph, control: Urn, steps: seq<Step>, policy: RecoveryPolicy, input: Inputs)
    requires Accepts(Track(g0, control, steps), input)
    ensures Counter(g0, control, steps + [Evaluated(policy, input)])
         == TrailingClean(Track(g0, control, steps).value.runs + [RunOf(policy, input)])
  {
    var more := steps + [Evaluated(policy, input)];
    assert more[..|steps|] == steps;
    CounterAgrees(g0, control, more);
  }

  lemma {:induction false} HistoryResumes(policy: RecoveryPolicy, history: seq<RecoveryRun>)
    ensures ResumeByHistory(policy, history) <==> LastClean(history, Needed(policy))
    ensures ResumeByHistory(policy, history) <==> TrailingClean(history) >= Needed(policy)
  {
    HistoryGate(policy, history);
    TrailingCleanCounts(history, Needed(policy));
  }

  lemma {:induction false} AcceptedIsTracked(p: Props, t: Tracked, policy: RecoveryPolicy, input: Inputs)
    requires Tracks(p, Some(t))
    ensures var v := Judge(p, policy, input);
      && v.history == t.runs + [RunOf(policy, input)]
      && (v.resume <==> ResumeByHistory(policy, v.history) || ResumeByApproval(policy, RunOf(policy, input)))
  {
  }

  lemma {:induction false} RefusedIffNotTracked(g: Graph, control: Urn, t: Option<Tracked>, input: Inputs)
    requires Tracks(PropsOf(g, control), t)
    ensures Refusal(g, control, input).None? <==> Accepts(t, input)
  {
  }

  /** The gate over whole runs: an evaluation is judged exactly when the control asset holds the
      expected incident, and it resumes exactly when the last N evaluations stored for that
      incident are clean, or this one is clean and authorised. The forward counter says the same. */
  lemma {:induction false} ResumeGate(g0: Graph, control: Urn, steps: seq<Step>, policy: RecoveryPolicy, input: Inputs)
    requires IncidentId !in PropsOf(g0, control)
    ensures var g, t := Run(g0, control, steps), Track(g0, control, steps);
      && (Refusal(g, control, input).None? <==> Accepts(t, input))
      && (Accepts(t, input) ==>
        var v := Judge(PropsOf(g, control), policy, input);
        var counted := Counter(g0, control, steps + [Evaluated(policy, input)]);
        && v.history == t.value.runs + [RunOf(policy, input)]
        && (v.resume <==> LastClean(v.history, Needed(policy)) || ResumeByApproval(policy, RunOf(policy, input)))
        && (v.resume <==> counted >= Needed(policy) || ResumeByApproval(policy, RunOf(policy, input))))
  {
    hide Judge, Refusal, Run, Track, Counter, LastClean, ResumeByHistory, ResumeByApproval, TrailingClean, RunOf;
    var g, t := Run(g0, control, steps), Track(g0, control, steps);
    HistoryIsTracked(g0, control, steps);
    RefusedIffNotTracked(g, control, t, input);
    if Accepts(t, input) {
      AcceptedIsTracked(PropsOf(g, control), t.value, policy, input);
      CountedEvaluation(g0, control, steps, policy, input);
      HistoryResumes(policy, t.value.runs + [RunOf(policy, input)]);
    }
  }

  /** Clean evaluations of another incident never count: once an enforcement of one reaches the
      control asset, complete or not, the history is empty. */
  lemma {:induction false} OtherIncidentStartsEmpty(g0: Graph, control: Urn, steps: seq<Step>, plan: PolicyPlan)
    requires IncidentId !in PropsOf(g0, control) && Reached(g0, plan.decisions, control)
    requires Track(g0, control, steps).Some? ==> Track(g0, control, steps).value.incident != plan.incidentId
    ensures var p := PropsOf(Run(g0, control, steps + [Enforced(plan)]), control);
      BelongsTo(p, plan.incidentId) && HistoryIn(p) == Ok([])
  {
    var more := steps + [Enforced(plan)];
    assert more[..|steps|] == steps;
    HistoryIsTracked(g0, control, more);
  }

  // ---------------------------------------------------------------- recovery and the legal graph

  predicate Blocked(s: IncidentState) {
    s == AtRisk || s == Quarantined || s == RecoveryPending
  }

  /** From a blocked state a verdict keeps the state or takes a legal edge, except when it resumes
      without having passed through RECOVERY_PENDING. */
  lemma {:induction false} VerdictEdge(previous: IncidentState, clean: bool, resume: bool)
    requires Blocked(previous)
    ensures var next := NextState(previous, clean, resume);
      (next == previous || Legal(previous, next)) <==> !(resume && previous != RecoveryPending)
  {
  }

  predicate ApprovalResumes(policy: RecoveryPolicy, input: Inputs) {
    input.approval.Some? && input.approval.value.productionAuthorized && policy.allowOneCleanWithHumanApproval
  }

  /** A threshold of at least two, and no approval that could resume on its own. */
  predicate Cautious(s: Step) {
    s.Evaluated? && s.policy.consecutiveCleanRuns >= 2 && !ApprovalResumes(s.policy, s.input)
  }

  function StateAt(g: Graph, control: Urn): IncidentState {
    PreviousState(PropsOf(g, control))
  }

  predicate Resumes(g: Graph, control: Urn, s: Step) {
    && s.Evaluated? && Refusal(g, control, s.input).None?
    && Judge(PropsOf(g, control), s.policy, s.input).resume
  }

  /** Blocked, and in RECOVERY_PENDING whenever the newest stored run was clean. */
  predicate InRecovery(p: Props) {
    && HistoryIn(p).Ok?
    && Blocked(PreviousState(p))
    && (TrailingClean(HistoryIn(p).value) > 0 ==> PreviousState(p) == RecoveryPending)
  }

  lemma {:induction false} StoredVerdict(p: Props, v: Verdict)
    ensures var p' := p + RecoveryUpdates(v.state, v.history, v.evidence, v.resume);
      PreviousState(p') == v.state && HistoryIn(p') == Ok(v.history)
  {
  }

  lemma {:induction false} CautiousStep(g: Graph, control: Urn, s: Step)
    requires Cautious(s) && InRecovery(PropsOf(g, control))
    ensures var g' := DoAll(g, StepWrites(g, control, s));
      && (StateAt(g', control) == StateAt(g, control) || Legal(StateAt(g, control), StateAt(g', control)))
      && (!Resumes(g, control, s) ==> InRecovery(PropsOf(g', control)))
      && (Resumes(g, control, s) ==> StateAt(g', control) == Resolved)
  {
    var p := PropsOf(g, control);
    EvaluatedControl(g, control, s.policy, s.input);
    if Refusal(g, control, s.input).None? {
      hide DoAll, EvaluateScript, RecoveryUpdates, TrailingClean, RunOf;
      var v, run := Judge(p, s.policy, s.input), RunOf(s.policy, s.input);
      StoredVerdict(p, v);
      TrailingCleanSteps(HistoryIn(p).value, run);
      VerdictEdge(PreviousState(p), run.clean, v.resume);
    }
  }

  /** Cautious evaluations, none of which resumed. */
  predicate StillBlocked(g: Graph, control: Urn, steps: seq<Step>) {
    steps == []
    || (var init, s := steps[..|steps| - 1], steps[|steps| - 1];
        StillBlocked(g, control, init) && Cautious(s) && !Resumes(Run(g, control, init), control, s))
  }

  lemma {:induction false} StaysInRecovery(g: Graph, control: Urn, steps: seq<Step>)
    requires InRecovery(PropsOf(g, control)) && StillBlocked(g, control, steps)
    ensures InRecovery(PropsOf(Run(g, control, steps), control))
  {
    if steps != [] {
      var init, s := steps[..|steps| - 1], steps[|steps| - 1];
      StaysInRecovery(g, control, init);
      CautiousStep(Run(g, control, init), control, s);
    }
  }

  /** Starting blocked with an empty history, every cautious evaluation up to and including the
      first that resumes keeps the persisted state or takes a legal edge. */
  lemma {:induction false} RecoveryIsLegal(g: Graph, control: Urn, steps: seq<Step>, s: Step)
    requires StateAt(g, control) == AtRisk || StateAt(g, control) == Quarantined
    requires HistoryIn(PropsOf(g, control)) == Ok([])
    requires StillBlocked(g, control, steps) && Cautious(s)
    ensures var before, after := StateAt(Run(g, control, steps), control), StateAt(Run(g, control, steps + [s]), control);
      before == after || Legal(before, after)
  {
    StaysInRecovery(g, control, steps);
    assert (steps + [s])[..|steps|] == steps;
    CautiousStep(Run(g, control, steps), control, s);
  }

  /** Without those two provisos the very first clean evaluation jumps past RECOVERY_PENDING, and
      that is the only illegal step there is. */
  lemma {:induction false} FirstStepIsLegal(g: Graph, control: Urn, policy: RecoveryPolicy, input: Inputs)
    requires StateAt(g, control) == AtRisk || StateAt(g, control) == Quarantined
    requires HistoryIn(PropsOf(g, control)) == Ok([]) && Refusal(g, control, input).None?
    ensures var after := StateAt(DoAll(g, EvaluateScript(g, control, policy, input).writes), control);
      (after == StateAt(g, control) || Legal(StateAt(g, control), after))
      <==> !(Clean(policy, input.checks) && (policy.consecutiveCleanRuns <= 1 || ApprovalResumes(policy, input)))
  {
    var p := PropsOf(g, control);
    EvaluatedControl(g, control, policy, input);
    StoredVerdict(p, Judge(p, policy, input));
    TrailingCleanSteps([], RunOf(policy, input));
    assert TrailingClean([]) == 0;
    VerdictEdge(PreviousState(p), Clean(policy, input.checks), Judge(p, policy, input).resume);
  }

  /** A dirty recheck after resolution moves the state back to AT_RISK, an edge the legal graph
      does not have, and leaves every enforcement action off: it does not block again. */
  lemma {:induction false} DirtyRecheckDoesNotReblock(g: Graph, control: Urn, policy: RecoveryPolicy, input: Inputs)
    requires Refusal(g, control, input).None? && !Clean(policy, input.checks)
    requires StateAt(g, control) == Resolved
    requires EnforcementActions in PropsOf(g, control) && PropsOf(g, control)[EnforcementActions] == Actions([])
    ensures var g' := DoAll(g, EvaluateScript(g, control, policy, input).writes);
      && StateAt(g', control) == AtRisk && !Legal(Resolved, AtRisk)
      && EnforcementActions in PropsOf(g', control) && PropsOf(g', control)[EnforcementActions] == Actions([])
  {
    var p := PropsOf(g, control);
    EvaluatedControl(g, control, policy, input);
    StoredVerdict(p, Judge(p, policy, input));
    TrailingCleanSteps(HistoryIn(p).value, RunOf(policy, input));
  }
}
