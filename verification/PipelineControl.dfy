/** Local execution control, in memory and reloaded from persisted catalog state. */
module PipelineControl {
  import opened Common
  import opened IncidentLifecycle
  import opened PolicyEngine
  import opened MetadataGraph
  import opened OverlayWrites
  import opened Enforcement
  import opened Recovery
  import opened OverlayRuns
  import opened UndoRuns
  import opened RecoveryRuns

  const BLOCKED_EXIT_CODE := 42

  datatype PipelineResult = PipelineResult(
    assetName: string, executed: bool, wouldBlock: bool, exitCode: int, incidentId: string)

  datatype ControlError =
    | NoDecision(assetName: string)
    | MissingSource(path: string)
    | SameFile(path: string)
    | NoProperties(urn: Urn)
    | Incomplete(missing: set<Key>)
    | BadValue(key: Key)

  // ---------------------------------------------------------------- the controller

  /** Decisions by asset name; a later decision replaces an earlier one. */
  function ByName(ds: seq<AssetDecision>): map<string, AssetDecision> {
    if ds == [] then map[]
    else ByName(ds[..|ds| - 1])[ds[|ds| - 1].asset.name := ds[|ds| - 1]]
  }

  /** Whether the plan forbids an action on a named asset; None without a decision. */
  function Forbids(plan: PolicyPlan, name: string, action: EnforcementAction): Option<bool> {
    var byName := ByName(plan.decisions);
    if name in byName then Some(action in byName[name].actions) else None
  }

  lemma {:induction false} UniqueNameDecides(ds: seq<AssetDecision>, d: AssetDecision)
    requires d in ds
    requires forall e :: e in ds && e.asset.name == d.asset.name ==> e == d
    ensures d.asset.name in ByName(ds) && ByName(ds)[d.asset.name] == d
  {
    var init, last := ds[..|ds| - 1], ds[|ds| - 1];
    assert ds == init + [last];
    assert last in ds;
    if last.asset.name != d.asset.name {
      UniqueNameDecides(init, d);
    }
  }

  lemma {:induction false} NamedIsDecided(ds: seq<AssetDecision>, name: string)
    requires name in ByName(ds)
    ensures ByName(ds)[name] in ds && ByName(ds)[name].asset.name == name
  {
    var init, last := ds[..|ds| - 1], ds[|ds| - 1];
    assert ds == init + [last];
    if last.asset.name != name {
      NamedIsDecided(init, name);
    }
  }

  class Workspace {
    var files: map<string, string>
    var executed: seq<string>

    constructor ()
      ensures files == map[] && executed == []
    {
      files, executed := map[], [];
    }
  }

  class LocalPipelineController {
    const plan: PolicyPlan
    const decisions: map<string, AssetDecision>

    predicate Valid() {
      decisions == ByName(plan.decisions)
    }

    constructor (plan: PolicyPlan)
      ensures Valid() && this.plan == plan
    {
      this.plan := plan;
      decisions := ByName(plan.decisions);
    }

    /** A forbidden publication copies nothing; an allowed one copies exactly the source. */
    method Publish(work: Workspace, assetName: string, source: string, target: string)
      returns (result: Result<PipelineResult, ControlError>)
      requires Valid()
      modifies work`files
      ensures Forbids(plan, assetName, BlockPublish).None? ==> result == Err(NoDecision(assetName))
      ensures Forbids(plan, assetName, BlockPublish) == Some(true) ==>
        result == Ok(PipelineResult(assetName, false, true, BLOCKED_EXIT_CODE, plan.incidentId))
      ensures Forbids(plan, assetName, BlockPublish) == Some(false) ==>
        (result.Ok? <==> source in old(work.files) && source != target)
      ensures Forbids(plan, assetName, BlockPublish) == Some(false) && result.Ok? ==>
        && result.value == PipelineResult(assetName, true, false, 0, plan.incidentId)
        && source in old(work.files) && work.files == old(work.files)[target := old(work.files)[source]]
      ensures !(result.Ok? && result.value.executed) ==> work.files == old(work.files)
    {
      if assetName !in decisions {
        return Err(NoDecision(assetName));
      }
      if BlockPublish in decisions[assetName].actions {
        return Ok(PipelineResult(assetName, false, true, BLOCKED_EXIT_CODE, plan.incidentId));
      }
      if source !in work.files {
        return Err(MissingSource(source));
      }
      if source == target {
        return Err(SameFile(source));
      }
      work.files := work.files[target := work.files[source]];
      return Ok(PipelineResult(assetName, true, false, 0, plan.incidentId));
    }

    /** An operation runs exactly when its asset has a decision that does not forbid execution. */
    method Execute(work: Workspace, assetName: string, operation: string)
      returns (result: Result<PipelineResult, ControlError>)
      requires Valid()
      modifies work`executed
      ensures result.Err? <==> Forbids(plan, assetName, BlockExecution).None?
      ensures result.Ok? ==>
        var blocked := Forbids(plan, assetName, BlockExecution).value;
        result.value == PipelineResult(assetName, !blocked, blocked, if blocked then BLOCKED_EXIT_CODE else 0, plan.incidentId)
      ensures work.executed ==
        old(work.executed) + (if Forbids(plan, assetName, BlockExecution) == Some(false) then [operation] else [])
    {
      if assetName !in decisions {
        return Err(NoDecision(assetName));
      }
      if BlockExecution in decisions[assetName].actions {
        return Ok(PipelineResult(assetName, false, true, BLOCKED_EXIT_CODE, plan.incidentId));
      }
      work.executed := work.executed + [operation];
      return Ok(PipelineResult(assetName, true, false, 0, plan.incidentId));
    }
  }

  // ---------------------------------------------------------------- reloading

  const REQUIRED_KEYS: set<Key> := {IncidentId, PolicyDecisionKey, CatalogStatusKey, EnforcementActions}

  function CatalogStatusFrom(v: Value): Option<CatalogStatus> {
    if v == State(Healthy) then Some(StatusHealthy)
    else if v == State(AtRisk) then Some(StatusAtRisk)
    else if v == State(Quarantined) then Some(StatusQuarantined)
    else if v == State(Resolved) then Some(StatusResolved)
    else None
  }

  function TextOr(p: Props, k: Key, fallback: string): string {
    if k in p && p[k].Text? then p[k].text else fallback
  }

  function EvidenceFrom(p: Props): Option<seq<string>> {
    if EvidenceIds !in p then Some([])
    else if p[EvidenceIds].Ids? then Some(p[EvidenceIds].ids)
    else None
  }

  function ReasonFrom(p: Props): ReasonCode {
    if ReasonCodeKey in p && p[ReasonCodeKey].Reason? then p[ReasonCodeKey].reason else PersistedControlState
  }

  /** The plan a fresh controller starts from: one decision, read from persisted properties. */
  function Reload(g: Graph, urn: Urn): Result<PolicyPlan, ControlError> {
    if urn !in g.datasets then Err(NoProperties(urn))
    else
      var p := g.datasets[urn].props;
      if !(REQUIRED_KEYS <= p.Keys) then Err(Incomplete(REQUIRED_KEYS - p.Keys))
      else if !p[PolicyDecisionKey].Decision? then Err(BadValue(PolicyDecisionKey))
      else match CatalogStatusFrom(p[CatalogStatusKey])
        case None => Err(BadValue(CatalogStatusKey))
        case Some(status) =>
          if !p[EnforcementActions].Actions? then Err(BadValue(EnforcementActions))
          else if EvidenceFrom(p).None? then Err(BadValue(EvidenceIds))
          else if !p[IncidentId].Text? then Err(BadValue(IncidentId))
          else
            var name := if g.datasets[urn].name != "" then g.datasets[urn].name else urn;
            var asset := AssetContext(
              urn, name, TextOr(p, EntityRole, "unknown"), TextOr(p, Criticality, "UNKNOWN"),
              status != StatusHealthy && status != StatusResolved);
            Ok(PolicyPlan(p[IncidentId].text, [
              AssetDecision(asset, p[PolicyDecisionKey].decision, status, p[EnforcementActions].actions,
                ReasonFrom(p), EvidenceFrom(p).value)]))
  }

  /** What the persisted properties say about one asset. */
  datatype Control = Control(
    incidentId: string, decision: PolicyDecision, status: CatalogStatus, actions: seq<EnforcementAction>)

  predicate Controls(p: Props, c: Control) {
    && BelongsTo(p, c.incidentId)
    && PolicyDecisionKey in p && p[PolicyDecisionKey] == Decision(c.decision)
    && CatalogStatusKey in p && p[CatalogStatusKey] == State(StateOf(c.status))
    && EnforcementActions in p && p[EnforcementActions] == Actions(c.actions)
    && EvidenceFrom(p).Some?
  }

  function Resumed(c: Control, resumed: bool): Control {
    if resumed then Control(c.incidentId, Allow, StatusResolved, []) else c
  }

  lemma {:induction false} ReloadReads(g: Graph, urn: Urn, c: Control)
    requires Controls(PropsOf(g, urn), c)
    ensures Reload(g, urn).Ok?
    ensures var plan := Reload(g, urn).value;
      && plan.incidentId == c.incidentId && |plan.decisions| == 1
      && plan.decisions[0].asset.urn == urn && plan.decisions[0].decision == c.decision
      && plan.decisions[0].status == c.status && plan.decisions[0].actions == c.actions
      && (plan.decisions[0].asset.affected <==> c.status == StatusAtRisk || c.status == StatusQuarantined)
      && forall a :: Forbids(plan, plan.decisions[0].asset.name, a) == Some(a in c.actions)
  {
    var ds := Reload(g, urn).value.decisions;
    assert ds[..0] == [];
    assert ByName(ds) == map[][ds[0].asset.name := ds[0]];
  }

  /** A status as enforcement and recovery store it. */
  predicate StoredAs(v: Value, status: CatalogStatus) {
    match status
    case StatusHealthy => v == State(Healthy)
    case StatusAtRisk => v == State(AtRisk)
    case StatusQuarantined => v == State(Quarantined)
    case StatusResolved => v == State(Resolved)
  }

  /** The properties hold every control, each in its own shape. */
  predicate Reloadable(p: Props) {
    && IncidentId in p && p[IncidentId].Text?
    && PolicyDecisionKey in p && p[PolicyDecisionKey].Decision?
    && CatalogStatusKey in p && p[CatalogStatusKey] in {State(Healthy), State(AtRisk), State(Quarantined), State(Resolved)}
    && EnforcementActions in p && p[EnforcementActions].Actions?
    && (EvidenceIds in p ==> p[EvidenceIds].Ids?)
  }

  predicate ReadAs(p: Props, k: Key, text: string, fallback: string) {
    if k in p && p[k].Text? then p[k] == Text(text) else text == fallback
  }

  /** A reload succeeds exactly when the asset holds every control; its one decision is what they say,
      about the asset under its display name, or its URN without one. */
  lemma {:induction false} ReloadAcceptedIff(g: Graph, urn: Urn)
    ensures Reload(g, urn).Ok? <==> urn in g.datasets && Reloadable(g.datasets[urn].props)
    ensures Reload(g, urn).Ok? ==>
      var p, plan := g.datasets[urn].props, Reload(g, urn).value;
      && |plan.decisions| == 1 && p[IncidentId] == Text(plan.incidentId)
      && var d := plan.decisions[0];
      && d.asset.urn == urn && d.asset.name == (if g.datasets[urn].name == "" then urn else g.datasets[urn].name)
      && ReadAs(p, EntityRole, d.asset.role, "unknown") && ReadAs(p, Criticality, d.asset.criticality, "UNKNOWN")
      && (d.asset.affected <==> d.status == StatusAtRisk || d.status == StatusQuarantined)
      && p[PolicyDecisionKey] == Decision(d.decision) && StoredAs(p[CatalogStatusKey], d.status)
      && p[EnforcementActions] == Actions(d.actions)
      && (if EvidenceIds in p then p[EvidenceIds] == Ids(d.evidenceIds) else d.evidenceIds == [])
      && (if ReasonCodeKey in p && p[ReasonCodeKey].Reason? then p[ReasonCodeKey] == Reason(d.reason) else d.reason == PersistedControlState)
  {
  }

  // ---------------------------------------------------------------- what recovery does to the controls

  /** When every write of a key to a place agrees, and there is one, that value shows. */
  lemma {:induction false} WrittenKeyShows(g: Graph, ws: seq<Write>, place: Place, k: Key, v: Value)
    requires Writable(g, place)
    requires forall w :: w in ws && WritesKey(w, place, k) ==> w.updates[k] == v
    requires exists w :: w in ws && WritesKey(w, place, k)
    ensures k in PropsAt(DoAll(g, ws), place) && PropsAt(DoAll(g, ws), place)[k] == v
  {
    var init, last := ws[..|ws| - 1], ws[|ws| - 1];
    assert ws == init + [last];
    DoAt(DoAll(g, init), last, place);
    if WritesKey(last, place, k) {
      assert last in ws;
    } else {
      assert exists w :: w in init && WritesKey(w, place, k);
      WrittenKeyShows(g, init, place, k, v);
    }
  }

  /** The loop that resolves the controlled assets gets to this one: each before it is supported. */
  predicate ResolveReaches(g: Graph, urns: seq<Urn>, u: Urn) {
    urns != [] && (urns[0] == u || (SupportedAsset(g, urns[0]) && ResolveReaches(g, urns[1..], u)))
  }

  lemma {:induction false} ResolveCompletes(g: Graph, control: Urn, urn: Urn, evidence: seq<string>)
    ensures ResolveScript(g, control, urn, evidence).error.None? <==> SupportedAsset(g, urn)
    ensures urn != control ==> Merge(DatasetAt(urn), ResolvedUpdates(evidence)) in ResolveScript(g, control, urn, evidence).writes
    ensures forall w :: w in ResolveScript(g, control, urn, evidence).writes && w.Merge? && w.place.DatasetAt? ==>
      w == Merge(DatasetAt(urn), ResolvedUpdates(evidence)) && urn != control
  {
    var targets := Targets(PropsOf(g, urn));
    if targets.Ok? {
      MirrorCompletes(g.natives.Keys, targets.value, Some(ResolvedTag), ResolvedUpdates(evidence));
      MirrorParts(g.natives.Keys, targets.value, Some(ResolvedTag), ResolvedUpdates(evidence));
    }
  }

  /** Complete or stopped, it resolves the datasets it gets to, the control asset apart, and no others. */
  lemma {:induction false} ResolveMerges(g: Graph, control: Urn, urns: seq<Urn>, evidence: seq<string>, u: Urn)
    ensures MergesInto(ResolveAll(g, control, urns, evidence).writes, DatasetAt(u)) <==> u != control && ResolveReaches(g, urns, u)
    ensures forall w :: w in ResolveAll(g, control, urns, evidence).writes && w.Merge? && w.place == DatasetAt(u) ==>
      w.updates == ResolvedUpdates(evidence)
  {
    if urns != [] {
      hide ResolveScript, SupportedAsset, ResolvedUpdates;
      var head, rest := ResolveScript(g, control, urns[0], evidence), ResolveAll(g, control, urns[1..], evidence);
      ResolveCompletes(g, control, urns[0], evidence);
      ResolveMerges(g, control, urns[1..], evidence, u);
      MergesIntoConcat(head.writes, rest.writes, DatasetAt(u));
      assert MergesInto(head.writes, DatasetAt(u)) <==> u == urns[0] && u != control by {
        if u == urns[0] && u != control { assert Merge(DatasetAt(u), ResolvedUpdates(evidence)) in head.writes; }
      }
    }
  }

  /** Keys of which recovery, when it resumes, writes one fixed value everywhere. */
  function Lifted(k: Key): Option<Value> {
    if k == PolicyDecisionKey then Some(Decision(Allow))
    else if k == CatalogStatusKey then Some(State(Resolved))
    else if k == EnforcementActions then Some(Actions([]))
    else None
  }

  lemma {:induction false} UpdatesLift(state: IncidentState, history: seq<RecoveryRun>, evidence: seq<string>, resume: bool, k: Key)
    requires Lifted(k).Some? || k in {IncidentId, EvidenceIds}
    ensures k in RecoveryUpdates(state, history, evidence, resume) ==>
      resume && Lifted(k) == Some(RecoveryUpdates(state, history, evidence, resume)[k])
    ensures k in ResolvedUpdates(evidence) ==> Lifted(k) == Some(ResolvedUpdates(evidence)[k])
  {
  }

  lemma {:induction false} EvaluationWritesLifted(g: Graph, control: Urn, policy: RecoveryPolicy, input: Inputs, w: Write, place: Place, k: Key)
    requires ServesEvaluation(g, control, policy, input, w) && WritesKey(w, place, k)
    requires Lifted(k).Some? || k in {IncidentId, EvidenceIds}
    ensures Resumes(g, control, Evaluated(policy, input)) && Lifted(k) == Some(w.updates[k])
  {
    var v := Judge(PropsOf(g, control), policy, input);
    UpdatesLift(v.state, v.history, v.evidence, v.resume, k);
    if w != Merge(DatasetAt(control), RecoveryUpdates(v.state, v.history, v.evidence, v.resume)) {
      assert PartOf(w, Some(ResolvedTag), ResolvedUpdates(v.evidence));
    }
  }

  /** A recovery evaluation resumes and gets as far as this asset. */
  predicate Lifts(g: Graph, control: Urn, s: Step, u: Urn) {
    Resumes(g, control, s)
    && (u == control
        || (ControlledIn(PropsOf(g, control), control).Ok?
            && ResolveReaches(g, ControlledIn(PropsOf(g, control), control).value, u)))
  }

  lemma {:induction false} UpdatesHoldLifted(state: IncidentState, history: seq<RecoveryRun>, evidence: seq<string>, k: Key)
    requires Lifted(k).Some?
    ensures k in RecoveryUpdates(state, history, evidence, true) && k in ResolvedUpdates(evidence)
  {
  }

  lemma {:induction false} ResumeWrites(g: Graph, control: Urn, policy: RecoveryPolicy, input: Inputs)
    requires Resumes(g, control, Evaluated(policy, input))
    ensures var v, ws := Judge(PropsOf(g, control), policy, input), EvaluateScript(g, control, policy, input).writes;
      && Merge(DatasetAt(control), RecoveryUpdates(v.state, v.history, v.evidence, true)) in ws
      && (ControlledIn(PropsOf(g, control), control).Ok? ==>
        forall w :: w in ResolveAll(g, control, ControlledIn(PropsOf(g, control), control).value, v.evidence).writes ==> w in ws)
  {
    hide RecoveryUpdates, ResolveAll;
    var v, ws := Judge(PropsOf(g, control), policy, input), EvaluateScript(g, control, policy, input).writes;
    assert ws[0] == Merge(DatasetAt(control), RecoveryUpdates(v.state, v.history, v.evidence, true));
  }

  lemma {:induction false} LiftWritesKey(g: Graph, control: Urn, policy: RecoveryPolicy, input: Inputs, u: Urn, k: Key)
    requires Lifts(g, control, Evaluated(policy, input), u) && Lifted(k).Some?
    ensures exists w :: w in EvaluateScript(g, control, policy, input).writes && WritesKey(w, DatasetAt(u), k)
  {
    hide SupportedAsset, RecoveryUpdates, ResolvedUpdates, EvaluateScript, ResolveAll, ResolveReaches, Lifted;
    var v := Judge(PropsOf(g, control), policy, input);
    UpdatesHoldLifted(v.state, v.history, v.evidence, k);
    ResumeWrites(g, control, policy, input);
    if u == control {
      assert WritesKey(Merge(DatasetAt(control), RecoveryUpdates(v.state, v.history, v.evidence, true)), DatasetAt(u), k);
    } else {
      var urns := ControlledIn(PropsOf(g, control), control).value;
      ResolveMerges(g, control, urns, v.evidence, u);
      var w :| w in ResolveAll(g, control, urns, v.evidence).writes && w.Merge? && w.place == DatasetAt(u);
      assert WritesKey(w, DatasetAt(u), k);
    }
  }

  /** Nothing of an evaluation lifts a control unless it gets to the asset. */
  lemma {:induction false} WriteLifts(g: Graph, control: Urn, policy: RecoveryPolicy, input: Inputs, w: Write, u: Urn, k: Key)
    requires w in EvaluateScript(g, control, policy, input).writes && WritesKey(w, DatasetAt(u), k)
    requires Lifted(k).Some? || k in {IncidentId, EvidenceIds}
    ensures Lifts(g, control, Evaluated(policy, input), u) && Lifted(k) == Some(w.updates[k])
  {
    EvaluationParts(g, control, policy, input);
    EvaluationWritesLifted(g, control, policy, input, w, DatasetAt(u), k);
    if u != control {
      WriteIsResolution(g, control, policy, input, w, u);
    }
  }

  lemma {:induction false} WriteIsResolution(g: Graph, control: Urn, policy: RecoveryPolicy, input: Inputs, w: Write, u: Urn)
    requires Resumes(g, control, Evaluated(policy, input)) && u != control
    requires w in EvaluateScript(g, control, policy, input).writes && w.Merge? && w.place == DatasetAt(u)
    ensures Lifts(g, control, Evaluated(policy, input), u)
  {
    hide SupportedAsset, RecoveryUpdates, ResolvedUpdates, ResolveAll;
    var v := Judge(PropsOf(g, control), policy, input);
    var urns := ControlledIn(PropsOf(g, control), control);
    if urns.Ok? {
      ResolveMerges(g, control, urns.value, v.evidence, u);
      assert w in ResolveAll(g, control, urns.value, v.evidence).writes;
    }
  }

  /** A key that is as before, or lifted. */
  predicate KeyAfter(before: Props, after: Props, k: Key, lifts: bool) {
    if lifts && Lifted(k).Some? then k in after && after[k] == Lifted(k).value
    else (k in after <==> k in before) && (k in before ==> after[k] == before[k])
  }

  /** One evaluation leaves each control key of an asset alone, or lifts it when its resume gets there. */
  lemma {:induction false} EvaluatedKey(g: Graph, control: Urn, policy: RecoveryPolicy, input: Inputs, u: Urn, k: Key)
    requires Lifted(k).Some? || k in {IncidentId, EvidenceIds}
    ensures KeyAfter(
      PropsOf(g, u), PropsOf(DoAll(g, EvaluateScript(g, control, policy, input).writes), u), k,
      Lifts(g, control, Evaluated(policy, input), u))
  {
    hide EvaluateScript, Lifts, Lifted;
    var ws, place := EvaluateScript(g, control, policy, input).writes, DatasetAt(u);
    forall w | w in ws && WritesKey(w, place, k)
      ensures Lifts(g, control, Evaluated(policy, input), u) && Lifted(k) == Some(w.updates[k])
    {
      WriteLifts(g, control, policy, input, w, u, k);
    }
    assert PropsAt(DoAll(g, ws), place) == PropsOf(DoAll(g, ws), u) && PropsAt(g, place) == PropsOf(g, u);
    if Lifts(g, control, Evaluated(policy, input), u) && Lifted(k).Some? {
      LiftWritesKey(g, control, policy, input, u, k);
      WrittenKeyShows(g, ws, place, k, Lifted(k).value);
    } else {
      UnwrittenKeyStays(g, ws, place, k);
    }
  }

  predicate KeysAfter(before: Props, after: Props, lifts: bool) {
    forall k :: k in REQUIRED_KEYS + {EvidenceIds} ==> KeyAfter(before, after, k, lifts)
  }

  lemma {:induction false} KeysMakeControls(before: Props, after: Props, lifts: bool, c: Control)
    requires Controls(before, c)
    requires KeysAfter(before, after, lifts)
    ensures Controls(after, Resumed(c, lifts))
  {
    assert KeyAfter(before, after, IncidentId, lifts);
    assert KeyAfter(before, after, EvidenceIds, lifts);
    assert KeyAfter(before, after, PolicyDecisionKey, lifts);
    assert KeyAfter(before, after, CatalogStatusKey, lifts);
    assert KeyAfter(before, after, EnforcementActions, lifts);
  }

  lemma {:induction false} EvaluatedKeys(g: Graph, control: Urn, policy: RecoveryPolicy, input: Inputs, u: Urn)
    ensures KeysAfter(
      PropsOf(g, u), PropsOf(DoAll(g, EvaluateScript(g, control, policy, input).writes), u),
      Lifts(g, control, Evaluated(policy, input), u))
  {
    var after, lifts := PropsOf(DoAll(g, EvaluateScript(g, control, policy, input).writes), u), Lifts(g, control, Evaluated(policy, input), u);
    forall k | k in REQUIRED_KEYS + {EvidenceIds} ensures KeyAfter(PropsOf(g, u), after, k, lifts) {
      EvaluatedKey(g, control, policy, input, u, k);
    }
  }

  lemma {:induction false} EvaluatedControls(g: Graph, control: Urn, s: Step, u: Urn, c: Control)
    requires s.Evaluated? && Controls(PropsOf(g, u), c)
    ensures Controls(PropsOf(DoAll(g, StepWrites(g, control, s)), u), Resumed(c, Lifts(g, control, s, u)))
  {
    hide Lifts, KeysAfter, Controls;
    EvaluatedKeys(g, control, s.policy, s.input, u);
    KeysMakeControls(PropsOf(g, u), PropsOf(DoAll(g, StepWrites(g, control, s)), u), Lifts(g, control, s, u), c);
  }

  // ---------------------------------------------------------------- the reloaded controller over whole runs

  predicate AllEvaluations(steps: seq<Step>) {
    forall s :: s in steps ==> s.Evaluated?
  }

  /** Some evaluation of the run resumed and got as far as this asset. */
  predicate EverLifted(g: Graph, control: Urn, steps: seq<Step>, u: Urn) {
    steps != []
    && (EverLifted(g, control, steps[..|steps| - 1], u)
        || Lifts(Run(g, control, steps[..|steps| - 1]), control, steps[|steps| - 1], u))
  }

  /** Over any evaluations an asset's persisted controls stay until a resume gets to it, which lifts
      them for good. */
  lemma {:induction false} RunControls(g: Graph, control: Urn, steps: seq<Step>, u: Urn, c: Control)
    requires AllEvaluations(steps) && Controls(PropsOf(g, u), c)
    ensures Controls(PropsOf(Run(g, control, steps), u), Resumed(c, EverLifted(g, control, steps, u)))
  {
    hide Controls, Lifts;
    if steps != [] {
      var init, s := steps[..|steps| - 1], steps[|steps| - 1];
      RunControls(g, control, init, u, c);
      EvaluatedControls(Run(g, control, init), control, s, u, Resumed(c, EverLifted(g, control, init, u)));
    }
  }

  // ---------------------------------------------------------------- when everything is supported

  /** Some evaluation of the run authorised resumption. */
  predicate EverResumed(g: Graph, control: Urn, steps: seq<Step>) {
    steps != []
    && (EverResumed(g, control, steps[..|steps| - 1])
        || Resumes(Run(g, control, steps[..|steps| - 1]), control, steps[|steps| - 1]))
  }

  lemma {:induction false} ControlledStays(g: Graph, control: Urn, policy: RecoveryPolicy, input: Inputs)
    ensures var g' := DoAll(g, EvaluateScript(g, control, policy, input).writes);
      ControlledIn(PropsOf(g', control), control) == ControlledIn(PropsOf(g, control), control)
  {
    EvaluationKeepsKey(g, control, policy, input, DatasetAt(control), ControlledUrns);
    var g' := DoAll(g, EvaluateScript(g, control, policy, input).writes);
    assert PropsAt(g', DatasetAt(control)) == PropsOf(g', control);
    assert PropsAt(g, DatasetAt(control)) == PropsOf(g, control);
  }

  lemma {:induction false} SupportedAreResolved(g: Graph, urns: seq<Urn>, u: Urn)
    requires u in urns && forall x :: x in urns ==> SupportedAsset(g, x)
    ensures ResolveReaches(g, urns, u)
  {
    if urns[0] != u { SupportedAreResolved(g, urns[1..], u); }
  }

  /** The target list is as it was, and its assets stay supported. */
  lemma {:induction false} TargetsStay(g: Graph, control: Urn, steps: seq<Step>, urns: seq<Urn>)
    requires AllEvaluations(steps) && ControlledIn(PropsOf(g, control), control) == Ok(urns)
    requires forall x :: x in urns ==> SupportedAsset(g, x)
    ensures ControlledIn(PropsOf(Run(g, control, steps), control), control) == Ok(urns)
    ensures forall x :: x in urns ==> SupportedAsset(Run(g, control, steps), x)
  {
    if steps != [] {
      TargetsStay(g, control, steps[..|steps| - 1], urns);
      var s := steps[|steps| - 1];
      ControlledStays(Run(g, control, steps[..|steps| - 1]), control, s.policy, s.input);
    }
    RunIsOverlay(g, control, steps);
    forall x | x in urns ensures SupportedAsset(Run(g, control, steps), x) {
      OverlayTargets(g, Run(g, control, steps), x);
    }
  }

  /** When every listed asset is supported, a resume lifts the controls of all of them. */
  lemma {:induction false} ResumeLiftsAll(g: Graph, control: Urn, steps: seq<Step>, urns: seq<Urn>, u: Urn)
    requires AllEvaluations(steps) && ControlledIn(PropsOf(g, control), control) == Ok(urns) && u in urns
    requires forall x :: x in urns ==> SupportedAsset(g, x)
    ensures EverLifted(g, control, steps, u) <==> EverResumed(g, control, steps)
  {
    hide SupportedAsset, Resumes, ControlledIn;
    if steps != [] {
      var init := steps[..|steps| - 1];
      ResumeLiftsAll(g, control, init, urns, u);
      TargetsStay(g, control, init, urns);
      SupportedAreResolved(Run(g, control, init), urns, u);
    }
  }

  lemma {:induction false} EnforcedTargets(g: Graph, control: Urn, plan: PolicyPlan)
    requires Supported(g, plan.decisions) && control in Controlled(plan)
    ensures var g' := DoAll(g, PlanScript(g, plan, plan.decisions).writes);
      && ControlledIn(PropsOf(g', control), control) == Ok(Controlled(plan))
      && forall x :: x in Controlled(plan) ==> SupportedAsset(g', x)
  {
    var g' := DoAll(g, PlanScript(g, plan, plan.decisions).writes);
    EnforcedDataset(g, plan, control);
    ControlledMembers(plan);
    PlanIsOverlay(g, plan, plan.decisions);
    WritesAreOverlay(g, PlanScript(g, plan, plan.decisions).writes);
    forall x | x in Controlled(plan) ensures SupportedAsset(g', x) {
      var e :| e in plan.decisions && WritesBack(e) && e.asset.urn == x;
      OverlayTargets(g, g', x);
    }
  }

  // ---------------------------------------------------------------- reloading after any enforcement

  lemma {:induction false} EnforcedControls(g: Graph, plan: PolicyPlan, d: AssetDecision)
    requires LastReached(g, plan.decisions, d.asset.urn) == Some(d)
    ensures Controls(
      PropsOf(DoAll(g, PlanScript(g, plan, plan.decisions).writes), d.asset.urn),
      Control(plan.incidentId, d.decision, d.status, d.actions))
  {
    hide LastReached, Controls;
    EnforcePersists(g, plan, d.asset.urn);
    UpdatesControl(PropsOf(g, d.asset.urn), plan, d, HistoryKept(PropsOf(g, d.asset.urn), plan.incidentId));
  }

  lemma {:induction false} UpdatesControl(p: Props, plan: PolicyPlan, d: AssetDecision, history: Value)
    ensures Controls(p + ControlUpdates(plan, d, history), Control(plan.incidentId, d.decision, d.status, d.actions))
  {
  }

  /** After any enforcement, complete or stopped, and any number of recovery evaluations, a controller
      reloaded for an asset that enforcement got to forbids exactly what its last decision forbids,
      until a resume gets to the asset; from then on it forbids nothing, whatever later evaluations
      find. */
  lemma {:induction false} ReloadForbidsAsPlanned(g: Graph, control: Urn, plan: PolicyPlan, evaluations: seq<Step>, d: AssetDecision, a: EnforcementAction)
    requires AllEvaluations(evaluations) && LastReached(g, plan.decisions, d.asset.urn) == Some(d)
    ensures var enforced := DoAll(g, PlanScript(g, plan, plan.decisions).writes);
      var reloaded := Reload(Run(enforced, control, evaluations), d.asset.urn);
      && reloaded.Ok? && reloaded.value.incidentId == plan.incidentId && |reloaded.value.decisions| == 1
      && Forbids(reloaded.value, reloaded.value.decisions[0].asset.name, a) ==
        Some(!EverLifted(enforced, control, evaluations, d.asset.urn) && a in d.actions)
  {
    hide LastReached, EverLifted, Controls, Reload;
    var enforced := DoAll(g, PlanScript(g, plan, plan.decisions).writes);
    var c := Control(plan.incidentId, d.decision, d.status, d.actions);
    var lifted := EverLifted(enforced, control, evaluations, d.asset.urn);
    EnforcedControls(g, plan, d);
    RunControls(enforced, control, evaluations, d.asset.urn, c);
    ReloadReads(Run(enforced, control, evaluations), d.asset.urn, Resumed(c, lifted));
  }

  /** The reloaded controller and the in-memory one agree until a resume gets to the asset, when the
      last decision reached for the asset is also the one its name stands for. */
  lemma {:induction false} ReloadAgreesInMemory(g: Graph, control: Urn, plan: PolicyPlan, evaluations: seq<Step>, d: AssetDecision, a: EnforcementAction)
    requires AllEvaluations(evaluations) && LastReached(g, plan.decisions, d.asset.urn) == Some(d)
    requires d.asset.name in ByName(plan.decisions) && ByName(plan.decisions)[d.asset.name] == d
    requires !EverLifted(DoAll(g, PlanScript(g, plan, plan.decisions).writes), control, evaluations, d.asset.urn)
    ensures var reloaded := Reload(Run(DoAll(g, PlanScript(g, plan, plan.decisions).writes), control, evaluations), d.asset.urn);
      && reloaded.Ok? && |reloaded.value.decisions| == 1
      && Forbids(reloaded.value, reloaded.value.decisions[0].asset.name, a) == Forbids(plan, d.asset.name, a)
  {
    ReloadForbidsAsPlanned(g, control, plan, evaluations, d, a);
  }

  /** When every asset the plan writes back to is supported: any written-back asset reloads with what
      its last decision forbids until some evaluation resumes. */
  lemma {:induction false} CompleteReload(g: Graph, control: Urn, plan: PolicyPlan, evaluations: seq<Step>, u: Urn, a: EnforcementAction)
    requires Supported(g, plan.decisions) && control in Controlled(plan) && AllEvaluations(evaluations) && u in Controlled(plan)
    ensures var enforced := DoAll(g, PlanScript(g, plan, plan.decisions).writes);
      var reloaded, d := Reload(Run(enforced, control, evaluations), u), LastReached(g, plan.decisions, u);
      && d.Some? && reloaded.Ok? && |reloaded.value.decisions| == 1
      && Forbids(reloaded.value, reloaded.value.decisions[0].asset.name, a) ==
        Some(!EverResumed(enforced, control, evaluations) && a in d.value.actions)
  {
    hide EverLifted, EverResumed, Reload, Forbids;
    CompleteReachesAll(g, plan, u);
    ReloadForbidsAsPlanned(g, control, plan, evaluations, LastReached(g, plan.decisions, u).value, a);
    EnforcedTargets(g, control, plan);
    ResumeLiftsAll(DoAll(g, PlanScript(g, plan, plan.decisions).writes), control, evaluations, Controlled(plan), u);
  }

  /** An asset no plan wrote back to gets no incident id, so a reload raises: whatever the plans
      decided for it, the decision lived only in memory. */
  lemma {:induction false} UntouchedIsNotReloaded(g: Graph, control: Urn, steps: seq<Step>, u: Urn)
    requires IncidentId !in PropsOf(g, u) && u !in Touched(steps)
    ensures IncidentId !in PropsOf(Run(g, control, steps), u)
    ensures Reload(Run(g, control, steps), u).Err?
  {
    if steps != [] {
      var init, s := steps[..|steps| - 1], steps[|steps| - 1];
      UntouchedIsNotReloaded(g, control, init, u);
      UntouchedStep(Run(g, control, init), control, s, u);
    }
  }

  lemma {:induction false} UntouchedStep(g: Graph, control: Urn, s: Step, u: Urn)
    requires IncidentId !in PropsOf(g, u)
    requires s.Enforced? ==> u !in Controlled(s.plan)
    ensures IncidentId !in PropsOf(DoAll(g, StepWrites(g, control, s)), u)
  {
    var ws, place := StepWrites(g, control, s), DatasetAt(u);
    match s {
      case Evaluated(policy, input) => EvaluationKeepsKey(g, control, policy, input, place, IncidentId);
      case Enforced(plan) =>
        forall w | w in ws ensures !(w.Merge? && w.place == place) {
          if w.Merge? && w.place == place { MergedIsControlled(g, plan, u); }
        }
        UnwrittenPlaceStays(g, ws, place);
    }
    assert PropsAt(DoAll(g, ws), place) == PropsOf(DoAll(g, ws), u) && PropsAt(g, place) == PropsOf(g, u);
  }

  /** Of the assets that carried no incident before, exactly those that enforcement got to can be
      reloaded, whether it completed or not and whatever recovery did since. */
  lemma {:induction false} ReloadsIffReached(g: Graph, control: Urn, plan: PolicyPlan, evaluations: seq<Step>, u: Urn)
    requires AllEvaluations(evaluations) && IncidentId !in PropsOf(g, u)
    ensures Reload(Run(DoAll(g, PlanScript(g, plan, plan.decisions).writes), control, evaluations), u).Ok?
      <==> Reached(g, plan.decisions, u)
  {
    var enforced := DoAll(g, PlanScript(g, plan, plan.decisions).writes);
    var last := LastReached(g, plan.decisions, u);
    if last.Some? {
      ReloadForbidsAsPlanned(g, control, plan, evaluations, last.value, BlockPublish);
    } else {
      EnforcePersists(g, plan, u);
      NothingTouched(evaluations);
      UntouchedIsNotReloaded(enforced, control, evaluations, u);
    }
  }

  lemma {:induction false} NothingTouched(steps: seq<Step>)
    requires AllEvaluations(steps)
    ensures Touched(steps) == {}
  {
    if steps != [] {
      NothingTouched(steps[..|steps| - 1]);
      assert steps[|steps| - 1] in steps;
    }
  }
}
