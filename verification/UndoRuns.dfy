/** Reset as the inverse of any run of enforcement and recovery. */
module UndoRuns {
  import opened Common
  import opened IncidentLifecycle
  import opened PolicyEngine
  import opened MetadataGraph
  import opened OverlayWrites
  import opened Enforcement
  import opened Recovery
  import opened Reset
  import opened ResetRetry
  import opened OverlayRuns

  datatype Step = Enforced(plan: PolicyPlan) | Evaluated(policy: RecoveryPolicy, input: Inputs)

  function StepWrites(g: Graph, control: Urn, s: Step): seq<Write> {
    match s
    case Enforced(plan) => PlanScript(g, plan, plan.decisions).writes
    case Evaluated(policy, input) => EvaluateScript(g, control, policy, input).writes
  }

  function Run(g: Graph, control: Urn, steps: seq<Step>): Graph {
    if steps == [] then g
    else
      var mid := Run(g, control, steps[..|steps| - 1]);
      DoAll(mid, StepWrites(mid, control, steps[|steps| - 1]))
  }

  /** A catalog without any incident overlay. */
  ghost predicate NoOverlay(g: Graph) {
    && (forall p :: BaseProps(PropsAt(g, p)) == PropsAt(g, p))
    && (forall u :: BaseTags(TagsOf(g, u)) == TagsOf(g, u))
  }

  /** The same metadata, reading an absent aspect as an empty one. */
  ghost predicate Restored(g0: Graph, g: Graph) {
    && (forall p :: PropsAt(g, p) == PropsAt(g0, p))
    && (forall u :: TagsOf(g, u) == TagsOf(g0, u))
    && g.natives.Keys == g0.natives.Keys
    && SameBodies(g0, g)
  }

  /** Each plan is supported by the catalog and writes back to the control asset. */
  predicate Enforceable(g: Graph, control: Urn, steps: seq<Step>) {
    forall s :: s in steps && s.Enforced? ==> Supported(g, s.plan.decisions) && control in Controlled(s.plan)
  }

  function Members(urns: seq<Urn>): set<Urn> {
    set u | u in urns
  }

  /** Every asset some plan of the run wrote back to. */
  function Touched(steps: seq<Step>): set<Urn> {
    if steps == [] then {}
    else
      var s := steps[|steps| - 1];
      Touched(steps[..|steps| - 1]) + (if s.Enforced? then Members(Controlled(s.plan)) else {})
  }

  function LastPlan(steps: seq<Step>): Option<PolicyPlan> {
    if steps == [] then None
    else
      var s := steps[|steps| - 1];
      if s.Enforced? then Some(s.plan) else LastPlan(steps[..|steps| - 1])
  }

  // ---------------------------------------------------------------- what every run keeps

  ghost predicate NativeReached(g0: Graph, touched: set<Urn>, r: NativeRef) {
    exists u :: u in touched && TargetOf(g0, u, r)
  }

  ghost predicate EntityReached(g0: Graph, touched: set<Urn>, e: Urn) {
    e in touched || exists u :: u in touched && TargetEntity(PropsOf(g0, u), e)
  }

  /** Overlay is confined to touched assets and what they project to. */
  ghost predicate Confined(g0: Graph, g: Graph, touched: set<Urn>) {
    && (forall u :: u in touched <==> IncidentId in PropsOf(g, u))
    && (forall u :: u !in touched ==> PropsOf(g, u) == PropsOf(g0, u))
    && (forall r :: !NativeReached(g0, touched, r) ==> NativePropsOf(g, r) == NativePropsOf(g0, r))
    && (forall e :: !EntityReached(g0, touched, e) ==> TagsOf(g, e) == TagsOf(g0, e))
  }

  /** The latest plan owns its assets, and the control asset lists them. */
  ghost predicate OwnedBy(g0: Graph, g: Graph, control: Urn, plan: PolicyPlan) {
    && control in Controlled(plan)
    && (forall u :: u in Controlled(plan) ==> BelongsTo(PropsOf(g, u), plan.incidentId))
    && ControlledUrns in PropsOf(g, control) && PropsOf(g, control)[ControlledUrns] == Urns(Controlled(plan))
    && (forall u, r :: u in Controlled(plan) && TargetOf(g0, u, r) ==> BelongsTo(NativePropsOf(g, r), plan.incidentId))
  }

  ghost predicate RunInvariant(g0: Graph, g: Graph, control: Urn, steps: seq<Step>) {
    && Overlay(g0, g)
    && Confined(g0, g, Touched(steps))
    && match LastPlan(steps)
      case None => Touched(steps) == {}
      case Some(plan) => OwnedBy(g0, g, control, plan) && Members(Controlled(plan)) <= Touched(steps)
  }

  lemma {:induction false} OverlayTargets(g0: Graph, g: Graph, u: Urn)
    requires Overlay(g0, g)
    ensures Targets(PropsOf(g, u)) == Targets(PropsOf(g0, u))
  {
    assert BaseProps(PropsAt(g, DatasetAt(u))) == BaseProps(PropsAt(g0, DatasetAt(u)));
    TargetsIgnoreOverlay(PropsOf(g, u), PropsOf(g0, u));
  }

  lemma {:induction false} OverlaySupports(g0: Graph, g: Graph, ds: seq<AssetDecision>)
    requires Overlay(g0, g) && Supported(g0, ds)
    ensures Supported(g, ds)
  {
    forall d | d in ds && WritesBack(d) ensures SupportedAsset(g, d.asset.urn) {
      OverlayTargets(g0, g, d.asset.urn);
    }
  }

  lemma {:induction false} OverlayComposes(g0: Graph, g: Graph, ws: seq<Write>)
    requires Overlay(g0, g) && OverlayOnly(ws)
    ensures Overlay(g0, DoAll(g, ws))
  {
    if ws != [] {
      var init := ws[..|ws| - 1];
      assert ws[|ws| - 1] in ws && OverlayOnly(init);
      OverlayComposes(g0, g, init);
      OneWriteIsOverlay(g0, DoAll(g, init), ws[|ws| - 1]);
    }
  }

  lemma {:induction false} StepIsOverlay(g0: Graph, g: Graph, control: Urn, s: Step)
    requires Overlay(g0, g)
    ensures Overlay(g0, DoAll(g, StepWrites(g, control, s)))
  {
    match s {
      case Enforced(plan) => PlanIsOverlay(g, plan, plan.decisions);
      case Evaluated(policy, input) => EvaluationIsOverlay(g, control, policy, input);
    }
    OverlayComposes(g0, g, StepWrites(g, control, s));
  }

  lemma {:induction false} RunIsOverlay(g0: Graph, control: Urn, steps: seq<Step>)
    ensures Overlay(g0, Run(g0, control, steps))
  {
    if steps != [] {
      RunIsOverlay(g0, control, steps[..|steps| - 1]);
      StepIsOverlay(g0, Run(g0, control, steps[..|steps| - 1]), control, steps[|steps| - 1]);
    }
  }

  // ---------------------------------------------------------------- enforcement keeps it

  lemma {:induction false} MergedIsControlled(g: Graph, plan: PolicyPlan, u: Urn)
    requires MergesInto(PlanScript(g, plan, plan.decisions).writes, DatasetAt(u))
    ensures u in Controlled(plan)
  {
    var w :| w in PlanScript(g, plan, plan.decisions).writes && w.Merge? && w.place == DatasetAt(u);
    PlanParts(g, plan, plan.decisions);
    var d :| d in plan.decisions && WritesBack(d) && ServesDecision(g, plan, d, w);
    ControlledMembers(plan);
  }

  lemma {:induction false} EnforcedDataset(g: Graph, plan: PolicyPlan, u: Urn)
    requires Supported(g, plan.decisions)
    ensures var g' := DoAll(g, PlanScript(g, plan, plan.decisions).writes);
      && (u !in Controlled(plan) ==> PropsOf(g', u) == PropsOf(g, u))
      && (u in Controlled(plan) ==>
        && BelongsTo(PropsOf(g', u), plan.incidentId)
        && ControlledUrns in PropsOf(g', u) && PropsOf(g', u)[ControlledUrns] == Urns(Controlled(plan)))
  {
    var ws := PlanScript(g, plan, plan.decisions).writes;
    EnforcedPlace(g, plan, DatasetAt(u));
    assert PropsAt(DoAll(g, ws), DatasetAt(u)) == PropsOf(DoAll(g, ws), u);
    if u in Controlled(plan) {
      ControlledMembers(plan);
      var d :| d in plan.decisions && WritesBack(d) && d.asset.urn == u;
      DecisionCompletes(g, plan, d);
      PlanHolds(g, plan, plan.decisions, d);
      assert MergesInto(ws, DatasetAt(u));
    } else {
      assert !MergesInto(ws, DatasetAt(u)) by {
        if MergesInto(ws, DatasetAt(u)) { MergedIsControlled(g, plan, u); }
      }
      assert PropsOf(g, u) + map[] == PropsOf(g, u);
    }
  }

  lemma {:induction false} ReachedNativeIsOwned(g: Graph, plan: PolicyPlan, r: NativeRef)
    requires Supported(g, plan.decisions)
    requires NativeReached(g, Members(Controlled(plan)), r)
    ensures BelongsTo(NativePropsOf(DoAll(g, PlanScript(g, plan, plan.decisions).writes), r), plan.incidentId)
  {
    var ws := PlanScript(g, plan, plan.decisions).writes;
    var u :| u in Members(Controlled(plan)) && TargetOf(g, u, r);
    ControlledMembers(plan);
    var d :| d in plan.decisions && WritesBack(d) && d.asset.urn == u;
    DecisionCompletes(g, plan, d);
    PlanHolds(g, plan, plan.decisions, d);
    assert MergesInto(ws, NativeAt(r));
    EnforcedPlace(g, plan, NativeAt(r));
    assert PropsAt(DoAll(g, ws), NativeAt(r)) == NativePropsOf(DoAll(g, ws), r);
  }

  lemma {:induction false} UnreachedNativeStays(g: Graph, plan: PolicyPlan, r: NativeRef)
    requires !NativeReached(g, Members(Controlled(plan)), r)
    ensures NativePropsOf(DoAll(g, PlanScript(g, plan, plan.decisions).writes), r) == NativePropsOf(g, r)
  {
    var ws := PlanScript(g, plan, plan.decisions).writes;
    ControlledMembers(plan);
    PlanParts(g, plan, plan.decisions);
    forall w | w in ws ensures !(w.Merge? && w.place == NativeAt(r)) {
      var d :| d in plan.decisions && WritesBack(d) && ServesDecision(g, plan, d, w);
      assert d.asset.urn in Members(Controlled(plan));
    }
    UnwrittenPlaceStays(g, ws, NativeAt(r));
    assert PropsAt(DoAll(g, ws), NativeAt(r)) == NativePropsOf(DoAll(g, ws), r);
  }

  lemma {:induction false} EnforcedEntity(g: Graph, plan: PolicyPlan, e: Urn)
    requires !EntityReached(g, Members(Controlled(plan)), e)
    ensures TagsOf(DoAll(g, PlanScript(g, plan, plan.decisions).writes), e) == TagsOf(g, e)
  {
    var ws := PlanScript(g, plan, plan.decisions).writes;
    ControlledMembers(plan);
    PlanParts(g, plan, plan.decisions);
    forall w | w in ws ensures !(w.PutStatus? && w.urn == e) {
      var d :| d in plan.decisions && WritesBack(d) && ServesDecision(g, plan, d, w);
      assert d.asset.urn in Members(Controlled(plan));
    }
    UntaggedEntityStays(g, ws, e);
  }

  lemma {:induction false} ReachedSame(g0: Graph, g: Graph, urns: set<Urn>)
    requires Overlay(g0, g)
    ensures forall r :: NativeReached(g, urns, r) <==> NativeReached(g0, urns, r)
    ensures forall e :: EntityReached(g, urns, e) <==> EntityReached(g0, urns, e)
  {
    forall u ensures Targets(PropsOf(g, u)) == Targets(PropsOf(g0, u)) {
      OverlayTargets(g0, g, u);
    }
    forall r, u ensures TargetOf(g, u, r) <==> TargetOf(g0, u, r) {}
    forall e, u ensures TargetEntity(PropsOf(g, u), e) <==> TargetEntity(PropsOf(g0, u), e) {}
  }

  lemma {:induction false} EnforceConfines(g0: Graph, g: Graph, plan: PolicyPlan, touched: set<Urn>)
    requires Overlay(g0, g) && Confined(g0, g, touched) && Supported(g, plan.decisions)
    ensures Confined(g0, DoAll(g, PlanScript(g, plan, plan.decisions).writes), touched + Members(Controlled(plan)))
  {
    var g', own := DoAll(g, PlanScript(g, plan, plan.decisions).writes), Members(Controlled(plan));
    var all := touched + own;
    ReachedSame(g0, g, own);
    forall u
      ensures u in all <==> IncidentId in PropsOf(g', u)
      ensures u !in all ==> PropsOf(g', u) == PropsOf(g0, u)
    {
      EnforcedDataset(g, plan, u);
    }
    forall r | !NativeReached(g0, all, r) ensures NativePropsOf(g', r) == NativePropsOf(g0, r) {
      assert !NativeReached(g0, own, r) && !NativeReached(g0, touched, r);
      UnreachedNativeStays(g, plan, r);
    }
    forall e | !EntityReached(g0, all, e) ensures TagsOf(g', e) == TagsOf(g0, e) {
      assert !EntityReached(g0, own, e) && !EntityReached(g0, touched, e);
      EnforcedEntity(g, plan, e);
    }
  }

  lemma {:induction false} EnforceOwns(g0: Graph, g: Graph, control: Urn, plan: PolicyPlan)
    requires Overlay(g0, g) && Supported(g, plan.decisions) && control in Controlled(plan)
    ensures OwnedBy(g0, DoAll(g, PlanScript(g, plan, plan.decisions).writes), control, plan)
  {
    var g' := DoAll(g, PlanScript(g, plan, plan.decisions).writes);
    forall u | u in Controlled(plan) ensures BelongsTo(PropsOf(g', u), plan.incidentId) {
      EnforcedDataset(g, plan, u);
    }
    EnforcedDataset(g, plan, control);
    ReachedSame(g0, g, Members(Controlled(plan)));
    forall u, r | u in Controlled(plan) && TargetOf(g0, u, r) ensures BelongsTo(NativePropsOf(g', r), plan.incidentId) {
      assert NativeReached(g0, Members(Controlled(plan)), r);
      ReachedNativeIsOwned(g, plan, r);
    }
  }

  // ---------------------------------------------------------------- recovery keeps it

  lemma {:induction false} RecoveryAvoidsKey(state: IncidentState, history: seq<RecoveryRun>, evidence: seq<string>, resume: bool, k: Key)
    requires k == IncidentId || k == ControlledUrns
    ensures k !in RecoveryUpdates(state, history, evidence, resume) && k !in ResolvedUpdates(evidence)
  {
  }

  lemma {:induction false} EvaluationAvoidsKey(
    g: Graph, control: Urn, policy: RecoveryPolicy, input: Inputs, w: Write, place: Place, k: Key)
    requires k == IncidentId || k == ControlledUrns
    requires ServesEvaluation(g, control, policy, input, w)
    ensures !WritesKey(w, place, k)
  {
    var v := Judge(PropsOf(g, control), policy, input);
    RecoveryAvoidsKey(v.state, v.history, v.evidence, v.resume, k);
    if w != Merge(DatasetAt(control), RecoveryUpdates(v.state, v.history, v.evidence, v.resume)) {
      assert PartOf(w, Some(ResolvedTag), ResolvedUpdates(v.evidence));
    }
  }

  /** Recovery never writes ownership or the target list. */
  lemma {:induction false} EvaluationKeepsKey(g: Graph, control: Urn, policy: RecoveryPolicy, input: Inputs, place: Place, k: Key)
    requires k == IncidentId || k == ControlledUrns
    ensures var g' := DoAll(g, EvaluateScript(g, control, policy, input).writes);
      && (k in PropsAt(g', place) <==> k in PropsAt(g, place))
      && (k in PropsAt(g, place) ==> PropsAt(g', place)[k] == PropsAt(g, place)[k])
  {
    var ws := EvaluateScript(g, control, policy, input).writes;
    forall w | w in ws ensures !WritesKey(w, place, k) {
      EvaluationParts(g, control, policy, input);
      EvaluationAvoidsKey(g, control, policy, input, w, place, k);
    }
    UnwrittenKeyStays(g, ws, place, k);
  }

  lemma {:induction false} EvaluationConfines(g0: Graph, g: Graph, control: Urn, policy: RecoveryPolicy, input: Inputs, plan: PolicyPlan, touched: set<Urn>)
    requires Overlay(g0, g) && Confined(g0, g, touched) && OwnedBy(g0, g, control, plan)
    requires Members(Controlled(plan)) <= touched
    ensures Confined(g0, DoAll(g, EvaluateScript(g, control, policy, input).writes), touched)
  {
    var ws := EvaluateScript(g, control, policy, input).writes;
    var g' := DoAll(g, ws);
    EvaluationParts(g, control, policy, input);
    ReachedSame(g0, g, touched);
    assert ControlledIn(PropsOf(g, control), control) == Ok(Controlled(plan));
    assert control in Members(Controlled(plan));
    forall u | true
      ensures u in touched <==> IncidentId in PropsOf(g', u)
      ensures u !in touched ==> PropsOf(g', u) == PropsOf(g0, u)
    {
      EvaluationKeepsKey(g, control, policy, input, DatasetAt(u), IncidentId);
      assert PropsAt(g', DatasetAt(u)) == PropsOf(g', u) && PropsAt(g, DatasetAt(u)) == PropsOf(g, u);
      if u !in touched {
        forall w | w in ws ensures !(w.Merge? && w.place == DatasetAt(u)) {
          assert u !in Members(Controlled(plan));
        }
        UnwrittenPlaceStays(g, ws, DatasetAt(u));
      }
    }
    forall r | !NativeReached(g0, touched, r) ensures NativePropsOf(g', r) == NativePropsOf(g0, r) {
      forall w | w in ws ensures !(w.Merge? && w.place == NativeAt(r)) {
        EvaluationStaysInside(g, control, policy, input, plan, touched, w);
      }
      UnwrittenPlaceStays(g, ws, NativeAt(r));
      assert PropsAt(g', NativeAt(r)) == PropsAt(g, NativeAt(r));
    }
    forall e | !EntityReached(g0, touched, e) ensures TagsOf(g', e) == TagsOf(g0, e) {
      forall w | w in ws ensures !(w.PutStatus? && w.urn == e) {
        EvaluationStaysInside(g, control, policy, input, plan, touched, w);
      }
      UntaggedEntityStays(g, ws, e);
    }
  }

  lemma {:induction false} EvaluationStaysInside(
    g: Graph, control: Urn, policy: RecoveryPolicy, input: Inputs, plan: PolicyPlan, touched: set<Urn>, w: Write)
    requires ServesEvaluation(g, control, policy, input, w)
    requires ControlledIn(PropsOf(g, control), control) == Ok(Controlled(plan))
    requires Members(Controlled(plan)) <= touched
    ensures w.Merge? && w.place.NativeAt? ==> NativeReached(g, touched, w.place.ref)
    ensures w.PutStatus? ==> EntityReached(g, touched, w.urn)
  {
    assert forall u :: u in Controlled(plan) ==> u in touched by {
      assert forall u :: u in Controlled(plan) ==> u in Members(Controlled(plan));
    }
    var v := Judge(PropsOf(g, control), policy, input);
    if w.Merge? && w.place.NativeAt? {
      var u :| u in Controlled(plan) && Targets(PropsOf(g, u)).Ok? && w.place.ref in Targets(PropsOf(g, u)).value;
      assert TargetOf(g, u, w.place.ref);
    }
  }

  lemma {:induction false} EvaluationOwns(g0: Graph, g: Graph, control: Urn, policy: RecoveryPolicy, input: Inputs, plan: PolicyPlan)
    requires OwnedBy(g0, g, control, plan)
    ensures OwnedBy(g0, DoAll(g, EvaluateScript(g, control, policy, input).writes), control, plan)
  {
    var g' := DoAll(g, EvaluateScript(g, control, policy, input).writes);
    forall u | u in Controlled(plan) ensures BelongsTo(PropsOf(g', u), plan.incidentId) {
      EvaluationKeepsKey(g, control, policy, input, DatasetAt(u), IncidentId);
      assert PropsAt(g', DatasetAt(u)) == PropsOf(g', u);
    }
    EvaluationKeepsKey(g, control, policy, input, DatasetAt(control), ControlledUrns);
    assert PropsAt(g', DatasetAt(control)) == PropsOf(g', control);
    forall u, r | u in Controlled(plan) && TargetOf(g0, u, r) ensures BelongsTo(NativePropsOf(g', r), plan.incidentId) {
      EvaluationKeepsKey(g, control, policy, input, NativeAt(r), IncidentId);
      assert PropsAt(g', NativeAt(r)) == NativePropsOf(g', r);
    }
  }

  lemma {:induction false} RunKeepsInvariant(g0: Graph, control: Urn, steps: seq<Step>)
    requires NoOverlay(g0) && Enforceable(g0, control, steps)
    ensures RunInvariant(g0, Run(g0, control, steps), control, steps)
  {
    if steps == [] {
      forall u ensures IncidentId !in PropsOf(g0, u) {
        assert BaseProps(PropsAt(g0, DatasetAt(u))) == PropsAt(g0, DatasetAt(u));
      }
    } else {
      var init, s := steps[..|steps| - 1], steps[|steps| - 1];
      assert s in steps;
      RunKeepsInvariant(g0, control, init);
      var g := Run(g0, control, init);
      match s
      case Enforced(plan) =>
        OverlaySupports(g0, g, plan.decisions);
        PlanIsOverlay(g, plan, plan.decisions);
        OverlayComposes(g0, g, PlanScript(g, plan, plan.decisions).writes);
        EnforceConfines(g0, g, plan, Touched(init));
        EnforceOwns(g0, g, control, plan);
      case Evaluated(policy, input) =>
        EvaluationIsOverlay(g, control, policy, input);
        OverlayComposes(g0, g, EvaluateScript(g, control, policy, input).writes);
        assert Touched(steps) == Touched(init);
        if LastPlan(init).Some? {
          EvaluationConfines(g0, g, control, policy, input, LastPlan(init).value, Touched(init));
          EvaluationOwns(g0, g, control, policy, input, LastPlan(init).value);
        } else {
          assert IncidentIn(PropsOf(g, control)) == "";
          assert EvaluateScript(g, control, policy, input).writes == [];
        }
    }
  }

  // ---------------------------------------------------------------- undo

  lemma {:induction false} ControlledIsListed(g0: Graph, g: Graph, control: Urn, plan: PolicyPlan)
    requires OwnedBy(g0, g, control, plan) && "" !in Controlled(plan)
    ensures var listed := ControlledList(PropsOf(g, control), control);
      listed.Ok? && forall u :: u in listed.value <==> u in Controlled(plan)
  {
    assert forall u :: u in [control] + Controlled(plan) <==> u in Controlled(plan);
  }

  lemma {:induction false} ControlledHaveTargets(g0: Graph, g: Graph, plan: PolicyPlan, u: Urn)
    requires Overlay(g0, g) && Supported(g0, plan.decisions) && u in Controlled(plan)
    ensures Targets(PropsOf(g, u)).Ok?
  {
    ControlledMembers(plan);
    var d :| d in plan.decisions && WritesBack(d) && d.asset.urn == u;
    assert SupportedAsset(g0, u);
    OverlayTargets(g0, g, u);
  }

  lemma {:induction false} ResetAccepts(g0: Graph, g: Graph, control: Urn, plan: PolicyPlan)
    requires Overlay(g0, g) && OwnedBy(g0, g, control, plan)
    requires Supported(g0, plan.decisions)
    requires ForeignArtifacts(g0, plan.incidentId).None? && "" !in Controlled(plan)
    ensures PlanReset(g, control, plan.incidentId).Ok?
  {
    ControlledIsListed(g0, g, control, plan);
    var owned := Owned(g, plan.incidentId, ControlledList(PropsOf(g, control), control).value);
    forall u | u in owned ensures Targets(PropsOf(g, u)).Ok? {
      ControlledHaveTargets(g0, g, plan, u);
    }
    AllTargetsMembers(g, owned);
  }

  /** Cleanups that cover exactly these datasets, and everything they project to. */
  ghost predicate CoversReached(g0: Graph, own: set<Urn>, ops: seq<CleanUp>) {
    && (forall u :: Covers(ops, DatasetAt(u)) <==> u in own)
    && (forall r :: NativeReached(g0, own, r) ==> Covers(ops, NativeAt(r)))
    && (forall e :: EntityReached(g0, own, e) ==> CoversEntity(ops, e))
  }

  lemma {:induction false} ReachedNativeIsPlanned(g0: Graph, g: Graph, control: Urn, plan: PolicyPlan, u: Urn, r: NativeRef)
    requires Overlay(g0, g) && OwnedBy(g0, g, control, plan)
    requires PlanReset(g, control, plan.incidentId).Ok?
    requires u in PlanReset(g, control, plan.incidentId).value.datasets && u in Controlled(plan) && TargetOf(g0, u, r)
    ensures CleanNative(r) in Ops(PlanReset(g, control, plan.incidentId).value)
  {
    PlanMembers(g, control, plan.incidentId);
    OverlayTargets(g0, g, u);
    assert TargetOf(g, u, r);
    OpsMembers(PlanReset(g, control, plan.incidentId).value);
  }

  lemma {:induction false} ControlledIsPlanned(g0: Graph, g: Graph, control: Urn, plan: PolicyPlan)
    requires OwnedBy(g0, g, control, plan) && "" !in Controlled(plan)
    requires PlanReset(g, control, plan.incidentId).Ok?
    ensures forall u :: u in PlanReset(g, control, plan.incidentId).value.datasets <==> u in Controlled(plan)
  {
    ControlledIsListed(g0, g, control, plan);
    PlanMembers(g, control, plan.incidentId);
  }

  /** `ops` cleans these datasets and no other, and every native target of theirs. */
  ghost predicate CleansTargets(g0: Graph, own: set<Urn>, ops: seq<CleanUp>) {
    && (forall u :: CleanDataset(u) in ops <==> u in own)
    && (forall u, r :: u in own && TargetOf(g0, u, r) ==> CleanNative(r) in ops)
  }

  lemma {:induction false} TargetsAreCovered(g0: Graph, own: set<Urn>, ops: seq<CleanUp>, e: Urn)
    requires CleansTargets(g0, own, ops) && EntityReached(g0, own, e)
    ensures CoversEntity(ops, e)
  {
    if e in own {
      assert CleanDataset(e) in ops && Untags(CleanDataset(e), e);
    } else {
      var u :| u in own && TargetEntity(PropsOf(g0, u), e);
      var r :| r in Targets(PropsOf(g0, u)).value && r.urn == e;
      assert TargetOf(g0, u, r) && Untags(CleanNative(r), e);
    }
  }

  lemma {:induction false} CleaningCovers(g0: Graph, own: set<Urn>, ops: seq<CleanUp>)
    requires CleansTargets(g0, own, ops)
    ensures CoversReached(g0, own, ops)
  {
    forall u ensures Covers(ops, DatasetAt(u)) <==> u in own {
      assert Cleans(CleanDataset(u), DatasetAt(u));
    }
    forall r | NativeReached(g0, own, r) ensures Covers(ops, NativeAt(r)) {
      assert Cleans(CleanNative(r), NativeAt(r));
    }
    forall e | EntityReached(g0, own, e) ensures CoversEntity(ops, e) {
      TargetsAreCovered(g0, own, ops, e);
    }
  }

  lemma {:induction false} ResetCleansTargets(g0: Graph, g: Graph, control: Urn, plan: PolicyPlan)
    requires Overlay(g0, g) && OwnedBy(g0, g, control, plan) && "" !in Controlled(plan)
    requires PlanReset(g, control, plan.incidentId).Ok?
    ensures CleansTargets(g0, Members(Controlled(plan)), Ops(PlanReset(g, control, plan.incidentId).value))
  {
    var own, reset := Members(Controlled(plan)), PlanReset(g, control, plan.incidentId).value;
    ControlledIsPlanned(g0, g, control, plan);
    forall u, r | u in own && TargetOf(g0, u, r) ensures CleanNative(r) in Ops(reset) {
      ReachedNativeIsPlanned(g0, g, control, plan, u, r);
    }
    forall u ensures CleanDataset(u) in Ops(reset) <==> u in own {
      DatasetIsPlanned(reset, u);
    }
  }

  lemma {:induction false} DatasetIsPlanned(reset: Plan, u: Urn)
    ensures CleanDataset(u) in Ops(reset) <==> u in reset.datasets
  {
    OpsMembers(reset);
  }

  /** Reset plans every asset of the latest enforcement and every native of those. */
  lemma {:induction false} ResetCovers(g0: Graph, g: Graph, control: Urn, plan: PolicyPlan)
    requires Overlay(g0, g) && OwnedBy(g0, g, control, plan) && "" !in Controlled(plan)
    requires PlanReset(g, control, plan.incidentId).Ok?
    ensures CoversReached(g0, Members(Controlled(plan)), Ops(PlanReset(g, control, plan.incidentId).value))
  {
    ResetCleansTargets(g0, g, control, plan);
    CleaningCovers(g0, Members(Controlled(plan)), Ops(PlanReset(g, control, plan.incidentId).value));
  }

  lemma {:induction false} CleanedPlaceIsRestored(g0: Graph, g: Graph, touched: set<Urn>, own: set<Urn>, ops: seq<CleanUp>, p: Place)
    requires NoOverlay(g0) && Overlay(g0, g) && Confined(g0, g, touched)
    requires touched <= own && CoversReached(g0, own, ops)
    ensures PropsAt(CleanAll(g, ops), p) == PropsAt(g0, p)
  {
    CleanedPlace(g, ops, p);
    assert BaseProps(PropsAt(g, p)) == BaseProps(PropsAt(g0, p)) == PropsAt(g0, p);
    if !Covers(ops, p) {
      match p
      case DatasetAt(u) => assert u !in touched;
      case NativeAt(r) => assert !NativeReached(g0, touched, r);
    }
  }

  lemma {:induction false} CleanedEntityIsRestored(g0: Graph, g: Graph, touched: set<Urn>, own: set<Urn>, ops: seq<CleanUp>, e: Urn)
    requires NoOverlay(g0) && Overlay(g0, g) && Confined(g0, g, touched)
    requires touched <= own && CoversReached(g0, own, ops)
    ensures TagsOf(CleanAll(g, ops), e) == TagsOf(g0, e)
  {
    CleanedEntity(g, ops, e);
    assert BaseTags(TagsOf(g, e)) == BaseTags(TagsOf(g0, e)) == TagsOf(g0, e);
    if !CoversEntity(ops, e) {
      assert !EntityReached(g0, touched, e);
    }
  }

  lemma {:induction false} UndoRestores(g0: Graph, g: Graph, touched: set<Urn>, own: set<Urn>, ops: seq<CleanUp>)
    requires NoOverlay(g0) && Overlay(g0, g) && Confined(g0, g, touched)
    requires touched <= own && CoversReached(g0, own, ops)
    ensures Restored(g0, CleanAll(g, ops))
  {
    CleaningKeepsShape(g, ops);
    forall p ensures PropsAt(CleanAll(g, ops), p) == PropsAt(g0, p) {
      CleanedPlaceIsRestored(g0, g, touched, own, ops, p);
    }
    forall e ensures TagsOf(CleanAll(g, ops), e) == TagsOf(g0, e) {
      CleanedEntityIsRestored(g0, g, touched, own, ops, e);
    }
  }

  lemma {:induction false} DroppedAssetKeepsOverlay(g0: Graph, g: Graph, touched: set<Urn>, own: set<Urn>, ops: seq<CleanUp>, u: Urn)
    requires NoOverlay(g0) && Confined(g0, g, touched) && CoversReached(g0, own, ops)
    requires u in touched && u !in own
    ensures !Restored(g0, CleanAll(g, ops))
  {
    CleanedPlace(g, ops, DatasetAt(u));
    assert IncidentId in PropsOf(g, u) && PropsAt(CleanAll(g, ops), DatasetAt(u)) == PropsOf(g, u);
    assert BaseProps(PropsAt(g0, DatasetAt(u))) == PropsAt(g0, DatasetAt(u));
  }

  /** Reset undoes a whole run exactly when the last plan controls every asset an earlier plan
      wrote back to: an asset dropped from a later plan keeps its overlay. */
  lemma {:induction false} ResetUndoesRun(g0: Graph, control: Urn, steps: seq<Step>)
    requires NoOverlay(g0) && Enforceable(g0, control, steps)
    requires LastPlan(steps).Some?
    requires ForeignArtifacts(g0, LastPlan(steps).value.incidentId).None?
    requires "" !in Controlled(LastPlan(steps).value)
    ensures var g, plan := Run(g0, control, steps), LastPlan(steps).value;
      var reset := PlanReset(g, control, plan.incidentId);
      && reset.Ok?
      && (Restored(g0, CleanAll(g, Ops(reset.value))) <==> Touched(steps) <= Members(Controlled(plan)))
  {
    var g, plan := Run(g0, control, steps), LastPlan(steps).value;
    RunKeepsInvariant(g0, control, steps);
    LastPlanSupported(g0, control, steps);
    ResetAccepts(g0, g, control, plan);
    var own, ops := Members(Controlled(plan)), Ops(PlanReset(g, control, plan.incidentId).value);
    ResetCovers(g0, g, control, plan);
    if Touched(steps) <= own {
      UndoRestores(g0, g, Touched(steps), own, ops);
    } else {
      var u :| u in Touched(steps) && u !in own;
      DroppedAssetKeepsOverlay(g0, g, Touched(steps), own, ops, u);
    }
  }

  lemma {:induction false} LastPlanSupported(g0: Graph, control: Urn, steps: seq<Step>)
    requires Enforceable(g0, control, steps) && LastPlan(steps).Some?
    ensures Supported(g0, LastPlan(steps).value.decisions)
  {
    assert steps[|steps| - 1] in steps;
    if !steps[|steps| - 1].Enforced? {
      LastPlanSupported(g0, control, steps[..|steps| - 1]);
    }
  }

  lemma {:induction false} ArtifactIsPlanned(reset: Plan, a: ArtifactRef)
    ensures DeleteArtifact(a) in Ops(reset) <==> a in reset.artifacts
  {
    OpsMembers(reset);
  }

  /** The artifacts of other incidents survive a reset. */
  lemma {:induction false} ResetKeepsOtherArtifacts(g: Graph, control: Urn, incidentId: string, a: ArtifactRef)
    requires PlanReset(g, control, incidentId).Ok?
    ensures var end := CleanAll(g, Ops(PlanReset(g, control, incidentId).value));
      && (a in end.artifacts <==> a in g.artifacts && a.incidentId != incidentId)
      && (a in end.artifacts ==> end.artifacts[a] == g.artifacts[a])
  {
    var plan := PlanReset(g, control, incidentId).value;
    PlanMembers(g, control, incidentId);
    ArtifactIsPlanned(plan, a);
    CleanedArtifacts(g, Ops(plan));
    assert a.incidentId == incidentId <==> a in [IncidentArtifact(incidentId), DecisionLogArtifact(incidentId)];
  }
}
