/** Persisting a policy plan as catalog controls. */
module Enforcement {
  import opened Common
  import opened IncidentLifecycle
  import opened PolicyEngine
  import opened MetadataGraph
  import opened OverlayWrites

  // ---------------------------------------------------------------- what one decision writes

  predicate WritesBack(d: AssetDecision) {
    WriteBack in d.actions
  }

  function WrittenBack(ds: seq<AssetDecision>): (r: seq<AssetDecision>)
    ensures forall d :: d in r <==> d in ds && WritesBack(d)
  {
    if ds == [] then []
    else if WritesBack(ds[0]) then [ds[0]] + WrittenBack(ds[1..])
    else WrittenBack(ds[1..])
  }

  function UrnsOf(ds: seq<AssetDecision>): (r: seq<Urn>)
    ensures |r| == |ds| && forall i :: 0 <= i < |r| ==> r[i] == ds[i].asset.urn
  {
    seq(|ds|, i requires 0 <= i < |ds| => ds[i].asset.urn)
  }

  /** The URNs a plan writes back to, in plan order. */
  function Controlled(plan: PolicyPlan): seq<Urn> {
    UrnsOf(WrittenBack(plan.decisions))
  }

  function TextOf(p: Props, k: Key): string {
    if k in p && p[k].Text? then p[k].text else ""
  }

  predicate BelongsTo(p: Props, incidentId: string) {
    IncidentId in p && p[IncidentId] == Text(incidentId)
  }

  /** Recovery history survives only re-enforcement of the same incident. */
  function HistoryKept(p: Props, incidentId: string): Value {
    if BelongsTo(p, incidentId) && RecoveryHistory in p then p[RecoveryHistory] else History([])
  }

  function ControlUpdates(plan: PolicyPlan, d: AssetDecision, history: Value): Props {
    map[
      IncidentId := Text(plan.incidentId),
      IncidentStateKey := State(StateOf(d.status)),
      StatusKey := LowerState(StateOf(d.status)),
      PolicyDecisionKey := Decision(d.decision),
      CatalogStatusKey := State(StateOf(d.status)),
      EnforcementActions := Actions(d.actions),
      EvidenceIds := Ids(d.evidenceIds),
      EvidenceSummary := EvidenceCount(|d.evidenceIds|),
      ReasonCodeKey := Reason(d.reason),
      ControlledUrns := Urns(Controlled(plan)),
      RecoveryHistory := history
    ]
  }

  const CONTROL_KEYS: set<Key> := {
    IncidentId, IncidentStateKey, StatusKey, PolicyDecisionKey, CatalogStatusKey,
    EnforcementActions, EvidenceIds, EvidenceSummary, ReasonCodeKey, ControlledUrns, RecoveryHistory
  }

  // ---------------------------------------------------------------- native projections

  function AspectNamed(name: string): Option<NativeType> {
    if name == "MLFeatureTablePropertiesClass" then Some(FeatureTable)
    else if name == "MLModelPropertiesClass" then Some(Model)
    else None
  }

  /** The native aspects a dataset projection points at. */
  function Targets(p: Props): Result<seq<NativeRef>, WriteError> {
    var projection, aspect := TextOf(p, NativeProjectionUrn), TextOf(p, NativeProjectionAspect);
    var deployment := TextOf(p, NativeDeploymentUrn);
    var last := if deployment != "" then [NativeRef(deployment, Deployment)] else [];
    if projection != "" && aspect != "" then
      match AspectNamed(aspect)
      case None => Err(UnsupportedAspect(aspect))
      case Some(kind) => Ok([NativeRef(projection, kind)] + last)
    else Ok(last)
  }

  lemma {:induction false} TargetsIgnoreOverlay(p: Props, q: Props)
    requires BaseProps(p) == BaseProps(q)
    ensures Targets(p) == Targets(q)
  {
    forall k | !IsIncidentKey(k) ensures TextOf(p, k) == TextOf(q, k) {
      assert k in p <==> k in BaseProps(p);
      assert k in q <==> k in BaseProps(q);
    }
  }

  /** Writes to perform in order, and the error raised after the last of them. */
  datatype Script = Script(writes: seq<Write>, error: Option<WriteError>)

  function Then(a: Script, b: Script): Script {
    if a.error.Some? then a else Script(a.writes + b.writes, b.error)
  }

  function PutTag(urn: Urn, tag: Option<Tag>): seq<Write> {
    if tag.Some? then [PutStatus(urn, tag.value)] else []
  }

  /** Tag, then merge, each native target; the first missing aspect raises after its tag. */
  function MirrorScript(natives: set<NativeRef>, targets: seq<NativeRef>, tag: Option<Tag>, updates: Props): Script
    decreases |targets|
  {
    if targets == [] then Script([], None)
    else
      var ref := targets[0];
      var put := PutTag(ref.urn, tag);
      if ref !in natives then Script(put, Some(MissingNativeAspect(ref)))
      else Then(Script(put + [Merge(NativeAt(ref), updates)], None), MirrorScript(natives, targets[1..], tag, updates))
  }

  function ProjectionScript(g: Graph, urn: Urn, tag: Option<Tag>, updates: Props): Script {
    match Targets(PropsOf(g, urn))
    case Err(e) => Script([], Some(e))
    case Ok(targets) => MirrorScript(g.natives.Keys, targets, tag, updates)
  }

  function UpdatesFor(g: Graph, plan: PolicyPlan, d: AssetDecision): Props {
    ControlUpdates(plan, d, HistoryKept(PropsOf(g, d.asset.urn), plan.incidentId))
  }

  function DecisionScript(g: Graph, plan: PolicyPlan, d: AssetDecision): Script {
    var urn, tag, updates := d.asset.urn, StatusTag(d.status), UpdatesFor(g, plan, d);
    Then(
      Script(PutTag(urn, tag) + [Merge(DatasetAt(urn), updates)], None),
      ProjectionScript(g, urn, tag, updates))
  }

  /** Everything enforcement writes, determined by the catalog it starts from. */
  function PlanScript(g: Graph, plan: PolicyPlan, ds: seq<AssetDecision>): Script
    decreases |ds|
  {
    if ds == [] then Script([], None)
    else if !WritesBack(ds[0]) then PlanScript(g, plan, ds[1..])
    else Then(DecisionScript(g, plan, ds[0]), PlanScript(g, plan, ds[1..]))
  }

  // ---------------------------------------------------------------- scripts are overlay writes

  /** A status put, or a merge of exactly these updates. */
  predicate PartOf(w: Write, tag: Option<Tag>, updates: Props) {
    match w
    case PutStatus(_, t) => tag == Some(t)
    case Merge(_, u) => u == updates
  }

  lemma {:induction false} MirrorParts(natives: set<NativeRef>, targets: seq<NativeRef>, tag: Option<Tag>, updates: Props)
    ensures forall w :: w in MirrorScript(natives, targets, tag, updates).writes ==>
      PartOf(w, tag, updates)
      && (w.Merge? ==> w.place.NativeAt? && w.place.ref in targets)
      && (w.PutStatus? ==> exists r :: r in targets && r.urn == w.urn)
  {
    if targets != [] {
      MirrorParts(natives, targets[1..], tag, updates);
      assert targets[0] in targets;
      forall w | w in MirrorScript(natives, targets, tag, updates).writes
        ensures PartOf(w, tag, updates)
          && (w.Merge? ==> w.place.NativeAt? && w.place.ref in targets)
          && (w.PutStatus? ==> exists r :: r in targets && r.urn == w.urn)
      {
        if w in PutTag(targets[0].urn, tag) {
          assert targets[0].urn == w.urn;
        }
      }
    }
  }

  /** A write made for decision `d`: to its dataset, or to one of that dataset's targets. */
  ghost predicate ServesDecision(g: Graph, plan: PolicyPlan, d: AssetDecision, w: Write) {
    && PartOf(w, StatusTag(d.status), UpdatesFor(g, plan, d))
    && (w.Merge? ==>
      match w.place
      case DatasetAt(urn) => urn == d.asset.urn
      case NativeAt(ref) => Targets(PropsOf(g, d.asset.urn)).Ok? && ref in Targets(PropsOf(g, d.asset.urn)).value)
    && (w.PutStatus? ==> w.urn == d.asset.urn || TargetEntity(PropsOf(g, d.asset.urn), w.urn))
  }

  predicate TargetEntity(p: Props, urn: Urn) {
    Targets(p).Ok? && exists r :: r in Targets(p).value && r.urn == urn
  }

  lemma {:induction false} DecisionParts(g: Graph, plan: PolicyPlan, d: AssetDecision)
    ensures forall w :: w in DecisionScript(g, plan, d).writes ==> ServesDecision(g, plan, d, w)
  {
    var targets := Targets(PropsOf(g, d.asset.urn));
    if targets.Ok? {
      MirrorParts(g.natives.Keys, targets.value, StatusTag(d.status), UpdatesFor(g, plan, d));
    }
  }

  ghost predicate ServesPlan(g: Graph, plan: PolicyPlan, ds: seq<AssetDecision>, w: Write) {
    exists d :: d in ds && WritesBack(d) && ServesDecision(g, plan, d, w)
  }

  lemma {:induction false} PlanParts(g: Graph, plan: PolicyPlan, ds: seq<AssetDecision>)
    ensures forall w :: w in PlanScript(g, plan, ds).writes ==> ServesPlan(g, plan, ds, w)
  {
    if ds != [] {
      PlanParts(g, plan, ds[1..]);
      DecisionParts(g, plan, ds[0]);
      forall w | w in PlanScript(g, plan, ds).writes ensures ServesPlan(g, plan, ds, w) {
        if WritesBack(ds[0]) && w in DecisionScript(g, plan, ds[0]).writes {
          assert ds[0] in ds;
        } else {
          assert ServesPlan(g, plan, ds[1..], w);
          var d :| d in ds[1..] && WritesBack(d) && ServesDecision(g, plan, d, w);
          assert d in ds;
        }
      }
    }
  }

  lemma {:induction false} ServingIsOverlay(g: Graph, plan: PolicyPlan, d: AssetDecision, w: Write)
    requires PartOf(w, StatusTag(d.status), UpdatesFor(g, plan, d))
    ensures OverlayWrite(w)
  {
    var history := HistoryKept(PropsOf(g, d.asset.urn), plan.incidentId);
    assert IncidentId in ControlUpdates(plan, d, history);
  }

  lemma {:induction false} PlanIsOverlay(g: Graph, plan: PolicyPlan, ds: seq<AssetDecision>)
    ensures OverlayOnly(PlanScript(g, plan, ds).writes)
  {
    PlanParts(g, plan, ds);
    forall w | w in PlanScript(g, plan, ds).writes ensures OverlayWrite(w) {
      var d :| d in ds && WritesBack(d) && ServesDecision(g, plan, d, w);
      ServingIsOverlay(g, plan, d, w);
    }
  }

  // ---------------------------------------------------------------- scripts do not depend on progress

  /** What a script reads from the catalog is the same in `g0` and `g`. */
  ghost predicate Steady(g0: Graph, g: Graph, incidentId: string) {
    && g.natives.Keys == g0.natives.Keys
    && (forall u :: Targets(PropsOf(g, u)) == Targets(PropsOf(g0, u)))
    && (forall u :: HistoryKept(PropsOf(g, u), incidentId) == HistoryKept(PropsOf(g0, u), incidentId))
  }

  lemma {:induction false} SteadyPlan(g0: Graph, g: Graph, plan: PolicyPlan, ds: seq<AssetDecision>)
    requires Steady(g0, g, plan.incidentId)
    ensures PlanScript(g, plan, ds) == PlanScript(g0, plan, ds)
  {
    if ds != [] {
      SteadyPlan(g0, g, plan, ds[1..]);
    }
  }

  /** A dataset merge that renews ownership and keeps the history a script started from. */
  predicate RenewsOwnership(g0: Graph, incidentId: string, w: Write) {
    w.Merge? && w.place.DatasetAt? ==>
      && BelongsTo(w.updates, incidentId)
      && RecoveryHistory in w.updates
      && w.updates[RecoveryHistory] == HistoryKept(PropsOf(g0, w.place.urn), incidentId)
  }

  lemma {:induction false} ScriptsStaySteady(g0: Graph, ws: seq<Write>, incidentId: string)
    requires OverlayOnly(ws)
    requires forall w :: w in ws ==> RenewsOwnership(g0, incidentId, w)
    ensures Steady(g0, DoAll(g0, ws), incidentId)
  {
    var g := DoAll(g0, ws);
    WritesAreOverlay(g0, ws);
    forall u ensures Targets(PropsOf(g, u)) == Targets(PropsOf(g0, u)) {
      assert BaseProps(PropsAt(g, DatasetAt(u))) == BaseProps(PropsAt(g0, DatasetAt(u)));
      TargetsIgnoreOverlay(PropsOf(g, u), PropsOf(g0, u));
    }
    forall u ensures HistoryKept(PropsOf(g, u), incidentId) == HistoryKept(PropsOf(g0, u), incidentId) {
      HistoryStays(g0, ws, incidentId, u);
    }
  }

  lemma {:induction false} HistoryStays(g0: Graph, ws: seq<Write>, incidentId: string, u: Urn)
    requires forall w :: w in ws ==> RenewsOwnership(g0, incidentId, w)
    ensures HistoryKept(PropsOf(DoAll(g0, ws), u), incidentId) == HistoryKept(PropsOf(g0, u), incidentId)
  {
    if ws != [] {
      var init, w := ws[..|ws| - 1], ws[|ws| - 1];
      HistoryStays(g0, init, incidentId, u);
      assert w in ws;
      DoAt(DoAll(g0, init), w, DatasetAt(u));
    }
  }

  lemma {:induction false} PlanStaysSteady(g: Graph, plan: PolicyPlan, ds: seq<AssetDecision>)
    ensures Steady(g, DoAll(g, PlanScript(g, plan, ds).writes), plan.incidentId)
  {
    PlanIsOverlay(g, plan, ds);
    PlanParts(g, plan, ds);
    forall w | w in PlanScript(g, plan, ds).writes ensures RenewsOwnership(g, plan.incidentId, w) {
      var d :| d in ds && WritesBack(d) && ServesDecision(g, plan, d, w);
    }
    ScriptsStaySteady(g, PlanScript(g, plan, ds).writes, plan.incidentId);
  }

  lemma {:induction false} PlanScriptSplit(g: Graph, plan: PolicyPlan, a: seq<AssetDecision>, b: seq<AssetDecision>)
    ensures PlanScript(g, plan, a + b) == Then(PlanScript(g, plan, a), PlanScript(g, plan, b))
  {
    if a == [] {
      assert a + b == b;
      assert [] + PlanScript(g, plan, b).writes == PlanScript(g, plan, b).writes;
    } else {
      assert (a + b)[1..] == a[1..] + b;
      PlanScriptSplit(g, plan, a[1..], b);
      var first := if WritesBack(a[0]) then DecisionScript(g, plan, a[0]) else Script([], None);
      var mid, last := PlanScript(g, plan, a[1..]), PlanScript(g, plan, b);
      assert first.writes + (mid.writes + last.writes) == (first.writes + mid.writes) + last.writes;
    }
  }

  // ---------------------------------------------------------------- the operations

  datatype Receipt = Receipt(
    incidentId: string, urn: Urn, decision: PolicyDecision, status: CatalogStatus,
    evidenceIds: seq<string>, nativeUrns: seq<Urn>)

  function RefUrns(refs: seq<NativeRef>): (r: seq<Urn>)
    ensures |r| == |refs| && forall i :: 0 <= i < |r| ==> r[i] == refs[i].urn
  {
    seq(|refs|, i requires 0 <= i < |refs| => refs[i].urn)
  }

  function ReceiptsFor(g: Graph, plan: PolicyPlan, ds: seq<AssetDecision>): (r: seq<Receipt>)
    ensures |r| == |ds| && forall i :: 0 <= i < |ds| ==> r[i] == ReceiptFor(g, plan, ds[i])
  {
    seq(|ds|, i requires 0 <= i < |ds| => ReceiptFor(g, plan, ds[i]))
  }

  lemma {:induction false} ReceiptsForSnoc(g: Graph, plan: PolicyPlan, ds: seq<AssetDecision>, d: AssetDecision)
    ensures ReceiptsFor(g, plan, ds + [d]) == ReceiptsFor(g, plan, ds) + [ReceiptFor(g, plan, d)]
  {
  }

  function ReceiptFor(g: Graph, plan: PolicyPlan, d: AssetDecision): Receipt {
    var targets := Targets(PropsOf(g, d.asset.urn));
    Receipt(plan.incidentId, d.asset.urn, d.decision, d.status, d.evidenceIds,
      if targets.Ok? then RefUrns(targets.value) else [])
  }

  method PutStatusTag(graph: DataHub, urn: Urn, tag: Option<Tag>)
    modifies graph`tags
    ensures graph.State() == DoAll(old(graph.State()), PutTag(urn, tag))
  {
    if tag.Some? {
      var before := graph.State();
      var kept := RemoveTags(graph, urn, STATUS_TAGS - {tag.value});
      var all := AddTags(graph, urn, [tag.value]);
      assert MissingTags([tag.value], kept) == if HasTag(kept, tag.value) then [] else [TagAssociation(tag.value, "")];
      assert all == SetStatus(tag.value, TagsOf(before, urn));
      SetStatusDropsOthers(tag.value, TagsOf(before, urn));
      assert all != [];
      assert graph.tags == before.tags[urn := all];
      DoAllSnoc(before, [], PutStatus(urn, tag.value));
      assert [] + [PutStatus(urn, tag.value)] == PutTag(urn, tag);
    }
  }

  /** Tag and update one native target. */
  method MirrorOne(graph: DataHub, ref: NativeRef, updates: Props, tag: Option<Tag>)
    returns (result: Result<Urn, WriteError>)
    modifies graph`tags, graph`natives
    ensures var before := old(graph.State());
      var script := MirrorScript(before.natives.Keys, [ref], tag, updates);
      && graph.State() == DoAll(before, script.writes)
      && result == if script.error.Some? then Err(script.error.value) else Ok(ref.urn)
  {
    var before := graph.State();
    var put := PutTag(ref.urn, tag);
    PutStatusTag(graph, ref.urn, tag);
    label tagged:
    var merged := AddAspectCustomProperties(graph, ref, updates);
    assert [ref][1..] == [];
    if merged.Err? {
      return Err(merged.error);
    }
    assert graph.State() == Do(old@tagged(graph.State()), Merge(NativeAt(ref), updates));
    DoAllSnoc(before, put, Merge(NativeAt(ref), updates));
    assert (put + [Merge(NativeAt(ref), updates)]) + [] == put + [Merge(NativeAt(ref), updates)];
    return Ok(ref.urn);
  }

  lemma {:induction false} MirrorScriptSplit(
    natives: set<NativeRef>, a: seq<NativeRef>, b: seq<NativeRef>, tag: Option<Tag>, updates: Props)
    ensures MirrorScript(natives, a + b, tag, updates)
         == Then(MirrorScript(natives, a, tag, updates), MirrorScript(natives, b, tag, updates))
  {
    if a == [] {
      assert a + b == b;
      assert [] + MirrorScript(natives, b, tag, updates).writes == MirrorScript(natives, b, tag, updates).writes;
    } else {
      assert (a + b)[1..] == a[1..] + b;
      MirrorScriptSplit(natives, a[1..], b, tag, updates);
      var first := PutTag(a[0].urn, tag) + [Merge(NativeAt(a[0]), updates)];
      var mid, last := MirrorScript(natives, a[1..], tag, updates), MirrorScript(natives, b, tag, updates);
      assert first + (mid.writes + last.writes) == (first + mid.writes) + last.writes;
    }
  }

  /** One more target: the script of the longer prefix, and the script of the whole when it stops there. */
  lemma {:induction false} MirrorProgress(natives: set<NativeRef>, targets: seq<NativeRef>, i: nat, tag: Option<Tag>, updates: Props)
    requires i < |targets|
    ensures MirrorScript(natives, targets[..i + 1], tag, updates)
         == Then(MirrorScript(natives, targets[..i], tag, updates), MirrorScript(natives, [targets[i]], tag, updates))
    ensures MirrorScript(natives, targets[..i + 1], tag, updates).error.Some? ==>
      MirrorScript(natives, targets, tag, updates) == MirrorScript(natives, targets[..i + 1], tag, updates)
  {
    assert targets[..i + 1] == targets[..i] + [targets[i]];
    MirrorScriptSplit(natives, targets[..i], [targets[i]], tag, updates);
    assert targets == targets[..i + 1] + targets[i + 1..];
    MirrorScriptSplit(natives, targets[..i + 1], targets[i + 1..], tag, updates);
  }

  lemma {:induction false} NothingMirrored(natives: set<NativeRef>, tag: Option<Tag>, updates: Props)
    ensures MirrorScript(natives, [], tag, updates) == Script([], None) && RefUrns([]) == []
  {
  }

  lemma {:induction false} RefUrnsSnoc(refs: seq<NativeRef>, i: nat)
    requires i < |refs|
    ensures RefUrns(refs[..i + 1]) == RefUrns(refs[..i]) + [refs[i].urn]
  {
  }

  method MirrorTargets(graph: DataHub, targets: seq<NativeRef>, updates: Props, tag: Option<Tag>)
    returns (result: Result<seq<Urn>, WriteError>)
    modifies graph`tags, graph`natives
    ensures var script := MirrorScript(old(graph.natives).Keys, targets, tag, updates);
      && graph.State() == DoAll(old(graph.State()), script.writes)
      && result == if script.error.Some? then Err(script.error.value) else Ok(RefUrns(targets))
  {
    hide MirrorScript, Do, RefUrns;
    ghost var before := graph.State();
    ghost var natives := before.natives.Keys;
    var written: seq<Urn> := [];
    NothingMirrored(natives, tag, updates);
    ghost var script := Script([], None);
    assert targets[..0] == [];
    for i := 0 to |targets|
      invariant script == MirrorScript(natives, targets[..i], tag, updates) && script.error.None?
      invariant graph.State() == DoAll(before, script.writes)
      invariant written == RefUrns(targets[..i])
    {
      assert graph.State().natives.Keys == natives;
      ghost var step := MirrorScript(natives, [targets[i]], tag, updates);
      MirrorProgress(natives, targets, i, tag, updates);
      DoAllConcat(before, script.writes, step.writes);
      script := Then(script, step);
      assert script == MirrorScript(natives, targets[..i + 1], tag, updates);
      var one := MirrorOne(graph, targets[i], updates, tag);
      assert graph.State() == DoAll(before, script.writes);
      if one.Err? {
        return Err(one.error);
      }
      assert script.error.None?;
      RefUrnsSnoc(targets, i);
      written := written + [targets[i].urn];
    }
    assert targets[..|targets|] == targets;
    return Ok(written);
  }

  method MirrorNativeProjectionState(graph: DataHub, existing: Props, updates: Props, tag: Option<Tag>)
    returns (result: Result<seq<Urn>, WriteError>)
    modifies graph`tags, graph`natives
    ensures Targets(existing).Err? ==> result == Err(Targets(existing).error) && graph.State() == old(graph.State())
    ensures Targets(existing).Ok? ==>
      var script := MirrorScript(old(graph.natives).Keys, Targets(existing).value, tag, updates);
      && graph.State() == DoAll(old(graph.State()), script.writes)
      && result == if script.error.Some? then Err(script.error.value) else Ok(RefUrns(Targets(existing).value))
  {
    var targets := Targets(existing);
    if targets.Err? {
      return Err(targets.error);
    }
    result := MirrorTargets(graph, targets.value, updates, tag);
  }

  /** The control writes of one decision. */
  method EnforceDecision(graph: DataHub, plan: PolicyPlan, d: AssetDecision)
    returns (result: Result<seq<Urn>, WriteError>)
    modifies graph
    ensures var before := old(graph.State());
      var script := DecisionScript(before, plan, d);
      && graph.State() == DoAll(before, script.writes)
      && (script.error.Some? ==> result == Err(script.error.value))
      && (script.error.None? ==>
        Targets(PropsOf(before, d.asset.urn)).Ok? && result == Ok(RefUrns(Targets(PropsOf(before, d.asset.urn)).value)))
  {
    ghost var before := graph.State();
    var urn, tag := d.asset.urn, StatusTag(d.status);
    var existing := if urn in graph.datasets then graph.datasets[urn].props else map[];
    PutStatusTag(graph, urn, tag);
    var updates := ControlUpdates(plan, d, HistoryKept(existing, plan.incidentId));
    label tagged:
    assert IncidentId in updates;
    var properties := AddCustomProperties(graph, urn, updates);
    assert graph.State() == Do(old@tagged(graph.State()), Merge(DatasetAt(urn), updates));
    ghost var head := PutTag(urn, tag) + [Merge(DatasetAt(urn), updates)];
    DoAllSnoc(before, PutTag(urn, tag), Merge(DatasetAt(urn), updates));
    ghost var mid := graph.State();
    result := MirrorNativeProjectionState(graph, existing, updates, tag);
    ghost var projection := ProjectionScript(before, urn, tag, updates);
    assert graph.State() == DoAll(mid, projection.writes);
    DoAllConcat(before, head, projection.writes);
  }

  /** One more decision, as for native targets. */
  lemma {:induction false} EnforceProgress(g: Graph, plan: PolicyPlan, ds: seq<AssetDecision>, i: nat)
    requires i < |ds|
    ensures PlanScript(g, plan, ds[..i + 1]) ==
      if WritesBack(ds[i]) then Then(PlanScript(g, plan, ds[..i]), DecisionScript(g, plan, ds[i])) else PlanScript(g, plan, ds[..i])
    ensures PlanScript(g, plan, ds[..i + 1]).error.Some? ==> PlanScript(g, plan, ds) == PlanScript(g, plan, ds[..i + 1])
    ensures WrittenBack(ds[..i + 1]) == WrittenBack(ds[..i]) + (if WritesBack(ds[i]) then [ds[i]] else [])
  {
    assert ds[..i + 1] == ds[..i] + [ds[i]];
    PlanScriptSplit(g, plan, ds[..i], [ds[i]]);
    assert [ds[i]][1..] == [];
    var before, step := PlanScript(g, plan, ds[..i]).writes, DecisionScript(g, plan, ds[i]).writes;
    assert step + [] == step && before + [] == before;
    WrittenBackSnoc(ds[..i], ds[i]);
    assert ds == ds[..i + 1] + ds[i + 1..];
    PlanScriptSplit(g, plan, ds[..i + 1], ds[i + 1..]);
  }

  /** From where the previous decisions leave the catalog, one more decision extends the script. */
  lemma {:induction false} EnforceStep(g: Graph, plan: PolicyPlan, ds: seq<AssetDecision>, i: nat)
    requires i < |ds| && WritesBack(ds[i]) && PlanScript(g, plan, ds[..i]).error.None?
    ensures var now := DoAll(g, PlanScript(g, plan, ds[..i]).writes);
      && DecisionScript(now, plan, ds[i]) == DecisionScript(g, plan, ds[i])
      && Targets(PropsOf(now, ds[i].asset.urn)) == Targets(PropsOf(g, ds[i].asset.urn))
      && DoAll(now, DecisionScript(g, plan, ds[i]).writes) == DoAll(g, PlanScript(g, plan, ds[..i + 1]).writes)
      && PlanScript(g, plan, ds[..i + 1]).error == DecisionScript(g, plan, ds[i]).error
  {
    PlanStaysSteady(g, plan, ds[..i]);
    EnforceProgress(g, plan, ds, i);
    DoAllConcat(g, PlanScript(g, plan, ds[..i]).writes, DecisionScript(g, plan, ds[i]).writes);
  }

  method Enforce(graph: DataHub, plan: PolicyPlan) returns (result: Result<seq<Receipt>, WriteError>)
    modifies graph
    ensures var before := old(graph.State());
      var script := PlanScript(before, plan, plan.decisions);
      && graph.State() == DoAll(before, script.writes)
      && (result.Err? <==> script.error.Some?)
      && (result.Err? ==> result.error == script.error.value)
      && (result.Ok? ==>
        result.value == ReceiptsFor(before, plan, WrittenBack(plan.decisions)))
  {
    ghost var before := graph.State();
    var ds := plan.decisions;
    var receipts: seq<Receipt> := [];
    assert ds[..0] == [];
    for i := 0 to |ds|
      invariant PlanScript(before, plan, ds[..i]).error.None?
      invariant graph.State() == DoAll(before, PlanScript(before, plan, ds[..i]).writes)
      invariant receipts == ReceiptsFor(before, plan, WrittenBack(ds[..i]))
    {
      EnforceProgress(before, plan, ds, i);
      if WritesBack(ds[i]) {
        EnforceStep(before, plan, ds, i);
        var native := EnforceDecision(graph, plan, ds[i]);
        if native.Err? {
          return Err(native.error);
        }
        var d := ds[i];
        ReceiptsForSnoc(before, plan, WrittenBack(ds[..i]), d);
        receipts := receipts + [Receipt(plan.incidentId, d.asset.urn, d.decision, d.status, d.evidenceIds, native.value)];
      }
    }
    assert ds[..|ds|] == ds;
    return Ok(receipts);
  }

  lemma {:induction false} WrittenBackSnoc(ds: seq<AssetDecision>, d: AssetDecision)
    ensures WrittenBack(ds + [d]) == WrittenBack(ds) + (if WritesBack(d) then [d] else [])
  {
    if ds == [] {
      assert ds + [d] == [d];
    } else {
      assert (ds + [d])[1..] == ds[1..] + [d];
      WrittenBackSnoc(ds[1..], d);
    }
  }
}
