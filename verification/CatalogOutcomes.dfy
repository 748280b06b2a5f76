/** What enforcement and recovery leave on every asset, native aspect and tagged entity, read back
    in plain values. Each statement covers runs that stop at an unsupported asset. */
module CatalogOutcomes {
  import opened Common
  import opened IncidentLifecycle
  import opened PolicyEngine
  import opened MetadataGraph
  import opened OverlayWrites
  import opened Enforcement
  import opened Recovery
  import opened OverlayRuns
  import opened UndoRuns
  import opened RecoveryRuns
  import opened PipelineControl

  predicate Shows(p: Props, k: Key, v: Value) {
    k in p && p[k] == v
  }

  // ---------------------------------------------------------------- what an asset projects to

  predicate PointsTo(p: Props, k: Key, text: string) {
    text != "" && Shows(p, k, Text(text))
  }

  predicate Projects(p: Props, r: NativeRef) {
    PointsTo(p, NativeProjectionUrn, r.urn)
    && (match r.aspect
        case FeatureTable => PointsTo(p, NativeProjectionAspect, "MLFeatureTablePropertiesClass")
        case Model => PointsTo(p, NativeProjectionAspect, "MLModelPropertiesClass")
        case Deployment => false)
  }

  predicate Deploys(p: Props, r: NativeRef) {
    r.aspect == Deployment && PointsTo(p, NativeDeploymentUrn, r.urn)
  }

  ghost predicate ProjectsUnknown(p: Props) {
    exists u, a :: PointsTo(p, NativeProjectionUrn, u) && PointsTo(p, NativeProjectionAspect, a)
      && a != "MLFeatureTablePropertiesClass" && a != "MLModelPropertiesClass"
  }

  /** The targets of an asset: its projection to one of the two known aspects, then its deployment. */
  lemma {:induction false} TargetsRead(p: Props)
    ensures Targets(p).Err? <==> ProjectsUnknown(p)
    ensures Targets(p).Ok? ==>
      var ts := Targets(p).value;
      && (forall r :: r in ts <==> Projects(p, r) || Deploys(p, r))
      && (forall i, j :: 0 <= i < j < |ts| ==> Projects(p, ts[i]) && Deploys(p, ts[j]))
  {
    var u, a, d := TextOf(p, NativeProjectionUrn), TextOf(p, NativeProjectionAspect), TextOf(p, NativeDeploymentUrn);
    assert u != "" ==> PointsTo(p, NativeProjectionUrn, u);
    assert a != "" ==> PointsTo(p, NativeProjectionAspect, a);
    assert d != "" ==> PointsTo(p, NativeDeploymentUrn, d);
  }

  /** The projection of an asset gets to tagging this entity: every target before it exists. */
  predicate TargetTagged(natives: set<NativeRef>, targets: seq<NativeRef>, e: Urn) {
    targets != [] && (targets[0].urn == e || (targets[0] in natives && TargetTagged(natives, targets[1..], e)))
  }

  /** It gets to merging into this native aspect. */
  predicate TargetMerged(natives: set<NativeRef>, targets: seq<NativeRef>, r: NativeRef) {
    targets != [] && targets[0] in natives && (targets[0] == r || TargetMerged(natives, targets[1..], r))
  }

  /** Writing to an asset tags this entity: the asset, or a target its projection gets to. */
  predicate AssetTags(g: Graph, u: Urn, e: Urn) {
    u == e || (Targets(PropsOf(g, u)).Ok? && TargetTagged(g.natives.Keys, Targets(PropsOf(g, u)).value, e))
  }

  predicate AssetMirrors(g: Graph, u: Urn, r: NativeRef) {
    Targets(PropsOf(g, u)).Ok? && TargetMerged(g.natives.Keys, Targets(PropsOf(g, u)).value, r)
  }

  /** A supported asset tags and updates all its targets. */
  lemma {:induction false} SupportedMirrorsAll(natives: set<NativeRef>, targets: seq<NativeRef>)
    requires forall r :: r in targets ==> r in natives
    ensures forall r :: TargetMerged(natives, targets, r) <==> r in targets
    ensures forall e :: TargetTagged(natives, targets, e) <==> exists r :: r in targets && r.urn == e
  {
    if targets != [] {
      assert targets[0] in targets;
      SupportedMirrorsAll(natives, targets[1..]);
      forall e ensures TargetTagged(natives, targets, e) <==> exists r :: r in targets && r.urn == e {
        if r :| r in targets && r.urn == e { assert r == targets[0] || r in targets[1..]; }
        if TargetTagged(natives, targets, e) && targets[0].urn != e {
          assert TargetTagged(natives, targets[1..], e);
          var r :| r in targets[1..] && r.urn == e;
          assert r in targets;
        }
      }
    }
  }

  // ---------------------------------------------------------------- the last tag put on an entity

  function LastPut(ws: seq<Write>, e: Urn): Option<Tag> {
    var ts := StatusesPut(ws, e);
    if ts == [] then None else Some(ts[|ts| - 1])
  }

  lemma {:induction false} LastPutConcat(a: seq<Write>, b: seq<Write>, e: Urn)
    ensures LastPut(a + b, e) == if LastPut(b, e).Some? then LastPut(b, e) else LastPut(a, e)
  {
    if b == [] {
      assert a + b == a;
    } else {
      var n := |b| - 1;
      assert (a + b)[..|a + b| - 1] == a + b[..n];
      LastPutConcat(a, b[..n], e);
    }
  }

  lemma {:induction false} LastPutHead(w: Write, e: Urn)
    ensures LastPut([w], e) == if w.PutStatus? && w.urn == e then Some(w.tag) else None
  {
    assert [w][..|[w]| - 1] == [];
    assert StatusesPut([w], e) == StatusesPut([], e) + (if w.PutStatus? && w.urn == e then [w.tag] else []);
  }

  lemma {:induction false} PutTagLast(urn: Urn, tag: Option<Tag>, e: Urn)
    ensures LastPut(PutTag(urn, tag), e) == if urn == e then tag else None
  {
    if tag.Some? { LastPutHead(PutStatus(urn, tag.value), e); }
  }

  lemma {:induction false} MirrorLastPut(natives: set<NativeRef>, targets: seq<NativeRef>, tag: Option<Tag>, updates: Props, e: Urn)
    ensures LastPut(MirrorScript(natives, targets, tag, updates).writes, e)
         == if TargetTagged(natives, targets, e) then tag else None
  {
    if targets != [] {
      var put, merge := PutTag(targets[0].urn, tag), Merge(NativeAt(targets[0]), updates);
      PutTagLast(targets[0].urn, tag, e);
      if targets[0] in natives {
        MirrorLastPut(natives, targets[1..], tag, updates, e);
        LastPutHead(merge, e);
        LastPutConcat(put, [merge], e);
        LastPutConcat(put + [merge], MirrorScript(natives, targets[1..], tag, updates).writes, e);
      }
    }
  }

  lemma {:induction false} ProjectionLastPut(g: Graph, urn: Urn, tag: Option<Tag>, updates: Props, e: Urn)
    ensures LastPut(ProjectionScript(g, urn, tag, updates).writes, e)
         == if Targets(PropsOf(g, urn)).Ok? && TargetTagged(g.natives.Keys, Targets(PropsOf(g, urn)).value, e) then tag else None
  {
    if Targets(PropsOf(g, urn)).Ok? {
      MirrorLastPut(g.natives.Keys, Targets(PropsOf(g, urn)).value, tag, updates, e);
    }
  }

  lemma {:induction false} DecisionLastPut(g: Graph, plan: PolicyPlan, d: AssetDecision, e: Urn)
    ensures LastPut(DecisionScript(g, plan, d).writes, e)
         == if AssetTags(g, d.asset.urn, e) then StatusTag(d.status) else None
  {
    hide ProjectionScript, Targets, LastPut, StatusTag;
    var urn, tag, updates := d.asset.urn, StatusTag(d.status), UpdatesFor(g, plan, d);
    var put, merge := PutTag(urn, tag), Merge(DatasetAt(urn), updates);
    PutTagLast(urn, tag, e);
    LastPutHead(merge, e);
    LastPutConcat(put, [merge], e);
    ProjectionLastPut(g, urn, tag, updates, e);
    LastPutConcat(put + [merge], ProjectionScript(g, urn, tag, updates).writes, e);
  }

  /** The status of the last decision that tags an entity, among those enforcement gets to. */
  function LastStatus(g: Graph, ds: seq<AssetDecision>, e: Urn): Option<CatalogStatus> {
    if ds == [] then None
    else if !WritesBack(ds[0]) then LastStatus(g, ds[1..], e)
    else
      var later := if SupportedAsset(g, ds[0].asset.urn) then LastStatus(g, ds[1..], e) else None;
      if later.None? && ds[0].status != StatusHealthy && AssetTags(g, ds[0].asset.urn, e) then Some(ds[0].status) else later
  }

  lemma {:induction false} PlanLastPut(g: Graph, plan: PolicyPlan, ds: seq<AssetDecision>, e: Urn)
    ensures LastPut(PlanScript(g, plan, ds).writes, e) ==
      match LastStatus(g, ds, e) case None => None case Some(s) => StatusTag(s)
    ensures LastStatus(g, ds, e) != Some(StatusHealthy)
  {
    hide DecisionScript, SupportedAsset, AssetTags, LastPut;
    if ds == [] {
      assert LastPut([], e) == None by { EmptyPut(e); }
    } else {
      PlanLastPut(g, plan, ds[1..], e);
      if WritesBack(ds[0]) {
        DecisionCompletes(g, plan, ds[0]);
        DecisionLastPut(g, plan, ds[0], e);
        LastPutConcat(DecisionScript(g, plan, ds[0]).writes, PlanScript(g, plan, ds[1..]).writes, e);
      }
    }
  }

  lemma {:induction false} EmptyPut(e: Urn)
    ensures LastPut([], e) == None
  {
  }

  /** One status tag, the others gone. */
  predicate OnlyStatus(tags: seq<TagAssociation>, tag: Tag) {
    HasTag(tags, tag) && forall t :: t in {AtRiskTag, QuarantinedTag, ResolvedTag} && t != tag ==> !HasTag(tags, t)
  }

  predicate SameOtherTags(before: seq<TagAssociation>, after: seq<TagAssociation>) {
    Without(after, {AtRiskTag, QuarantinedTag, ResolvedTag}) == Without(before, {AtRiskTag, QuarantinedTag, ResolvedTag})
  }

  lemma {:induction false} LastPutShows(g: Graph, ws: seq<Write>, e: Urn)
    requires OverlayOnly(ws)
    ensures var before, after := TagsOf(g, e), TagsOf(DoAll(g, ws), e);
      && SameOtherTags(before, after)
      && match LastPut(ws, e)
        case None => after == before
        case Some(t) => OnlyStatus(after, t)
  {
    hide DoAll, Without, HasTag, StatusesPut, Changes, OneStatus, Copies;
    TagsAfter(g, ws, e);
    var ts := StatusesPut(ws, e);
    SetStatusesKeepBase(ts, TagsOf(g, e));
    if ts != [] { SetStatusesLast(ts, TagsOf(g, e)); }
  }

  /** The tags any enforcement leaves, per status: those of the last decision that tags the entity,
      directly or as a native target, with every other tag kept. */
  lemma {:induction false} EnforceTags(g: Graph, plan: PolicyPlan, e: Urn)
    ensures var before, after := TagsOf(g, e), TagsOf(DoAll(g, PlanScript(g, plan, plan.decisions).writes), e);
      && SameOtherTags(before, after)
      && match LastStatus(g, plan.decisions, e)
        case None => after == before
        case Some(StatusAtRisk) => OnlyStatus(after, AtRiskTag)
        case Some(StatusQuarantined) => OnlyStatus(after, QuarantinedTag)
        case Some(StatusResolved) => OnlyStatus(after, ResolvedTag)
        case Some(StatusHealthy) => false
  {
    hide LastPut, OnlyStatus, LastStatus;
    PlanIsOverlay(g, plan, plan.decisions);
    PlanLastPut(g, plan, plan.decisions, e);
    LastPutShows(g, PlanScript(g, plan, plan.decisions).writes, e);
  }

  /** The entities a resume gets to: each listed asset and its targets, up to the first unsupported asset. */
  predicate EntityResolved(g: Graph, urns: seq<Urn>, e: Urn) {
    urns != [] && (AssetTags(g, urns[0], e) || (SupportedAsset(g, urns[0]) && EntityResolved(g, urns[1..], e)))
  }

  lemma {:induction false} ResolveLastPut(g: Graph, control: Urn, urn: Urn, evidence: seq<string>, e: Urn)
    ensures LastPut(ResolveScript(g, control, urn, evidence).writes, e)
         == if AssetTags(g, urn, e) then Some(ResolvedTag) else None
  {
    hide ProjectionScript, Targets, LastPut, ResolvedUpdates;
    var merge := if urn != control then [Merge(DatasetAt(urn), ResolvedUpdates(evidence))] else [];
    EmptyPut(e);
    if urn != control { LastPutHead(merge[0], e); assert merge == [merge[0]]; }
    LastPutHead(PutStatus(urn, ResolvedTag), e);
    LastPutConcat(merge, [PutStatus(urn, ResolvedTag)], e);
    var projection := ProjectionScript(g, urn, Some(ResolvedTag), ResolvedUpdates(evidence)).writes;
    ProjectionLastPut(g, urn, Some(ResolvedTag), ResolvedUpdates(evidence), e);
    LastPutConcat(ResolveHead(control, urn, evidence), projection, e);
  }

  lemma {:induction false} ResolveAllLastPut(g: Graph, control: Urn, urns: seq<Urn>, evidence: seq<string>, e: Urn)
    ensures LastPut(ResolveAll(g, control, urns, evidence).writes, e)
         == if EntityResolved(g, urns, e) then Some(ResolvedTag) else None
  {
    hide ResolveScript, SupportedAsset, AssetTags, LastPut;
    EmptyPut(e);
    if urns != [] {
      ResolveCompletes(g, control, urns[0], evidence);
      ResolveLastPut(g, control, urns[0], evidence, e);
      ResolveAllLastPut(g, control, urns[1..], evidence, e);
      LastPutConcat(ResolveScript(g, control, urns[0], evidence).writes, ResolveAll(g, control, urns[1..], evidence).writes, e);
    }
  }

  /** The assets a resume works through: the stored list, or the control asset alone without one. */
  function ResumeList(g: Graph, control: Urn): seq<Urn> {
    var p := PropsOf(g, control);
    if ControlledUrns !in p then [control] else if p[ControlledUrns].Urns? then p[ControlledUrns].urns else []
  }

  lemma {:induction false} EvaluationLastPut(g: Graph, control: Urn, policy: RecoveryPolicy, input: Inputs, e: Urn)
    ensures LastPut(EvaluateScript(g, control, policy, input).writes, e)
         == if Resumes(g, control, Evaluated(policy, input)) && EntityResolved(g, ResumeList(g, control), e)
            then Some(ResolvedTag) else None
  {
    hide ResolveAll, LastPut, AssetTags, SupportedAsset;
    EmptyPut(e);
    if Refusal(g, control, input).None? {
      var v := Judge(PropsOf(g, control), policy, input);
      var head := Merge(DatasetAt(control), RecoveryUpdates(v.state, v.history, v.evidence, v.resume));
      LastPutHead(head, e);
      var urns := ControlledIn(PropsOf(g, control), control);
      if v.resume && urns.Ok? {
        ResolveAllLastPut(g, control, urns.value, v.evidence, e);
        LastPutConcat([head], ResolveAll(g, control, urns.value, v.evidence).writes, e);
      }
    }
  }

  /** A resume leaves the RESOLVED tag, and neither AT_RISK nor QUARANTINED, on every listed asset and
      every native target that it gets to, keeping all other tags; every other tag list stays, as do
      all of them without a resume. */
  lemma {:induction false} ResumeTags(g: Graph, control: Urn, policy: RecoveryPolicy, input: Inputs, e: Urn)
    ensures var before, after := TagsOf(g, e), TagsOf(DoAll(g, EvaluateScript(g, control, policy, input).writes), e);
      && SameOtherTags(before, after)
      && if Resumes(g, control, Evaluated(policy, input)) && EntityResolved(g, ResumeList(g, control), e)
         then HasTag(after, ResolvedTag) && !HasTag(after, AtRiskTag) && !HasTag(after, QuarantinedTag)
         else after == before
  {
    hide LastPut, EvaluateScript, EntityResolved, ResumeList;
    EvaluationIsOverlay(g, control, policy, input);
    EvaluationLastPut(g, control, policy, input, e);
    LastPutShows(g, EvaluateScript(g, control, policy, input).writes, e);
  }

  /** When every listed asset is supported, a resume gets to all of them and all their targets. */
  lemma {:induction false} SupportedResumeReaches(g: Graph, urns: seq<Urn>, u: Urn, e: Urn)
    requires (forall x :: x in urns ==> SupportedAsset(g, x)) && u in urns
    requires e == u || TargetEntity(PropsOf(g, u), e)
    ensures EntityResolved(g, urns, e)
  {
    assert urns[0] in urns;
    if urns[0] == u {
      SupportedMirrorsAll(g.natives.Keys, Targets(PropsOf(g, u)).value);
    } else {
      SupportedResumeReaches(g, urns[1..], u, e);
    }
  }

  // ---------------------------------------------------------------- the values an enforcement leaves

  /** Writing to an asset updates this place: its dataset, or a native aspect its projection gets to. */
  predicate WritesTo(g: Graph, u: Urn, place: Place) {
    match place
    case DatasetAt(x) => x == u
    case NativeAt(r) => AssetMirrors(g, u, r)
  }

  /** The last decision that updates a place, among those enforcement gets to. */
  function LastWriting(g: Graph, ds: seq<AssetDecision>, place: Place): Option<AssetDecision> {
    if ds == [] then None
    else if !WritesBack(ds[0]) then LastWriting(g, ds[1..], place)
    else
      var later := if SupportedAsset(g, ds[0].asset.urn) then LastWriting(g, ds[1..], place) else None;
      if later.None? && WritesTo(g, ds[0].asset.urn, place) then Some(ds[0]) else later
  }

  predicate SameBut(before: Props, after: Props, keys: set<Key>) {
    after - keys == before - keys
  }

  predicate ShowsStatus(p: Props, status: CatalogStatus) {
    match status
    case StatusHealthy =>
      Shows(p, IncidentStateKey, State(Healthy)) && Shows(p, StatusKey, LowerState(Healthy)) && Shows(p, CatalogStatusKey, State(Healthy))
    case StatusAtRisk =>
      Shows(p, IncidentStateKey, State(AtRisk)) && Shows(p, StatusKey, LowerState(AtRisk)) && Shows(p, CatalogStatusKey, State(AtRisk))
    case StatusQuarantined =>
      Shows(p, IncidentStateKey, State(Quarantined)) && Shows(p, StatusKey, LowerState(Quarantined))
      && Shows(p, CatalogStatusKey, State(Quarantined))
    case StatusResolved =>
      Shows(p, IncidentStateKey, State(Resolved)) && Shows(p, StatusKey, LowerState(Resolved)) && Shows(p, CatalogStatusKey, State(Resolved))
  }

  /** The stored history is kept for the same incident and emptied for another. */
  predicate ShowsHistory(p: Props, asset: Props, incidentId: string) {
    if Shows(asset, IncidentId, Text(incidentId)) && RecoveryHistory in asset
    then Shows(p, RecoveryHistory, asset[RecoveryHistory])
    else Shows(p, RecoveryHistory, History([]))
  }

  /** The values of one decision, key by key. `asset` holds the properties of the decided asset. */
  predicate ShowsDecision(after: Props, plan: PolicyPlan, d: AssetDecision, asset: Props) {
    && Shows(after, IncidentId, Text(plan.incidentId))
    && ShowsStatus(after, d.status)
    && Shows(after, PolicyDecisionKey, Decision(d.decision))
    && Shows(after, EnforcementActions, Actions(d.actions))
    && Shows(after, EvidenceIds, Ids(d.evidenceIds))
    && Shows(after, EvidenceSummary, EvidenceCount(|d.evidenceIds|))
    && Shows(after, ReasonCodeKey, Reason(d.reason))
    && Shows(after, ControlledUrns, Urns(Controlled(plan)))
    && ShowsHistory(after, asset, plan.incidentId)
  }

  predicate EnforcedProps(before: Props, after: Props, plan: PolicyPlan, d: AssetDecision, asset: Props) {
    && ShowsDecision(after, plan, d, asset)
    && SameBut(before, after, {IncidentId, IncidentStateKey, StatusKey, PolicyDecisionKey, CatalogStatusKey,
      EnforcementActions, EvidenceIds, EvidenceSummary, ReasonCodeKey, ControlledUrns, RecoveryHistory})
  }

  lemma {:induction false} UpdatesRead(g: Graph, plan: PolicyPlan, d: AssetDecision, before: Props)
    ensures EnforcedProps(before, before + UpdatesFor(g, plan, d), plan, d, PropsOf(g, d.asset.urn))
  {
    hide Controlled, ShowsDecision, UpdatesFor, ControlUpdates;
    UpdatesShowDecision(g, plan, d);
    MergedShowsDecision(before, UpdatesFor(g, plan, d), plan, d, PropsOf(g, d.asset.urn));
    UpdatesForKeys(g, plan, d);
  }

  lemma {:induction false} UpdatesForKeys(g: Graph, plan: PolicyPlan, d: AssetDecision)
    ensures UpdatesFor(g, plan, d).Keys == CONTROL_KEYS
  {
    UpdatesCarryPlan(plan, d, HistoryKept(PropsOf(g, d.asset.urn), plan.incidentId));
  }

  lemma {:induction false} UpdatesShowDecision(g: Graph, plan: PolicyPlan, d: AssetDecision)
    ensures ShowsDecision(UpdatesFor(g, plan, d), plan, d, PropsOf(g, d.asset.urn))
  {
    hide Controlled, ShowsStatus, ShowsHistory, HistoryKept, StateOf;
    var asset := PropsOf(g, d.asset.urn);
    UpdatesShowStatus(plan, d, HistoryKept(asset, plan.incidentId));
    UpdatesShowHistory(plan, d, asset);
  }

  lemma {:induction false} UpdatesShowStatus(plan: PolicyPlan, d: AssetDecision, history: Value)
    ensures ShowsStatus(ControlUpdates(plan, d, history), d.status)
  {
    hide Controlled;
  }

  lemma {:induction false} UpdatesShowHistory(plan: PolicyPlan, d: AssetDecision, asset: Props)
    ensures ShowsHistory(ControlUpdates(plan, d, HistoryKept(asset, plan.incidentId)), asset, plan.incidentId)
  {
    hide Controlled;
  }

  lemma {:induction false} MergedShowsDecision(before: Props, updates: Props, plan: PolicyPlan, d: AssetDecision, asset: Props)
    requires ShowsDecision(updates, plan, d, asset)
    ensures ShowsDecision(before + updates, plan, d, asset)
  {
    hide Controlled;
  }

  lemma {:induction false} MirrorMerges(natives: set<NativeRef>, targets: seq<NativeRef>, tag: Option<Tag>, updates: Props, r: NativeRef)
    ensures MergesInto(MirrorScript(natives, targets, tag, updates).writes, NativeAt(r)) <==> TargetMerged(natives, targets, r)
  {
    if targets != [] && targets[0] in natives {
      var head, rest := PutTag(targets[0].urn, tag) + [Merge(NativeAt(targets[0]), updates)], MirrorScript(natives, targets[1..], tag, updates);
      MirrorMerges(natives, targets[1..], tag, updates, r);
      assert Merge(NativeAt(targets[0]), updates) in head;
      assert MergesInto(head, NativeAt(r)) <==> r == targets[0];
      MergesIntoConcat(head, rest.writes, NativeAt(r));
    }
  }

  lemma {:induction false} DecisionWritesTo(g: Graph, plan: PolicyPlan, d: AssetDecision, place: Place)
    ensures MergesInto(DecisionScript(g, plan, d).writes, place) <==> WritesTo(g, d.asset.urn, place)
    ensures MergesInto(DecisionScript(g, plan, d).writes, place) ==> LastMerge(DecisionScript(g, plan, d).writes, place) == UpdatesFor(g, plan, d)
  {
    hide UpdatesFor, TargetMerged;
    var ws, targets := DecisionScript(g, plan, d).writes, Targets(PropsOf(g, d.asset.urn));
    match place {
      case DatasetAt(u) => DecisionMerges(g, plan, d);
      case NativeAt(r) =>
        var head := PutTag(d.asset.urn, StatusTag(d.status)) + [Merge(DatasetAt(d.asset.urn), UpdatesFor(g, plan, d))];
        assert !MergesInto(head, place);
        if targets.Ok? {
          MirrorMerges(g.natives.Keys, targets.value, StatusTag(d.status), UpdatesFor(g, plan, d), r);
        }
        MergesIntoConcat(head, ProjectionScript(g, d.asset.urn, StatusTag(d.status), UpdatesFor(g, plan, d)).writes, place);
    }
    DecisionParts(g, plan, d);
    LastMergeIsOne(ws, place);
  }

  lemma {:induction false} NothingMerged(place: Place)
    ensures LastMerge([], place) == map[] && !MergesInto([], place)
  {
  }

  lemma {:induction false} PlanLastWriting(g: Graph, plan: PolicyPlan, ds: seq<AssetDecision>, place: Place)
    ensures LastMerge(PlanScript(g, plan, ds).writes, place) ==
      match LastWriting(g, ds, place) case None => map[] case Some(d) => UpdatesFor(g, plan, d)
    ensures MergesInto(PlanScript(g, plan, ds).writes, place) <==> LastWriting(g, ds, place).Some?
  {
    hide UpdatesFor, SupportedAsset, WritesTo, LastMerge, MergesInto;
    if ds == [] {
      NothingMerged(place);
    } else {
      PlanLastWriting(g, plan, ds[1..], place);
      if WritesBack(ds[0]) {
        var head, rest := DecisionScript(g, plan, ds[0]), PlanScript(g, plan, ds[1..]);
        hide DecisionScript;
        DecisionCompletes(g, plan, ds[0]);
        DecisionWritesTo(g, plan, ds[0], place);
        LastMergeConcat(head.writes, rest.writes, place);
        MergesIntoConcat(head.writes, rest.writes, place);
        LastMergeIsOne(head.writes, place);
      }
    }
  }

  /** After any enforcement a dataset or native aspect shows the decision that updated it last, key by
      key, over its other properties; without one it is as before. */
  lemma {:induction false} EnforceShows(g: Graph, plan: PolicyPlan, place: Place)
    requires Writable(g, place)
    ensures var before, after := PropsAt(g, place), PropsAt(DoAll(g, PlanScript(g, plan, plan.decisions).writes), place);
      match LastWriting(g, plan.decisions, place)
      case None => after == before
      case Some(d) => EnforcedProps(before, after, plan, d, PropsOf(g, d.asset.urn))
  {
    hide UpdatesFor, PlanScript, LastWriting, LastMerge, DoAll, PropsAt, EnforcedProps;
    EnforcedPlace(g, plan, place);
    PlanLastWriting(g, plan, plan.decisions, place);
    assert PropsAt(g, place) + map[] == PropsAt(g, place);
    var last := LastWriting(g, plan.decisions, place);
    if last.Some? { UpdatesRead(g, plan, last.value, PropsAt(g, place)); }
  }

  function BackCount(ds: seq<AssetDecision>): nat {
    if ds == [] then 0 else BackCount(ds[1..]) + (if WriteBack in ds[0].actions then 1 else 0)
  }

  lemma {:induction false} WrittenBackInOrder(ds: seq<AssetDecision>, i: nat)
    requires i < |ds|
    ensures |WrittenBack(ds)| == BackCount(ds)
    ensures WriteBack in ds[i].actions ==> BackCount(ds[..i]) < BackCount(ds) && WrittenBack(ds)[BackCount(ds[..i])] == ds[i]
  {
    if i == 0 {
      assert ds[..0] == [];
      if |ds| > 1 { WrittenBackInOrder(ds[1..], 0); } else { assert ds[1..] == []; }
    } else {
      WrittenBackInOrder(ds[1..], i - 1);
      assert ds[..i][1..] == ds[1..][..i - 1];
    }
  }

  /** The stored target list: the assets of the decisions that write back, in plan order, each as often as decided. */
  lemma {:induction false} ControlledInOrder(plan: PolicyPlan, i: nat)
    requires i < |plan.decisions|
    ensures var ds, urns := plan.decisions, Controlled(plan);
      && |urns| == BackCount(ds)
      && (WriteBack in ds[i].actions ==> BackCount(ds[..i]) < |urns| && urns[BackCount(ds[..i])] == ds[i].asset.urn)
  {
    WrittenBackInOrder(plan.decisions, i);
  }

  /** The receipts of a completed enforcement: one per written-back decision, in plan order, naming the
      incident, the asset, what was decided, and every native target of the asset in order. */
  lemma {:induction false} ReceiptsRead(g: Graph, plan: PolicyPlan, i: nat)
    requires Supported(g, plan.decisions) && i < |plan.decisions| && WriteBack in plan.decisions[i].actions
    ensures var ds := plan.decisions;
      var receipts, d, n := ReceiptsFor(g, plan, WrittenBack(ds)), ds[i], BackCount(ds[..i]);
      && |receipts| == BackCount(ds) && n < |receipts| && Targets(PropsOf(g, d.asset.urn)).Ok?
      && var r, targets := receipts[n], Targets(PropsOf(g, d.asset.urn)).value;
      && r.incidentId == plan.incidentId && r.urn == d.asset.urn && r.decision == d.decision && r.status == d.status
      && r.evidenceIds == d.evidenceIds && |r.nativeUrns| == |targets|
      && forall k :: 0 <= k < |targets| ==> r.nativeUrns[k] == targets[k].urn
  {
    hide Targets, WrittenBack;
    WrittenBackInOrder(plan.decisions, i);
    assert plan.decisions[i] in plan.decisions && WritesBack(plan.decisions[i]);
  }

  // ---------------------------------------------------------------- the values an evaluation leaves

  /** The latest report under an id is the one at this place. */
  predicate LatestAt(checks: seq<RecoveryCheck>, id: string, i: nat) {
    i < |checks| && checks[i].checkId == id && forall j :: i < j < |checks| ==> checks[j].checkId != id
  }

  ghost predicate LatestPasses(checks: seq<RecoveryCheck>, id: string) {
    exists i: nat :: LatestAt(checks, id, i) && checks[i].status == Pass
  }

  lemma {:induction false} LatestIsFound(checks: seq<RecoveryCheck>, id: string, i: nat)
    requires LatestAt(checks, id, i)
    ensures CheckFor(checks, id) == Some(checks[i])
  {
    var n := |checks| - 1;
    if i < n {
      assert LatestAt(checks[..n], id, i);
      LatestIsFound(checks[..n], id, i);
    }
  }

  lemma {:induction false} FoundIsLatest(checks: seq<RecoveryCheck>, id: string) returns (i: nat)
    requires CheckFor(checks, id).Some?
    ensures LatestAt(checks, id, i)
  {
    var n := |checks| - 1;
    if checks[n].checkId == id {
      i := n;
    } else {
      i := FoundIsLatest(checks[..n], id);
    }
  }

  lemma {:induction false} PassedReads(checks: seq<RecoveryCheck>, id: string)
    ensures Passed(checks, id) <==> LatestPasses(checks, id)
  {
    if Passed(checks, id) {
      var i := FoundIsLatest(checks, id);
      LatestIsFound(checks, id, i);
    }
    if LatestPasses(checks, id) {
      var i: nat :| LatestAt(checks, id, i) && checks[i].status == Pass;
      LatestIsFound(checks, id, i);
    }
  }

  /** Every required check is reported and its latest report passes. */
  ghost predicate AllPass(policy: RecoveryPolicy, checks: seq<RecoveryCheck>) {
    forall id :: id in policy.required ==> LatestPasses(checks, id)
  }

  ghost predicate Mentions(input: Inputs, e: string) {
    (exists i :: 0 <= i < |input.checks| && e in input.checks[i].evidenceIds)
    || (input.approval.Some? && e == input.approval.value.receiptId)
  }

  lemma {:induction false} FlattenReads(checks: seq<RecoveryCheck>, e: string)
    ensures e in FlattenEvidence(checks) <==> exists i :: 0 <= i < |checks| && e in checks[i].evidenceIds
  {
    if checks != [] {
      FlattenReads(checks[1..], e);
      if i :| 0 <= i < |checks| && e in checks[i].evidenceIds {
        if i > 0 { assert checks[1..][i - 1] == checks[i]; }
      }
      if e in FlattenEvidence(checks[1..]) {
        var i :| 0 <= i < |checks[1..]| && e in checks[1..][i].evidenceIds;
        assert checks[i + 1] == checks[1..][i];
      }
    }
  }

  /** A verdict read off the stored properties, the policy and the input alone. */
  lemma {:induction false} VerdictReads(p: Props, stored: seq<RecoveryRun>, policy: RecoveryPolicy, input: Inputs)
    requires Shows(p, RecoveryHistory, History(stored)) || (RecoveryHistory !in p && stored == [])
    ensures HistoryIn(p) == Ok(stored)
    ensures var v, clean := Judge(p, policy, input), AllPass(policy, input.checks);
      && v.history == stored + [RecoveryRun(clean, input.approval, input.checks)]
      && (v.resume <==> LastClean(v.history, Needed(policy)) || (clean && ApprovalResumes(policy, input)))
      && (v.resume ==> v.state == Resolved)
      && (!v.resume && clean ==> v.state == RecoveryPending)
      && (!v.resume && !clean ==> v.state == if Shows(p, IncidentStateKey, State(Quarantined)) then Quarantined else AtRisk)
      && (forall e :: e in v.evidence <==> Mentions(input, e)) && Distinct(v.evidence)
  {
    forall id ensures Passed(input.checks, id) <==> LatestPasses(input.checks, id) { PassedReads(input.checks, id); }
    assert Clean(policy, input.checks) <==> AllPass(policy, input.checks);
    var v := Judge(p, policy, input);
    HistoryResumes(policy, v.history);
    forall e ensures e in v.evidence <==> Mentions(input, e) { FlattenReads(input.checks, e); }
  }

  /** When an evaluation is refused: no incident on the control asset, another one expected, or an unreadable history. */
  lemma {:induction false} RefusalReads(g: Graph, control: Urn, input: Inputs)
    ensures Refusal(g, control, input).None? <==>
      var p := PropsOf(g, control);
      && IncidentId in p && p[IncidentId].Text? && p[IncidentId].text != ""
      && (input.expectedIncident.Some? ==> input.expectedIncident.value == p[IncidentId].text)
      && (RecoveryHistory in p ==> p[RecoveryHistory].History?)
  {
  }

  predicate ControlEvaluated(before: Props, after: Props, v: Verdict) {
    && Shows(after, IncidentStateKey, State(v.state))
    && Shows(after, StatusKey, LowerState(v.state))
    && Shows(after, RecoveryHistory, History(v.history))
    && Shows(after, RecoveryEvidenceIds, Ids(v.evidence))
    && Shows(after, ResumeAuthorized, Flag(v.resume))
    && (v.resume ==>
      && Shows(after, PolicyDecisionKey, Decision(Allow))
      && Shows(after, CatalogStatusKey, State(Resolved))
      && Shows(after, EnforcementActions, Actions([])))
    && SameBut(before, after,
      {IncidentStateKey, StatusKey, RecoveryHistory, RecoveryEvidenceIds, ResumeAuthorized}
      + if v.resume then {PolicyDecisionKey, CatalogStatusKey, EnforcementActions} else {})
  }

  predicate ResolvedProps(before: Props, after: Props, evidence: seq<string>) {
    && Shows(after, IncidentStateKey, State(Resolved))
    && Shows(after, StatusKey, LowerState(Resolved))
    && Shows(after, PolicyDecisionKey, Decision(Allow))
    && Shows(after, CatalogStatusKey, State(Resolved))
    && Shows(after, EnforcementActions, Actions([]))
    && Shows(after, ResumeAuthorized, Flag(true))
    && Shows(after, RecoveryEvidenceIds, Ids(evidence))
    && SameBut(before, after, {IncidentStateKey, StatusKey, PolicyDecisionKey, CatalogStatusKey, EnforcementActions,
      ResumeAuthorized, RecoveryEvidenceIds})
  }

  lemma {:induction false} ControlUpdateReads(before: Props, v: Verdict)
    ensures ControlEvaluated(before, before + RecoveryUpdates(v.state, v.history, v.evidence, v.resume), v)
  {
  }

  lemma {:induction false} ResolvedUpdateReads(before: Props, evidence: seq<string>)
    ensures ResolvedProps(before, before + ResolvedUpdates(evidence), evidence)
  {
  }

  /** The resume gets to merging into this native aspect. */
  predicate NativeResolved(g: Graph, urns: seq<Urn>, r: NativeRef) {
    urns != [] && (AssetMirrors(g, urns[0], r) || (SupportedAsset(g, urns[0]) && NativeResolved(g, urns[1..], r)))
  }

  /** The places, other than the control asset, that a resume over these assets gets to. */
  predicate PlaceResolved(g: Graph, urns: seq<Urn>, place: Place) {
    match place
    case DatasetAt(u) => ResolveReaches(g, urns, u)
    case NativeAt(r) => NativeResolved(g, urns, r)
  }

  lemma {:induction false} ResolveOneMirrors(g: Graph, control: Urn, urn: Urn, evidence: seq<string>, r: NativeRef)
    ensures MergesInto(ResolveScript(g, control, urn, evidence).writes, NativeAt(r)) <==> AssetMirrors(g, urn, r)
  {
    hide ResolvedUpdates, TargetMerged;
    var targets := Targets(PropsOf(g, urn));
    assert !MergesInto(ResolveHead(control, urn, evidence), NativeAt(r));
    if targets.Ok? {
      MirrorMerges(g.natives.Keys, targets.value, Some(ResolvedTag), ResolvedUpdates(evidence), r);
    }
    MergesIntoConcat(ResolveHead(control, urn, evidence), ProjectionScript(g, urn, Some(ResolvedTag), ResolvedUpdates(evidence)).writes, NativeAt(r));
  }

  lemma {:induction false} ResolveMirrors(g: Graph, control: Urn, urns: seq<Urn>, evidence: seq<string>, r: NativeRef)
    ensures MergesInto(ResolveAll(g, control, urns, evidence).writes, NativeAt(r)) <==> NativeResolved(g, urns, r)
  {
    hide ResolveScript, SupportedAsset, AssetMirrors;
    if urns != [] {
      ResolveCompletes(g, control, urns[0], evidence);
      ResolveOneMirrors(g, control, urns[0], evidence, r);
      ResolveMirrors(g, control, urns[1..], evidence, r);
      MergesIntoConcat(ResolveScript(g, control, urns[0], evidence).writes, ResolveAll(g, control, urns[1..], evidence).writes, NativeAt(r));
    }
  }

  lemma {:induction false} EvaluationMerges(g: Graph, control: Urn, policy: RecoveryPolicy, input: Inputs, place: Place)
    requires place != DatasetAt(control)
    ensures var ws := EvaluateScript(g, control, policy, input).writes;
      && (MergesInto(ws, place) <==>
          Resumes(g, control, Evaluated(policy, input)) && PlaceResolved(g, ResumeList(g, control), place))
      && (MergesInto(ws, place) ==>
        forall w :: w in ws && w.Merge? && w.place == place ==>
          w.updates == ResolvedUpdates(Judge(PropsOf(g, control), policy, input).evidence))
  {
    hide ResolveAll, ResolvedUpdates, RecoveryUpdates, SupportedAsset, AssetMirrors, Judge;
    if Refusal(g, control, input).None? {
      var v := Judge(PropsOf(g, control), policy, input);
      var head := Merge(DatasetAt(control), RecoveryUpdates(v.state, v.history, v.evidence, v.resume));
      assert !MergesInto([head], place);
      var urns := ControlledIn(PropsOf(g, control), control);
      if v.resume && urns.Ok? {
        match place {
          case DatasetAt(u) => ResolveMerges(g, control, urns.value, v.evidence, u);
          case NativeAt(r) => ResolveMirrors(g, control, urns.value, v.evidence, r);
        }
        ResolveAllParts(g, control, urns.value, v.evidence);
        MergesIntoConcat([head], ResolveAll(g, control, urns.value, v.evidence).writes, place);
      }
    }
  }

  lemma {:induction false} ControlShows(g: Graph, control: Urn, policy: RecoveryPolicy, input: Inputs)
    requires Refusal(g, control, input).None?
    ensures var place := DatasetAt(control);
      var before, after := PropsAt(g, place), PropsAt(DoAll(g, EvaluateScript(g, control, policy, input).writes), place);
      ControlEvaluated(before, after, Judge(PropsOf(g, control), policy, input))
  {
    hide ControlEvaluated, EvaluateScript, RecoveryUpdates, DoAll, Judge;
    EvaluatedControl(g, control, policy, input);
    ControlUpdateReads(PropsOf(g, control), Judge(PropsOf(g, control), policy, input));
  }

  lemma {:induction false} OtherPlaceShows(g: Graph, control: Urn, policy: RecoveryPolicy, input: Inputs, place: Place)
    requires Writable(g, place) && Refusal(g, control, input).None? && place != DatasetAt(control)
    ensures var v := Judge(PropsOf(g, control), policy, input);
      var before, after := PropsAt(g, place), PropsAt(DoAll(g, EvaluateScript(g, control, policy, input).writes), place);
      if v.resume && PlaceResolved(g, ResumeList(g, control), place) then ResolvedProps(before, after, v.evidence)
      else after == before
  {
    hide ResolvedProps, EvaluateScript, ResolvedUpdates, PlaceResolved, ResumeList, LastMerge, MergesInto, DoAll, Judge, PropsAt, Writable;
    var v, ws := Judge(PropsOf(g, control), policy, input), EvaluateScript(g, control, policy, input).writes;
    EvaluationMerges(g, control, policy, input, place);
    if MergesInto(ws, place) {
      MergedPlaceShows(g, ws, place, ResolvedUpdates(v.evidence));
      ResolvedUpdateReads(PropsAt(g, place), v.evidence);
    } else {
      NotMerged(ws, place);
      UnwrittenPlaceStays(g, ws, place);
    }
  }

  /** A place into which only one update is ever merged. */
  lemma {:induction false} MergedPlaceShows(g: Graph, ws: seq<Write>, place: Place, updates: Props)
    requires Writable(g, place) && MergesInto(ws, place)
    requires forall w :: w in ws && w.Merge? && w.place == place ==> w.updates == updates
    ensures PropsAt(DoAll(g, ws), place) == PropsAt(g, place) + updates
  {
    hide DoAll, PropsAt, MergesInto, LastMerge;
    LastMergeIsOne(ws, place);
    LastMergeWins(g, ws, place, updates.Keys);
  }

  /** After any accepted evaluation the control asset shows its verdict, every place the resume gets to
      shows the resolved values, key by key, and nothing else changed. */
  lemma {:induction false} EvaluationShows(g: Graph, control: Urn, policy: RecoveryPolicy, input: Inputs, place: Place)
    requires Writable(g, place) && Refusal(g, control, input).None?
    ensures var v := Judge(PropsOf(g, control), policy, input);
      var before, after := PropsAt(g, place), PropsAt(DoAll(g, EvaluateScript(g, control, policy, input).writes), place);
      if place == DatasetAt(control) then ControlEvaluated(before, after, v)
      else if v.resume && PlaceResolved(g, ResumeList(g, control), place) then ResolvedProps(before, after, v.evidence)
      else after == before
  {
    hide *;
    if place == DatasetAt(control) {
      ControlShows(g, control, policy, input);
    } else {
      OtherPlaceShows(g, control, policy, input, place);
    }
  }

  lemma {:induction false} NotMerged(ws: seq<Write>, place: Place)
    requires !MergesInto(ws, place)
    ensures forall w :: w in ws ==> !(w.Merge? && w.place == place)
  {
  }

  // ---------------------------------------------------------------- evidence in order of first mention

  /** Duplicates are dropped in place: of two kept elements, the one listed first is mentioned first. */
  lemma {:induction false} DedupeInOrder<T(!new)>(s: seq<T>, i: nat, j: nat)
    requires i < j < |Dedupe(s)|
    ensures exists n :: 0 <= n < |s| && s[n] == Dedupe(s)[i] && Dedupe(s)[j] !in s[..n + 1]
  {
    var init, last := s[..|s| - 1], s[|s| - 1];
    if j < |Dedupe(init)| {
      DedupeInOrder(init, i, j);
      var n :| 0 <= n < |init| && init[n] == Dedupe(init)[i] && Dedupe(init)[j] !in init[..n + 1];
      assert s[..n + 1] == init[..n + 1];
    } else {
      assert Dedupe(init)[i] in init;
      var n :| 0 <= n < |init| && init[n] == Dedupe(init)[i];
      assert s[..n + 1] == init[..n + 1];
      assert forall x :: x in init[..n + 1] ==> x in init;
    }
  }

  lemma {:induction false} FlattenInOrder(checks: seq<RecoveryCheck>, i: nat)
    requires i < |checks|
    ensures FlattenEvidence(checks) == FlattenEvidence(checks[..i]) + checks[i].evidenceIds + FlattenEvidence(checks[i + 1..])
    ensures FlattenEvidence([]) == []
  {
    if i == 0 {
      assert checks[..0] == [] && FlattenEvidence(checks[..0]) == [];
    } else {
      FlattenInOrder(checks[1..], i - 1);
      assert checks[..i][1..] == checks[1..][..i - 1];
      assert checks[1..][i..] == checks[i + 1..];
    }
  }
}
