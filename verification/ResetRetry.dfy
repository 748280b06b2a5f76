/** What a reset that stopped part-way looks like, and what running it again achieves. */
module ResetRetry {
  import opened Common
  import opened MetadataGraph
  import opened OverlayWrites
  import opened Enforcement
  import opened Reset

  /** Two catalogs with the same aspects, bodies and tag aspects. */
  predicate SameShape(a: Graph, b: Graph) {
    && a.datasets.Keys == b.datasets.Keys
    && (forall u :: u in a.datasets ==> a.datasets[u].name == b.datasets[u].name && a.datasets[u].body == b.datasets[u].body)
    && a.natives.Keys == b.natives.Keys
    && (forall r :: r in a.natives ==> a.natives[r].body == b.natives[r].body)
    && a.tags.Keys == b.tags.Keys
  }

  lemma {:induction false} CleaningKeepsShape(g: Graph, ops: seq<CleanUp>)
    ensures SameShape(g, CleanAll(g, ops))
  {
    if ops != [] {
      CleaningKeepsShape(g, ops[..|ops| - 1]);
      OneCleanUpKeepsShape(CleanAll(g, ops[..|ops| - 1]), ops[|ops| - 1]);
    }
  }

  lemma {:induction false} OneCleanUpKeepsShape(g: Graph, op: CleanUp)
    ensures SameShape(g, CleanProps(g, op)) && SameShape(CleanProps(g, op), Clean(g, op))
  {
  }

  lemma {:induction false} SameViewsSameGraph(a: Graph, b: Graph)
    requires SameShape(a, b)
    requires forall p :: PropsAt(a, p) == PropsAt(b, p)
    requires forall u :: TagsOf(a, u) == TagsOf(b, u)
    requires a.artifacts == b.artifacts
    ensures a == b
  {
    forall u | u in a.datasets ensures a.datasets[u] == b.datasets[u] {
      assert PropsAt(a, DatasetAt(u)) == PropsAt(b, DatasetAt(u));
    }
    forall r | r in a.natives ensures a.natives[r] == b.natives[r] {
      assert PropsAt(a, NativeAt(r)) == PropsAt(b, NativeAt(r));
    }
    forall u | u in a.tags ensures a.tags[u] == b.tags[u] {
      assert TagsOf(a, u) == TagsOf(b, u);
    }
    assert a.datasets == b.datasets;
    assert a.natives == b.natives;
    assert a.tags == b.tags;
  }

  // ---------------------------------------------------------------- membership of a plan

  predicate IsOp(plan: Plan, op: CleanUp) {
    match op
    case CleanNative(ref) => ref in plan.natives
    case DeleteArtifact(a) => a in plan.artifacts
    case CleanDataset(u) => u in plan.datasets
  }

  lemma {:induction false} OpsMembers(plan: Plan)
    ensures forall op :: op in Ops(plan) <==> IsOp(plan, op)
  {
    var ns, as_, ds := NativeOps(plan.natives), ArtifactOps(plan.artifacts), DatasetOps(plan.datasets);
    forall op ensures op in Ops(plan) <==> IsOp(plan, op) {
      assert op in Ops(plan) <==> op in ns || op in as_ || op in ds;
      match op
      case CleanNative(ref) =>
        if ref in plan.natives { var i :| 0 <= i < |plan.natives| && plan.natives[i] == ref; assert ns[i] == op; }
      case DeleteArtifact(a) =>
        if a in plan.artifacts { var i :| 0 <= i < |plan.artifacts| && plan.artifacts[i] == a; assert as_[i] == op; }
      case CleanDataset(u) =>
        if u in plan.datasets { var i :| 0 <= i < |plan.datasets| && plan.datasets[i] == u; assert ds[i] == op; }
    }
  }

  lemma {:induction false} OpsDistinct(plan: Plan)
    requires Distinct(plan.natives) && Distinct(plan.artifacts) && Distinct(plan.datasets)
    ensures Distinct(Ops(plan))
  {
  }

  lemma {:induction false} PlanShape(g: Graph, control: Urn, incidentId: string)
    requires PlanReset(g, control, incidentId).Ok?
    ensures var plan, listed := PlanReset(g, control, incidentId).value, ControlledList(PropsOf(g, control), control);
      && BelongsTo(PropsOf(g, control), incidentId) && listed.Ok? && control in listed.value
      && var owned := Owned(g, incidentId, listed.value);
      && AllTargets(g, owned).Ok?
      && plan.natives == OwnedNatives(g, incidentId, Dedupe(AllTargets(g, owned).value))
      && plan.artifacts == OwnedArtifacts(g, incidentId)
      && plan.datasets == Except(owned, control) + [control]
  {
    assert control in [control];
    hide Owned, AllTargets, OwnedNatives, OwnedArtifacts, Except, BelongsTo;
  }

  lemma {:induction false} PlanDatasets(g: Graph, control: Urn, incidentId: string)
    requires PlanReset(g, control, incidentId).Ok?
    ensures var plan, listed := PlanReset(g, control, incidentId).value, ControlledList(PropsOf(g, control), control);
      && listed.Ok? && control in listed.value
      && (forall u :: u in plan.datasets <==> u in listed.value && BelongsTo(PropsOf(g, u), incidentId))
      && (forall u :: u in plan.datasets ==> Targets(PropsOf(g, u)).Ok?)
      && (forall u :: u in plan.datasets <==> u in Owned(g, incidentId, listed.value))
  {
    hide PlanReset, Owned, AllTargets, BelongsTo, Targets, OwnedNatives, OwnedArtifacts;
    PlanShape(g, control, incidentId);
    var plan := PlanReset(g, control, incidentId).value;
    var owned := Owned(g, incidentId, ControlledList(PropsOf(g, control), control).value);
    AllTargetsMembers(g, owned);
    forall u ensures u in plan.datasets <==> u in owned {
      assert u in plan.datasets <==> u in Except(owned, control) || u == control;
    }
  }

  lemma {:induction false} PlanMembers(g: Graph, control: Urn, incidentId: string)
    requires PlanReset(g, control, incidentId).Ok?
    ensures var plan := PlanReset(g, control, incidentId).value;
      var listed := ControlledList(PropsOf(g, control), control);
      && listed.Ok? && control in listed.value
      && (forall u :: u in plan.datasets <==> u in listed.value && BelongsTo(PropsOf(g, u), incidentId))
      && (forall u :: u in plan.datasets ==> Targets(PropsOf(g, u)).Ok?)
      && (forall r :: r in plan.natives <==>
        BelongsTo(NativePropsOf(g, r), incidentId) && exists u :: u in plan.datasets && TargetOf(g, u, r))
      && (forall a :: a in plan.artifacts <==> a in g.artifacts && a in [IncidentArtifact(incidentId), DecisionLogArtifact(incidentId)])
      && Distinct(Ops(plan))
      && Ops(plan) != [] && Ops(plan)[|Ops(plan)| - 1] == CleanDataset(control)
  {
    hide PlanReset, Owned, AllTargets, BelongsTo, Targets, OwnedNatives, Distinct;
    PlanShape(g, control, incidentId);
    PlanDatasets(g, control, incidentId);
    var plan := PlanReset(g, control, incidentId).value;
    var owned := Owned(g, incidentId, ControlledList(PropsOf(g, control), control).value);
    AllTargetsMembers(g, owned);
    var refs := AllTargets(g, owned).value;
    forall r ensures r in plan.natives <==> r in refs && BelongsTo(NativePropsOf(g, r), incidentId) {
      OwnedNativesMembers(g, incidentId, Dedupe(refs), r);
    }
    PlanIsDistinct(g, control, incidentId);
    OpsDistinct(plan);
  }

  // ---------------------------------------------------------------- stopping part-way

  /** Reset stopped after `i` whole cleanups and, if `half`, after the first write of the next. */
  function Stopped(g: Graph, ops: seq<CleanUp>, i: nat, half: bool): Graph
    requires i <= |ops| && (half ==> i < |ops|)
  {
    if half then CleanProps(CleanAll(g, ops[..i]), ops[i]) else CleanAll(g, ops[..i])
  }

  function Begun(i: nat, half: bool): nat {
    if half then i + 1 else i
  }

  lemma {:induction false} StoppedProps(g: Graph, ops: seq<CleanUp>, i: nat, half: bool, p: Place)
    requires i <= |ops| && (half ==> i < |ops|)
    ensures PropsAt(Stopped(g, ops, i, half), p) ==
      if Covers(ops[..Begun(i, half)], p) then BaseProps(PropsAt(g, p)) else PropsAt(g, p)
  {
    CleanedPlace(g, ops[..Begun(i, half)], p);
    if half {
      assert ops[..i + 1] == ops[..i] + [ops[i]];
      CleanAllSnoc(g, ops[..i], ops[i]);
      var mid := CleanProps(CleanAll(g, ops[..i]), ops[i]);
      CleanPropsAt(mid, ops[i], p);
    }
  }

  lemma {:induction false} StoppedTags(g: Graph, ops: seq<CleanUp>, i: nat, half: bool, u: Urn)
    requires i <= |ops| && (half ==> i < |ops|)
    ensures TagsOf(Stopped(g, ops, i, half), u) ==
      if CoversEntity(ops[..i], u) then BaseTags(TagsOf(g, u)) else TagsOf(g, u)
  {
    CleanedEntity(g, ops[..i], u);
    if half {
      CleanTagsAt(CleanAll(g, ops[..i]), ops[i], u);
    }
  }

  lemma {:induction false} StoppedArtifacts(g: Graph, ops: seq<CleanUp>, i: nat, half: bool)
    requires i <= |ops| && (half ==> i < |ops|)
    ensures var gm, begun := Stopped(g, ops, i, half), ops[..Begun(i, half)];
      && (forall a :: a in gm.artifacts <==> a in g.artifacts && DeleteArtifact(a) !in begun)
      && (forall a :: a in gm.artifacts ==> gm.artifacts[a] == g.artifacts[a])
  {
    CleanedArtifacts(g, ops[..Begun(i, half)]);
    if half {
      assert ops[..i + 1] == ops[..i] + [ops[i]];
      CleanAllSnoc(g, ops[..i], ops[i]);
    }
  }

  lemma {:induction false} StoppedShape(g: Graph, ops: seq<CleanUp>, i: nat, half: bool)
    requires i <= |ops| && (half ==> i < |ops|)
    ensures SameShape(g, Stopped(g, ops, i, half))
  {
    CleaningKeepsShape(g, ops[..i]);
    if half {
      OneCleanUpKeepsShape(CleanAll(g, ops[..i]), ops[i]);
    }
  }

  // ---------------------------------------------------------------- planning again

  /** What a stop before the control asset leaves for planning: ownership of everything not begun. */
  lemma {:induction false} StillOwned(g: Graph, ops: seq<CleanUp>, i: nat, half: bool, incidentId: string, p: Place)
    requires i <= |ops| && (half ==> i < |ops|)
    ensures BelongsTo(PropsAt(Stopped(g, ops, i, half), p), incidentId)
       <==> BelongsTo(PropsAt(g, p), incidentId) && !Covers(ops[..Begun(i, half)], p)
  {
    StoppedProps(g, ops, i, half, p);
  }

  lemma {:induction false} SameTargets(g: Graph, ops: seq<CleanUp>, i: nat, half: bool, u: Urn)
    requires i <= |ops| && (half ==> i < |ops|)
    ensures Targets(PropsOf(Stopped(g, ops, i, half), u)) == Targets(PropsOf(g, u))
  {
    StoppedProps(g, ops, i, half, DatasetAt(u));
    assert BaseProps(BaseProps(PropsOf(g, u))) == BaseProps(PropsOf(g, u));
    TargetsIgnoreOverlay(PropsAt(Stopped(g, ops, i, half), DatasetAt(u)), PropsAt(g, DatasetAt(u)));
  }

  /** Natives come first: while one is pending, no dataset has begun. */
  lemma {:induction false} NativesFirst(plan: Plan, n: nat, ref: NativeRef, u: Urn)
    requires n <= |Ops(plan)| && Distinct(Ops(plan))
    requires ref in plan.natives && CleanNative(ref) !in Ops(plan)[..n]
    ensures CleanDataset(u) !in Ops(plan)[..n]
  {
    var ops := Ops(plan);
    var i :| 0 <= i < |plan.natives| && plan.natives[i] == ref;
    assert ops[i] == NativeOps(plan.natives)[i] == CleanNative(ref);
    assert n <= i;
    forall j | 0 <= j < n ensures ops[..n][j] != CleanDataset(u) {
      assert ops[j] == NativeOps(plan.natives)[j];
    }
  }

  lemma {:induction false} CoverIsMembership(plan: Plan, ops: seq<CleanUp>)
    ensures forall u :: Covers(ops, DatasetAt(u)) <==> CleanDataset(u) in ops
    ensures forall r :: Covers(ops, NativeAt(r)) <==> CleanNative(r) in ops
  {
    forall u ensures Covers(ops, DatasetAt(u)) <==> CleanDataset(u) in ops {
      assert Cleans(CleanDataset(u), DatasetAt(u));
    }
    forall r ensures Covers(ops, NativeAt(r)) <==> CleanNative(r) in ops {
      assert Cleans(CleanNative(r), NativeAt(r));
    }
  }

  /** The control asset is cleaned by the last step, so ownership and the target list survive. */
  lemma {:induction false} ControlSurvives(g: Graph, control: Urn, incidentId: string, i: nat, half: bool)
    requires PlanReset(g, control, incidentId).Ok?
    requires i <= |Ops(PlanReset(g, control, incidentId).value)|
    requires Begun(i, half) < |Ops(PlanReset(g, control, incidentId).value)|
    ensures PropsOf(Stopped(g, Ops(PlanReset(g, control, incidentId).value), i, half), control) == PropsOf(g, control)
  {
    var ops := Ops(PlanReset(g, control, incidentId).value);
    PlanMembers(g, control, incidentId);
    var begun := ops[..Begun(i, half)];
    CoverIsMembership(PlanReset(g, control, incidentId).value, begun);
    assert CleanDataset(control) !in begun;
    StoppedProps(g, ops, i, half, DatasetAt(control));
  }

  lemma {:induction false} ArtifactsStillOwned(g: Graph, control: Urn, incidentId: string, i: nat, half: bool)
    requires PlanReset(g, control, incidentId).Ok?
    requires i <= |Ops(PlanReset(g, control, incidentId).value)|
    requires Begun(i, half) < |Ops(PlanReset(g, control, incidentId).value)|
    ensures ForeignArtifacts(Stopped(g, Ops(PlanReset(g, control, incidentId).value), i, half), incidentId).None?
  {
    StoppedArtifacts(g, Ops(PlanReset(g, control, incidentId).value), i, half);
  }

  /** The cleanups of `ops` that had not begun. */
  ghost predicate Pending(ops: seq<CleanUp>, n: nat, again: seq<CleanUp>)
    requires n <= |ops|
  {
    forall op :: op in again <==> op in ops && op !in ops[..n]
  }

  lemma {:induction false} ReplanAccepts(g: Graph, control: Urn, incidentId: string, i: nat, half: bool)
    requires PlanReset(g, control, incidentId).Ok?
    requires i <= |Ops(PlanReset(g, control, incidentId).value)|
    requires Begun(i, half) < |Ops(PlanReset(g, control, incidentId).value)|
    ensures PlanReset(Stopped(g, Ops(PlanReset(g, control, incidentId).value), i, half), control, incidentId).Ok?
  {
    var ops := Ops(PlanReset(g, control, incidentId).value);
    var gm := Stopped(g, ops, i, half);
    PlanMembers(g, control, incidentId);
    ControlSurvives(g, control, incidentId, i, half);
    ArtifactsStillOwned(g, control, incidentId, i, half);
    var listed := ControlledList(PropsOf(g, control), control).value;
    var owned := Owned(gm, incidentId, listed);
    forall u | u in owned ensures Targets(PropsOf(gm, u)).Ok? {
      StillOwned(g, ops, i, half, incidentId, DatasetAt(u));
      assert BelongsTo(PropsAt(gm, DatasetAt(u)), incidentId);
      SameTargets(g, ops, i, half, u);
    }
    AllTargetsMembers(gm, owned);
  }

  lemma {:induction false} ReplanDatasets(g: Graph, control: Urn, incidentId: string, i: nat, half: bool, u: Urn)
    requires PlanReset(g, control, incidentId).Ok?
    requires i <= |Ops(PlanReset(g, control, incidentId).value)|
    requires Begun(i, half) < |Ops(PlanReset(g, control, incidentId).value)|
    ensures var plan := PlanReset(g, control, incidentId).value;
      var again := PlanReset(Stopped(g, Ops(plan), i, half), control, incidentId);
      again.Ok? && (u in again.value.datasets <==> u in plan.datasets && CleanDataset(u) !in Ops(plan)[..Begun(i, half)])
  {
    var ops := Ops(PlanReset(g, control, incidentId).value);
    ReplanAccepts(g, control, incidentId, i, half);
    PlanMembers(g, control, incidentId);
    PlanMembers(Stopped(g, ops, i, half), control, incidentId);
    ControlSurvives(g, control, incidentId, i, half);
    StillOwned(g, ops, i, half, incidentId, DatasetAt(u));
    CoverIsMembership(PlanReset(g, control, incidentId).value, ops[..Begun(i, half)]);
  }

  lemma {:induction false} ReplanNatives(g: Graph, control: Urn, incidentId: string, i: nat, half: bool, r: NativeRef)
    requires PlanReset(g, control, incidentId).Ok?
    requires i <= |Ops(PlanReset(g, control, incidentId).value)|
    requires Begun(i, half) < |Ops(PlanReset(g, control, incidentId).value)|
    ensures var plan := PlanReset(g, control, incidentId).value;
      var again := PlanReset(Stopped(g, Ops(plan), i, half), control, incidentId);
      again.Ok? && (r in again.value.natives <==> r in plan.natives && CleanNative(r) !in Ops(plan)[..Begun(i, half)])
  {
    var plan := PlanReset(g, control, incidentId).value;
    var ops := Ops(plan);
    var gm := Stopped(g, ops, i, half);
    ReplanAccepts(g, control, incidentId, i, half);
    var again := PlanReset(gm, control, incidentId).value;
    PlanMembers(g, control, incidentId);
    PlanMembers(gm, control, incidentId);
    StillOwned(g, ops, i, half, incidentId, NativeAt(r));
    CoverIsMembership(plan, ops[..Begun(i, half)]);
    if r in plan.natives && CleanNative(r) !in ops[..Begun(i, half)] {
      var u :| u in plan.datasets && TargetOf(g, u, r);
      NativesFirst(plan, Begun(i, half), r, u);
      ReplanDatasets(g, control, incidentId, i, half, u);
      SameTargets(g, ops, i, half, u);
      assert u in again.datasets && TargetOf(gm, u, r);
    }
    if r in again.natives {
      var u :| u in again.datasets && TargetOf(gm, u, r);
      ReplanDatasets(g, control, incidentId, i, half, u);
      SameTargets(g, ops, i, half, u);
      assert u in plan.datasets && TargetOf(g, u, r);
    }
  }

  lemma {:induction false} ReplanArtifacts(g: Graph, control: Urn, incidentId: string, i: nat, half: bool, a: ArtifactRef)
    requires PlanReset(g, control, incidentId).Ok?
    requires i <= |Ops(PlanReset(g, control, incidentId).value)|
    requires Begun(i, half) < |Ops(PlanReset(g, control, incidentId).value)|
    ensures var plan := PlanReset(g, control, incidentId).value;
      var again := PlanReset(Stopped(g, Ops(plan), i, half), control, incidentId);
      again.Ok? && (a in again.value.artifacts <==> a in plan.artifacts && DeleteArtifact(a) !in Ops(plan)[..Begun(i, half)])
  {
    var ops := Ops(PlanReset(g, control, incidentId).value);
    ReplanAccepts(g, control, incidentId, i, half);
    PlanMembers(g, control, incidentId);
    PlanMembers(Stopped(g, ops, i, half), control, incidentId);
    StoppedArtifacts(g, ops, i, half);
  }

  lemma {:induction false} ReplanOp(g: Graph, control: Urn, incidentId: string, i: nat, half: bool, op: CleanUp)
    requires PlanReset(g, control, incidentId).Ok?
    requires i <= |Ops(PlanReset(g, control, incidentId).value)|
    requires Begun(i, half) < |Ops(PlanReset(g, control, incidentId).value)|
    ensures var plan := PlanReset(g, control, incidentId).value;
      var again := PlanReset(Stopped(g, Ops(plan), i, half), control, incidentId);
      again.Ok? && (IsOp(again.value, op) <==> IsOp(plan, op) && op !in Ops(plan)[..Begun(i, half)])
  {
    match op
    case CleanNative(r) => ReplanNatives(g, control, incidentId, i, half, r);
    case DeleteArtifact(a) => ReplanArtifacts(g, control, incidentId, i, half, a);
    case CleanDataset(u) => ReplanDatasets(g, control, incidentId, i, half, u);
  }

  /** Planning again after a stop yields exactly the cleanups that had not begun. */
  lemma {:induction false} Replan(g: Graph, control: Urn, incidentId: string, i: nat, half: bool)
    requires PlanReset(g, control, incidentId).Ok?
    requires i <= |Ops(PlanReset(g, control, incidentId).value)|
    requires Begun(i, half) < |Ops(PlanReset(g, control, incidentId).value)|
    ensures var ops := Ops(PlanReset(g, control, incidentId).value);
      var again := PlanReset(Stopped(g, ops, i, half), control, incidentId);
      again.Ok? && Pending(ops, Begun(i, half), Ops(again.value)) && Distinct(ops)
  {
    var plan := PlanReset(g, control, incidentId).value;
    PlanMembers(g, control, incidentId);
    ReplanAccepts(g, control, incidentId, i, half);
    var again := PlanReset(Stopped(g, Ops(plan), i, half), control, incidentId).value;
    OpsMembers(plan);
    OpsMembers(again);
    forall op ensures op in Ops(again) <==> op in Ops(plan) && op !in Ops(plan)[..Begun(i, half)] {
      ReplanOp(g, control, incidentId, i, half, op);
    }
  }

  // ---------------------------------------------------------------- running again

  lemma {:induction false} RerunProps(g: Graph, ops: seq<CleanUp>, i: nat, half: bool, again: seq<CleanUp>, p: Place)
    requires i <= |ops| && (half ==> i < |ops|) && Pending(ops, Begun(i, half), again)
    ensures PropsAt(CleanAll(Stopped(g, ops, i, half), again), p) == PropsAt(CleanAll(g, ops), p)
  {
    var begun := ops[..Begun(i, half)];
    StoppedProps(g, ops, i, half, p);
    CleanedPlace(Stopped(g, ops, i, half), again, p);
    CleanedPlace(g, ops, p);
    if Covers(ops, p) {
      var op :| op in ops && Cleans(op, p);
      assert op in begun || op in again;
    }
    assert BaseProps(BaseProps(PropsAt(g, p))) == BaseProps(PropsAt(g, p));
  }

  lemma {:induction false} RerunArtifacts(g: Graph, ops: seq<CleanUp>, i: nat, half: bool, again: seq<CleanUp>)
    requires i <= |ops| && (half ==> i < |ops|) && Pending(ops, Begun(i, half), again)
    ensures CleanAll(Stopped(g, ops, i, half), again).artifacts == CleanAll(g, ops).artifacts
  {
    StoppedArtifacts(g, ops, i, half);
    CleanedArtifacts(Stopped(g, ops, i, half), again);
    CleanedArtifacts(g, ops);
    var begun := ops[..Begun(i, half)];
    assert forall a :: DeleteArtifact(a) in ops <==> DeleteArtifact(a) in begun || DeleteArtifact(a) in again;
  }

  lemma {:induction false} RerunTagsHold(g: Graph, ops: seq<CleanUp>, i: nat, half: bool, again: seq<CleanUp>, u: Urn)
    requires i <= |ops| && (half ==> i < |ops|) && Pending(ops, Begun(i, half), again) && Distinct(ops)
    ensures TagsOf(CleanAll(Stopped(g, ops, i, half), again), u) == RerunTags(g, ops, i, half, u)
  {
    StoppedTags(g, ops, i, half, u);
    CleanedEntity(Stopped(g, ops, i, half), again, u);
    BaseIsStable(TagsOf(g, u));
  }

  /** A rerun ends as an uninterrupted reset exactly when no tag list was missed. */
  lemma {:induction false} RerunIsFull(g: Graph, control: Urn, incidentId: string, i: nat, half: bool)
    requires PlanReset(g, control, incidentId).Ok?
    requires i <= |Ops(PlanReset(g, control, incidentId).value)|
    requires Begun(i, half) < |Ops(PlanReset(g, control, incidentId).value)|
    ensures var ops := Ops(PlanReset(g, control, incidentId).value);
      var gm := Stopped(g, ops, i, half);
      var again := PlanReset(gm, control, incidentId);
      && again.Ok?
      && (CleanAll(gm, Ops(again.value)) == CleanAll(g, ops) <==>
          forall u :: RerunTags(g, ops, i, half, u) == TagsOf(CleanAll(g, ops), u))
  {
    hide PlanReset, Ops, Stopped, CleanAll, RerunTags;
    var ops := Ops(PlanReset(g, control, incidentId).value);
    var gm := Stopped(g, ops, i, half);
    Replan(g, control, incidentId, i, half);
    var again := Ops(PlanReset(gm, control, incidentId).value);
    var end, full := CleanAll(gm, again), CleanAll(g, ops);
    forall u ensures TagsOf(end, u) == RerunTags(g, ops, i, half, u) {
      RerunTagsHold(g, ops, i, half, again, u);
    }
    if forall u :: RerunTags(g, ops, i, half, u) == TagsOf(full, u) {
      StoppedShape(g, ops, i, half);
      CleaningKeepsShape(gm, again);
      CleaningKeepsShape(g, ops);
      forall p ensures PropsAt(end, p) == PropsAt(full, p) {
        RerunProps(g, ops, i, half, again, p);
      }
      RerunArtifacts(g, ops, i, half, again);
      SameViewsSameGraph(end, full);
    }
  }

  /** A later cleanup of the same entity. */
  ghost predicate CoveredLater(ops: seq<CleanUp>, n: nat, u: Urn) {
    exists j :: n <= j < |ops| && Untags(ops[j], u)
  }

  ghost function RerunTags(g: Graph, ops: seq<CleanUp>, i: nat, half: bool, u: Urn): seq<TagAssociation>
    requires i <= |ops| && (half ==> i < |ops|)
  {
    if CoversEntity(ops[..i], u) || CoveredLater(ops, Begun(i, half), u) then BaseTags(TagsOf(g, u)) else TagsOf(g, u)
  }

  /** A reset stopped between whole assets, at any point before its last, and then rerun
      ends in exactly the catalog of an uninterrupted reset. */
  lemma {:induction false} InterruptedResetRetries(g: Graph, control: Urn, incidentId: string, i: nat)
    requires PlanReset(g, control, incidentId).Ok?
    requires i < |Ops(PlanReset(g, control, incidentId).value)|
    ensures var ops := Ops(PlanReset(g, control, incidentId).value);
      var again := PlanReset(CleanAll(g, ops[..i]), control, incidentId);
      again.Ok? && CleanAll(CleanAll(g, ops[..i]), Ops(again.value)) == CleanAll(g, ops)
  {
    var ops := Ops(PlanReset(g, control, incidentId).value);
    RerunIsFull(g, control, incidentId, i, false);
    forall u ensures RerunTags(g, ops, i, false, u) == TagsOf(CleanAll(g, ops), u) {
      CleanedEntity(g, ops, u);
      EntitySplit(ops, i, u);
    }
  }

  lemma {:induction false} EntitySplit(ops: seq<CleanUp>, i: nat, u: Urn)
    requires i <= |ops|
    ensures CoversEntity(ops, u) <==> CoversEntity(ops[..i], u) || CoveredLater(ops, i, u)
  {
    if CoversEntity(ops, u) {
      var op :| op in ops && Untags(op, u);
      var j :| 0 <= j < |ops| && ops[j] == op;
      if j < i { assert ops[..i][j] == op; }
    }
  }

  /** The half-cleaned asset's tags are not stranded: none left, or a later cleanup takes them. */
  ghost predicate TagsNotStranded(gm: Graph, ops: seq<CleanUp>, i: nat, u: Urn)
    requires i < |ops|
  {
    Untags(ops[i], u) ==> BaseTags(TagsOf(gm, u)) == TagsOf(gm, u) || CoveredLater(ops, i + 1, u)
  }

  lemma {:induction false} HalfCleanedTags(g: Graph, ops: seq<CleanUp>, i: nat, u: Urn)
    requires i < |ops|
    ensures RerunTags(g, ops, i, true, u) == TagsOf(CleanAll(g, ops), u) <==> TagsNotStranded(Stopped(g, ops, i, true), ops, i, u)
  {
    CleanedEntity(g, ops, u);
    EntitySplit(ops, i, u);
    StoppedTags(g, ops, i, true, u);
    assert CoveredLater(ops, i, u) <==> Untags(ops[i], u) || CoveredLater(ops, i + 1, u);
    BaseIsStable(TagsOf(g, u));
  }

  /** Stopped between the two writes of an asset other than the control asset, a rerun ends in
      the catalog of an uninterrupted reset exactly when that asset's entity carries no status
      tag any more, or a later cleanup covers the same entity. */
  lemma {:induction false} HalfCleanedAssetRetries(g: Graph, control: Urn, incidentId: string, i: nat)
    requires PlanReset(g, control, incidentId).Ok?
    requires i + 1 < |Ops(PlanReset(g, control, incidentId).value)|
    ensures var ops := Ops(PlanReset(g, control, incidentId).value);
      var gm := Stopped(g, ops, i, true);
      var again := PlanReset(gm, control, incidentId);
      && again.Ok?
      && (CleanAll(gm, Ops(again.value)) == CleanAll(g, ops) <==> forall u :: TagsNotStranded(gm, ops, i, u))
  {
    var ops := Ops(PlanReset(g, control, incidentId).value);
    RerunIsFull(g, control, incidentId, i, true);
    forall u
      ensures RerunTags(g, ops, i, true, u) == TagsOf(CleanAll(g, ops), u) <==> TagsNotStranded(Stopped(g, ops, i, true), ops, i, u)
    {
      HalfCleanedTags(g, ops, i, u);
    }
  }

  /** Stopped between the two writes of the control asset, ownership is gone: a rerun is refused. */
  lemma {:induction false} HalfCleanedControlIsRefused(g: Graph, control: Urn, incidentId: string)
    requires PlanReset(g, control, incidentId).Ok?
    ensures var ops := Ops(PlanReset(g, control, incidentId).value);
      ops != [] && PlanReset(Stopped(g, ops, |ops| - 1, true), control, incidentId) == Err(OtherIncident)
  {
    var ops := Ops(PlanReset(g, control, incidentId).value);
    PlanMembers(g, control, incidentId);
    assert ops[..|ops|] == ops && ops[|ops| - 1] in ops;
    assert Cleans(ops[|ops| - 1], DatasetAt(control));
    StillOwned(g, ops, |ops| - 1, true, incidentId, DatasetAt(control));
  }

}
