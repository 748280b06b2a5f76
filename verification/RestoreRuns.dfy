/** What reset makes of any run at all: an enforcement may stop after any write, leave the control
    asset out, or point at an aspect of an unknown type. */
module RestoreRuns {
  import opened Common
  import opened PolicyEngine
  import opened MetadataGraph
  import opened OverlayWrites
  import opened Enforcement
  import opened Recovery
  import opened Reset
  import opened ResetRetry
  import opened OverlayRuns
  import opened UndoRuns

  // ---------------------------------------------------------------- every write of a run

  function RunWrites(g0: Graph, control: Urn, steps: seq<Step>): seq<Write> {
    if steps == [] then []
    else
      var init := steps[..|steps| - 1];
      RunWrites(g0, control, init) + StepWrites(Run(g0, control, init), control, steps[|steps| - 1])
  }

  lemma {:induction false} RunIsWrites(g0: Graph, control: Urn, steps: seq<Step>)
    ensures Run(g0, control, steps) == DoAll(g0, RunWrites(g0, control, steps))
  {
    if steps != [] {
      var init := steps[..|steps| - 1];
      RunIsWrites(g0, control, init);
      DoAllConcat(g0, RunWrites(g0, control, init), StepWrites(Run(g0, control, init), control, steps[|steps| - 1]));
    }
  }

  /** Overlay writes, each into an aspect that can be written. */
  predicate Effective(g: Graph, ws: seq<Write>) {
    OverlayOnly(ws) && forall w :: w in ws && w.Merge? ==> Writable(g, w.place)
  }

  lemma {:induction false} MirrorMergesExist(natives: set<NativeRef>, targets: seq<NativeRef>, tag: Option<Tag>, updates: Props)
    ensures forall w :: w in MirrorScript(natives, targets, tag, updates).writes && w.Merge? ==> w.place.NativeAt? && w.place.ref in natives
  {
    if targets != [] {
      MirrorMergesExist(natives, targets[1..], tag, updates);
    }
  }

  lemma {:induction false} ProjectionMergesExist(g: Graph, urn: Urn, tag: Option<Tag>, updates: Props)
    ensures forall w :: w in ProjectionScript(g, urn, tag, updates).writes && w.Merge? ==> Writable(g, w.place)
  {
    if Targets(PropsOf(g, urn)).Ok? {
      MirrorMergesExist(g.natives.Keys, Targets(PropsOf(g, urn)).value, tag, updates);
    }
  }

  lemma {:induction false} PlanMergesExist(g: Graph, plan: PolicyPlan, ds: seq<AssetDecision>)
    ensures forall w :: w in PlanScript(g, plan, ds).writes && w.Merge? ==> Writable(g, w.place)
  {
    if ds != [] {
      PlanMergesExist(g, plan, ds[1..]);
      ProjectionMergesExist(g, ds[0].asset.urn, StatusTag(ds[0].status), UpdatesFor(g, plan, ds[0]));
    }
  }

  lemma {:induction false} ResolveMergesExist(g: Graph, control: Urn, urns: seq<Urn>, evidence: seq<string>)
    ensures forall w :: w in ResolveAll(g, control, urns, evidence).writes && w.Merge? ==> Writable(g, w.place)
    decreases |urns|
  {
    if urns != [] {
      ResolveMergesExist(g, control, urns[1..], evidence);
      ProjectionMergesExist(g, urns[0], Some(ResolvedTag), ResolvedUpdates(evidence));
    }
  }

  lemma {:induction false} StepIsEffective(g: Graph, control: Urn, s: Step)
    ensures Effective(g, StepWrites(g, control, s))
  {
    match s
    case Enforced(plan) =>
      PlanIsOverlay(g, plan, plan.decisions);
      PlanMergesExist(g, plan, plan.decisions);
    case Evaluated(policy, input) =>
      EvaluationIsOverlay(g, control, policy, input);
      if Refusal(g, control, input).None? && ControlledIn(PropsOf(g, control), control).Ok? {
        ResolveMergesExist(g, control, ControlledIn(PropsOf(g, control), control).value, EvidenceOf(input));
      }
  }

  lemma {:induction false} RunIsEffective(g0: Graph, control: Urn, steps: seq<Step>)
    ensures Effective(g0, RunWrites(g0, control, steps))
  {
    if steps != [] {
      var init := steps[..|steps| - 1];
      RunIsEffective(g0, control, init);
      RunIsOverlay(g0, control, init);
      StepIsEffective(Run(g0, control, init), control, steps[|steps| - 1]);
    }
  }

  // ---------------------------------------------------------------- what a cleanup must cover

  lemma {:induction false} MergedShows(g: Graph, ws: seq<Write>, p: Place)
    requires OverlayOnly(ws) && MergesInto(ws, p) && Writable(g, p)
    ensures exists k :: IsIncidentKey(k) && k in PropsAt(DoAll(g, ws), p)
  {
    var init, last := ws[..|ws| - 1], ws[|ws| - 1];
    assert last in ws;
    DoAt(DoAll(g, init), last, p);
    if last.Merge? && last.place == p {
      var k :| k in last.updates;
      assert IsIncidentKey(k) && k in PropsAt(DoAll(g, ws), p);
    } else {
      assert MergesInto(init, p);
      MergedShows(g, init, p);
    }
  }

  lemma {:induction false} TaggedShows(g: Graph, ws: seq<Write>, e: Urn)
    requires OverlayOnly(ws) && PutsOn(ws, e)
    ensures exists t :: t in STATUS_TAGS && HasTag(TagsOf(DoAll(g, ws), e), t)
  {
    var init, last := ws[..|ws| - 1], ws[|ws| - 1];
    assert last in ws;
    DoTags(DoAll(g, init), last, e);
    if last.PutStatus? && last.urn == e {
      SetStatusDropsOthers(last.tag, TagsOf(DoAll(g, init), e));
    } else {
      assert PutsOn(init, e);
      TaggedShows(g, init, e);
    }
  }

  /** Every place merged into and every entity tagged is covered. */
  ghost predicate AllCovered(ws: seq<Write>, ops: seq<CleanUp>) {
    && (forall p :: MergesInto(ws, p) ==> Covers(ops, p))
    && (forall e :: PutsOn(ws, e) ==> CoversEntity(ops, e))
  }

  lemma {:induction false} CoveredIsRestored(g0: Graph, ws: seq<Write>, ops: seq<CleanUp>)
    requires NoOverlay(g0) && Effective(g0, ws) && AllCovered(ws, ops)
    ensures Restored(g0, CleanAll(DoAll(g0, ws), ops))
  {
    var g := DoAll(g0, ws);
    WritesAreOverlay(g0, ws);
    CleaningKeepsShape(g, ops);
    forall p ensures PropsAt(CleanAll(g, ops), p) == PropsAt(g0, p) {
      CleanedPlace(g, ops, p);
      assert BaseProps(PropsAt(g, p)) == BaseProps(PropsAt(g0, p)) == PropsAt(g0, p);
      if !Covers(ops, p) {
        assert !MergesInto(ws, p);
        UnwrittenPlaceStays(g0, ws, p);
      }
    }
    forall e ensures TagsOf(CleanAll(g, ops), e) == TagsOf(g0, e) {
      CleanedEntity(g, ops, e);
      assert BaseTags(TagsOf(g, e)) == BaseTags(TagsOf(g0, e)) == TagsOf(g0, e);
      if !CoversEntity(ops, e) {
        assert !PutsOn(ws, e);
        UntaggedEntityStays(g0, ws, e);
      }
    }
  }

  lemma {:induction false} UncoveredPlaceStays(g0: Graph, ws: seq<Write>, ops: seq<CleanUp>, p: Place)
    requires NoOverlay(g0) && Effective(g0, ws) && MergesInto(ws, p) && !Covers(ops, p)
    ensures !Restored(g0, CleanAll(DoAll(g0, ws), ops))
  {
    MergedShows(g0, ws, p);
    CleanedPlace(DoAll(g0, ws), ops, p);
    var k :| IsIncidentKey(k) && k in PropsAt(DoAll(g0, ws), p);
    assert BaseProps(PropsAt(g0, p)) == PropsAt(g0, p) && k !in BaseProps(PropsAt(g0, p));
  }

  lemma {:induction false} UncoveredTagStays(g0: Graph, ws: seq<Write>, ops: seq<CleanUp>, e: Urn)
    requires NoOverlay(g0) && Effective(g0, ws) && PutsOn(ws, e) && !CoversEntity(ops, e)
    ensures !Restored(g0, CleanAll(DoAll(g0, ws), ops))
  {
    TaggedShows(g0, ws, e);
    CleanedEntity(DoAll(g0, ws), ops, e);
    var t :| t in STATUS_TAGS && HasTag(TagsOf(DoAll(g0, ws), e), t);
    assert BaseTags(TagsOf(g0, e)) == TagsOf(g0, e);
    WithoutHas(TagsOf(g0, e), STATUS_TAGS, t);
  }

  /** Cleaning restores a catalog exactly when it covers everything that was written. */
  lemma {:induction false} RestoredIffCovered(g0: Graph, ws: seq<Write>, ops: seq<CleanUp>)
    requires NoOverlay(g0) && Effective(g0, ws)
    ensures Restored(g0, CleanAll(DoAll(g0, ws), ops)) <==> AllCovered(ws, ops)
  {
    if AllCovered(ws, ops) {
      CoveredIsRestored(g0, ws, ops);
    } else if p :| MergesInto(ws, p) && !Covers(ops, p) {
      UncoveredPlaceStays(g0, ws, ops, p);
    } else {
      var e :| PutsOn(ws, e) && !CoversEntity(ops, e);
      UncoveredTagStays(g0, ws, ops, e);
    }
  }

  // ---------------------------------------------------------------- who owns a place

  /** The plan of the last enforcement that reached a place. */
  ghost function Owner(g0: Graph, control: Urn, steps: seq<Step>, p: Place): Option<PolicyPlan> {
    if steps == [] then None
    else
      var init, s := steps[..|steps| - 1], steps[|steps| - 1];
      if s.Enforced? && MergesInto(StepWrites(Run(g0, control, init), control, s), p) then Some(s.plan)
      else Owner(g0, control, init, p)
  }

  ghost predicate OwnedAt(g0: Graph, control: Urn, steps: seq<Step>, incidentId: string, p: Place) {
    Owner(g0, control, steps, p).Some? && Owner(g0, control, steps, p).value.incidentId == incidentId
  }

  ghost predicate ShowsOwner(q: Props, owner: Option<PolicyPlan>) {
    match owner
    case None => IncidentId !in q && ControlledUrns !in q
    case Some(plan) =>
      BelongsTo(q, plan.incidentId) && ControlledUrns in q && q[ControlledUrns] == Urns(Controlled(plan))
  }

  lemma {:induction false} EnforcedOwner(g: Graph, plan: PolicyPlan, p: Place, owner: Option<PolicyPlan>)
    requires ShowsOwner(PropsAt(g, p), owner)
    ensures var ws := PlanScript(g, plan, plan.decisions).writes;
      ShowsOwner(PropsAt(DoAll(g, ws), p), if MergesInto(ws, p) then Some(plan) else owner)
  {
    var ws := PlanScript(g, plan, plan.decisions).writes;
    if MergesInto(ws, p) {
      PlanMergesExist(g, plan, plan.decisions);
      EnforcedPlace(g, plan, p);
    } else {
      UnwrittenPlaceStays(g, ws, p);
    }
  }

  /** Every place shows the incident and the target list of the plan that reached it last: this
      holds after any run, whatever stopped and whatever recovery wrote. */
  lemma {:induction false} OwnerShows(g0: Graph, control: Urn, steps: seq<Step>, p: Place)
    requires NoOverlay(g0)
    ensures ShowsOwner(PropsAt(Run(g0, control, steps), p), Owner(g0, control, steps, p))
  {
    if steps == [] {
      assert BaseProps(PropsAt(g0, p)) == PropsAt(g0, p);
    } else {
      var init, s := steps[..|steps| - 1], steps[|steps| - 1];
      OwnerShows(g0, control, init, p);
      var g := Run(g0, control, init);
      match s
      case Enforced(plan) => EnforcedOwner(g, plan, p, Owner(g0, control, init, p));
      case Evaluated(policy, input) =>
        EvaluationKeepsKey(g, control, policy, input, p, IncidentId);
        EvaluationKeepsKey(g, control, policy, input, p, ControlledUrns);
    }
  }

  // ---------------------------------------------------------------- what reset takes back

  /** The control asset or one it lists, owned by this incident. */
  ghost predicate TakesBackDataset(g0: Graph, control: Urn, steps: seq<Step>, incidentId: string, u: Urn) {
    && OwnedAt(g0, control, steps, incidentId, DatasetAt(control))
    && (u == control || u in Controlled(Owner(g0, control, steps, DatasetAt(control)).value))
    && OwnedAt(g0, control, steps, incidentId, DatasetAt(u))
  }

  ghost predicate TakesBack(g0: Graph, control: Urn, steps: seq<Step>, incidentId: string, p: Place) {
    match p
    case DatasetAt(u) => TakesBackDataset(g0, control, steps, incidentId, u)
    case NativeAt(r) =>
      && OwnedAt(g0, control, steps, incidentId, p)
      && exists u :: TakesBackDataset(g0, control, steps, incidentId, u) && TargetOf(g0, u, r)
  }

  ghost predicate TakesBackEntity(g0: Graph, control: Urn, steps: seq<Step>, incidentId: string, e: Urn) {
    || TakesBackDataset(g0, control, steps, incidentId, e)
    || exists r: NativeRef :: r.urn == e && TakesBack(g0, control, steps, incidentId, NativeAt(r))
  }

  /** The control asset is owned and lists no empty name, every asset taken back projects to known
      aspects, and the incident's artifacts are its own. */
  ghost predicate Resettable(g0: Graph, control: Urn, steps: seq<Step>, incidentId: string) {
    && OwnedAt(g0, control, steps, incidentId, DatasetAt(control))
    && "" !in Controlled(Owner(g0, control, steps, DatasetAt(control)).value)
    && (forall u :: TakesBackDataset(g0, control, steps, incidentId, u) ==> Targets(PropsOf(g0, u)).Ok?)
    && ForeignArtifacts(g0, incidentId).None?
  }

  lemma {:induction false} OwnedIsOwnedAt(g0: Graph, control: Urn, steps: seq<Step>, incidentId: string, p: Place)
    requires NoOverlay(g0)
    ensures BelongsTo(PropsAt(Run(g0, control, steps), p), incidentId) <==> OwnedAt(g0, control, steps, incidentId, p)
  {
    OwnerShows(g0, control, steps, p);
  }

  lemma {:induction false} ListedIsOwners(g0: Graph, control: Urn, steps: seq<Step>, incidentId: string)
    requires NoOverlay(g0) && OwnedAt(g0, control, steps, incidentId, DatasetAt(control))
    ensures var plan, p := Owner(g0, control, steps, DatasetAt(control)).value, PropsOf(Run(g0, control, steps), control);
      && (ControlledList(p, control).Ok? <==> "" !in Controlled(plan))
      && (ControlledList(p, control).Ok? ==>
        forall u :: u in ControlledList(p, control).value <==> u == control || u in Controlled(plan))
  {
    OwnerShows(g0, control, steps, DatasetAt(control));
    var g, plan := Run(g0, control, steps), Owner(g0, control, steps, DatasetAt(control)).value;
    assert PropsAt(g, DatasetAt(control)) == PropsOf(g, control);
    assert forall u :: u in [control] + Controlled(plan) <==> u == control || u in Controlled(plan);
  }

  lemma {:induction false} OwnedListed(g0: Graph, control: Urn, steps: seq<Step>, incidentId: string, u: Urn)
    requires NoOverlay(g0) && OwnedAt(g0, control, steps, incidentId, DatasetAt(control))
    requires ControlledList(PropsOf(Run(g0, control, steps), control), control).Ok?
    ensures var g := Run(g0, control, steps);
      u in Owned(g, incidentId, ControlledList(PropsOf(g, control), control).value)
      <==> TakesBackDataset(g0, control, steps, incidentId, u)
  {
    var g := Run(g0, control, steps);
    ListedIsOwners(g0, control, steps, incidentId);
    OwnedIsOwnedAt(g0, control, steps, incidentId, DatasetAt(u));
    assert PropsAt(g, DatasetAt(u)) == PropsOf(g, u);
  }

  /** When reset accepts. */
  lemma {:induction false} ResetAcceptsIff(g0: Graph, control: Urn, steps: seq<Step>, incidentId: string)
    requires NoOverlay(g0)
    ensures PlanReset(Run(g0, control, steps), control, incidentId).Ok? <==> Resettable(g0, control, steps, incidentId)
  {
    var g := Run(g0, control, steps);
    RunIsOverlay(g0, control, steps);
    OwnedIsOwnedAt(g0, control, steps, incidentId, DatasetAt(control));
    assert PropsAt(g, DatasetAt(control)) == PropsOf(g, control);
    if OwnedAt(g0, control, steps, incidentId, DatasetAt(control)) {
      ListedIsOwners(g0, control, steps, incidentId);
      var listed := ControlledList(PropsOf(g, control), control);
      if listed.Ok? {
        AllTargetsMembers(g, Owned(g, incidentId, listed.value));
        forall u
          ensures u in Owned(g, incidentId, listed.value) <==> TakesBackDataset(g0, control, steps, incidentId, u)
          ensures Targets(PropsOf(g, u)) == Targets(PropsOf(g0, u))
        {
          OwnedListed(g0, control, steps, incidentId, u);
          OverlayTargets(g0, g, u);
        }
      }
    }
  }

  lemma {:induction false} DatasetTaken(g0: Graph, control: Urn, steps: seq<Step>, incidentId: string, u: Urn)
    requires NoOverlay(g0) && PlanReset(Run(g0, control, steps), control, incidentId).Ok?
    ensures var plan := PlanReset(Run(g0, control, steps), control, incidentId).value;
      u in plan.datasets <==> TakesBackDataset(g0, control, steps, incidentId, u)
  {
    var g := Run(g0, control, steps);
    PlanMembers(g, control, incidentId);
    ResetAcceptsIff(g0, control, steps, incidentId);
    OwnedListed(g0, control, steps, incidentId, u);
  }

  lemma {:induction false} NativeTaken(g0: Graph, control: Urn, steps: seq<Step>, incidentId: string, r: NativeRef)
    requires NoOverlay(g0) && PlanReset(Run(g0, control, steps), control, incidentId).Ok?
    ensures var plan := PlanReset(Run(g0, control, steps), control, incidentId).value;
      r in plan.natives <==> TakesBack(g0, control, steps, incidentId, NativeAt(r))
  {
    var g := Run(g0, control, steps);
    var plan := PlanReset(g, control, incidentId).value;
    PlanMembers(g, control, incidentId);
    RunIsOverlay(g0, control, steps);
    OwnedIsOwnedAt(g0, control, steps, incidentId, NativeAt(r));
    assert PropsAt(g, NativeAt(r)) == NativePropsOf(g, r);
    forall u
      ensures u in plan.datasets <==> TakesBackDataset(g0, control, steps, incidentId, u)
      ensures TargetOf(g, u, r) <==> TargetOf(g0, u, r)
    {
      DatasetTaken(g0, control, steps, incidentId, u);
      OverlayTargets(g0, g, u);
    }
  }

  /** The planned cleanups cover exactly what is taken back. */
  lemma {:induction false} CoversTaken(g0: Graph, control: Urn, steps: seq<Step>, incidentId: string, p: Place)
    requires NoOverlay(g0) && PlanReset(Run(g0, control, steps), control, incidentId).Ok?
    ensures var ops := Ops(PlanReset(Run(g0, control, steps), control, incidentId).value);
      Covers(ops, p) <==> TakesBack(g0, control, steps, incidentId, p)
  {
    var plan := PlanReset(Run(g0, control, steps), control, incidentId).value;
    OpsMembers(plan);
    CoverIsMembership(plan, Ops(plan));
    match p
    case DatasetAt(u) => DatasetTaken(g0, control, steps, incidentId, u);
    case NativeAt(r) => NativeTaken(g0, control, steps, incidentId, r);
  }

  lemma {:induction false} EntityTaken(g0: Graph, control: Urn, steps: seq<Step>, incidentId: string, e: Urn)
    requires NoOverlay(g0) && PlanReset(Run(g0, control, steps), control, incidentId).Ok?
    ensures var ops := Ops(PlanReset(Run(g0, control, steps), control, incidentId).value);
      CoversEntity(ops, e) <==> TakesBackEntity(g0, control, steps, incidentId, e)
  {
    var plan := PlanReset(Run(g0, control, steps), control, incidentId).value;
    var ops := Ops(plan);
    OpsMembers(plan);
    DatasetTaken(g0, control, steps, incidentId, e);
    if CoversEntity(ops, e) {
      var op :| op in ops && Untags(op, e);
      if op.CleanNative? { NativeTaken(g0, control, steps, incidentId, op.ref); }
    }
    if TakesBackDataset(g0, control, steps, incidentId, e) {
      assert CleanDataset(e) in ops && Untags(CleanDataset(e), e);
    } else if r: NativeRef :| r.urn == e && TakesBack(g0, control, steps, incidentId, NativeAt(r)) {
      NativeTaken(g0, control, steps, incidentId, r);
      assert CleanNative(r) in ops && Untags(CleanNative(r), e);
    }
  }

  /** Undo, for every run from a catalog without overlay, whatever stopped in it. Reset accepts
      exactly when the run is resettable; the catalog then comes back exactly when everything the
      run merged into and everything it tagged is taken back. */
  lemma {:induction false} ResetUndoesAnyRun(g0: Graph, control: Urn, steps: seq<Step>, incidentId: string)
    requires NoOverlay(g0)
    ensures var ws, reset := RunWrites(g0, control, steps), PlanReset(Run(g0, control, steps), control, incidentId);
      && (reset.Ok? <==> Resettable(g0, control, steps, incidentId))
      && (reset.Ok? ==>
        (Restored(g0, CleanAll(Run(g0, control, steps), Ops(reset.value))) <==>
          && (forall p :: MergesInto(ws, p) ==> TakesBack(g0, control, steps, incidentId, p))
          && (forall e :: PutsOn(ws, e) ==> TakesBackEntity(g0, control, steps, incidentId, e))))
  {
    ResetAcceptsIff(g0, control, steps, incidentId);
    RunIsWrites(g0, control, steps);
    RunIsEffective(g0, control, steps);
    var ws, reset := RunWrites(g0, control, steps), PlanReset(Run(g0, control, steps), control, incidentId);
    if reset.Ok? {
      RestoredIffCovered(g0, ws, Ops(reset.value));
      forall p ensures Covers(Ops(reset.value), p) <==> TakesBack(g0, control, steps, incidentId, p) {
        CoversTaken(g0, control, steps, incidentId, p);
      }
      forall e ensures CoversEntity(Ops(reset.value), e) <==> TakesBackEntity(g0, control, steps, incidentId, e) {
        EntityTaken(g0, control, steps, incidentId, e);
      }
    }
  }

  // ---------------------------------------------------------------- one enforcement that stops

  /** Merged as a dataset, or as a native aspect of this entity. */
  ghost predicate EntityMerged(ws: seq<Write>, e: Urn) {
    MergesInto(ws, DatasetAt(e)) || exists r: NativeRef :: r.urn == e && MergesInto(ws, NativeAt(r))
  }

  lemma {:induction false} EntityMergedMore(a: seq<Write>, b: seq<Write>, e: Urn)
    ensures EntityMerged(a, e) || EntityMerged(b, e) ==> EntityMerged(a + b, e)
  {
    if r: NativeRef :| r.urn == e && (MergesInto(a, NativeAt(r)) || MergesInto(b, NativeAt(r))) {
      assert MergesInto(a + b, NativeAt(r));
    }
    if MergesInto(a, DatasetAt(e)) || MergesInto(b, DatasetAt(e)) {
      assert MergesInto(a + b, DatasetAt(e));
    }
  }

  /** The entity that a stop leaves tagged but not merged, if any. */
  predicate StoppedAt(error: Option<WriteError>, e: Urn) {
    error.Some? && error.value.MissingNativeAspect? && error.value.ref.urn == e
  }

  ghost predicate TagsFollowMerges(script: Script) {
    forall e :: PutsOn(script.writes, e) ==> EntityMerged(script.writes, e) || StoppedAt(script.error, e)
  }

  lemma {:induction false} FollowThen(a: Script, b: Script)
    requires TagsFollowMerges(a) && TagsFollowMerges(b)
    ensures TagsFollowMerges(Then(a, b))
  {
    if a.error.None? {
      forall e | PutsOn(a.writes + b.writes, e) ensures EntityMerged(a.writes + b.writes, e) || StoppedAt(b.error, e) {
        assert PutsOn(a.writes, e) || PutsOn(b.writes, e);
        EntityMergedMore(a.writes, b.writes, e);
      }
    }
  }

  lemma {:induction false} MirrorTagsFollow(natives: set<NativeRef>, targets: seq<NativeRef>, tag: Option<Tag>, updates: Props)
    ensures TagsFollowMerges(MirrorScript(natives, targets, tag, updates))
  {
    if targets != [] && targets[0] in natives {
      MirrorTagsFollow(natives, targets[1..], tag, updates);
      var head := Script(PutTag(targets[0].urn, tag) + [Merge(NativeAt(targets[0]), updates)], None);
      assert Merge(NativeAt(targets[0]), updates) in head.writes;
      assert MergesInto(head.writes, NativeAt(targets[0]));
      FollowThen(head, MirrorScript(natives, targets[1..], tag, updates));
    }
  }

  lemma {:induction false} PlanTagsFollow(g: Graph, plan: PolicyPlan, ds: seq<AssetDecision>)
    ensures TagsFollowMerges(PlanScript(g, plan, ds))
  {
    if ds != [] {
      PlanTagsFollow(g, plan, ds[1..]);
      if WritesBack(ds[0]) {
        var urn, tag, updates := ds[0].asset.urn, StatusTag(ds[0].status), UpdatesFor(g, plan, ds[0]);
        if Targets(PropsOf(g, urn)).Ok? {
          MirrorTagsFollow(g.natives.Keys, Targets(PropsOf(g, urn)).value, tag, updates);
        }
        var head := Script(PutTag(urn, tag) + [Merge(DatasetAt(urn), updates)], None);
        assert Merge(DatasetAt(urn), updates) in head.writes;
        assert MergesInto(head.writes, DatasetAt(urn));
        FollowThen(head, ProjectionScript(g, urn, tag, updates));
        FollowThen(DecisionScript(g, plan, ds[0]), PlanScript(g, plan, ds[1..]));
      }
    }
  }

  predicate UnsupportedStop(error: Option<WriteError>) {
    error.Some? && error.value.UnsupportedAspect?
  }

  /** Some dataset it merged into points at an unknown aspect exactly when it stopped for that. */
  lemma {:induction false} UnsupportedIsMerged(g: Graph, plan: PolicyPlan, ds: seq<AssetDecision>)
    ensures UnsupportedStop(PlanScript(g, plan, ds).error)
       <==> exists u :: MergesInto(PlanScript(g, plan, ds).writes, DatasetAt(u)) && Targets(PropsOf(g, u)).Err?
    decreases |ds|
  {
    if ds != [] {
      UnsupportedIsMerged(g, plan, ds[1..]);
      if WritesBack(ds[0]) {
        UnsupportedDecision(g, plan, ds[0]);
        DecisionMerges(g, plan, ds[0]);
        var a, b := DecisionScript(g, plan, ds[0]), PlanScript(g, plan, ds[1..]);
        if a.error.None? {
          forall u ensures MergesInto(a.writes + b.writes, DatasetAt(u)) <==>
            MergesInto(a.writes, DatasetAt(u)) || MergesInto(b.writes, DatasetAt(u))
          {
            MergesIntoConcat(a.writes, b.writes, DatasetAt(u));
          }
        }
      }
    }
  }

  /** A decision stops for an unknown aspect exactly when its own asset names one. */
  lemma {:induction false} UnsupportedDecision(g: Graph, plan: PolicyPlan, d: AssetDecision)
    ensures UnsupportedStop(DecisionScript(g, plan, d).error) <==> Targets(PropsOf(g, d.asset.urn)).Err?
  {
    var targets := Targets(PropsOf(g, d.asset.urn));
    if targets.Ok? {
      MirrorStops(g.natives.Keys, targets.value, StatusTag(d.status), UpdatesFor(g, plan, d));
    }
  }

  lemma {:induction false} MirrorStops(natives: set<NativeRef>, targets: seq<NativeRef>, tag: Option<Tag>, updates: Props)
    ensures !UnsupportedStop(MirrorScript(natives, targets, tag, updates).error)
  {
    if targets != [] {
      MirrorStops(natives, targets[1..], tag, updates);
    }
  }

  /** A native aspect merged for an asset comes after that asset's own dataset. */
  lemma {:induction false} NativeAfterDataset(g: Graph, plan: PolicyPlan, ds: seq<AssetDecision>, r: NativeRef)
    requires MergesInto(PlanScript(g, plan, ds).writes, NativeAt(r))
    ensures exists u :: MergesInto(PlanScript(g, plan, ds).writes, DatasetAt(u)) && TargetOf(g, u, r)
    decreases |ds|
  {
    if !WritesBack(ds[0]) {
      NativeAfterDataset(g, plan, ds[1..], r);
    } else {
      var a, b := DecisionScript(g, plan, ds[0]), PlanScript(g, plan, ds[1..]);
      DecisionMerges(g, plan, ds[0]);
      DecisionParts(g, plan, ds[0]);
      if a.error.None? {
        MergesIntoConcat(a.writes, b.writes, NativeAt(r));
        forall u ensures MergesInto(a.writes, DatasetAt(u)) || MergesInto(b.writes, DatasetAt(u)) ==> MergesInto(a.writes + b.writes, DatasetAt(u)) {
          MergesIntoConcat(a.writes, b.writes, DatasetAt(u));
        }
      }
      if MergesInto(a.writes, NativeAt(r)) {
        assert TargetOf(g, ds[0].asset.urn, r);
      } else {
        NativeAfterDataset(g, plan, ds[1..], r);
      }
    }
  }

  /** The run that is this one enforcement. */
  lemma {:induction false} OneStep(g0: Graph, control: Urn, plan: PolicyPlan)
    ensures RunWrites(g0, control, [Enforced(plan)]) == PlanScript(g0, plan, plan.decisions).writes
    ensures Run(g0, control, [Enforced(plan)]) == DoAll(g0, PlanScript(g0, plan, plan.decisions).writes)
  {
    var steps := [Enforced(plan)];
    assert steps[..0] == [] && Run(g0, control, steps[..0]) == g0;
    assert [] + PlanScript(g0, plan, plan.decisions).writes == PlanScript(g0, plan, plan.decisions).writes;
  }

  lemma {:induction false} OneOwner(g0: Graph, control: Urn, plan: PolicyPlan, p: Place)
    ensures Owner(g0, control, [Enforced(plan)], p) ==
      if MergesInto(PlanScript(g0, plan, plan.decisions).writes, p) then Some(plan) else None
  {
    var steps := [Enforced(plan)];
    assert steps[..0] == [] && Run(g0, control, steps[..0]) == g0;
    assert Owner(g0, control, steps[..0], p) == None;
  }

  lemma {:induction false} DatasetIsTaken(g0: Graph, control: Urn, plan: PolicyPlan, u: Urn)
    requires MergesInto(PlanScript(g0, plan, plan.decisions).writes, DatasetAt(control))
    ensures MergesInto(PlanScript(g0, plan, plan.decisions).writes, DatasetAt(u))
       <==> TakesBackDataset(g0, control, [Enforced(plan)], plan.incidentId, u)
  {
    hide PlanScript, Controlled, MergesInto, Owner;
    OneOwner(g0, control, plan, DatasetAt(control));
    OneOwner(g0, control, plan, DatasetAt(u));
    if MergesInto(PlanScript(g0, plan, plan.decisions).writes, DatasetAt(u)) { MergedIsControlled(g0, plan, u); }
  }

  /** One enforcement takes back everything it merged. */
  lemma {:induction false} MergedIsTaken(g0: Graph, control: Urn, plan: PolicyPlan, p: Place)
    requires MergesInto(PlanScript(g0, plan, plan.decisions).writes, DatasetAt(control))
    ensures MergesInto(PlanScript(g0, plan, plan.decisions).writes, p)
       <==> TakesBack(g0, control, [Enforced(plan)], plan.incidentId, p)
  {
    hide PlanScript, MergesInto, Owner, TakesBackDataset;
    OneOwner(g0, control, plan, p);
    match p
    case DatasetAt(u) => DatasetIsTaken(g0, control, plan, u);
    case NativeAt(r) =>
      if MergesInto(PlanScript(g0, plan, plan.decisions).writes, p) {
        NativeAfterDataset(g0, plan, plan.decisions, r);
        var u :| MergesInto(PlanScript(g0, plan, plan.decisions).writes, DatasetAt(u)) && TargetOf(g0, u, r);
        DatasetIsTaken(g0, control, plan, u);
      }
  }

  lemma {:induction false} TakenEntity(g0: Graph, control: Urn, plan: PolicyPlan, e: Urn)
    requires MergesInto(PlanScript(g0, plan, plan.decisions).writes, DatasetAt(control))
    ensures EntityMerged(PlanScript(g0, plan, plan.decisions).writes, e)
       <==> TakesBackEntity(g0, control, [Enforced(plan)], plan.incidentId, e)
  {
    MergedIsTaken(g0, control, plan, DatasetAt(e));
    forall r: NativeRef
      ensures MergesInto(PlanScript(g0, plan, plan.decisions).writes, NativeAt(r))
         <==> TakesBack(g0, control, [Enforced(plan)], plan.incidentId, NativeAt(r))
    {
      MergedIsTaken(g0, control, plan, NativeAt(r));
    }
  }

  lemma {:induction false} ResettableOnce(g0: Graph, control: Urn, plan: PolicyPlan)
    ensures var script := PlanScript(g0, plan, plan.decisions);
      Resettable(g0, control, [Enforced(plan)], plan.incidentId) <==>
        && MergesInto(script.writes, DatasetAt(control)) && "" !in Controlled(plan)
        && ForeignArtifacts(g0, plan.incidentId).None? && !UnsupportedStop(script.error)
  {
    hide PlanScript, Controlled, MergesInto, Owner, ForeignArtifacts, TakesBackDataset;
    var script := PlanScript(g0, plan, plan.decisions);
    OneOwner(g0, control, plan, DatasetAt(control));
    UnsupportedIsMerged(g0, plan, plan.decisions);
    if MergesInto(script.writes, DatasetAt(control)) {
      forall u ensures MergesInto(script.writes, DatasetAt(u)) <==> TakesBackDataset(g0, control, [Enforced(plan)], plan.incidentId, u) {
        DatasetIsTaken(g0, control, plan, u);
      }
    }
  }

  lemma {:induction false} TakenOnce(g0: Graph, control: Urn, plan: PolicyPlan)
    requires MergesInto(PlanScript(g0, plan, plan.decisions).writes, DatasetAt(control))
    ensures var steps, script := [Enforced(plan)], PlanScript(g0, plan, plan.decisions);
      && (forall p :: MergesInto(script.writes, p) ==> TakesBack(g0, control, steps, plan.incidentId, p))
      && ((forall e :: PutsOn(script.writes, e) ==> TakesBackEntity(g0, control, steps, plan.incidentId, e)) <==>
          forall e :: StoppedAt(script.error, e) && PutsOn(script.writes, e) ==> EntityMerged(script.writes, e))
  {
    hide PlanScript, MergesInto, PutsOn, TakesBack, TakesBackEntity, EntityMerged, StoppedAt;
    var steps, script := [Enforced(plan)], PlanScript(g0, plan, plan.decisions);
    PlanTagsFollow(g0, plan, plan.decisions);
    forall p | MergesInto(script.writes, p) ensures TakesBack(g0, control, steps, plan.incidentId, p) {
      MergedIsTaken(g0, control, plan, p);
    }
    forall e ensures EntityMerged(script.writes, e) <==> TakesBackEntity(g0, control, steps, plan.incidentId, e) {
      TakenEntity(g0, control, plan, e);
    }
  }

  /** Undo of one enforcement of any plan, which may stop at any write. Reset accepts exactly when
      the control asset was reached, no empty name is listed, the artifacts are the incident's own
      and the stop was not for an unknown aspect. It then restores the catalog exactly when the
      stop left no entity tagged whose aspect is missing and that nothing else was merged on. */
  lemma {:induction false} FailedEnforcementLeavesTag(g0: Graph, control: Urn, plan: PolicyPlan)
    requires NoOverlay(g0)
    ensures var script := PlanScript(g0, plan, plan.decisions);
      var g := DoAll(g0, script.writes);
      var reset := PlanReset(g, control, plan.incidentId);
      && (reset.Ok? <==>
        && MergesInto(script.writes, DatasetAt(control)) && "" !in Controlled(plan)
        && ForeignArtifacts(g0, plan.incidentId).None? && !UnsupportedStop(script.error))
      && (reset.Ok? ==>
        (Restored(g0, CleanAll(g, Ops(reset.value))) <==>
          forall e :: StoppedAt(script.error, e) && PutsOn(script.writes, e) ==> EntityMerged(script.writes, e)))
  {
    hide PlanScript, PlanReset, MergesInto, PutsOn, TakesBack, TakesBackEntity, EntityMerged, StoppedAt, Resettable, Restored, UnsupportedStop;
    OneStep(g0, control, plan);
    ResetUndoesAnyRun(g0, control, [Enforced(plan)], plan.incidentId);
    ResettableOnce(g0, control, plan);
    if MergesInto(PlanScript(g0, plan, plan.decisions).writes, DatasetAt(control)) {
      TakenOnce(g0, control, plan);
    }
  }

  // ---------------------------------------------------------------- inputs that reset does not undo

  /** One dataset, without overlay, that projects to a native entity the catalog does not have. */
  function OneAsset(control: Urn, aspect: string): Graph {
    var p := map[NativeProjectionUrn := Text("native"), NativeProjectionAspect := Text(aspect)];
    Graph(map[control := Dataset("", "", p)], map[], map[], map[])
  }

  lemma {:induction false} OneAssetTargets(control: Urn, aspect: string)
    requires aspect != "" && AspectNamed(aspect).Some?
    ensures Targets(PropsOf(OneAsset(control, aspect), control)) == Ok([NativeRef("native", AspectNamed(aspect).value)])
  {
    var ref := NativeRef("native", AspectNamed(aspect).value);
    assert [ref] + [] == [ref] && |"native"| == 6;
  }

  predicate OneDecision(control: Urn, plan: PolicyPlan, d: AssetDecision) {
    plan.decisions == [d] && WritesBack(d) && d.asset.urn == control
  }

  lemma {:induction false} OneAssetIsClean(control: Urn, aspect: string)
    ensures NoOverlay(OneAsset(control, aspect))
  {
  }

  lemma {:induction false} OneDecisionScript(g: Graph, control: Urn, plan: PolicyPlan, d: AssetDecision)
    requires OneDecision(control, plan, d)
    ensures PlanScript(g, plan, plan.decisions).writes == DecisionScript(g, plan, d).writes
    ensures PlanScript(g, plan, plan.decisions).error == DecisionScript(g, plan, d).error
    ensures Controlled(plan) == [control]
  {
    assert plan.decisions[1..] == [];
    assert WrittenBack(plan.decisions) == [d];
    assert DecisionScript(g, plan, d).writes + [] == DecisionScript(g, plan, d).writes;
  }

  lemma {:induction false} EvaluationsKeepOwner(g0: Graph, control: Urn, a: seq<Step>, evaluations: seq<Step>, p: Place)
    requires forall s :: s in evaluations ==> s.Evaluated?
    ensures Owner(g0, control, a + evaluations, p) == Owner(g0, control, a, p)
  {
    if evaluations == [] {
      assert a + evaluations == a;
    } else {
      var init, last := evaluations[..|evaluations| - 1], evaluations[|evaluations| - 1];
      assert a + evaluations == (a + init) + [last];
      assert (a + evaluations)[..|a + evaluations| - 1] == a + init;
      assert last in evaluations;
      EvaluationsKeepOwner(g0, control, a, init, p);
    }
  }

  lemma {:induction false} UnsupportedIsReached(control: Urn, aspect: string, plan: PolicyPlan, d: AssetDecision)
    requires aspect != "" && AspectNamed(aspect).None? && OneDecision(control, plan, d)
    ensures var g0 := OneAsset(control, aspect);
      && Targets(PropsOf(g0, control)).Err? && IncidentId !in PropsAt(g0, DatasetAt(control))
      && UnsupportedStop(PlanScript(g0, plan, plan.decisions).error)
      && MergesInto(PlanScript(g0, plan, plan.decisions).writes, DatasetAt(control))
  {
    var g0 := OneAsset(control, aspect);
    OneDecisionScript(g0, control, plan, d);
    UnsupportedDecision(g0, plan, d);
    DecisionMerges(g0, plan, d);
  }

  /** An unknown native aspect: enforcement writes the overlay and raises, and from then on, after
      any evaluations, every reset is refused. The overlay can never be taken back. */
  lemma {:induction false} UnsupportedAspectIsStuck(
    control: Urn, aspect: string, plan: PolicyPlan, d: AssetDecision, evaluations: seq<Step>)
    requires aspect != "" && AspectNamed(aspect).None? && OneDecision(control, plan, d)
    requires forall s :: s in evaluations ==> s.Evaluated?
    ensures var g0 := OneAsset(control, aspect);
      var g := Run(g0, control, [Enforced(plan)] + evaluations);
      && NoOverlay(g0) && UnsupportedStop(PlanScript(g0, plan, plan.decisions).error)
      && !Restored(g0, g) && PlanReset(g, control, plan.incidentId).Err?
  {
    hide PlanScript, PlanReset, MergesInto, Controlled, OneAsset, Targets, Run, Owner, OneDecision, UnsupportedStop;
    var g0, steps, p := OneAsset(control, aspect), [Enforced(plan)] + evaluations, DatasetAt(control);
    OneAssetIsClean(control, aspect);
    UnsupportedIsReached(control, aspect, plan, d);
    OneOwner(g0, control, plan, p);
    EvaluationsKeepOwner(g0, control, [Enforced(plan)], evaluations, p);
    OwnerShows(g0, control, steps, p);
    ResetAcceptsIff(g0, control, steps, plan.incidentId);
    assert TakesBackDataset(g0, control, steps, plan.incidentId, control);
  }

  lemma {:induction false} MissingIsReached(control: Urn, aspect: string, plan: PolicyPlan, d: AssetDecision)
    requires aspect != "" && AspectNamed(aspect).Some? && OneDecision(control, plan, d)
    requires d.status != StatusHealthy && control != "" && control != "native"
    ensures var g0 := OneAsset(control, aspect);
      var script := PlanScript(g0, plan, plan.decisions);
      && MergesInto(script.writes, DatasetAt(control)) && "" !in Controlled(plan)
      && ForeignArtifacts(g0, plan.incidentId).None? && !UnsupportedStop(script.error)
      && StoppedAt(script.error, "native") && PutsOn(script.writes, "native") && !EntityMerged(script.writes, "native")
  {
    var g0, tag := OneAsset(control, aspect), StatusTag(d.status);
    OneDecisionScript(g0, control, plan, d);
    OneAssetTargets(control, aspect);
    var writes := PlanScript(g0, plan, plan.decisions).writes;
    assert writes == PutTag(control, tag) + [Merge(DatasetAt(control), UpdatesFor(g0, plan, d))] + PutTag("native", tag);
    assert Merge(DatasetAt(control), UpdatesFor(g0, plan, d)) in writes;
    assert PutStatus("native", tag.value) in writes;
  }

  /** A missing native aspect: reset succeeds and the native entity keeps its status tag. */
  lemma {:induction false} MissingAspectStrandsTag(control: Urn, aspect: string, plan: PolicyPlan, d: AssetDecision)
    requires aspect != "" && AspectNamed(aspect).Some? && OneDecision(control, plan, d)
    requires d.status != StatusHealthy && control != "" && control != "native"
    ensures var g0 := OneAsset(control, aspect);
      var g := DoAll(g0, PlanScript(g0, plan, plan.decisions).writes);
      var reset := PlanReset(g, control, plan.incidentId);
      && NoOverlay(g0) && reset.Ok? && !Restored(g0, CleanAll(g, Ops(reset.value)))
  {
    hide *;
    OneAssetIsClean(control, aspect);
    MissingIsReached(control, aspect, plan, d);
    FailedEnforcementLeavesTag(OneAsset(control, aspect), control, plan);
  }
}
