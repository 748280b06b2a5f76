/** Incident-scoped cleanup: plan everything first, natives before datasets, control asset last. */
module Reset {
  import opened Common
  import opened PolicyEngine
  import opened MetadataGraph
  import opened OverlayWrites
  import opened Enforcement

  datatype CleanUp =
    | CleanNative(ref: NativeRef)
    | DeleteArtifact(artifact: ArtifactRef)
    | CleanDataset(urn: Urn)

  predicate Cleans(op: CleanUp, place: Place) {
    match op
    case CleanNative(ref) => place == NativeAt(ref)
    case CleanDataset(urn) => place == DatasetAt(urn)
    case DeleteArtifact(_) => false
  }

  predicate Untags(op: CleanUp, u: Urn) {
    match op
    case CleanNative(ref) => u == ref.urn
    case CleanDataset(urn) => u == urn
    case DeleteArtifact(_) => false
  }

  // ---------------------------------------------------------------- what one cleanup does

  function CleanedProps(g: Graph, op: CleanUp, place: Place): Props {
    if Cleans(op, place) then BaseProps(PropsAt(g, place)) else PropsAt(g, place)
  }

  function CleanedTags(g: Graph, op: CleanUp, u: Urn): seq<TagAssociation> {
    if Untags(op, u) then BaseTags(TagsOf(g, u)) else TagsOf(g, u)
  }

  function WithoutStatusTags(g: Graph, u: Urn): map<Urn, seq<TagAssociation>> {
    if u in g.tags then g.tags[u := BaseTags(g.tags[u])] else g.tags
  }

  /** First write of a cleanup: the properties (or the whole artifact). */
  function CleanProps(g: Graph, op: CleanUp): Graph {
    match op
    case CleanNative(ref) =>
      if ref in g.natives
      then g.(natives := g.natives[ref := g.natives[ref].(props := BaseProps(g.natives[ref].props))])
      else g
    case DeleteArtifact(artifact) => g.(artifacts := g.artifacts - {artifact})
    case CleanDataset(urn) =>
      if urn in g.datasets
      then g.(datasets := g.datasets[urn := g.datasets[urn].(props := BaseProps(g.datasets[urn].props))])
      else g
  }

  /** Second write of a cleanup: the status tags. */
  function CleanTags(g: Graph, op: CleanUp): Graph {
    match op
    case CleanNative(ref) => g.(tags := WithoutStatusTags(g, ref.urn))
    case DeleteArtifact(_) => g
    case CleanDataset(urn) => g.(tags := WithoutStatusTags(g, urn))
  }

  lemma {:induction false} CleanPropsAt(g: Graph, op: CleanUp, p: Place)
    ensures PropsAt(CleanProps(g, op), p) == CleanedProps(g, op, p)
    ensures PropsAt(CleanTags(g, op), p) == PropsAt(g, p)
  {
    assert PropsAt(g, p) == map[] ==> BaseProps(PropsAt(g, p)) == map[];
    match op
    case CleanNative(_) =>
    case DeleteArtifact(_) =>
    case CleanDataset(_) =>
  }

  lemma {:induction false} CleanTagsAt(g: Graph, op: CleanUp, u: Urn)
    ensures TagsOf(CleanTags(g, op), u) == CleanedTags(g, op, u)
    ensures TagsOf(CleanProps(g, op), u) == TagsOf(g, u)
  {
  }

  function Clean(g: Graph, op: CleanUp): Graph {
    CleanTags(CleanProps(g, op), op)
  }

  function CleanAll(g: Graph, ops: seq<CleanUp>): Graph {
    if ops == [] then g else Clean(CleanAll(g, ops[..|ops| - 1]), ops[|ops| - 1])
  }

  // ---------------------------------------------------------------- the plan

  function ControlledList(p: Props, control: Urn): Result<seq<Urn>, WriteError> {
    if ControlledUrns !in p then Ok([control])
    else if !p[ControlledUrns].Urns? || "" in p[ControlledUrns].urns then Err(Malformed(ControlledUrns))
    else Ok(Dedupe([control] + p[ControlledUrns].urns))
  }

  function Owned(g: Graph, incidentId: string, urns: seq<Urn>): (r: seq<Urn>)
    ensures forall u :: u in r <==> u in urns && BelongsTo(PropsOf(g, u), incidentId)
  {
    if urns == [] then []
    else
      var init, last := urns[..|urns| - 1], urns[|urns| - 1];
      assert urns == init + [last];
      Owned(g, incidentId, init) + (if BelongsTo(PropsOf(g, last), incidentId) then [last] else [])
  }

  function AllTargets(g: Graph, urns: seq<Urn>): Result<seq<NativeRef>, WriteError> {
    if urns == [] then Ok([])
    else AndTargets(AllTargets(g, urns[..|urns| - 1]), Targets(PropsOf(g, urns[|urns| - 1])))
  }

  /** The first error wins; otherwise the targets accumulate. */
  function AndTargets(a: Result<seq<NativeRef>, WriteError>, b: Result<seq<NativeRef>, WriteError>):
    Result<seq<NativeRef>, WriteError>
  {
    if a.Err? then a else if b.Err? then b else Ok(a.value + b.value)
  }

  predicate TargetOf(g: Graph, u: Urn, ref: NativeRef) {
    Targets(PropsOf(g, u)).Ok? && ref in Targets(PropsOf(g, u)).value
  }

  lemma {:induction false} AllTargetsMembers(g: Graph, urns: seq<Urn>)
    ensures AllTargets(g, urns).Ok? <==> forall u :: u in urns ==> Targets(PropsOf(g, u)).Ok?
    ensures AllTargets(g, urns).Ok? ==>
      forall ref :: ref in AllTargets(g, urns).value <==> exists u :: u in urns && TargetOf(g, u, ref)
  {
    if urns != [] {
      var init, last := urns[..|urns| - 1], urns[|urns| - 1];
      assert urns == init + [last];
      assert last in urns;
      AllTargetsMembers(g, init);
      if AllTargets(g, urns).Ok? {
        forall ref ensures ref in AllTargets(g, urns).value <==> exists u :: u in urns && TargetOf(g, u, ref) {
          if ref in AllTargets(g, init).value {
            var u :| u in init && TargetOf(g, u, ref);
            assert u in urns;
          } else if ref in Targets(PropsOf(g, last)).value {
            assert TargetOf(g, last, ref);
          }
        }
      }
    }
  }

  function OwnedNatives(g: Graph, incidentId: string, refs: seq<NativeRef>): seq<NativeRef> {
    if refs == [] then []
    else
      var init, last := refs[..|refs| - 1], refs[|refs| - 1];
      OwnedNatives(g, incidentId, init) + (if BelongsTo(NativePropsOf(g, last), incidentId) then [last] else [])
  }

  lemma {:induction false} OwnedNativesMembers(g: Graph, incidentId: string, refs: seq<NativeRef>, ref: NativeRef)
    ensures ref in OwnedNatives(g, incidentId, refs) <==> ref in refs && BelongsTo(NativePropsOf(g, ref), incidentId)
  {
    if refs != [] {
      assert refs == refs[..|refs| - 1] + [refs[|refs| - 1]];
      OwnedNativesMembers(g, incidentId, refs[..|refs| - 1], ref);
    }
  }

  function ForeignArtifacts(g: Graph, incidentId: string): Option<WriteError> {
    var incident, log := IncidentArtifact(incidentId), DecisionLogArtifact(incidentId);
    if incident in g.artifacts && g.artifacts[incident] != IncidentInfo(true) then Some(ForeignArtifact(incident))
    else if log in g.artifacts && g.artifacts[log] != DecisionLogInfo(incidentId) then Some(ForeignArtifact(log))
    else None
  }

  function OwnedArtifacts(g: Graph, incidentId: string): seq<ArtifactRef> {
    (if IncidentArtifact(incidentId) in g.artifacts then [IncidentArtifact(incidentId)] else [])
    + (if DecisionLogArtifact(incidentId) in g.artifacts then [DecisionLogArtifact(incidentId)] else [])
  }

  function Except(urns: seq<Urn>, control: Urn): (r: seq<Urn>)
    ensures forall u :: u in r <==> u in urns && u != control
  {
    if urns == [] then []
    else
      var init, last := urns[..|urns| - 1], urns[|urns| - 1];
      assert urns == init + [last];
      Except(init, control) + (if last != control then [last] else [])
  }

  datatype Plan = Plan(natives: seq<NativeRef>, artifacts: seq<ArtifactRef>, datasets: seq<Urn>)

  /** What reset will clean, or why it refuses; it refuses before any write. */
  function PlanReset(g: Graph, control: Urn, incidentId: string): Result<Plan, WriteError> {
    var p := PropsOf(g, control);
    if !BelongsTo(p, incidentId) then Err(OtherIncident)
    else match ControlledList(p, control)
      case Err(e) => Err(e)
      case Ok(urns) =>
        var owned := Owned(g, incidentId, urns);
        match AllTargets(g, owned)
        case Err(e) => Err(e)
        case Ok(refs) =>
          if ForeignArtifacts(g, incidentId).Some? then Err(ForeignArtifacts(g, incidentId).value)
          else Ok(Plan(
            OwnedNatives(g, incidentId, Dedupe(refs)),
            OwnedArtifacts(g, incidentId),
            Except(owned, control) + [control]))
  }

  function NativeOps(refs: seq<NativeRef>): (r: seq<CleanUp>)
    ensures |r| == |refs| && forall i :: 0 <= i < |r| ==> r[i] == CleanNative(refs[i])
  {
    seq(|refs|, i requires 0 <= i < |refs| => CleanNative(refs[i]))
  }

  function ArtifactOps(artifacts: seq<ArtifactRef>): (r: seq<CleanUp>)
    ensures |r| == |artifacts| && forall i :: 0 <= i < |r| ==> r[i] == DeleteArtifact(artifacts[i])
  {
    seq(|artifacts|, i requires 0 <= i < |artifacts| => DeleteArtifact(artifacts[i]))
  }

  function DatasetOps(urns: seq<Urn>): (r: seq<CleanUp>)
    ensures |r| == |urns| && forall i :: 0 <= i < |r| ==> r[i] == CleanDataset(urns[i])
  {
    seq(|urns|, i requires 0 <= i < |urns| => CleanDataset(urns[i]))
  }

  function Ops(plan: Plan): seq<CleanUp> {
    NativeOps(plan.natives) + ArtifactOps(plan.artifacts) + DatasetOps(plan.datasets)
  }

  // ---------------------------------------------------------------- the operation

  datatype ResetReceipt = ResetReceipt(
    incidentId: string,
    resetUrns: seq<Urn>,
    skippedUrns: seq<Urn>,
    removedPropertyCount: nat,
    resetNatives: seq<NativeRef>,
    skippedNatives: seq<NativeRef>,
    deletedArtifacts: seq<ArtifactRef>)

  function IncidentKeysIn(p: Props): set<Key> {
    set k | k in p && IsIncidentKey(k)
  }

  function RemovedFromNatives(g: Graph, refs: seq<NativeRef>): nat {
    if refs == [] then 0
    else RemovedFromNatives(g, refs[..|refs| - 1]) + |IncidentKeysIn(NativePropsOf(g, refs[|refs| - 1]))|
  }

  function RemovedFromDatasets(g: Graph, urns: seq<Urn>): nat {
    if urns == [] then 0
    else RemovedFromDatasets(g, urns[..|urns| - 1]) + |IncidentKeysIn(PropsOf(g, urns[|urns| - 1]))|
  }

  lemma {:induction false} RemovingIncidentKeys(p: Props)
    ensures p - IncidentKeysIn(p) == BaseProps(p)
  {
  }

  method ResetNative(graph: DataHub, ref: NativeRef) returns (removed: nat)
    modifies graph
    ensures graph.State() == Clean(old(graph.State()), CleanNative(ref))
    ensures removed == |IncidentKeysIn(NativePropsOf(old(graph.State()), ref))|
  {
    var properties := if ref in graph.natives then graph.natives[ref].props else map[];
    var keys := IncidentKeysIn(properties);
    RemovingIncidentKeys(properties);
    var left := RemoveAspectCustomProperties(graph, ref, keys);
    ghost var cleaned := CleanProps(old(graph.State()), CleanNative(ref));
    assert graph.State() == cleaned;
    var kept := RemoveTags(graph, ref.urn, STATUS_TAGS);
    assert graph.tags == WithoutStatusTags(cleaned, ref.urn);
    return |keys|;
  }

  method ResetDataset(graph: DataHub, urn: Urn) returns (removed: nat)
    modifies graph
    ensures graph.State() == Clean(old(graph.State()), CleanDataset(urn))
    ensures removed == |IncidentKeysIn(PropsOf(old(graph.State()), urn))|
  {
    var properties := if urn in graph.datasets then graph.datasets[urn].props else map[];
    var keys := IncidentKeysIn(properties);
    RemovingIncidentKeys(properties);
    var left := RemoveCustomProperties(graph, urn, keys);
    ghost var cleaned := CleanProps(old(graph.State()), CleanDataset(urn));
    assert graph.State() == cleaned;
    var kept := RemoveTags(graph, urn, STATUS_TAGS);
    assert graph.tags == WithoutStatusTags(cleaned, urn);
    return |keys|;
  }

  lemma {:induction false} CleanAllSnoc(g: Graph, ops: seq<CleanUp>, op: CleanUp)
    ensures CleanAll(g, ops + [op]) == Clean(CleanAll(g, ops), op)
  {
    assert (ops + [op])[..|ops|] == ops;
  }

  lemma {:induction false} CleanAllConcat(g: Graph, a: seq<CleanUp>, b: seq<CleanUp>)
    ensures CleanAll(g, a + b) == CleanAll(CleanAll(g, a), b)
  {
    if b == [] {
      assert a + b == a;
    } else {
      var init, last := b[..|b| - 1], b[|b| - 1];
      assert a + b == (a + init) + [last];
      CleanAllSnoc(g, a + init, last);
      CleanAllConcat(g, a, init);
    }
  }

  ghost predicate Covers(ops: seq<CleanUp>, place: Place) {
    exists op :: op in ops && Cleans(op, place)
  }

  ghost predicate CoversEntity(ops: seq<CleanUp>, u: Urn) {
    exists op :: op in ops && Untags(op, u)
  }

  /** After cleaning, a place shows base properties exactly when some cleanup covered it. */
  lemma {:induction false} CleanedPlace(g: Graph, ops: seq<CleanUp>, place: Place)
    ensures PropsAt(CleanAll(g, ops), place) ==
      if Covers(ops, place) then BaseProps(PropsAt(g, place)) else PropsAt(g, place)
  {
    if ops != [] {
      var init, last := ops[..|ops| - 1], ops[|ops| - 1];
      assert ops == init + [last];
      CleanedPlace(g, init, place);
      CleanPropsAt(CleanAll(g, init), last, place);
      CleanPropsAt(CleanProps(CleanAll(g, init), last), last, place);
      assert BaseProps(BaseProps(PropsAt(g, place))) == BaseProps(PropsAt(g, place));
      assert Covers(ops, place) <==> Covers(init, place) || Cleans(last, place) by { assert last in ops; }
    }
  }

  lemma {:induction false} CleanedEntity(g: Graph, ops: seq<CleanUp>, u: Urn)
    ensures TagsOf(CleanAll(g, ops), u) ==
      if CoversEntity(ops, u) then BaseTags(TagsOf(g, u)) else TagsOf(g, u)
  {
    if ops != [] {
      var init, last := ops[..|ops| - 1], ops[|ops| - 1];
      assert ops == init + [last];
      CleanedEntity(g, init, u);
      var mid := CleanProps(CleanAll(g, init), last);
      CleanTagsAt(CleanAll(g, init), last, u);
      CleanTagsAt(mid, last, u);
      BaseIsStable(TagsOf(g, u));
      assert CoversEntity(ops, u) <==> CoversEntity(init, u) || Untags(last, u) by { assert last in ops; }
    }
  }

  lemma {:induction false} CleanedArtifacts(g: Graph, ops: seq<CleanUp>)
    ensures forall a :: a in CleanAll(g, ops).artifacts <==> a in g.artifacts && DeleteArtifact(a) !in ops
    ensures forall a :: a in CleanAll(g, ops).artifacts ==> CleanAll(g, ops).artifacts[a] == g.artifacts[a]
  {
    if ops != [] {
      var init, last := ops[..|ops| - 1], ops[|ops| - 1];
      assert ops == init + [last];
      CleanedArtifacts(g, init);
    }
  }

  lemma {:induction false} OwnedStep(g: Graph, incidentId: string, urns: seq<Urn>, i: nat)
    requires i < |urns|
    ensures Owned(g, incidentId, urns[..i + 1]) ==
      Owned(g, incidentId, urns[..i]) + (if BelongsTo(PropsOf(g, urns[i]), incidentId) then [urns[i]] else [])
  {
    assert urns[..i + 1][..i] == urns[..i];
  }

  lemma {:induction false} FailedTargets(g: Graph, incidentId: string, urns: seq<Urn>, i: nat)
    requires i <= |urns|
    requires AllTargets(g, Owned(g, incidentId, urns[..i])).Err?
    ensures AllTargets(g, Owned(g, incidentId, urns)) == AllTargets(g, Owned(g, incidentId, urns[..i]))
    decreases |urns| - i
  {
    if i < |urns| {
      OwnedStep(g, incidentId, urns, i);
      assert Owned(g, incidentId, urns[..i]) + [] == Owned(g, incidentId, urns[..i]);
      FailedTargets(g, incidentId, urns, i + 1);
    } else {
      assert urns[..i] == urns;
    }
  }

  lemma {:induction false} AllTargetsSnoc(g: Graph, urns: seq<Urn>, u: Urn)
    ensures AllTargets(g, urns + [u]) == AndTargets(AllTargets(g, urns), Targets(PropsOf(g, u)))
  {
    assert (urns + [u])[..|urns|] == urns;
  }

  lemma {:induction false} NothingPlanned(g: Graph, incidentId: string)
    ensures Owned(g, incidentId, []) == [] && AllTargets(g, []) == Ok([])
  {
  }

  method PlanTargets(graph: DataHub, incidentId: string, urns: seq<Urn>)
    returns (owned: seq<Urn>, skipped: seq<Urn>, targets: Result<seq<NativeRef>, WriteError>)
    ensures targets.Ok? ==> owned == Owned(graph.State(), incidentId, urns)
    ensures targets == AllTargets(graph.State(), Owned(graph.State(), incidentId, urns))
    ensures targets.Ok? ==> forall u :: u in skipped <==> u in urns && u !in owned
  {
    hide Owned, AllTargets, Targets, BelongsTo;
    ghost var g := graph.State();
    owned, skipped := [], [];
    var refs: seq<NativeRef> := [];
    NothingPlanned(g, incidentId);
    for i := 0 to |urns|
      invariant owned == Owned(g, incidentId, urns[..i])
      invariant AllTargets(g, owned) == Ok(refs)
      invariant forall u :: u in skipped <==> u in urns[..i] && !BelongsTo(PropsOf(g, u), incidentId)
    {
      var urn := urns[i];
      assert urns[..i + 1] == urns[..i] + [urn];
      OwnedStep(g, incidentId, urns, i);
      var properties := if urn in graph.datasets then graph.datasets[urn].props else map[];
      assert properties == PropsOf(g, urn);
      if BelongsTo(properties, incidentId) {
        AllTargetsSnoc(g, owned, urn);
        var more := Targets(properties);
        if more.Err? {
          FailedTargets(g, incidentId, urns, i + 1);
          return owned, skipped, Err(more.error);
        }
        owned := owned + [urn];
        refs := refs + more.value;
      } else {
        skipped := skipped + [urn];
      }
    }
    assert urns[..|urns|] == urns;
    return owned, skipped, Ok(refs);
  }

  lemma {:induction false} OwnedNativesStep(g: Graph, incidentId: string, refs: seq<NativeRef>, i: nat)
    requires i < |refs|
    ensures OwnedNatives(g, incidentId, refs[..i + 1]) ==
      OwnedNatives(g, incidentId, refs[..i]) + (if BelongsTo(NativePropsOf(g, refs[i]), incidentId) then [refs[i]] else [])
  {
    assert refs[..i + 1][..i] == refs[..i];
  }

  lemma {:induction false} NativeOpsSnoc(g: Graph, done: seq<NativeRef>, ref: NativeRef)
    ensures CleanAll(g, NativeOps(done + [ref])) == Clean(CleanAll(g, NativeOps(done)), CleanNative(ref))
    ensures RemovedFromNatives(g, done + [ref]) == RemovedFromNatives(g, done) + |IncidentKeysIn(NativePropsOf(g, ref))|
  {
    assert NativeOps(done + [ref]) == NativeOps(done) + [CleanNative(ref)];
    CleanAllSnoc(g, NativeOps(done), CleanNative(ref));
    assert (done + [ref])[..|done|] == done;
  }

  lemma {:induction false} NothingCleaned(g: Graph, incidentId: string)
    ensures OwnedNatives(g, incidentId, []) == [] && CleanAll(g, NativeOps([])) == g && RemovedFromNatives(g, []) == 0
  {
  }

  method ResetNatives(graph: DataHub, incidentId: string, refs: seq<NativeRef>)
    returns (removed: nat, done: seq<NativeRef>, skipped: seq<NativeRef>)
    requires Distinct(refs)
    modifies graph
    ensures done == OwnedNatives(old(graph.State()), incidentId, refs)
    ensures forall r :: r in skipped <==> r in refs && r !in done
    ensures graph.State() == CleanAll(old(graph.State()), NativeOps(done))
    ensures removed == RemovedFromNatives(old(graph.State()), done)
  {
    hide OwnedNatives, CleanAll, NativeOps, RemovedFromNatives, BelongsTo, Clean, IncidentKeysIn;
    ghost var before := graph.State();
    removed, done, skipped := 0, [], [];
    NothingCleaned(before, incidentId);
    for i := 0 to |refs|
      invariant done == OwnedNatives(before, incidentId, refs[..i])
      invariant forall r :: r in skipped <==> r in refs[..i] && !BelongsTo(NativePropsOf(before, r), incidentId)
      invariant graph.State() == CleanAll(before, NativeOps(done))
      invariant removed == RemovedFromNatives(before, done)
    {
      var ref := refs[i];
      assert refs[..i + 1] == refs[..i] + [ref];
      OwnedNativesStep(before, incidentId, refs, i);
      OwnedNativesMembers(before, incidentId, refs[..i], ref);
      assert ref !in refs[..i];
      NotCleanedYet(before, done, ref);
      var properties := if ref in graph.natives then graph.natives[ref].props else map[];
      assert properties == NativePropsOf(before, ref);
      if BelongsTo(properties, incidentId) {
        var count := ResetNative(graph, ref);
        NativeOpsSnoc(before, done, ref);
        done := done + [ref];
        removed := removed + count;
      } else {
        skipped := skipped + [ref];
      }
    }
    assert refs[..|refs|] == refs;
    forall r ensures r in done <==> r in refs && BelongsTo(NativePropsOf(before, r), incidentId) {
      OwnedNativesMembers(before, incidentId, refs, r);
    }
  }

  lemma {:induction false} NotCleanedYet(g: Graph, done: seq<NativeRef>, ref: NativeRef)
    requires ref !in done
    ensures NativePropsOf(CleanAll(g, NativeOps(done)), ref) == NativePropsOf(g, ref)
  {
    CleanedPlace(g, NativeOps(done), NativeAt(ref));
    assert PropsAt(CleanAll(g, NativeOps(done)), NativeAt(ref)) == PropsAt(g, NativeAt(ref));
  }

  method DeleteArtifacts(graph: DataHub, artifacts: seq<ArtifactRef>)
    modifies graph
    ensures graph.State() == CleanAll(old(graph.State()), ArtifactOps(artifacts))
  {
    ghost var before := graph.State();
    for i := 0 to |artifacts|
      invariant graph.State() == CleanAll(before, ArtifactOps(artifacts[..i]))
    {
      graph.artifacts := graph.artifacts - {artifacts[i]};
      assert ArtifactOps(artifacts[..i + 1]) == ArtifactOps(artifacts[..i]) + [DeleteArtifact(artifacts[i])];
      CleanAllSnoc(before, ArtifactOps(artifacts[..i]), DeleteArtifact(artifacts[i]));
    }
    assert artifacts[..|artifacts|] == artifacts;
  }

  method ResetDatasets(graph: DataHub, urns: seq<Urn>) returns (removed: nat)
    requires Distinct(urns)
    modifies graph
    ensures graph.State() == CleanAll(old(graph.State()), DatasetOps(urns))
    ensures removed == RemovedFromDatasets(old(graph.State()), urns)
  {
    ghost var before := graph.State();
    removed := 0;
    for i := 0 to |urns|
      invariant graph.State() == CleanAll(before, DatasetOps(urns[..i]))
      invariant removed == RemovedFromDatasets(before, urns[..i])
    {
      DatasetNotCleanedYet(before, urns[..i], urns[i]);
      var count := ResetDataset(graph, urns[i]);
      assert DatasetOps(urns[..i + 1]) == DatasetOps(urns[..i]) + [CleanDataset(urns[i])];
      CleanAllSnoc(before, DatasetOps(urns[..i]), CleanDataset(urns[i]));
      assert urns[..i + 1][..i] == urns[..i];
      removed := removed + count;
    }
    assert urns[..|urns|] == urns;
  }

  lemma {:induction false} DatasetNotCleanedYet(g: Graph, done: seq<Urn>, urn: Urn)
    requires urn !in done
    ensures PropsOf(CleanAll(g, DatasetOps(done)), urn) == PropsOf(g, urn)
  {
    CleanedPlace(g, DatasetOps(done), DatasetAt(urn));
    assert PropsAt(CleanAll(g, DatasetOps(done)), DatasetAt(urn)) == PropsAt(g, DatasetAt(urn));
  }

  lemma {:induction false} OwnedDistinct(g: Graph, incidentId: string, urns: seq<Urn>)
    requires Distinct(urns)
    ensures Distinct(Owned(g, incidentId, urns))
  {
    if urns != [] {
      var init, last := urns[..|urns| - 1], urns[|urns| - 1];
      OwnedDistinct(g, incidentId, init);
      assert last !in init;
    }
  }

  lemma {:induction false} ExceptDistinct(urns: seq<Urn>, control: Urn)
    requires Distinct(urns)
    ensures Distinct(Except(urns, control) + [control])
  {
    ExceptIsDistinct(urns, control);
    DistinctSnoc(Except(urns, control), control);
  }

  lemma {:induction false} ExceptIsDistinct(urns: seq<Urn>, control: Urn)
    requires Distinct(urns)
    ensures Distinct(Except(urns, control))
  {
    if urns != [] {
      ExceptIsDistinct(urns[..|urns| - 1], control);
      assert urns[|urns| - 1] !in urns[..|urns| - 1];
    }
  }

  lemma {:induction false} PlanIsDistinct(g: Graph, control: Urn, incidentId: string)
    requires PlanReset(g, control, incidentId).Ok?
    ensures Distinct(PlanReset(g, control, incidentId).value.datasets)
    ensures Distinct(PlanReset(g, control, incidentId).value.natives)
  {
    var urns := ControlledList(PropsOf(g, control), control).value;
    OwnedDistinct(g, incidentId, urns);
    var owned := Owned(g, incidentId, urns);
    ExceptDistinct(owned, control);
    OwnedNativesDistinct(g, incidentId, Dedupe(AllTargets(g, owned).value));
  }

  lemma {:induction false} OwnedNativesDistinct(g: Graph, incidentId: string, refs: seq<NativeRef>)
    requires Distinct(refs)
    ensures Distinct(OwnedNatives(g, incidentId, refs))
  {
    if refs != [] {
      OwnedNativesDistinct(g, incidentId, refs[..|refs| - 1]);
      OwnedNativesMembers(g, incidentId, refs[..|refs| - 1], refs[|refs| - 1]);
      assert refs[|refs| - 1] !in refs[..|refs| - 1];
    }
  }

  /** Remove one incident's overlay and its own artifacts, keeping seeded metadata. */
  method ResetIncidentMetadata(graph: DataHub, control: Urn, incidentId: string)
    returns (result: Result<ResetReceipt, WriteError>)
    modifies graph
    ensures var before := old(graph.State());
      match PlanReset(before, control, incidentId)
      case Err(e) => result == Err(e) && graph.State() == before
      case Ok(plan) =>
        && graph.State() == CleanAll(before, Ops(plan))
        && result.Ok?
        && result.value.incidentId == incidentId
        && result.value.resetUrns == plan.datasets
        && result.value.resetNatives == plan.natives
        && result.value.deletedArtifacts == plan.artifacts
        && result.value.removedPropertyCount == RemovedFromNatives(before, plan.natives) + RemovedFromDatasets(before, plan.datasets)
        && (forall u :: u in result.value.skippedUrns <==>
          u in ControlledList(PropsOf(before, control), control).value && u !in plan.datasets)
  {
    ghost var before := graph.State();
    var p := if control in graph.datasets then graph.datasets[control].props else map[];
    if !BelongsTo(p, incidentId) {
      return Err(OtherIncident);
    }
    var listed := ControlledList(p, control);
    if listed.Err? {
      return Err(listed.error);
    }
    var owned, skipped, targets := PlanTargets(graph, incidentId, listed.value);
    if targets.Err? {
      return Err(targets.error);
    }
    var foreign := ForeignArtifacts(graph.State(), incidentId);
    if foreign.Some? {
      return Err(foreign.value);
    }
    var plan := Plan(
      OwnedNatives(graph.State(), incidentId, Dedupe(targets.value)),
      OwnedArtifacts(graph.State(), incidentId),
      Except(owned, control) + [control]);
    assert PlanReset(before, control, incidentId) == Ok(plan);
    PlanIsDistinct(before, control, incidentId);
    var removed, skippedNatives := CleanUpPlanned(graph, incidentId, Dedupe(targets.value), plan);
    return Ok(ResetReceipt(incidentId, plan.datasets, skipped, removed, plan.natives, skippedNatives, plan.artifacts));
  }

  /** The three cleanup phases: natives, incident artifacts, datasets. */
  method CleanUpPlanned(graph: DataHub, incidentId: string, refs: seq<NativeRef>, plan: Plan)
    returns (removed: nat, skipped: seq<NativeRef>)
    requires Distinct(refs) && Distinct(plan.datasets)
    requires plan.natives == OwnedNatives(graph.State(), incidentId, refs)
    modifies graph
    ensures graph.State() == CleanAll(old(graph.State()), Ops(plan))
    ensures removed == RemovedFromNatives(old(graph.State()), plan.natives) + RemovedFromDatasets(old(graph.State()), plan.datasets)
    ensures forall r :: r in skipped <==> r in refs && r !in plan.natives
  {
    ghost var before := graph.State();
    var fromNatives, done, skippedNatives := ResetNatives(graph, incidentId, refs);
    DeleteArtifacts(graph, plan.artifacts);
    ghost var first := NativeOps(done) + ArtifactOps(plan.artifacts);
    CleanAllConcat(before, NativeOps(done), ArtifactOps(plan.artifacts));
    assert graph.State() == CleanAll(before, first);
    var fromDatasets := ResetDatasets(graph, plan.datasets);
    CleanAllConcat(before, first, DatasetOps(plan.datasets));
    SameRemovals(before, first, plan.datasets);
    return fromNatives + fromDatasets, skippedNatives;
  }

  lemma {:induction false} SameRemovals(g: Graph, ops: seq<CleanUp>, urns: seq<Urn>)
    requires forall op :: op in ops ==> !op.CleanDataset?
    ensures RemovedFromDatasets(CleanAll(g, ops), urns) == RemovedFromDatasets(g, urns)
  {
    if urns != [] {
      var last := urns[|urns| - 1];
      SameRemovals(g, ops, urns[..|urns| - 1]);
      CleanedPlace(g, ops, DatasetAt(last));
      assert PropsAt(CleanAll(g, ops), DatasetAt(last)) == PropsAt(g, DatasetAt(last));
    }
  }
}
