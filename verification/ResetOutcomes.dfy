/** What the receipt of a reset reports, read off the catalog before and after it. */
module ResetOutcomes {
  import opened Common
  import opened PolicyEngine
  import opened MetadataGraph
  import opened OverlayWrites
  import opened Enforcement
  import opened Reset

  /** The artifacts of an incident are its own: a native incident that SciGuard made, a log of this incident. */
  predicate ArtifactsAreOwn(g: Graph, incidentId: string) {
    && (IncidentArtifact(incidentId) in g.artifacts ==> g.artifacts[IncidentArtifact(incidentId)] == IncidentInfo(true))
    && (DecisionLogArtifact(incidentId) in g.artifacts ==>
      g.artifacts[DecisionLogArtifact(incidentId)] == DecisionLogInfo(incidentId))
  }

  /** The list on the control asset, itself first, each name once; without a list, itself alone. */
  predicate ListReads(p: Props, control: Urn) {
    ControlledUrns in p ==> p[ControlledUrns].Urns? && "" !in p[ControlledUrns].urns
  }

  lemma {:induction false} ArtifactsRead(g: Graph, incidentId: string)
    ensures ForeignArtifacts(g, incidentId).None? <==> ArtifactsAreOwn(g, incidentId)
    ensures forall a :: a in OwnedArtifacts(g, incidentId) <==>
      a in g.artifacts && (a == IncidentArtifact(incidentId) || a == DecisionLogArtifact(incidentId))
    ensures Distinct(OwnedArtifacts(g, incidentId))
  {
  }

  lemma {:induction false} ListRead(p: Props, control: Urn)
    ensures ControlledList(p, control).Ok? <==> ListReads(p, control)
    ensures ControlledList(p, control).Ok? ==>
      var urns := ControlledList(p, control).value;
      && Distinct(urns)
      && forall u :: u in urns <==> u == control || (ControlledUrns in p && u in p[ControlledUrns].urns)
  {
    assert Distinct([control]);
  }

  /** When a reset is accepted, and what it cleans: every asset on the list that belongs to the incident,
      the control asset last, their native targets that belong to it, and its own artifacts. */
  lemma {:induction false} PlanRead(g: Graph, control: Urn, incidentId: string)
    ensures var p := PropsOf(g, control);
      PlanReset(g, control, incidentId).Ok? <==>
        && IncidentId in p && p[IncidentId] == Text(incidentId)
        && ListReads(p, control) && ArtifactsAreOwn(g, incidentId)
        && forall u :: ListedAndOwned(g, control, incidentId, u) ==> Targets(PropsOf(g, u)).Ok?
    ensures PlanReset(g, control, incidentId).Ok? ==>
      var plan := PlanReset(g, control, incidentId).value;
      && (forall u :: u in plan.datasets <==> ListedAndOwned(g, control, incidentId, u))
      && plan.datasets[|plan.datasets| - 1] == control
      && (forall r :: r in plan.natives <==>
        BelongsTo(NativePropsOf(g, r), incidentId)
        && exists u :: ListedAndOwned(g, control, incidentId, u) && Targets(PropsOf(g, u)).Ok? && r in Targets(PropsOf(g, u)).value)
      && (forall a :: a in plan.artifacts <==>
        a in g.artifacts && (a == IncidentArtifact(incidentId) || a == DecisionLogArtifact(incidentId)))
  {
    hide ForeignArtifacts, OwnedArtifacts, ControlledList, Targets;
    var p := PropsOf(g, control);
    ListRead(p, control);
    ArtifactsRead(g, incidentId);
    if BelongsTo(p, incidentId) && ControlledList(p, control).Ok? {
      var owned := Owned(g, incidentId, ControlledList(p, control).value);
      AllTargetsMembers(g, owned);
      if AllTargets(g, owned).Ok? {
        var refs := AllTargets(g, owned).value;
        forall r ensures r in OwnedNatives(g, incidentId, Dedupe(refs)) <==> r in refs && BelongsTo(NativePropsOf(g, r), incidentId) {
          OwnedNativesMembers(g, incidentId, Dedupe(refs), r);
        }
      }
    }
  }

  predicate ListedAndOwned(g: Graph, control: Urn, incidentId: string, u: Urn) {
    var p := PropsOf(g, control);
    && (u == control || (ControlledUrns in p && p[ControlledUrns].Urns? && u in p[ControlledUrns].urns))
    && BelongsTo(PropsOf(g, u), incidentId)
  }

  // ---------------------------------------------------------------- the count

  /** The incident properties of a list of places. */
  function Entries(g: Graph, places: seq<Place>): set<(Place, Key)> {
    set place, k | place in places && k in PropsAt(g, place) && IsIncidentKey(k) :: (place, k)
  }

  lemma {:induction false} PairedCount(place: Place, keys: set<Key>)
    ensures |set k | k in keys :: (place, k)| == |keys|
  {
    if keys != {} {
      var k :| k in keys;
      PairedCount(place, keys - {k});
      assert (set x | x in keys :: (place, x)) == (set x | x in keys - {k} :: (place, x)) + {(place, k)};
    }
  }

  function CountAll(g: Graph, places: seq<Place>): nat {
    if places == [] then 0
    else CountAll(g, places[..|places| - 1]) + |IncidentKeysIn(PropsAt(g, places[|places| - 1]))|
  }

  function EntriesAt(g: Graph, place: Place): set<(Place, Key)> {
    set k | k in IncidentKeysIn(PropsAt(g, place)) :: (place, k)
  }

  lemma {:induction false} EntriesSnoc(g: Graph, init: seq<Place>, last: Place)
    requires last !in init
    ensures Entries(g, init + [last]) == Entries(g, init) + EntriesAt(g, last)
    ensures Entries(g, init) !! EntriesAt(g, last)
  {
    var all := Entries(g, init + [last]);
    forall e ensures e in all <==> e in Entries(g, init) + EntriesAt(g, last) {
      assert e.0 in init + [last] <==> e.0 in init || e.0 == last;
    }
  }

  lemma {:induction false} EntriesCounted(g: Graph, places: seq<Place>)
    requires Distinct(places)
    ensures |Entries(g, places)| == CountAll(g, places)
  {
    if places != [] {
      var init, last := places[..|places| - 1], places[|places| - 1];
      assert places == init + [last];
      EntriesCounted(g, init);
      PairedCount(last, IncidentKeysIn(PropsAt(g, last)));
      EntriesSnoc(g, init, last);
    }
  }

  function NativePlaces(refs: seq<NativeRef>): (r: seq<Place>)
    ensures |r| == |refs| && forall i :: 0 <= i < |r| ==> r[i] == NativeAt(refs[i])
  {
    seq(|refs|, i requires 0 <= i < |refs| => NativeAt(refs[i]))
  }

  function DatasetPlaces(urns: seq<Urn>): (r: seq<Place>)
    ensures |r| == |urns| && forall i :: 0 <= i < |r| ==> r[i] == DatasetAt(urns[i])
  {
    seq(|urns|, i requires 0 <= i < |urns| => DatasetAt(urns[i]))
  }

  /** The places of a plan, natives first. */
  function PlacesOf(plan: Plan): seq<Place> {
    NativePlaces(plan.natives) + DatasetPlaces(plan.datasets)
  }

  lemma {:induction false} PlacesMembers(plan: Plan, place: Place)
    ensures place in PlacesOf(plan) <==> (place.NativeAt? && place.ref in plan.natives) || (place.DatasetAt? && place.urn in plan.datasets)
  {
    var a, b := NativePlaces(plan.natives), DatasetPlaces(plan.datasets);
    if place.NativeAt? && place.ref in plan.natives {
      var i :| 0 <= i < |a| && plan.natives[i] == place.ref;
      assert a[i] == place;
    }
    if place.DatasetAt? && place.urn in plan.datasets {
      var i :| 0 <= i < |b| && plan.datasets[i] == place.urn;
      assert b[i] == place;
    }
  }

  lemma {:induction false} PlacesDistinct(plan: Plan)
    requires Distinct(plan.natives) && Distinct(plan.datasets)
    ensures Distinct(PlacesOf(plan))
  {
    var a, b := NativePlaces(plan.natives), DatasetPlaces(plan.datasets);
    assert Distinct(a) && Distinct(b);
    forall i, j | 0 <= i < |a| && 0 <= j < |b| ensures a[i] != b[j] {}
  }

  lemma {:induction false} CountSplit(g: Graph, a: seq<Place>, b: seq<Place>)
    ensures CountAll(g, a + b) == CountAll(g, a) + CountAll(g, b)
  {
    if b == [] {
      assert a + b == a;
    } else {
      assert (a + b)[..|a + b| - 1] == a + b[..|b| - 1];
      CountSplit(g, a, b[..|b| - 1]);
    }
  }

  lemma {:induction false} NativesCounted(g: Graph, refs: seq<NativeRef>, places: seq<Place>)
    requires |places| == |refs| && forall i :: 0 <= i < |refs| ==> places[i] == NativeAt(refs[i])
    ensures CountAll(g, places) == RemovedFromNatives(g, refs)
  {
    if refs != [] { NativesCounted(g, refs[..|refs| - 1], places[..|refs| - 1]); }
  }

  lemma {:induction false} DatasetsCounted(g: Graph, urns: seq<Urn>, places: seq<Place>)
    requires |places| == |urns| && forall i :: 0 <= i < |urns| ==> places[i] == DatasetAt(urns[i])
    ensures CountAll(g, places) == RemovedFromDatasets(g, urns)
  {
    if urns != [] { DatasetsCounted(g, urns[..|urns| - 1], places[..|urns| - 1]); }
  }

  lemma {:induction false} PlacesCounted(g: Graph, plan: Plan)
    requires Distinct(plan.natives) && Distinct(plan.datasets)
    ensures Distinct(PlacesOf(plan))
    ensures |Entries(g, PlacesOf(plan))| == RemovedFromNatives(g, plan.natives) + RemovedFromDatasets(g, plan.datasets)
  {
    hide Distinct, Entries, CountAll;
    PlacesDistinct(plan);
    EntriesCounted(g, PlacesOf(plan));
    CountSplit(g, NativePlaces(plan.natives), DatasetPlaces(plan.datasets));
    NativesCounted(g, plan.natives, NativePlaces(plan.natives));
    DatasetsCounted(g, plan.datasets, DatasetPlaces(plan.datasets));
  }

  lemma {:induction false} NativeIsOp(plan: Plan, r: NativeRef)
    ensures CleanNative(r) in Ops(plan) <==> r in plan.natives
  {
    var a, b, c := NativeOps(plan.natives), ArtifactOps(plan.artifacts), DatasetOps(plan.datasets);
    if r in plan.natives {
      var i :| 0 <= i < |a| && plan.natives[i] == r;
      assert a[i] == CleanNative(r) && a[i] in a;
    }
    assert CleanNative(r) !in b && CleanNative(r) !in c;
  }

  lemma {:induction false} DatasetIsOp(plan: Plan, u: Urn)
    ensures CleanDataset(u) in Ops(plan) <==> u in plan.datasets
  {
    var a, b, c := NativeOps(plan.natives), ArtifactOps(plan.artifacts), DatasetOps(plan.datasets);
    if u in plan.datasets {
      var i :| 0 <= i < |c| && plan.datasets[i] == u;
      assert c[i] == CleanDataset(u) && c[i] in c;
    }
    assert CleanDataset(u) !in a && CleanDataset(u) !in b;
  }

  lemma {:induction false} PlacesCover(plan: Plan, place: Place)
    ensures Covers(Ops(plan), place) <==> place in PlacesOf(plan)
  {
    hide Ops, PlacesOf;
    PlacesMembers(plan, place);
    match place {
      case NativeAt(r) => NativeIsOp(plan, r); assert Cleans(CleanNative(r), place);
      case DatasetAt(u) => DatasetIsOp(plan, u); assert Cleans(CleanDataset(u), place);
    }
  }

  /** The property count on the receipt of a reset is the number of properties, over all datasets and
      native aspects of the catalog, that were there before it and are gone after it. */
  lemma {:induction false} CountIsWhatIsLost(g: Graph, control: Urn, incidentId: string)
    requires PlanReset(g, control, incidentId).Ok?
    ensures var plan := PlanReset(g, control, incidentId).value;
      var after, lost := CleanAll(g, Ops(plan)), Entries(g, PlacesOf(plan));
      && |lost| == RemovedFromNatives(g, plan.natives) + RemovedFromDatasets(g, plan.datasets)
      && forall place, k :: (place, k) in lost <==> k in PropsAt(g, place) && k !in PropsAt(after, place)
  {
    hide PlanReset, Covers;
    var plan := PlanReset(g, control, incidentId).value;
    var after, lost := CleanAll(g, Ops(plan)), Entries(g, PlacesOf(plan));
    PlanIsDistinct(g, control, incidentId);
    PlacesCounted(g, plan);
    forall place, k ensures (place, k) in lost <==> k in PropsAt(g, place) && k !in PropsAt(after, place) {
      PlacesCover(plan, place);
      CleanedPlace(g, Ops(plan), place);
    }
  }
}
