/** Whole runs of enforcement and recovery, and what reset makes of them. */
module OverlayRuns {
  import opened Common
  import opened IncidentLifecycle
  import opened PolicyEngine
  import opened MetadataGraph
  import opened OverlayWrites
  import opened Enforcement
  import opened Recovery
  import opened Reset
  import opened ResetRetry

  // ---------------------------------------------------------------- complete enforcement

  predicate SupportedAsset(g: Graph, urn: Urn) {
    Targets(PropsOf(g, urn)).Ok? && forall r :: r in Targets(PropsOf(g, urn)).value ==> r in g.natives
  }

  /** Every native aspect the written-back assets point at exists and is of a known type. */
  predicate Supported(g: Graph, ds: seq<AssetDecision>) {
    forall d :: d in ds && WritesBack(d) ==> SupportedAsset(g, d.asset.urn)
  }

  lemma {:induction false} MirrorCompletes(natives: set<NativeRef>, targets: seq<NativeRef>, tag: Option<Tag>, updates: Props)
    ensures MirrorScript(natives, targets, tag, updates).error.None? <==> forall r :: r in targets ==> r in natives
    ensures MirrorScript(natives, targets, tag, updates).error.None? ==>
      forall r :: r in targets ==> Merge(NativeAt(r), updates) in MirrorScript(natives, targets, tag, updates).writes
  {
    if targets != [] {
      MirrorCompletes(natives, targets[1..], tag, updates);
      assert targets[0] in targets;
      assert forall r :: r in targets ==> r == targets[0] || r in targets[1..];
    }
  }

  lemma {:induction false} DecisionCompletes(g: Graph, plan: PolicyPlan, d: AssetDecision)
    ensures DecisionScript(g, plan, d).error.None? <==> SupportedAsset(g, d.asset.urn)
    ensures Merge(DatasetAt(d.asset.urn), UpdatesFor(g, plan, d)) in DecisionScript(g, plan, d).writes
    ensures StatusTag(d.status).Some? ==> PutStatus(d.asset.urn, StatusTag(d.status).value) in DecisionScript(g, plan, d).writes
    ensures SupportedAsset(g, d.asset.urn) ==> forall r :: TargetOf(g, d.asset.urn, r) ==>
      Merge(NativeAt(r), UpdatesFor(g, plan, d)) in DecisionScript(g, plan, d).writes
  {
    var targets := Targets(PropsOf(g, d.asset.urn));
    if targets.Ok? {
      MirrorCompletes(g.natives.Keys, targets.value, StatusTag(d.status), UpdatesFor(g, plan, d));
    }
  }

  /** Enforcement raises exactly when some written-back asset is unsupported. */
  lemma {:induction false} PlanCompletes(g: Graph, plan: PolicyPlan, ds: seq<AssetDecision>)
    ensures PlanScript(g, plan, ds).error.None? <==> Supported(g, ds)
  {
    if ds != [] {
      PlanCompletes(g, plan, ds[1..]);
      DecisionCompletes(g, plan, ds[0]);
      assert forall d :: d in ds <==> d == ds[0] || d in ds[1..];
    }
  }

  /** A completed plan holds every write of each of its decisions. */
  lemma {:induction false} PlanHolds(g: Graph, plan: PolicyPlan, ds: seq<AssetDecision>, d: AssetDecision)
    requires Supported(g, ds) && d in ds && WritesBack(d)
    ensures forall w :: w in DecisionScript(g, plan, d).writes ==> w in PlanScript(g, plan, ds).writes
  {
    assert forall x :: x in ds[1..] ==> x in ds;
    if WritesBack(ds[0]) {
      assert ds[0] in ds;
      DecisionCompletes(g, plan, ds[0]);
    }
    if d != ds[0] {
      PlanHolds(g, plan, ds[1..], d);
    }
  }

  lemma {:induction false} ControlledMembers(plan: PolicyPlan)
    ensures forall u :: u in Controlled(plan) <==> exists d :: d in plan.decisions && WritesBack(d) && d.asset.urn == u
  {
    var back := WrittenBack(plan.decisions);
    forall u ensures u in Controlled(plan) <==> exists d :: d in plan.decisions && WritesBack(d) && d.asset.urn == u {
      if u in Controlled(plan) {
        var i :| 0 <= i < |back| && UrnsOf(back)[i] == u;
        assert back[i] in back && back[i].asset.urn == u;
      }
      if d :| d in plan.decisions && WritesBack(d) && d.asset.urn == u {
        var i :| 0 <= i < |back| && back[i] == d;
        assert UrnsOf(back)[i] == u;
      }
    }
  }

  // ---------------------------------------------------------------- what enforcement leaves behind

  ghost predicate MergesInto(ws: seq<Write>, p: Place) {
    exists w :: w in ws && w.Merge? && w.place == p
  }

  ghost predicate PutsOn(ws: seq<Write>, u: Urn) {
    exists w :: w in ws && w.PutStatus? && w.urn == u
  }

  lemma {:induction false} MergesIntoConcat(a: seq<Write>, b: seq<Write>, p: Place)
    ensures MergesInto(a + b, p) <==> MergesInto(a, p) || MergesInto(b, p)
  {
    if w :| w in a && w.Merge? && w.place == p { assert w in a + b; }
    if w :| w in b && w.Merge? && w.place == p { assert w in a + b; }
  }

  /** A decision merges into its own dataset and no other. */
  lemma {:induction false} DecisionMerges(g: Graph, plan: PolicyPlan, d: AssetDecision)
    ensures forall u :: MergesInto(DecisionScript(g, plan, d).writes, DatasetAt(u)) <==> u == d.asset.urn
  {
    DecisionCompletes(g, plan, d);
    DecisionParts(g, plan, d);
  }

  /** Enforcement gets as far as this asset: every asset written back before it is supported. */
  predicate Reached(g: Graph, ds: seq<AssetDecision>, u: Urn) {
    if ds == [] then false
    else if !WritesBack(ds[0]) then Reached(g, ds[1..], u)
    else ds[0].asset.urn == u || (SupportedAsset(g, ds[0].asset.urn) && Reached(g, ds[1..], u))
  }

  /** The datasets merged into are the assets reached, whether or not the plan completes. */
  lemma {:induction false} ReachedIsMerged(g: Graph, plan: PolicyPlan, ds: seq<AssetDecision>, u: Urn)
    ensures MergesInto(PlanScript(g, plan, ds).writes, DatasetAt(u)) <==> Reached(g, ds, u)
  {
    if ds != [] {
      ReachedIsMerged(g, plan, ds[1..], u);
      if WritesBack(ds[0]) {
        DecisionMerges(g, plan, ds[0]);
        DecisionCompletes(g, plan, ds[0]);
        MergesIntoConcat(DecisionScript(g, plan, ds[0]).writes, PlanScript(g, plan, ds[1..]).writes, DatasetAt(u));
      }
    }
  }

  lemma {:induction false} LastMergeIsOne(ws: seq<Write>, place: Place)
    ensures MergesInto(ws, place) ==> Merge(place, LastMerge(ws, place)) in ws
    ensures !MergesInto(ws, place) ==> LastMerge(ws, place) == map[]
  {
    if ws != [] {
      var init, last := ws[..|ws| - 1], ws[|ws| - 1];
      assert ws == init + [last];
      LastMergeIsOne(init, place);
    }
  }

  predicate CarriesPlan(p: Props, plan: PolicyPlan) {
    && p.Keys == CONTROL_KEYS
    && BelongsTo(p, plan.incidentId)
    && ControlledUrns in p && p[ControlledUrns] == Urns(Controlled(plan))
  }

  lemma {:induction false} UpdatesCarryPlan(plan: PolicyPlan, d: AssetDecision, history: Value)
    ensures CarriesPlan(ControlUpdates(plan, d, history), plan)
  {
  }

  /** Every merge of a plan carries the plan's incident and target list. */
  lemma {:induction false} PlanMerge(g: Graph, plan: PolicyPlan, ds: seq<AssetDecision>, w: Write)
    requires w in PlanScript(g, plan, ds).writes && w.Merge?
    ensures CarriesPlan(w.updates, plan)
  {
    PlanParts(g, plan, ds);
    assert ServesPlan(g, plan, ds, w);
    var d :| d in ds && WritesBack(d) && ServesDecision(g, plan, d, w);
    UpdatesCarryPlan(plan, d, HistoryKept(PropsOf(g, d.asset.urn), plan.incidentId));
  }

  /** After enforcement, a place shows the last update merged into it over what it had. */
  lemma {:induction false} EnforcedPlace(g: Graph, plan: PolicyPlan, place: Place)
    requires Writable(g, place)
    ensures var ws := PlanScript(g, plan, plan.decisions).writes;
      && PropsAt(DoAll(g, ws), place) == PropsAt(g, place) + LastMerge(ws, place)
      && (LastMerge(ws, place) == map[] || CarriesPlan(LastMerge(ws, place), plan))
      && (LastMerge(ws, place) != map[] <==> MergesInto(ws, place))
  {
    var ws := PlanScript(g, plan, plan.decisions).writes;
    forall w | w in ws && w.Merge? && w.place == place ensures w.updates.Keys == CONTROL_KEYS {
      PlanMerge(g, plan, plan.decisions, w);
    }
    LastMergeWins(g, ws, place, CONTROL_KEYS);
    LastMergeIsOne(ws, place);
    if MergesInto(ws, place) {
      PlanMerge(g, plan, plan.decisions, Merge(place, LastMerge(ws, place)));
      assert IncidentId in LastMerge(ws, place);
    }
  }

  /** The last decision that writes back to an asset, among those that enforcement gets to. */
  function LastReached(g: Graph, ds: seq<AssetDecision>, u: Urn): (last: Option<AssetDecision>)
    ensures last.Some? ==> last.value in ds && WritesBack(last.value) && last.value.asset.urn == u
    ensures last.Some? <==> Reached(g, ds, u)
  {
    if ds == [] then None
    else if !WritesBack(ds[0]) then LastReached(g, ds[1..], u)
    else
      var later := if SupportedAsset(g, ds[0].asset.urn) then LastReached(g, ds[1..], u) else None;
      if later.None? && ds[0].asset.urn == u then Some(ds[0]) else later
  }

  /** When every written-back asset is supported, enforcement gets to all of them. */
  lemma {:induction false} CompleteReachesAll(g: Graph, plan: PolicyPlan, u: Urn)
    requires Supported(g, plan.decisions)
    ensures Reached(g, plan.decisions, u) <==> u in Controlled(plan)
  {
    ControlledMembers(plan);
    if d :| d in plan.decisions && WritesBack(d) && d.asset.urn == u {
      SupportedReaches(g, plan.decisions, d);
    }
    if Reached(g, plan.decisions, u) {
      assert LastReached(g, plan.decisions, u).Some?;
    }
  }

  lemma {:induction false} SupportedReaches(g: Graph, ds: seq<AssetDecision>, d: AssetDecision)
    requires Supported(g, ds) && d in ds && WritesBack(d)
    ensures Reached(g, ds, d.asset.urn)
  {
    assert ds[0] in ds;
    assert forall x :: x in ds[1..] ==> x in ds;
    if ds[0] != d {
      SupportedReaches(g, ds[1..], d);
    }
  }

  lemma {:induction false} LastMergeConcat(a: seq<Write>, b: seq<Write>, p: Place)
    ensures LastMerge(a + b, p) == if MergesInto(b, p) then LastMerge(b, p) else LastMerge(a, p)
  {
    if b == [] {
      assert a + b == a;
    } else {
      var n := |b| - 1;
      assert (a + b)[..|a + b| - 1] == a + b[..n];
      LastMergeConcat(a, b[..n], p);
      if !(b[n].Merge? && b[n].place == p) {
        assert MergesInto(b, p) <==> MergesInto(b[..n], p) by {
          assert b == b[..n] + [b[n]];
        }
      }
    }
  }

  /** What one decision merges into its dataset. */
  lemma {:induction false} DecisionLastMerge(g: Graph, plan: PolicyPlan, d: AssetDecision)
    ensures LastMerge(DecisionScript(g, plan, d).writes, DatasetAt(d.asset.urn)) == UpdatesFor(g, plan, d)
  {
    var place := DatasetAt(d.asset.urn);
    DecisionMerges(g, plan, d);
    DecisionParts(g, plan, d);
    LastMergeIsOne(DecisionScript(g, plan, d).writes, place);
    assert MergesInto(DecisionScript(g, plan, d).writes, place);
  }

  /** What a plan merges last into a dataset, stopped or not. */
  lemma {:induction false} PlanLastMerge(g: Graph, plan: PolicyPlan, ds: seq<AssetDecision>, u: Urn)
    ensures LastMerge(PlanScript(g, plan, ds).writes, DatasetAt(u)) ==
      match LastReached(g, ds, u) case None => map[] case Some(d) => UpdatesFor(g, plan, d)
  {
    hide UpdatesFor, SupportedAsset;
    var place := DatasetAt(u);
    if ds != [] {
      PlanLastMerge(g, plan, ds[1..], u);
      if WritesBack(ds[0]) {
        var head, rest := DecisionScript(g, plan, ds[0]), PlanScript(g, plan, ds[1..]);
        hide DecisionScript;
        DecisionCompletes(g, plan, ds[0]);
        DecisionMerges(g, plan, ds[0]);
        ReachedIsMerged(g, plan, ds[1..], u);
        LastMergeConcat(head.writes, rest.writes, place);
        if ds[0].asset.urn == u { DecisionLastMerge(g, plan, ds[0]); } else { LastMergeIsOne(head.writes, place); }
      }
    }
  }

  lemma {:induction false} EnforcedDatasetShows(g: Graph, plan: PolicyPlan, u: Urn)
    ensures var ws := PlanScript(g, plan, plan.decisions).writes;
      PropsOf(DoAll(g, ws), u) == PropsOf(g, u) + LastMerge(ws, DatasetAt(u))
  {
    hide PlanScript, CarriesPlan, LastMerge, MergesInto, DoAll;
    EnforcedPlace(g, plan, DatasetAt(u));
    assert PropsAt(DoAll(g, PlanScript(g, plan, plan.decisions).writes), DatasetAt(u))
        == PropsOf(DoAll(g, PlanScript(g, plan, plan.decisions).writes), u);
  }

  /** After any enforcement, complete or stopped, every asset shows its own properties under the
      control update of the last decision that enforcement got to for it, and no other update. */
  lemma {:induction false} EnforcePersists(g: Graph, plan: PolicyPlan, u: Urn)
    ensures var g' := DoAll(g, PlanScript(g, plan, plan.decisions).writes);
      PropsOf(g', u) == match LastReached(g, plan.decisions, u)
        case None => PropsOf(g, u)
        case Some(d) => PropsOf(g, u) + UpdatesFor(g, plan, d)
  {
    hide UpdatesFor, PlanScript, LastReached, LastMerge, DoAll, PropsOf;
    EnforcedDatasetShows(g, plan, u);
    PlanLastMerge(g, plan, plan.decisions, u);
    assert PropsOf(g, u) + map[] == PropsOf(g, u);
  }

  /** Enforcement, complete or not, touches only its own keys and status tags. */
  lemma {:induction false} EnforceConserves(g: Graph, plan: PolicyPlan, place: Place, k: Key)
    requires k !in CONTROL_KEYS
    ensures var g' := DoAll(g, PlanScript(g, plan, plan.decisions).writes);
      && Overlay(g, g')
      && (k in PropsAt(g', place) <==> k in PropsAt(g, place))
      && (k in PropsAt(g, place) ==> PropsAt(g', place)[k] == PropsAt(g, place)[k])
  {
    var ws := PlanScript(g, plan, plan.decisions).writes;
    PlanIsOverlay(g, plan, plan.decisions);
    WritesAreOverlay(g, ws);
    forall w | w in ws ensures !WritesKey(w, place, k) {
      if w.Merge? { PlanMerge(g, plan, plan.decisions, w); }
    }
    UnwrittenKeyStays(g, ws, place, k);
  }

  lemma {:induction false} StatusesPutMembers(ws: seq<Write>, u: Urn, t: Tag)
    ensures t in StatusesPut(ws, u) <==> PutStatus(u, t) in ws
  {
    if ws != [] {
      assert ws == ws[..|ws| - 1] + [ws[|ws| - 1]];
      StatusesPutMembers(ws[..|ws| - 1], u, t);
    }
  }

  /** What any enforcement, complete or stopped, leaves on any entity, asset or native: its own tags,
      and of the status tags only the last one put. That stands once exactly when another status was
      put on the entity too, or it was not attached twice before. */
  lemma {:induction false} EnforceLeavesLastStatus(g: Graph, plan: PolicyPlan, e: Urn)
    ensures var ws := PlanScript(g, plan, plan.decisions).writes;
      var ts, before, after := StatusesPut(ws, e), TagsOf(g, e), TagsOf(DoAll(g, ws), e);
      && BaseTags(after) == BaseTags(before)
      && (forall t :: t in ts <==> PutStatus(e, t) in ws)
      && (ts == [] ==> after == before)
      && (ts != [] ==>
        var t := ts[|ts| - 1];
        && HasTag(after, t) && (forall x :: x in STATUS_TAGS - {t} ==> !HasTag(after, x))
        && (OneStatus(after, t) <==> Changes(ts) || Copies(before, t) <= 1))
  {
    var ws := PlanScript(g, plan, plan.decisions).writes;
    PlanIsOverlay(g, plan, plan.decisions);
    TagsAfter(g, ws, e);
    var ts := StatusesPut(ws, e);
    forall t ensures t in ts <==> PutStatus(e, t) in ws { StatusesPutMembers(ws, e, t); }
    SetStatusesKeepBase(ts, TagsOf(g, e));
    if ts != [] { SetStatusesLast(ts, TagsOf(g, e)); }
  }

  /** Enforcement gets to decision `i`. */
  predicate ReachedAt(g: Graph, ds: seq<AssetDecision>, i: nat) {
    && i < |ds| && WritesBack(ds[i])
    && forall j :: 0 <= j < i && WritesBack(ds[j]) ==> SupportedAsset(g, ds[j].asset.urn)
  }

  lemma {:induction false} ReachedAtPuts(g: Graph, plan: PolicyPlan, ds: seq<AssetDecision>, i: nat)
    requires ReachedAt(g, ds, i) && StatusTag(ds[i].status).Some?
    ensures PutStatus(ds[i].asset.urn, StatusTag(ds[i].status).value) in PlanScript(g, plan, ds).writes
  {
    if WritesBack(ds[0]) { DecisionCompletes(g, plan, ds[0]); }
    if i > 0 {
      assert ReachedAt(g, ds[1..], i - 1) by {
        assert forall j :: 0 <= j < i - 1 ==> ds[1..][j] == ds[j + 1];
      }
      ReachedAtPuts(g, plan, ds[1..], i - 1);
    }
  }

  /** An asset whose decision was reached, with a status other than HEALTHY, ends with one status tag,
      its own when no other decision or projection puts one there. */
  lemma {:induction false} EnforceLeavesOneStatus(g: Graph, plan: PolicyPlan, i: nat)
    requires ReachedAt(g, plan.decisions, i) && plan.decisions[i].status != StatusHealthy
    ensures var u, own := plan.decisions[i].asset.urn, StatusTag(plan.decisions[i].status).value;
      var ws := PlanScript(g, plan, plan.decisions).writes;
      var after := TagsOf(DoAll(g, ws), u);
      exists t :: t in STATUS_TAGS && HasTag(after, t) && (forall x :: x in STATUS_TAGS - {t} ==> !HasTag(after, x))
        && (Copies(TagsOf(g, u), t) <= 1 ==> OneStatus(after, t))
        && ((forall x :: PutStatus(u, x) in ws ==> x == own) ==> t == own)
  {
    var u, ws := plan.decisions[i].asset.urn, PlanScript(g, plan, plan.decisions).writes;
    ReachedAtPuts(g, plan, plan.decisions, i);
    EnforceLeavesLastStatus(g, plan, u);
    var ts := StatusesPut(ws, u);
    PlanIsOverlay(g, plan, plan.decisions);
    assert ts[|ts| - 1] in ts;
  }

  // ---------------------------------------------------------------- idempotence

  lemma {:induction false} WrittenDomains(g: Graph, ws: seq<Write>, u: Urn)
    ensures u in DoAll(g, ws).datasets <==> u in g.datasets || MergesInto(ws, DatasetAt(u))
    ensures u in DoAll(g, ws).tags <==> u in g.tags || PutsOn(ws, u)
  {
    if ws != [] {
      var init, last := ws[..|ws| - 1], ws[|ws| - 1];
      WrittenDomains(g, init, u);
      assert ws == init + [last];
      assert last in ws;
      assert MergesInto(ws, DatasetAt(u)) <==> MergesInto(init, DatasetAt(u)) || (last.Merge? && last.place == DatasetAt(u));
      assert PutsOn(ws, u) <==> PutsOn(init, u) || (last.PutStatus? && last.urn == u);
    }
  }

  /** Replaying writes whose merges agree per place changes nothing. */
  lemma {:induction false} ReplayIsNeutral(g: Graph, ws: seq<Write>, keys: set<Key>)
    requires OverlayOnly(ws)
    requires forall w :: w in ws && w.Merge? ==> w.updates.Keys == keys
    ensures DoAll(DoAll(g, ws), ws) == DoAll(g, ws)
  {
    var once := DoAll(g, ws);
    var twice := DoAll(once, ws);
    WritesAreOverlay(once, ws);
    forall u ensures u in twice.datasets <==> u in once.datasets
      ensures u in twice.tags <==> u in once.tags
    {
      WrittenDomains(g, ws, u);
      WrittenDomains(once, ws, u);
    }
    assert twice.datasets.Keys == once.datasets.Keys;
    assert twice.tags.Keys == once.tags.Keys;
    forall p ensures PropsAt(once, p) == PropsAt(twice, p) {
      if Writable(g, p) {
        LastMergeWins(g, ws, p, keys);
        LastMergeWins(once, ws, p, keys);
        MergeOver(PropsAt(g, p), LastMerge(ws, p), LastMerge(ws, p));
      }
    }
    forall u ensures TagsOf(once, u) == TagsOf(twice, u) {
      TagsAfter(g, ws, u);
      TagsAfter(once, ws, u);
      SetStatusesTwice(StatusesPut(ws, u), TagsOf(g, u));
    }
    SameViewsSameGraph(once, twice);
  }

  /** Enforcing the same plan again, whether or not it completes, leaves the catalog unchanged. */
  lemma {:induction false} EnforceIsIdempotent(g: Graph, plan: PolicyPlan)
    ensures var once := DoAll(g, PlanScript(g, plan, plan.decisions).writes);
      && PlanScript(once, plan, plan.decisions) == PlanScript(g, plan, plan.decisions)
      && DoAll(once, PlanScript(once, plan, plan.decisions).writes) == once
  {
    var ws := PlanScript(g, plan, plan.decisions).writes;
    PlanStaysSteady(g, plan, plan.decisions);
    SteadyPlan(g, DoAll(g, ws), plan, plan.decisions);
    PlanIsOverlay(g, plan, plan.decisions);
    forall w | w in ws && w.Merge? ensures w.updates.Keys == CONTROL_KEYS {
      PlanMerge(g, plan, plan.decisions, w);
    }
    ReplayIsNeutral(g, ws, CONTROL_KEYS);
  }
}
