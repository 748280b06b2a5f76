/** From field taint to blocked publications: the composition of impact, policy and control. */
module SelectiveControl {
  import opened Common
  import opened PolicyEngine
  import Impact
  import RepairBundles
  import opened PipelineControl

  /** The source of contaminated fields and what is known about the assets around it. */
  datatype Scene = Scene(
    lineage: Impact.Lineage,
    downstream: seq<Impact.Hit>,
    source: Impact.Urn,
    sourceName: string,
    fields: seq<string>,
    additional: seq<Impact.Urn>)

  function ImpactOf(s: Scene): Impact.FieldImpact {
    Impact.ImpactAfter(s.lineage, Impact.ByDegree(s.downstream), s.source, s.sourceName, s.fields)
  }

  /** The contexts that policy decides on. */
  predicate ContextsOf(s: Scene, info: Impact.Urn -> Impact.AssetInfo, contexts: seq<AssetContext>) {
    var impact := ImpactOf(s);
    var urns := Dedupe(impact.affectedUrns + impact.unaffectedUrns + s.additional);
    && |contexts| == |urns|
    && forall i :: 0 <= i < |urns| ==> contexts[i] == Impact.ContextFor(info, Impact.AffectedSet(impact, s.additional), urns[i])
  }

  /** The plan that policy makes of them. */
  predicate PlanOf(policy: ActionPolicy, contexts: seq<AssetContext>, evidence: seq<string>, plan: PolicyPlan) {
    && |plan.decisions| == |contexts|
    && forall i :: 0 <= i < |contexts| ==>
      && RuleFor(policy, contexts[i]).Some?
      && plan.decisions[i] == DecisionFrom(contexts[i], RuleFor(policy, contexts[i]).value, evidence)
  }

  /** One of the asset's stored field edges leaves a field reachable from the source fields. */
  ghost predicate Fed(s: Scene, urn: Impact.Urn) {
    exists e :: e in s.lineage(urn)
      && Impact.Reachable(s.lineage, Impact.ByDegree(s.downstream), Impact.SourceFields(s.source, s.fields), e.upstream)
  }

  ghost predicate FedDownstream(s: Scene, urn: Impact.Urn) {
    Fed(s, urn) && exists h :: h in s.downstream && Impact.Considered(h) && h.urn == urn
  }

  /** The assets that control may touch. */
  ghost predicate Reached(s: Scene, urn: Impact.Urn) {
    urn == s.source || urn in s.additional || FedDownstream(s, urn)
  }

  /** The assets that the one pass over the hits, in visit order, gets to. */
  ghost predicate Met(s: Scene, urn: Impact.Urn) {
    var hits, start := Impact.ByDegree(s.downstream), Impact.SourceFields(s.source, s.fields);
    || urn == s.source || urn in s.additional
    || exists i :: 0 <= i < |hits| && hits[i].urn == urn && Impact.FedInOrder(s.lineage, hits, i, start)
  }

  /** Affected for policy are exactly the assets met. */
  lemma {:induction false} AffectedIffMet(s: Scene, urn: Impact.Urn)
    ensures urn in Impact.AffectedSet(ImpactOf(s), s.additional) <==> Met(s, urn)
  {
    hide Impact.FedInOrder, Impact.Split, Impact.Taint;
    var hits, start := Impact.ByDegree(s.downstream), Impact.SourceFields(s.source, s.fields);
    var yes := Impact.Split(s.lineage, hits, start, true);
    assert hits[..|hits|] == hits;
    if urn in Impact.UrnsOf(yes) {
      Impact.UrnIsOf(yes, urn);
      var h :| h in yes && h.urn == urn;
      Impact.AffectedIffFedInOrder(s.lineage, hits, |hits|, start, h, true);
    }
    if i :| 0 <= i < |hits| && hits[i].urn == urn && Impact.FedInOrder(s.lineage, hits, i, start) {
      Impact.FedIsConsidered(s.lineage, hits, i, start);
      Impact.AffectedIffFedInOrder(s.lineage, hits, |hits|, start, hits[i], true);
      Impact.DownstreamUrn(yes, hits[i]);
    }
  }

  /** An asset met is fed by a reachable field, whatever the order. */
  lemma {:induction false} MetIsReached(s: Scene, urn: Impact.Urn)
    requires Met(s, urn)
    ensures Reached(s, urn)
  {
    AffectedIffMet(s, urn);
    AffectedIsReached(s, urn);
  }

  lemma {:induction false} AffectedIsReached(s: Scene, urn: Impact.Urn)
    requires urn in Impact.AffectedSet(ImpactOf(s), s.additional)
    ensures Reached(s, urn)
  {
    var hits, start := Impact.ByDegree(s.downstream), Impact.SourceFields(s.source, s.fields);
    var yes := Impact.Split(s.lineage, hits, start, true);
    assert hits[..|hits|] == hits;
    if urn in Impact.UrnsOf(yes) {
      Impact.UrnIsOf(yes, urn);
      var h :| h in yes && h.urn == urn;
      Impact.AffectedIsFed(s.lineage, hits, |hits|, start, h);
      SplitIsDownstream(s, h, true);
    }
  }

  lemma {:induction false} SplitIsDownstream(s: Scene, h: Impact.Hit, reached: bool)
    requires h in Impact.Split(s.lineage, Impact.ByDegree(s.downstream), Impact.SourceFields(s.source, s.fields), reached)
    ensures h in s.downstream && Impact.Considered(h)
  {
    var hits, start := Impact.ByDegree(s.downstream), Impact.SourceFields(s.source, s.fields);
    Impact.ByDegreeIsStable(s.downstream);
    Impact.SplitCounts(s.lineage, hits, start, h);
    assert h in multiset(Impact.Split(s.lineage, hits, start, reached));
    assert h in multiset(s.downstream);
  }

  lemma {:induction false} ReachedIsAffected(s: Scene, urn: Impact.Urn)
    requires Impact.Increasing(s.lineage, Impact.ByDegree(s.downstream))
    requires Reached(s, urn)
    ensures urn in Impact.AffectedSet(ImpactOf(s), s.additional)
  {
    hide Impact.Split, Impact.Taint, Impact.Reachable, Impact.Increasing;
    var hits, start := Impact.ByDegree(s.downstream), Impact.SourceFields(s.source, s.fields);
    Impact.ByDegreeIsStable(s.downstream);
    assert hits[..|hits|] == hits;
    if urn != s.source && urn !in s.additional {
      var h :| h in s.downstream && Impact.Considered(h) && h.urn == urn;
      var e :| e in s.lineage(urn) && Impact.Reachable(s.lineage, hits, start, e.upstream);
      assert h in multiset(s.downstream);
      Impact.SplitCounts(s.lineage, hits, start, h);
      var yes := Impact.Split(s.lineage, hits, start, true);
      if h !in yes {
        assert h in multiset(Impact.Split(s.lineage, hits, start, false));
        Impact.MissedIsNotFed(s.lineage, hits, |hits|, start, h, e);
      } else {
        Impact.DownstreamUrn(yes, h);
      }
    }
  }

  lemma {:induction false} PlannedNames(policy: ActionPolicy, contexts: seq<AssetContext>, evidence: seq<string>, plan: PolicyPlan, i: nat)
    requires PlanOf(policy, contexts, evidence, plan) && i < |contexts|
    requires forall j :: 0 <= j < |contexts| && contexts[j].name == contexts[i].name ==> j == i
    ensures contexts[i].name in ByName(plan.decisions) && ByName(plan.decisions)[contexts[i].name] == plan.decisions[i]
  {
    var d := plan.decisions[i];
    forall e | e in plan.decisions && e.asset.name == d.asset.name ensures e == d {
      var j :| 0 <= j < |plan.decisions| && plan.decisions[j] == e;
      assert contexts[j].name == contexts[i].name;
    }
    UniqueNameDecides(plan.decisions, d);
  }

  /** Whatever the names and degrees: an action that the unaffected rule does not forbid is only
      ever forbidden for an asset reached by a tainted field, the source itself, or one explicitly added. */
  lemma {:induction false} OnlyReachedIsForbidden(
    s: Scene, info: Impact.Urn -> Impact.AssetInfo, policy: ActionPolicy, contexts: seq<AssetContext>,
    evidence: seq<string>, plan: PolicyPlan, name: string, a: EnforcementAction)
    requires ContextsOf(s, info, contexts) && PlanOf(policy, contexts, evidence, plan)
    requires a !in policy.unaffected.actions
    requires Forbids(plan, name, a) == Some(true)
    ensures exists i :: 0 <= i < |contexts| && contexts[i].name == name && Met(s, contexts[i].urn) && Reached(s, contexts[i].urn)
  {
    NamedIsDecided(plan.decisions, name);
    var d := ByName(plan.decisions)[name];
    var i :| 0 <= i < |plan.decisions| && plan.decisions[i] == d;
    assert contexts[i].affected;
    AffectedIffMet(s, contexts[i].urn);
    MetIsReached(s, contexts[i].urn);
  }

  /** Under distinct names the selection is exact, whatever the degrees: an action is forbidden for
      precisely the assets met whose role's rule forbids it. */
  lemma {:induction false} ControlIsSelective(
    s: Scene, info: Impact.Urn -> Impact.AssetInfo, policy: ActionPolicy, contexts: seq<AssetContext>,
    evidence: seq<string>, plan: PolicyPlan, i: nat, a: EnforcementAction)
    requires ContextsOf(s, info, contexts) && PlanOf(policy, contexts, evidence, plan)
    requires a !in policy.unaffected.actions && i < |contexts|
    requires forall j :: 0 <= j < |contexts| && contexts[j].name == contexts[i].name ==> j == i
    ensures Forbids(plan, contexts[i].name, a) == Some(
      Met(s, contexts[i].urn) && contexts[i].role in policy.affectedRoles
      && a in policy.affectedRoles[contexts[i].role].actions)
  {
    PlannedNames(policy, contexts, evidence, plan, i);
    AffectedIffMet(s, contexts[i].urn);
  }

  /** With strictly increasing degrees no reached asset is missed. */
  lemma {:induction false} IncreasingMeetsAll(s: Scene, urn: Impact.Urn)
    requires Impact.Increasing(s.lineage, Impact.ByDegree(s.downstream))
    ensures Met(s, urn) <==> Reached(s, urn)
  {
    AffectedIffMet(s, urn);
    if Met(s, urn) { MetIsReached(s, urn); }
    if Reached(s, urn) { ReachedIsAffected(s, urn); }
  }

  /** With distinct downstream URNs that exclude the source, a bundle made of this impact is never
      refused for overlapping affected and preserved assets. */
  lemma {:induction false} BundleNeverOverlaps(s: Scene, b: RepairBundles.Bundle)
    requires Distinct(Impact.UrnsOf(s.downstream)) && s.source !in Impact.UrnsOf(s.downstream)
    requires b.affectedUrns == ImpactOf(s).affectedUrns && b.preservedUrns == ImpactOf(s).unaffectedUrns
    ensures RepairBundles.DisjointUrns(b) && RepairBundles.BundleFault(b) != Some(RepairBundles.Overlap)
  {
    var hits, start := Impact.ByDegree(s.downstream), Impact.SourceFields(s.source, s.fields);
    Impact.ImpactPartitions(s.lineage, s.downstream, s.source, start);
    assert Impact.NoneShared(ImpactOf(s).affectedUrns, ImpactOf(s).unaffectedUrns);
  }
}
