/** Per-asset policy decisions for a confirmed incident. */
module PolicyEngine {
  import opened Common
  import opened IncidentLifecycle

  datatype PolicyDecision = Halt | Warn | Allow

  datatype CatalogStatus = StatusHealthy | StatusAtRisk | StatusQuarantined | StatusResolved

  datatype EnforcementAction = Quarantine | BlockExecution | BlockPublish | WriteBack | Notify | Resume

  datatype ReasonCode = Affected(role: string) | UnaffectedBranch | PersistedControlState

  datatype AssetContext = AssetContext(
    urn: string, name: string, role: string, criticality: string, affected: bool)

  datatype AssetDecision = AssetDecision(
    asset: AssetContext,
    decision: PolicyDecision,
    status: CatalogStatus,
    actions: seq<EnforcementAction>,
    reason: ReasonCode,
    evidenceIds: seq<string>)

  datatype PolicyPlan = PolicyPlan(incidentId: string, decisions: seq<AssetDecision>)

  datatype Rule = Rule(decision: PolicyDecision, status: CatalogStatus, actions: seq<EnforcementAction>)

  datatype ActionPolicy = ActionPolicy(affectedRoles: map<string, Rule>, unaffected: Rule)

  datatype PolicyError = NoActionPolicy | NoRoleRule(role: string)

  /** A catalog status, read as the incident state with the same name. */
  function StateOf(status: CatalogStatus): IncidentState {
    match status
    case StatusHealthy => Healthy
    case StatusAtRisk => AtRisk
    case StatusQuarantined => Quarantined
    case StatusResolved => Resolved
  }

  function DecisionFrom(asset: AssetContext, rule: Rule, evidence: seq<string>): AssetDecision {
    AssetDecision(
      asset, rule.decision, rule.status, rule.actions,
      if asset.affected then Affected(asset.role) else UnaffectedBranch,
      evidence)
  }

  /** The rule that governs an asset; None when an affected role has no rule. */
  function RuleFor(policy: ActionPolicy, asset: AssetContext): Option<Rule> {
    if !asset.affected then Some(policy.unaffected)
    else if asset.role in policy.affectedRoles then Some(policy.affectedRoles[asset.role])
    else None
  }

  /** An affected asset takes the rule of its role, any other the rule for unaffected ones, and the
      decision copies that rule and says why. */
  predicate Decided(policy: ActionPolicy, asset: AssetContext, evidence: seq<string>, d: AssetDecision) {
    && d.asset == asset && d.evidenceIds == evidence
    && (asset.affected ==>
      && asset.role in policy.affectedRoles && d.reason == Affected(asset.role)
      && Rule(d.decision, d.status, d.actions) == policy.affectedRoles[asset.role])
    && (!asset.affected ==>
      d.reason == UnaffectedBranch && Rule(d.decision, d.status, d.actions) == policy.unaffected)
  }

  predicate Ruleless(policy: ActionPolicy, asset: AssetContext) {
    asset.affected && asset.role !in policy.affectedRoles
  }

  /** Every asset gets exactly the decision of its own rule, in order; the first affected asset whose
      role has no rule stops the plan. */
  method Decide(policy: Option<ActionPolicy>, incidentId: string, assets: seq<AssetContext>, evidence: seq<string>)
    returns (result: Result<PolicyPlan, PolicyError>)
    ensures policy.None? ==> result == Err(NoActionPolicy)
    ensures policy.Some? ==> (result.Ok? <==> forall i :: 0 <= i < |assets| ==> !Ruleless(policy.value, assets[i]))
    ensures result.Ok? ==>
      && policy.Some?
      && result.value.incidentId == incidentId
      && |result.value.decisions| == |assets|
      && forall i :: 0 <= i < |assets| ==>
        && Decided(policy.value, assets[i], evidence, result.value.decisions[i])
        && RuleFor(policy.value, assets[i]).Some?
        && result.value.decisions[i] == DecisionFrom(assets[i], RuleFor(policy.value, assets[i]).value, evidence)
    ensures result.Err? && policy.Some? ==>
      exists i :: 0 <= i < |assets| && Ruleless(policy.value, assets[i])
        && result.error == NoRoleRule(assets[i].role)
        && forall j :: 0 <= j < i ==> !Ruleless(policy.value, assets[j])
  {
    if policy.None? {
      return Err(NoActionPolicy);
    }
    var decisions: seq<AssetDecision> := [];
    for i := 0 to |assets|
      invariant |decisions| == i
      invariant forall j :: 0 <= j < i ==>
        && !Ruleless(policy.value, assets[j])
        && RuleFor(policy.value, assets[j]).Some?
        && decisions[j] == DecisionFrom(assets[j], RuleFor(policy.value, assets[j]).value, evidence)
    {
      var asset := assets[i];
      var rule := RuleFor(policy.value, asset);
      if rule.None? {
        return Err(NoRoleRule(asset.role));
      }
      decisions := decisions + [DecisionFrom(asset, rule.value, evidence)];
    }
    return Ok(PolicyPlan(incidentId, decisions));
  }
}
