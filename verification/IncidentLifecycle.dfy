/** The incident lifecycle states and their legal edges. */
module IncidentLifecycle {

  datatype IncidentState =
    | Healthy
    | Detected
    | Investigating
    | AtRisk
    | Quarantined
    | RecoveryPending
    | Resolved

  const ALLOWED_TRANSITIONS: set<(IncidentState, IncidentState)> := {
    (Healthy, Detected),
    (Detected, Resolved),
    (Detected, Investigating),
    (Investigating, AtRisk),
    (Investigating, Quarantined),
    (Investigating, Resolved),
    (AtRisk, Quarantined),
    (AtRisk, RecoveryPending),
    (Quarantined, RecoveryPending),
    (RecoveryPending, AtRisk),
    (RecoveryPending, Quarantined),
    (RecoveryPending, Resolved)
  }

  predicate Legal(source: IncidentState, target: IncidentState) {
    (source, target) in ALLOWED_TRANSITIONS
  }
}
