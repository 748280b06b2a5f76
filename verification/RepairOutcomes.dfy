/** When each repair action is accepted and what it makes of the bundle, and how far the authority
    behind an approval carries into recovery. */
module RepairOutcomes {
  import opened Common
  import opened TextLines
  import opened Events
  import opened RepairBundles
  import opened RepairLifecycle
  import MetadataGraph
  import Recovery
  import RecoveryRuns
  import CatalogOutcomes

  /** A bundle as the runtime finds it: valid, and with the receipts its status needs and no more. */
  predicate Sound(b: Bundle) {
    BundleFault(b).None? && Guaranteed(b) && NothingAhead(b)
  }

  /** When a bundle is valid, status by status: all evidence its parts name is its own, no asset is both
      affected and preserved, and each status has its receipts and its gate. */
  lemma {:induction false} ValidIff(b: Bundle)
    ensures BundleFault(b).None? <==>
      && (forall a, e :: a in b.artifacts && e in a.evidenceIds ==> e in b.evidenceIds)
      && (forall c, e :: c in b.checks && e in c.evidenceIds ==> e in b.evidenceIds)
      && (forall e :: e in b.gateEvidence ==> e in b.evidenceIds)
      && (forall u :: !(u in b.affectedUrns && u in b.preservedUrns))
      && (b.status == Proposed ==> b.change.None?)
      && (b.status == Verified ==> b.verification.Some?)
      && (b.status == Approved || b.status == Applied ==> b.approval.Some? && b.gate == GateApproved)
      && (b.status == Rejected ==> b.approval.Some? && b.gate == GateRejected)
      && (b.status == Applied ==> b.application.Some?)
  {
    assert EvidenceClosed(b) <==>
      && (forall a, e :: a in b.artifacts && e in a.evidenceIds ==> e in b.evidenceIds)
      && (forall c, e :: c in b.checks && e in c.evidenceIds ==> e in b.evidenceIds)
      && (forall e :: e in b.gateEvidence ==> e in b.evidenceIds)
    by {
      if EvidenceClosed(b) {
        forall a, e | a in b.artifacts && e in a.evidenceIds ensures e in b.evidenceIds {
          var i :| 0 <= i < |b.artifacts| && b.artifacts[i] == a;
        }
        forall c, e | c in b.checks && e in c.evidenceIds ensures e in b.evidenceIds {
          var i :| 0 <= i < |b.checks| && b.checks[i] == c;
        }
      }
    }
  }

  // ---------------------------------------------------------------- acceptance, action by action

  /** The events that carry a bundle of the repair lifecycle. */
  predicate CarriesBundle(e: LogEvent) {
    e.bundle.Some?
    && (e.eventType == RepairBundleCreated || e.eventType == RepairPublished || e.eventType == RepairVerified
        || e.eventType == ApprovalRecorded || e.eventType == RepairApplied)
  }

  predicate LastCarrier(log: seq<LogEvent>, i: nat) {
    i < |log| && CarriesBundle(log[i]) && forall j :: i < j < |log| ==> !CarriesBundle(log[j])
  }

  /** The latest bundle is that of the last lifecycle event; without one there is none. */
  lemma {:induction false} LatestReads(log: seq<LogEvent>)
    ensures forall i: nat :: LastCarrier(log, i) ==> Latest(log) == log[i].bundle
    ensures (forall i :: 0 <= i < |log| ==> !CarriesBundle(log[i])) ==> Latest(log).None?
  {
    if log != [] {
      var n := |log| - 1;
      LatestReads(log[..n]);
      forall i: nat | LastCarrier(log, i) ensures Latest(log) == log[i].bundle {
        if i < n { assert LastCarrier(log[..n], i); }
      }
    }
  }

  /** A publication is accepted exactly for a valid proposal without one, and of which it names the
      bundle; only status and receipt change. */
  lemma {:induction false} PublishAcceptedIff(b: Bundle, r: ChangeReceipt)
    ensures Step(b, Publish(r)).Ok? <==>
      b.status == Proposed && b.change.None? && r.bundleId == b.bundleId && EvidenceClosed(b) && DisjointUrns(b)
    ensures Step(b, Publish(r)).Ok? ==> Step(b, Publish(r)).value == b.(status := Published, change := Some(r))
  {
    hide EvidenceClosed, DisjointUrns;
    SameParts(b, b.(status := Published, change := Some(r)));
  }

  /** No declaration after `i` has its id. */
  predicate InForce(declared: seq<Check>, i: nat) {
    i < |declared| && forall j :: i < j < |declared| ==> declared[j].checkId != declared[i].checkId
  }

  ghost predicate ObservedPassing(c: Check, observed: seq<CheckReceipt>) {
    exists o :: o in observed && o.checkId == c.checkId && o.status == Passed && o.name == c.name
      && o.declaredCommand == c.command && o.evidenceIds == c.evidenceIds
  }

  /** Exactly the declared ids are observed, and each declaration in force passes as declared. */
  ghost predicate Covers(declared: seq<Check>, observed: seq<CheckReceipt>) {
    && (forall o :: o in observed ==> exists c :: c in declared && c.checkId == o.checkId)
    && (forall i: nat :: InForce(declared, i) ==> ObservedPassing(declared[i], observed))
  }

  lemma {:induction false} DeclaredInForce(declared: seq<Check>, id: string) returns (i: nat)
    requires DeclaredFor(declared, id).Some?
    ensures InForce(declared, i) && declared[i] == DeclaredFor(declared, id).value && declared[i].checkId == id
  {
    var n := |declared| - 1;
    if declared[n].checkId == id {
      i := n;
    } else {
      i := DeclaredInForce(declared[..n], id);
    }
  }

  lemma {:induction false} InForceIsDeclared(declared: seq<Check>, i: nat)
    requires InForce(declared, i)
    ensures DeclaredFor(declared, declared[i].checkId) == Some(declared[i])
  {
    var n := |declared| - 1;
    if i < n {
      assert InForce(declared[..n], i);
      InForceIsDeclared(declared[..n], i);
    }
  }

  predicate DistinctObserved(observed: seq<CheckReceipt>) {
    forall i, j :: 0 <= i < j < |observed| ==> observed[i].checkId != observed[j].checkId
  }

  lemma {:induction false} ObservedIsOnly(observed: seq<CheckReceipt>, o: CheckReceipt)
    requires DistinctObserved(observed) && o in observed
    ensures ObservedFor(observed, o.checkId) == Some(o)
  {
    var p := ObservedFor(observed, o.checkId).value;
    var i :| 0 <= i < |observed| && observed[i] == o;
    var j :| 0 <= j < |observed| && observed[j] == p;
  }

  lemma {:induction false} CoveredReads(declared: seq<Check>, observed: seq<CheckReceipt>)
    requires DistinctObserved(observed)
    ensures ChecksCovered(declared, observed) <==> Covers(declared, observed)
  {
    if ChecksCovered(declared, observed) {
      forall i: nat | InForce(declared, i) ensures ObservedPassing(declared[i], observed) {
        InForceIsDeclared(declared, i);
        assert declared[i] in declared;
        var o := ObservedFor(observed, declared[i].checkId).value;
        assert o in observed && Satisfies(declared[i], o);
      }
    }
    if Covers(declared, observed) {
      forall c | c in declared
        ensures ObservedFor(observed, c.checkId).Some?
          && Satisfies(DeclaredFor(declared, c.checkId).value, ObservedFor(observed, c.checkId).value)
      {
        var i := DeclaredInForce(declared, c.checkId);
        assert ObservedPassing(declared[i], observed);
        var o :| o in observed && o.checkId == declared[i].checkId && o.status == Passed && o.name == declared[i].name
          && o.declaredCommand == declared[i].command && o.evidenceIds == declared[i].evidenceIds;
        ObservedIsOnly(observed, o);
      }
    }
  }

  predicate VerifierOf(provider: string, verifier: string) {
    (provider == "GITHUB" && verifier == "GITHUB_CHECK_RUNS") || (provider == "LOCAL_GIT" && verifier == "LOCAL_PROCESS")
  }

  /** A verification is accepted exactly for a valid published bundle when it observes at least one check,
      each once and all passing, of that bundle, of the published commit, repository and branch, by the
      verifier of its provider, and covers the declared checks. */
  lemma {:induction false} VerifyAcceptedIff(b: Bundle, r: VerificationReceipt)
    ensures Step(b, Verify(r)).Ok? <==>
      && b.status == Published && b.change.Some? && EvidenceClosed(b) && DisjointUrns(b)
      && r.status == Passed && r.checks != [] && DistinctObserved(r.checks) && (forall o :: o in r.checks ==> o.status == Passed)
      && r.bundleId == b.bundleId
      && r.commit == b.change.value.commit && r.repository == b.change.value.repository && r.branch == b.change.value.branch
      && VerifierOf(b.change.value.provider, r.provider)
      && Covers(b.checks, r.checks)
    ensures Step(b, Verify(r)).Ok? ==> Step(b, Verify(r)).value == b.(status := Verified, verification := Some(r))
  {
    hide ChecksCovered, Covers, EvidenceClosed, DisjointUrns;
    SameParts(b, b.(status := Verified, verification := Some(r)));
    if ReceiptConsistent(r) { CoveredReads(b.checks, r.checks); }
    if r.status == Passed { assert ReceiptConsistent(r) <==>
      r.checks != [] && DistinctObserved(r.checks) && forall o :: o in r.checks ==> o.status == Passed; }
  }

  /** Receipts, status and gate are no part of what evidence and targets are checked on. */
  lemma {:induction false} SameParts(b: Bundle, next: Bundle)
    requires next.artifacts == b.artifacts && next.checks == b.checks && next.gateEvidence == b.gateEvidence
    requires next.evidenceIds == b.evidenceIds && next.affectedUrns == b.affectedUrns && next.preservedUrns == b.preservedUrns
    ensures (EvidenceClosed(next) <==> EvidenceClosed(b)) && (DisjointUrns(next) <==> DisjointUrns(b))
  {
  }

  /** When a bundle takes each receipt, whoever asks. A change receipt is taken in every status; each of
      the others only in the status before its own. */
  lemma {:induction false} AttachAcceptedIff(b: Bundle, c: ChangeReceipt, v: VerificationReceipt, r: ApprovalReceipt, a: Authority, p: ApplicationReceipt)
    requires EvidenceClosed(b) && DisjointUrns(b)
    ensures AttachChange(b, c).Ok? <==> c.bundleId == b.bundleId
    ensures AttachVerification(b, v).Ok? <==> Step(b, Verify(v)).Ok?
    ensures AttachApproval(b, r, a).Ok? <==>
      && b.status == Verified && b.verification.Some? && r.payload.keyId == a.keyId && r.signature == Mac(a.key, r.payload)
      && r.payload.bundleId == b.bundleId && r.payload.verificationId == b.verification.value.receiptId
      && r.payload.commit == b.verification.value.commit && r.payload.approver == b.approver
    ensures AttachApplication(b, p).Ok? <==>
      && b.status == Approved && b.gate == GateApproved && p.bundleId == b.bundleId && p.status == "APPLIED"
      && b.approval.Some? && p.commit == b.approval.value.payload.commit
  {
    hide ChecksCovered, EvidenceClosed, DisjointUrns, ReceiptConsistent;
    SameParts(b, b.(status := Published, change := Some(c)));
    SameParts(b, b.(status := Verified, verification := Some(v)));
    SameParts(b, b.(status := Approved, gate := GateApproved, approval := Some(r)));
    SameParts(b, b.(status := Rejected, gate := GateRejected, approval := Some(r)));
    SameParts(b, b.(status := Applied, application := Some(p)));
  }

  /** What a recorded decision says, and under which authority. */
  ghost predicate DecidedBy(p: ApprovalPayload, b: Bundle, a: Authority, reviewer: string, decision: ApprovalDecision, note: string, receiptId: string)
    requires b.verification.Some?
  {
    && p.receiptId == receiptId && p.bundleId == b.bundleId
    && p.verificationId == b.verification.value.receiptId && p.commit == b.verification.value.commit
    && p.approver == reviewer && p.expectedApprover == b.approver && p.decision == decision && p.note == Strip(note)
    && p.identityAssurance == a.identityAssurance && p.productionAuthorized == a.productionAuthorized && p.keyId == a.keyId
    && (forall e :: e in p.evidenceIds <==> e in b.evidenceIds || e == b.verification.value.receiptId || e == receiptId)
  }

  /** A review is accepted exactly for a valid verified bundle with named receipts of one commit, from its
      own approver and with a note of 8 to 1000 characters; gate and status follow the decision. */
  lemma {:induction false} ReviewAcceptedIff(
    b: Bundle, a: Authority, reviewer: string, decision: ApprovalDecision, note: string, receiptId: string)
    ensures var next := Step(b, Review(a, reviewer, decision, note, receiptId));
      && (next.Ok? <==>
        && b.status == Verified && EvidenceClosed(b) && DisjointUrns(b)
        && reviewer == b.approver && 8 <= |Strip(note)| <= 1000
        && b.verification.Some? && b.verification.value.receiptId != "" && b.verification.value.commit != ""
        && b.change.Some? && b.change.value.commit == b.verification.value.commit)
      && (next.Ok? ==>
        && next.value.approval.Some?
        && var r := next.value.approval.value;
        && next.value == b.(
          status := if decision == Approve then Approved else Rejected,
          gate := if decision == Approve then GateApproved else GateRejected,
          approval := Some(r))
        && DecidedBy(r.payload, b, a, reviewer, decision, note, receiptId)
        && r.signature == Mac(a.key, r.payload))
  {
    hide Strip, ChecksCovered, EvidenceClosed, DisjointUrns;
    var next := Step(b, Review(a, reviewer, decision, note, receiptId));
    var recorded := Record(a, b, reviewer, decision, note, receiptId);
    if recorded.Ok? {
      SameParts(b, b.(status := Approved, gate := GateApproved, approval := Some(recorded.value)));
      SameParts(b, b.(status := Rejected, gate := GateRejected, approval := Some(recorded.value)));
    }
  }

  /** An application is accepted exactly for a valid approved bundle whose three receipts name one commit,
      not empty, when it says APPLIED of that bundle and that commit. */
  lemma {:induction false} ApplyAcceptedIff(b: Bundle, r: ApplicationReceipt)
    ensures Step(b, Apply(r)).Ok? <==>
      && b.status == Approved && b.change.Some? && b.verification.Some? && b.approval.Some?
      && b.change.value.commit != "" && b.verification.value.commit == b.change.value.commit
      && b.approval.value.payload.commit == b.change.value.commit
      && r.bundleId == b.bundleId && r.commit == b.change.value.commit && r.status == "APPLIED"
      && EvidenceClosed(b) && DisjointUrns(b) && b.gate == GateApproved
    ensures Step(b, Apply(r)).Ok? ==> Step(b, Apply(r)).value == b.(status := Applied, application := Some(r))
  {
    hide ChecksCovered, EvidenceClosed, DisjointUrns;
    SameParts(b, b.(status := Applied, application := Some(r)));
  }

  /** Each accepted action records its own event with the new bundle, then the decision log, as far as it gets. */
  lemma {:induction false} ActRecords(log: seq<LogEvent>, a: Action, fate: Fate)
    ensures Latest(log).None? || Step(Latest(log).value, a).Err? ==> After(log, a, fate) == log
    ensures Latest(log).Some? && Step(Latest(log).value, a).Ok? ==>
      var next := Some(Step(Latest(log).value, a).value);
      var first := match a
        case Publish(_) => LogEvent(RepairPublished, next)
        case Verify(_) => LogEvent(RepairVerified, next)
        case Review(_, _, _, _, _) => LogEvent(ApprovalRecorded, next)
        case Apply(_) => LogEvent(RepairApplied, next);
      After(log, a, fate) ==
        if fate == NothingRecorded then log
        else if fate == BundleRecorded then log + [first]
        else log + [first, LogEvent(DecisionLogWritten, None)]
  {
    hide Step;
  }

  // ---------------------------------------------------------------- the authority behind an approval

  /** Action `i` is the recorded review that issued this receipt. */
  predicate IssuedBy(acts: seq<(Action, Fate)>, i: nat, r: ApprovalReceipt) {
    && i < |acts| && acts[i].0.Review? && acts[i].1 != NothingRecorded
    && var a := acts[i].0;
    && r.payload.receiptId == a.receiptId && r.payload.approver == a.reviewer && r.payload.decision == a.decision
    && r.payload.identityAssurance == a.authority.identityAssurance
    && r.payload.productionAuthorized == a.authority.productionAuthorized
    && r.payload.keyId == a.authority.keyId && r.signature == Mac(a.authority.key, r.payload)
  }

  lemma {:induction false} StepApproval(b: Bundle, a: Action)
    requires Sound(b) && Step(b, a).Ok?
    ensures Sound(Step(b, a).value)
    ensures !a.Review? ==> Step(b, a).value.approval == b.approval
    ensures a.Review? ==> Step(b, a).value.approval.Some? && IssuedBy([(a, AllRecorded)], 0, Step(b, a).value.approval.value)
  {
    hide BundleFault, Guaranteed, NothingAhead, Strip, ChecksCovered;
    StepAdvances(b, a);
    match a
    case Publish(r) => PublishAcceptedIff(b, r);
    case Verify(r) => VerifyAcceptedIff(b, r);
    case Review(authority, reviewer, decision, note, id) => ReviewAcceptedIff(b, authority, reviewer, decision, note, id);
    case Apply(r) => ApplyAcceptedIff(b, r);
  }

  /** Over any actions, a recorded approval is the one at the start or was issued by one of the reviews:
      it carries that authority's assurance and production flag, under its signature. */
  lemma {:induction false} ApprovalIsIssued(log: seq<LogEvent>, acts: seq<(Action, Fate)>)
    requires Latest(log).Some? && Sound(Latest(log).value)
    ensures Latest(AfterAll(log, acts)).Some? && Sound(Latest(AfterAll(log, acts)).value)
    ensures var now := Latest(AfterAll(log, acts)).value.approval;
      now.Some? && now != Latest(log).value.approval ==> exists i: nat :: IssuedBy(acts, i, now.value)
  {
    hide Sound, Step, NothingAhead, Guaranteed, BundleFault;
    if acts != [] {
      var n := |acts| - 1;
      ApprovalIsIssued(log, acts[..n]);
      var mid, a, fate := AfterAll(log, acts[..n]), acts[n].0, acts[n].1;
      var before := Latest(mid).value;
      if before.approval.Some? && before.approval != Latest(log).value.approval {
        var i: nat :| IssuedBy(acts[..n], i, before.approval.value);
        assert IssuedBy(acts, i, before.approval.value);
      }
      if Step(before, a).Ok? {
        StepApproval(before, a);
        LatestAfter(mid, a, Step(before, a).value, fate);
        if a.Review? && fate != NothingRecorded {
          assert IssuedBy(acts, n, Step(before, a).value.approval.value);
        }
      }
    }
  }

  // ---------------------------------------------------------------- recovery

  /** Recovery takes an approval exactly from the signed approval of the applied bundle it names, and
      hands on what that receipt says: its assurance and whether it is authorised for production. */
  lemma {:induction false} GateAcceptedIff(authority: Option<Authority>, b: Bundle, incidentId: string, approvalId: Option<string>)
    ensures var gate := RecoveryGate(authority, b, incidentId, approvalId);
      && (gate.Ok? <==>
        && b.status == Applied && b.incidentId == incidentId
        && (approvalId.Some? && approvalId.value != "" ==>
          && b.approval.Some? && b.approval.value.payload.receiptId == approvalId.value
          && b.approval.value.payload.decision == Approve
          && authority.Some? && b.approval.value.payload.keyId == authority.value.keyId
          && b.approval.value.signature == Mac(authority.value.key, b.approval.value.payload)))
      && (gate.Ok? && (approvalId.None? || approvalId.value == "") ==> gate.value == None)
      && (gate.Ok? && approvalId.Some? && approvalId.value != "" ==>
        var p := b.approval.value.payload;
        gate.value == Some(MetadataGraph.HumanApproval(p.receiptId, p.approver, p.identityAssurance, p.productionAuthorized)))
  {
    hide ChecksCovered;
  }

  /** The approval that a bundle carries was issued by a recorded review under an authority for production. */
  ghost predicate IssuedForProduction(acts: seq<(Action, Fate)>, b: Bundle) {
    b.approval.Some? && exists i: nat :: IssuedBy(acts, i, b.approval.value) && acts[i].0.authority.productionAuthorized
  }

  lemma {:induction false} IssuedFlag(log: seq<LogEvent>, acts: seq<(Action, Fate)>)
    requires Latest(log).Some? && Sound(Latest(log).value) && Latest(log).value.approval.None?
    ensures Latest(AfterAll(log, acts)).Some? && Sound(Latest(AfterAll(log, acts)).value)
    ensures var b := Latest(AfterAll(log, acts)).value;
      b.approval.Some? ==> (b.approval.value.payload.productionAuthorized <==> IssuedForProduction(acts, b))
  {
    hide Sound, Latest, AfterAll;
    ApprovalIsIssued(log, acts);
  }

  /** Recovery over any actions on a repair that starts without an approval: the verdict resumes exactly
      when the last N runs are clean, or this one is, the policy takes one approved run, and the named
      approval was issued under an authority for production. */
  lemma {:induction false} ApprovalResumesIff(
    log: seq<LogEvent>, acts: seq<(Action, Fate)>, authority: Option<Authority>, incidentId: string, approvalId: Option<string>,
    p: MetadataGraph.Props, policy: Recovery.RecoveryPolicy, checks: seq<MetadataGraph.RecoveryCheck>)
    requires Latest(log).Some? && Sound(Latest(log).value) && Latest(log).value.approval.None?
    requires Recovery.HistoryIn(p).Ok?
    requires Latest(AfterAll(log, acts)).Some?
    requires RecoveryGate(authority, Latest(AfterAll(log, acts)).value, incidentId, approvalId).Ok?
    ensures var b := Latest(AfterAll(log, acts)).value;
      var approval := RecoveryGate(authority, b, incidentId, approvalId).value;
      var v := Recovery.Judge(p, policy, Recovery.Inputs(checks, approval, Some(incidentId)));
      v.resume <==>
        Recovery.LastClean(v.history, RecoveryRuns.Needed(policy))
        || (CatalogOutcomes.AllPass(policy, checks) && policy.allowOneCleanWithHumanApproval
            && approvalId.Some? && approvalId.value != "" && IssuedForProduction(acts, b))
  {
    hide Recovery.Judge, Recovery.LastClean, CatalogOutcomes.AllPass, RecoveryGate, Sound, AfterAll, Latest, IssuedForProduction;
    IssuedFlag(log, acts);
    var b := Latest(AfterAll(log, acts)).value;
    GateAcceptedIff(authority, b, incidentId, approvalId);
    var approval := RecoveryGate(authority, b, incidentId, approvalId).value;
    ResumeReads(p, policy, Recovery.Inputs(checks, approval, Some(incidentId)));
  }

  lemma {:induction false} ResumeReads(p: MetadataGraph.Props, policy: Recovery.RecoveryPolicy, input: Recovery.Inputs)
    requires Recovery.HistoryIn(p).Ok?
    ensures var v := Recovery.Judge(p, policy, input);
      v.resume <==>
        Recovery.LastClean(v.history, RecoveryRuns.Needed(policy))
        || (CatalogOutcomes.AllPass(policy, input.checks) && input.approval.Some? && input.approval.value.productionAuthorized
            && policy.allowOneCleanWithHumanApproval)
  {
    hide Recovery.LastClean, CatalogOutcomes.AllPass;
    CatalogOutcomes.VerdictReads(p, Recovery.HistoryIn(p).value, policy, input);
  }

  /** Without a production authority among the reviews, no approval ever resumes: only clean runs do. */
  lemma {:induction false} UnauthorisedNeverResumes(
    log: seq<LogEvent>, acts: seq<(Action, Fate)>, authority: Option<Authority>, incidentId: string, approvalId: Option<string>,
    p: MetadataGraph.Props, policy: Recovery.RecoveryPolicy, checks: seq<MetadataGraph.RecoveryCheck>)
    requires Latest(log).Some? && Sound(Latest(log).value) && Latest(log).value.approval.None?
    requires forall i :: 0 <= i < |acts| && acts[i].0.Review? ==> !acts[i].0.authority.productionAuthorized
    requires Recovery.HistoryIn(p).Ok?
    requires Latest(AfterAll(log, acts)).Some?
    requires RecoveryGate(authority, Latest(AfterAll(log, acts)).value, incidentId, approvalId).Ok?
    ensures var approval := RecoveryGate(authority, Latest(AfterAll(log, acts)).value, incidentId, approvalId).value;
      var input := Recovery.Inputs(checks, approval, Some(incidentId));
      var v := Recovery.Judge(p, policy, input);
      && !Recovery.ResumeByApproval(policy, Recovery.RunOf(policy, input))
      && (v.resume <==> Recovery.LastClean(v.history, RecoveryRuns.Needed(policy)))
  {
    hide Recovery.Judge, Recovery.LastClean, CatalogOutcomes.AllPass, RecoveryGate, Sound, AfterAll, Latest;
    ApprovalResumesIff(log, acts, authority, incidentId, approvalId, p, policy, checks);
    IssuedFlag(log, acts);
    GateAcceptedIff(authority, Latest(AfterAll(log, acts)).value, incidentId, approvalId);
  }

  // ---------------------------------------------------------------- fresh evidence

  /** Fresh verification is taken exactly when it observes the required ids and no others; each required
      check then passes as observed, with the receipt, the result and the observation's own evidence. */
  lemma {:induction false} RecoveryChecksRead(v: VerificationReceipt, required: seq<string>, i: nat)
    requires ReceiptConsistent(v) && i < |required|
    ensures RecoveryChecks(v, required).Ok? <==>
      (forall id :: id in required ==> exists o :: o in v.checks && o.checkId == id) && (forall o :: o in v.checks ==> o.checkId in required)
    ensures RecoveryChecks(v, required).Ok? ==>
      var checks := RecoveryChecks(v, required).value;
      && |checks| == |required| && checks[i].checkId == required[i]
      && forall o :: o in v.checks && o.checkId == required[i] ==>
        && (checks[i].status == MetadataGraph.Pass <==> o.status == Passed)
        && checks[i].evidenceIds == Dedupe([v.receiptId, o.result] + o.evidenceIds)
  {
    if RecoveryChecks(v, required).Ok? {
      ChecksFromAt(v, required, i);
      forall o | o in v.checks && o.checkId == required[i] ensures ObservedFor(v.checks, required[i]) == Some(o) {
        ObservedIsOnly(v.checks, o);
      }
    }
  }

  lemma {:induction false} ChecksFromAt(v: VerificationReceipt, required: seq<string>, i: nat)
    requires i < |required| && forall id :: id in required ==> ObservedFor(v.checks, id).Some?
    ensures required[i] in required
    ensures var o := ObservedFor(v.checks, required[i]).value;
      ChecksFrom(v, required)[i] == MetadataGraph.RecoveryCheck(
        required[i], if o.status == Passed then MetadataGraph.Pass else MetadataGraph.Fail, Dedupe([v.receiptId, o.result] + o.evidenceIds))
  {
    var n := |required| - 1;
    if i < n {
      assert forall id :: id in required[..n] ==> id in required;
      ChecksFromAt(v, required[..n], i);
    }
  }
}
