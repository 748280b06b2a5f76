/** Repair actions over an incident's event log, one at a time: each reads the latest bundle from the
    log, checks it, and appends the next one. */
module RepairLifecycle {
  import opened Common
  import opened Events
  import opened RepairBundles
  import MetadataGraph
  import Recovery

  /** An event of the log; those of the repair lifecycle carry the bundle as it then was. */
  datatype LogEvent = LogEvent(eventType: EventType, bundle: Option<Bundle>)

  predicate IsLifecycle(e: LogEvent) {
    e.bundle.Some? && e.eventType in {RepairBundleCreated, RepairPublished, RepairVerified, ApprovalRecorded, RepairApplied}
  }

  /** The bundle of the last lifecycle event. */
  function Latest(log: seq<LogEvent>): Option<Bundle> {
    if log == [] then None
    else
      var last := log[|log| - 1];
      if IsLifecycle(last) then last.bundle else Latest(log[..|log| - 1])
  }

  // ---------------------------------------------------------------- actions

  /** What the runtime is asked for, with what the outside world answers. */
  datatype Action =
    | Publish(change: ChangeReceipt)
    | Verify(verification: VerificationReceipt)
    | Review(authority: Authority, reviewer: string, decision: ApprovalDecision, note: string, receiptId: string)
    | Apply(application: ApplicationReceipt)

  /** How far an accepted action gets: writing the decision log and recording either event may fail. */
  datatype Fate = NothingRecorded | BundleRecorded | AllRecorded

  /** Both publishers take only a proposal that claims no publication yet. */
  function PublishBundle(b: Bundle, r: ChangeReceipt): Result<Bundle, BundleError> {
    if b.status != Proposed then Err(WrongStatus)
    else if b.change.Some? then Err(ProposedWithReceipt)
    else AttachChange(b, r)
  }

  /** The staging applicator takes only an approved bundle whose receipts name one commit. */
  predicate CanApply(b: Bundle) {
    && b.status == Approved
    && b.change.Some? && b.approval.Some? && b.verification.Some?
    && b.change.value.commit != ""
    && b.approval.value.payload.commit == b.change.value.commit && b.verification.value.commit == b.change.value.commit
  }

  function Step(b: Bundle, a: Action): Result<Bundle, BundleError> {
    match a
    case Publish(change) => PublishBundle(b, change)
    case Verify(verification) => if b.status != Published then Err(WrongStatus) else AttachVerification(b, verification)
    case Review(authority, reviewer, decision, note, receiptId) =>
      (match Record(authority, b, reviewer, decision, note, receiptId)
      case Err(e) => Err(e)
      case Ok(receipt) => AttachApproval(b, receipt, authority))
    case Apply(application) => if !CanApply(b) then Err(WrongStatus) else AttachApplication(b, application)
  }

  function EventOf(a: Action): EventType {
    match a
    case Publish(_) => RepairPublished
    case Verify(_) => RepairVerified
    case Review(_, _, _, _, _) => ApprovalRecorded
    case Apply(_) => RepairApplied
  }

  function Recorded(a: Action, b: Bundle, fate: Fate): seq<LogEvent> {
    match fate
    case NothingRecorded => []
    case BundleRecorded => [LogEvent(EventOf(a), Some(b))]
    case AllRecorded => [LogEvent(EventOf(a), Some(b)), LogEvent(DecisionLogWritten, None)]
  }

  function After(log: seq<LogEvent>, a: Action, fate: Fate): seq<LogEvent> {
    match Latest(log)
    case None => log
    case Some(b) => match Step(b, a) case Err(_) => log case Ok(next) => log + Recorded(a, next, fate)
  }

  /** The log as the runtime appends to it. */
  class RepairLog {
    var entries: seq<LogEvent>

    constructor (entries: seq<LogEvent>)
      ensures this.entries == entries
    {
      this.entries := entries;
    }

    /** The source's backward scan. */
    method LatestBundle() returns (bundle: Option<Bundle>)
      ensures bundle == Latest(entries)
    {
      var i := |entries|;
      assert entries[..|entries|] == entries;
      while i > 0
        invariant 0 <= i <= |entries| && Latest(entries) == Latest(entries[..i])
      {
        assert entries[..i][..i - 1] == entries[..i - 1];
        if IsLifecycle(entries[i - 1]) {
          return entries[i - 1].bundle;
        }
        i := i - 1;
      }
      return None;
    }

    method Act(a: Action, fate: Fate) returns (result: Result<Bundle, BundleError>)
      modifies this
      ensures entries == After(old(entries), a, fate)
      ensures Latest(old(entries)).None? ==> result == Err(NoBundle)
      ensures Latest(old(entries)).Some? ==> result == Step(Latest(old(entries)).value, a)
    {
      var latest := LatestBundle();
      if latest.None? {
        return Err(NoBundle);
      }
      result := Step(latest.value, a);
      if result.Err? {
        return;
      }
      if fate != NothingRecorded {
        entries := entries + [LogEvent(EventOf(a), Some(result.value))];
        if fate == AllRecorded {
          ghost var before := entries;
          entries := entries + [LogEvent(DecisionLogWritten, None)];
        }
      }
    }
  }

  // ---------------------------------------------------------------- runs

  function AfterAll(log: seq<LogEvent>, acts: seq<(Action, Fate)>): seq<LogEvent> {
    if acts == [] then log
    else After(AfterAll(log, acts[..|acts| - 1]), acts[|acts| - 1].0, acts[|acts| - 1].1)
  }

  function Rank(s: RepairStatus): nat {
    match s
    case Proposed => 0
    case Published => 1
    case Verified => 2
    case Approved => 3
    case Rejected => 3
    case Applied => 4
  }

  predicate Kept<T(==)>(before: Option<T>, after: Option<T>) {
    before.Some? ==> after == before
  }

  /** Later in the lifecycle: same repair, a status no earlier, and no receipt replaced or lost. */
  predicate Advances(a: Bundle, b: Bundle) {
    && SameRepair(a, b)
    && (b.status == a.status || Rank(a.status) < Rank(b.status))
    && (a.status == Rejected ==> b.status == Rejected)
    && Kept(a.change, b.change) && Kept(a.verification, b.verification)
    && Kept(a.approval, b.approval) && Kept(a.application, b.application)
  }

  /** Nothing is attached ahead of its status. */
  predicate NothingAhead(b: Bundle) {
    && (b.change.Some? ==> Rank(b.status) >= 1) && (b.verification.Some? ==> Rank(b.status) >= 2)
    && (b.approval.Some? ==> Rank(b.status) >= 3) && (b.application.Some? ==> b.status == Applied)
  }

  predicate LogOk(start: Bundle, log: seq<LogEvent>) {
    && Latest(log).Some?
    && var b := Latest(log).value;
    && BundleFault(b).None? && Guaranteed(b) && NothingAhead(b) && Advances(start, b)
  }

  lemma {:induction false} StepAdvances(b: Bundle, a: Action)
    requires BundleFault(b).None? && Guaranteed(b) && NothingAhead(b) && Step(b, a).Ok?
    ensures var next := Step(b, a).value;
      BundleFault(next).None? && Guaranteed(next) && NothingAhead(next) && Advances(b, next)
      && Rank(next.status) == Rank(b.status) + 1
  {
    hide BundleFault, Guaranteed, Signed, Record;
    match a
    case Publish(change) => AttachKeeps(b, OfChange(change));
    case Verify(verification) => AttachKeeps(b, OfVerification(verification));
    case Review(authority, reviewer, decision, note, receiptId) =>
      AttachKeeps(b, OfApproval(Record(authority, b, reviewer, decision, note, receiptId).value, authority));
    case Apply(application) => AttachKeeps(b, OfApplication(application));
  }

  lemma {:induction false} LatestAfter(log: seq<LogEvent>, a: Action, b: Bundle, fate: Fate)
    ensures Latest(log + Recorded(a, b, fate)) == if fate == NothingRecorded then Latest(log) else Some(b)
  {
    var more := log + Recorded(a, b, fate);
    match fate
    case NothingRecorded => assert more == log;
    case BundleRecorded => assert IsLifecycle(more[|more| - 1]);
    case AllRecorded =>
      assert !IsLifecycle(more[|more| - 1]) && IsLifecycle(more[..|more| - 1][|more| - 2]);
  }

  lemma {:induction false} ActKeepsLog(start: Bundle, log: seq<LogEvent>, a: Action, fate: Fate)
    requires LogOk(start, log)
    ensures LogOk(start, After(log, a, fate)) && log <= After(log, a, fate)
  {
    var b := Latest(log).value;
    if Step(b, a).Ok? {
      StepAdvances(b, a);
      LatestAfter(log, a, Step(b, a).value, fate);
    }
  }

  /** Over any sequence of actions, accepted or refused, completed or interrupted: the log only grows,
      the recorded bundle carries the whole chain its status needs, and from any moment on statuses
      only advance and no receipt is ever replaced. */
  lemma {:induction false} LifecycleOnlyAdvances(log: seq<LogEvent>, acts: seq<(Action, Fate)>)
    requires Latest(log).Some? && BundleFault(Latest(log).value).None?
    requires Guaranteed(Latest(log).value) && NothingAhead(Latest(log).value)
    ensures var end := AfterAll(log, acts);
      && log <= end && Latest(end).Some?
      && Guaranteed(Latest(end).value) && NothingAhead(Latest(end).value)
      && Advances(Latest(log).value, Latest(end).value)
    ensures LogOk(Latest(log).value, AfterAll(log, acts))
  {
    if acts != [] {
      LifecycleOnlyAdvances(log, acts[..|acts| - 1]);
      ActKeepsLog(Latest(log).value, AfterAll(log, acts[..|acts| - 1]), acts[|acts| - 1].0, acts[|acts| - 1].1);
    }
  }

  // ---------------------------------------------------------------- recovery

  /** An approval id counts as given when it is there and not empty. */
  predicate Given(approvalId: Option<string>) {
    approvalId.Some? && approvalId.value != ""
  }

  /** What recovery asks of the bundle before it reads fresh evidence. */
  function RecoveryGate(authority: Option<Authority>, b: Bundle, incidentId: string, approvalId: Option<string>):
    Result<Option<MetadataGraph.HumanApproval>, BundleError>
  {
    var approval :=
      if !Given(approvalId) then Ok(None)
      else if b.status != Approved && b.status != Applied then Err(WrongStatus)
      else if b.approval.None? then Err(MissingReceipt)
      else
        var r := b.approval.value;
        if r.payload.receiptId != approvalId.value then Err(BadReceipt)
        else if authority.None? || !Signed(authority.value, r) then Err(BadSignature)
        else if r.payload.decision != Approve then Err(WrongStatus)
        else Ok(Some(MetadataGraph.HumanApproval(
          r.payload.receiptId, r.payload.approver, r.payload.identityAssurance, r.payload.productionAuthorized)));
    if approval.Err? then approval
    else if b.incidentId != incidentId then Err(OtherBundle)
    else if b.status != Applied then Err(WrongStatus)
    else approval
  }

  /** Recovery proceeds only on a repair whose four receipts name one commit, and takes human approval
      only from the named approver's signed decision about that commit. */
  lemma {:induction false} RecoveryNeedsApplied(
    log: seq<LogEvent>, acts: seq<(Action, Fate)>, authority: Option<Authority>, incidentId: string, approvalId: Option<string>)
    requires Latest(log).Some? && BundleFault(Latest(log).value).None?
    requires Guaranteed(Latest(log).value) && NothingAhead(Latest(log).value)
    requires Latest(AfterAll(log, acts)).Some?
    requires RecoveryGate(authority, Latest(AfterAll(log, acts)).value, incidentId, approvalId).Ok?
    ensures var b := Latest(AfterAll(log, acts)).value;
      var approval := RecoveryGate(authority, b, incidentId, approvalId).value;
      && AppliedChain(b) && b.incidentId == incidentId
      && (approval.Some? <==> Given(approvalId))
      && (approval.Some? ==>
        && authority.Some? && Signed(authority.value, b.approval.value)
        && approval.value.receiptId == b.approval.value.payload.receiptId
        && approval.value.approverUrn == b.approver
        && b.approval.value.payload.commit == b.change.value.commit)
  {
    LifecycleOnlyAdvances(log, acts);
  }

  function RecoveryStatus(e: Execution): MetadataGraph.CheckStatus {
    if e == Passed then MetadataGraph.Pass else MetadataGraph.Fail
  }

  /** Fresh verification as recovery checks; it must cover exactly the required ids. */
  function RecoveryChecks(v: VerificationReceipt, required: seq<string>): Result<seq<MetadataGraph.RecoveryCheck>, BundleError> {
    if exists id :: id in required && ObservedFor(v.checks, id).None? then Err(ChecksChanged)
    else if exists c :: c in v.checks && c.checkId !in required then Err(ChecksChanged)
    else Ok(ChecksFrom(v, required))
  }

  function ChecksFrom(v: VerificationReceipt, required: seq<string>): (r: seq<MetadataGraph.RecoveryCheck>)
    requires forall id :: id in required ==> ObservedFor(v.checks, id).Some?
    ensures |r| == |required|
  {
    if required == [] then []
    else
      var id := required[|required| - 1];
      assert id in required;
      var c := ObservedFor(v.checks, id).value;
      ChecksFrom(v, required[..|required| - 1])
      + [MetadataGraph.RecoveryCheck(id, RecoveryStatus(c.status), Dedupe([v.receiptId, c.result] + c.evidenceIds))]
  }

  lemma {:induction false} CheckForRequired(v: VerificationReceipt, required: seq<string>, id: string)
    requires forall x :: x in required ==> ObservedFor(v.checks, x).Some?
    ensures Recovery.CheckFor(ChecksFrom(v, required), id).Some? <==> id in required
    ensures id in required ==>
      Recovery.CheckFor(ChecksFrom(v, required), id).value.status == RecoveryStatus(ObservedFor(v.checks, id).value.status)
  {
    if required != [] {
      var init, last := required[..|required| - 1], required[|required| - 1];
      assert required == init + [last];
      CheckForRequired(v, init, id);
      var checks := ChecksFrom(v, required);
      assert checks[..|checks| - 1] == ChecksFrom(v, init);
    }
  }

  /** The bridge from verification to recovery: evidence that covers the locked policy makes the
      evaluation clean exactly when the fresh verification passed. */
  lemma {:induction false} RecoveryCleanIffVerified(v: VerificationReceipt, policy: Recovery.RecoveryPolicy)
    requires ReceiptConsistent(v) && RecoveryChecks(v, policy.required).Ok?
    ensures Recovery.Clean(policy, RecoveryChecks(v, policy.required).value) <==> v.status == Passed
  {
    var checks := RecoveryChecks(v, policy.required).value;
    forall id | id in policy.required
      ensures Recovery.Passed(checks, id) <==> ObservedFor(v.checks, id).value.status == Passed
    {
      CheckForRequired(v, policy.required, id);
    }
    if Recovery.Clean(policy, checks) {
      forall i | 0 <= i < |v.checks| ensures v.checks[i].status == Passed {
        var c := v.checks[i];
        assert c in v.checks;
        var o := ObservedFor(v.checks, c.checkId).value;
        var j :| 0 <= j < |v.checks| && v.checks[j] == o;
        assert Recovery.Passed(checks, c.checkId);
      }
    }
  }
}
