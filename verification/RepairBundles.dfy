/** Proof-carrying repair bundles and the receipts that move them on.

    A signature is an injective constructor over the key and the signed payload: nobody without the
    key can present one. */
module RepairBundles {
  import opened Common
  import opened TextLines

  datatype RepairStatus = Proposed | Published | Verified | Approved | Rejected | Applied

  datatype GateStatus = GateRequired | GateApproved | GateRejected

  datatype Execution = Passed | Failed

  datatype Artifact = Artifact(path: string, content: string, evidenceIds: seq<string>)

  datatype Check = Check(checkId: string, name: string, command: string, evidenceIds: seq<string>)

  datatype ChangeReceipt = ChangeReceipt(
    provider: string, bundleId: string, repository: string, branch: string, commit: string)

  datatype CheckReceipt = CheckReceipt(
    checkId: string, name: string, status: Execution, declaredCommand: string, evidenceIds: seq<string>, result: string)

  datatype VerificationReceipt = VerificationReceipt(
    receiptId: string,
    provider: string,
    status: Execution,
    bundleId: string,
    repository: string,
    branch: string,
    commit: string,
    checks: seq<CheckReceipt>)

  datatype ApprovalDecision = Approve | Reject

  datatype ApprovalPayload = ApprovalPayload(
    receiptId: string,
    bundleId: string,
    verificationId: string,
    commit: string,
    approver: string,
    expectedApprover: string,
    decision: ApprovalDecision,
    note: string,
    identityAssurance: string,
    productionAuthorized: bool,
    keyId: string,
    evidenceIds: seq<string>)

  datatype Signature = Mac(key: string, payload: ApprovalPayload) | OtherBytes(text: string)

  datatype ApprovalReceipt = ApprovalReceipt(payload: ApprovalPayload, signature: Signature)

  datatype ApplicationReceipt = ApplicationReceipt(
    receiptId: string, status: string, bundleId: string, commit: string, environment: string)

  datatype Bundle = Bundle(
    bundleId: string,
    incidentId: string,
    status: RepairStatus,
    affectedUrns: seq<string>,
    preservedUrns: seq<string>,
    evidenceIds: seq<string>,
    artifacts: seq<Artifact>,
    checks: seq<Check>,
    approver: string,
    gate: GateStatus,
    gateEvidence: seq<string>,
    change: Option<ChangeReceipt>,
    verification: Option<VerificationReceipt>,
    approval: Option<ApprovalReceipt>,
    application: Option<ApplicationReceipt>)

  datatype BundleError =
    | EvidenceOutside
    | Overlap
    | ProposedWithReceipt
    | MissingReceipt
    | GateDisagrees
    | OtherBundle
    | WrongStatus
    | FailedReceipt
    | WrongCommit
    | WrongTarget
    | WrongProvider
    | ChecksChanged
    | BadReceipt
    | WrongApprover
    | BadSignature
    | MissingIdentity
    | ShortNote
    | LongNote
    | NotApplied
    | NoBundle

  // ---------------------------------------------------------------- validators

  predicate Within(ids: seq<string>, evidence: seq<string>) {
    forall id :: id in ids ==> id in evidence
  }

  predicate EvidenceClosed(b: Bundle) {
    && (forall i :: 0 <= i < |b.artifacts| ==> Within(b.artifacts[i].evidenceIds, b.evidenceIds))
    && (forall i :: 0 <= i < |b.checks| ==> Within(b.checks[i].evidenceIds, b.evidenceIds))
    && Within(b.gateEvidence, b.evidenceIds)
  }

  predicate DisjointUrns(b: Bundle) {
    forall u :: u in b.affectedUrns ==> u !in b.preservedUrns
  }

  /** The bundle validator, in its own order. */
  function BundleFault(b: Bundle): Option<BundleError> {
    if !EvidenceClosed(b) then Some(EvidenceOutside)
    else if !DisjointUrns(b) then Some(Overlap)
    else if b.status == Proposed && b.change.Some? then Some(ProposedWithReceipt)
    else if b.status == Verified && b.verification.None? then Some(MissingReceipt)
    else if b.status == Approved && b.approval.None? then Some(MissingReceipt)
    else if b.status == Approved && b.gate != GateApproved then Some(GateDisagrees)
    else if b.status == Rejected && b.approval.None? then Some(MissingReceipt)
    else if b.status == Rejected && b.gate != GateRejected then Some(GateDisagrees)
    else if b.status == Applied && (b.application.None? || b.approval.None?) then Some(MissingReceipt)
    else if b.status == Applied && b.gate != GateApproved then Some(GateDisagrees)
    else None
  }

  function Checked(b: Bundle): Result<Bundle, BundleError> {
    if BundleFault(b).Some? then Err(BundleFault(b).value) else Ok(b)
  }

  /** A verification receipt covers at least one check, each once, and its status is theirs. */
  predicate ReceiptConsistent(r: VerificationReceipt) {
    && r.checks != []
    && (forall i, j :: 0 <= i < j < |r.checks| ==> r.checks[i].checkId != r.checks[j].checkId)
    && (r.status == Passed <==> forall i :: 0 <= i < |r.checks| ==> r.checks[i].status == Passed)
  }

  // ---------------------------------------------------------------- attaching receipts

  /** Bind an observed change. The status of the bundle is not looked at. */
  function AttachChange(b: Bundle, r: ChangeReceipt): Result<Bundle, BundleError> {
    if r.bundleId != b.bundleId then Err(OtherBundle)
    else Checked(b.(status := Published, change := Some(r)))
  }

  function ExpectedVerifier(provider: string): Option<string> {
    if provider == "GITHUB" then Some("GITHUB_CHECK_RUNS")
    else if provider == "LOCAL_GIT" then Some("LOCAL_PROCESS")
    else None
  }

  /** The declared check under an id; a later declaration replaces an earlier one. */
  function DeclaredFor(checks: seq<Check>, id: string): (r: Option<Check>)
    ensures r.Some? <==> exists c :: c in checks && c.checkId == id
    ensures r.Some? ==> r.value in checks && r.value.checkId == id
  {
    if checks == [] then None
    else
      var last := checks[|checks| - 1];
      assert forall c :: c in checks <==> c in checks[..|checks| - 1] || c == last;
      if last.checkId == id then Some(last) else DeclaredFor(checks[..|checks| - 1], id)
  }

  function ObservedFor(checks: seq<CheckReceipt>, id: string): (r: Option<CheckReceipt>)
    ensures r.Some? <==> exists c :: c in checks && c.checkId == id
    ensures r.Some? ==> r.value in checks && r.value.checkId == id
  {
    if checks == [] then None
    else
      var last := checks[|checks| - 1];
      assert forall c :: c in checks <==> c in checks[..|checks| - 1] || c == last;
      if last.checkId == id then Some(last) else ObservedFor(checks[..|checks| - 1], id)
  }

  predicate Satisfies(expected: Check, actual: CheckReceipt) {
    && actual.status == Passed && actual.name == expected.name
    && actual.declaredCommand == expected.command && actual.evidenceIds == expected.evidenceIds
  }

  /** The declared ids are exactly the observed ones, and each declaration in force is satisfied. */
  predicate ChecksCovered(declared: seq<Check>, observed: seq<CheckReceipt>) {
    && (forall c :: c in observed ==> DeclaredFor(declared, c.checkId).Some?)
    && (forall c :: c in declared ==>
      && ObservedFor(observed, c.checkId).Some?
      && Satisfies(DeclaredFor(declared, c.checkId).value, ObservedFor(observed, c.checkId).value))
  }

  function AttachVerification(b: Bundle, r: VerificationReceipt): Result<Bundle, BundleError> {
    if !ReceiptConsistent(r) then Err(BadReceipt)
    else if b.status != Published then Err(WrongStatus)
    else if r.bundleId != b.bundleId then Err(OtherBundle)
    else if r.status != Passed then Err(FailedReceipt)
    else if b.change.None? || b.change.value.commit != r.commit then Err(WrongCommit)
    else if b.change.value.repository != r.repository || b.change.value.branch != r.branch then Err(WrongTarget)
    else if ExpectedVerifier(b.change.value.provider) != Some(r.provider) then Err(WrongProvider)
    else if !ChecksCovered(b.checks, r.checks) then Err(ChecksChanged)
    else Checked(b.(status := Verified, verification := Some(r)))
  }

  datatype Authority = Authority(key: string, keyId: string, identityAssurance: string, productionAuthorized: bool)

  predicate Signed(a: Authority, r: ApprovalReceipt) {
    r.payload.keyId == a.keyId && r.signature == Mac(a.key, r.payload)
  }

  /** The decision of the authenticated reviewer, as a signed receipt; its id is derived from it. */
  function Record(a: Authority, b: Bundle, reviewer: string, decision: ApprovalDecision, note: string, receiptId: string):
    Result<ApprovalReceipt, BundleError>
  {
    if b.status != Verified then Err(WrongStatus)
    else if reviewer != b.approver then Err(WrongApprover)
    else if b.verification.None? || b.verification.value.receiptId == "" || b.verification.value.commit == "" then Err(MissingIdentity)
    else if b.change.None? || b.change.value.commit != b.verification.value.commit then Err(WrongCommit)
    else if |Strip(note)| < 8 then Err(ShortNote)
    else if |Strip(note)| > 1000 then Err(LongNote)
    else
      var v := b.verification.value;
      var payload := ApprovalPayload(
        receiptId, b.bundleId, v.receiptId, v.commit, reviewer, b.approver, decision, Strip(note),
        a.identityAssurance, a.productionAuthorized, a.keyId, Dedupe(b.evidenceIds + [v.receiptId, receiptId]));
      Ok(ApprovalReceipt(payload, Mac(a.key, payload)))
  }

  function AttachApproval(b: Bundle, r: ApprovalReceipt, a: Authority): Result<Bundle, BundleError> {
    if !Signed(a, r) then Err(BadSignature)
    else if b.status != Verified then Err(WrongStatus)
    else if r.payload.bundleId != b.bundleId then Err(OtherBundle)
    else if b.verification.None? || r.payload.verificationId != b.verification.value.receiptId then Err(BadReceipt)
    else if r.payload.commit != b.verification.value.commit then Err(WrongCommit)
    else if r.payload.approver != b.approver then Err(WrongApprover)
    else if r.payload.decision == Approve then Checked(b.(status := Approved, gate := GateApproved, approval := Some(r)))
    else Checked(b.(status := Rejected, gate := GateRejected, approval := Some(r)))
  }

  function AttachApplication(b: Bundle, r: ApplicationReceipt): Result<Bundle, BundleError> {
    if b.status != Approved then Err(WrongStatus)
    else if r.bundleId != b.bundleId then Err(OtherBundle)
    else if b.approval.None? || r.commit != b.approval.value.payload.commit then Err(WrongCommit)
    else if r.status != "APPLIED" then Err(NotApplied)
    else Checked(b.(status := Applied, application := Some(r)))
  }

  // ---------------------------------------------------------------- what each status guarantees

  /** The verification is of the published commit, on its branch, by its provider's verifier, and
      satisfies every declaration in force. */
  predicate VerifiedChain(b: Bundle) {
    && b.change.Some? && b.verification.Some?
    && var c, v := b.change.value, b.verification.value;
    && c.bundleId == b.bundleId && v.bundleId == b.bundleId
    && v.commit == c.commit && v.repository == c.repository && v.branch == c.branch
    && ExpectedVerifier(c.provider) == Some(v.provider)
    && ReceiptConsistent(v) && v.status == Passed && ChecksCovered(b.checks, v.checks)
  }

  /** The named approver decided, under a signature, about exactly that verification and commit. */
  predicate ReviewedChain(b: Bundle, decision: ApprovalDecision) {
    && VerifiedChain(b) && b.approval.Some?
    && var p := b.approval.value.payload;
    && p.bundleId == b.bundleId && p.verificationId == b.verification.value.receiptId
    && p.commit == b.verification.value.commit && p.approver == b.approver && p.decision == decision
    && b.approval.value.signature.Mac? && b.approval.value.signature.payload == p
  }

  predicate AppliedChain(b: Bundle) {
    && ReviewedChain(b, Approve) && b.application.Some?
    && b.application.value.bundleId == b.bundleId && b.application.value.commit == b.approval.value.payload.commit
    && b.application.value.status == "APPLIED"
  }

  predicate Guaranteed(b: Bundle) {
    match b.status
    case Proposed => b.change.None?
    case Published => b.change.Some? && b.change.value.bundleId == b.bundleId
    case Verified => VerifiedChain(b)
    case Approved => ReviewedChain(b, Approve) && b.gate == GateApproved
    case Rejected => ReviewedChain(b, Reject) && b.gate == GateRejected
    case Applied => AppliedChain(b) && b.gate == GateApproved
  }

  /** What no receipt ever changes. */
  predicate SameRepair(a: Bundle, b: Bundle) {
    && a.bundleId == b.bundleId && a.incidentId == b.incidentId && a.artifacts == b.artifacts
    && a.checks == b.checks && a.evidenceIds == b.evidenceIds && a.approver == b.approver
    && a.affectedUrns == b.affectedUrns && a.preservedUrns == b.preservedUrns && a.gateEvidence == b.gateEvidence
  }

  datatype Receipt =
    | OfChange(change: ChangeReceipt)
    | OfVerification(verification: VerificationReceipt)
    | OfApproval(approval: ApprovalReceipt, authority: Authority)
    | OfApplication(application: ApplicationReceipt)

  function Attach(b: Bundle, r: Receipt): Result<Bundle, BundleError> {
    match r
    case OfChange(change) => AttachChange(b, change)
    case OfVerification(verification) => AttachVerification(b, verification)
    case OfApproval(approval, authority) => AttachApproval(b, approval, authority)
    case OfApplication(application) => AttachApplication(b, application)
  }

  /** The bundle after the receipts that were accepted; a refused one changes nothing. */
  function AttachAll(b: Bundle, rs: seq<Receipt>): Bundle {
    if rs == [] then b
    else
      var mid := AttachAll(b, rs[..|rs| - 1]);
      var next := Attach(mid, rs[|rs| - 1]);
      if next.Ok? then next.value else mid
  }

  lemma {:induction false} AttachKeeps(b: Bundle, r: Receipt)
    requires BundleFault(b).None? && Guaranteed(b) && Attach(b, r).Ok?
    ensures BundleFault(Attach(b, r).value).None? && Guaranteed(Attach(b, r).value)
    ensures SameRepair(b, Attach(b, r).value)
  {
    var after := Attach(b, r).value;
    match r
    case OfChange(_) =>
    case OfVerification(v) => assert VerifiedChain(after);
    case OfApproval(a, _) => assert ReviewedChain(after, a.payload.decision);
    case OfApplication(_) => assert AppliedChain(after);
  }

  /** In every bundle reachable from a valid proposal by any sequence of attachments, in any order and
      with any receipts, each status carries the whole chain it needs, all bound to one commit. */
  lemma {:induction false} CommitBinding(b: Bundle, rs: seq<Receipt>)
    requires BundleFault(b).None? && b.status == Proposed
    ensures var end := AttachAll(b, rs);
      && BundleFault(end).None? && Guaranteed(end) && SameRepair(b, end)
  {
    if rs != [] {
      CommitBinding(b, rs[..|rs| - 1]);
      var mid := AttachAll(b, rs[..|rs| - 1]);
      if Attach(mid, rs[|rs| - 1]).Ok? {
        AttachKeeps(mid, rs[|rs| - 1]);
      }
    }
  }

  /** An applied bundle's four receipts name one commit. */
  lemma {:induction false} OneCommit(b: Bundle, rs: seq<Receipt>)
    requires BundleFault(b).None? && b.status == Proposed
    requires AttachAll(b, rs).status == Applied
    ensures var end := AttachAll(b, rs);
      && end.change.Some? && end.verification.Some? && end.approval.Some? && end.application.Some?
      && end.change.value.commit == end.verification.value.commit == end.approval.value.payload.commit == end.application.value.commit
      && end.approval.value.payload.decision == Approve && end.approval.value.payload.approver == b.approver
  {
    CommitBinding(b, rs);
  }

  lemma {:induction false} ObservedInChain(b: Bundle, c: Check)
    requires VerifiedChain(b) && c in b.checks
    ensures (exists o :: o in b.verification.value.checks && o.checkId == c.checkId && Satisfies(c, o))
      <==> var d := DeclaredFor(b.checks, c.checkId).value;
        d.name == c.name && d.command == c.command && d.evidenceIds == c.evidenceIds
  {
    var checks := b.verification.value.checks;
    var o := ObservedFor(checks, c.checkId).value;
    forall p | p in checks && p.checkId == c.checkId ensures p == o {
      var i :| 0 <= i < |checks| && checks[i] == p;
      var j :| 0 <= j < |checks| && checks[j] == o;
    }
  }

  /** In every bundle reachable from a valid proposal, once it is verified, approved, rejected or
      applied, a declared check has a passing observation of the same name, command and evidence
      exactly when it agrees with the declaration in force under its id. */
  lemma {:induction false} DeclaredCheckObserved(b: Bundle, rs: seq<Receipt>, c: Check)
    requires BundleFault(b).None? && b.status == Proposed && c in b.checks
    requires AttachAll(b, rs).status != Proposed && AttachAll(b, rs).status != Published
    ensures DeclaredFor(b.checks, c.checkId).Some? && AttachAll(b, rs).verification.Some?
    ensures (exists o :: o in AttachAll(b, rs).verification.value.checks && o.checkId == c.checkId && Satisfies(c, o))
      <==> var d := DeclaredFor(b.checks, c.checkId).value;
        d.name == c.name && d.command == c.command && d.evidenceIds == c.evidenceIds
  {
    CommitBinding(b, rs);
    ObservedInChain(AttachAll(b, rs), c);
  }

  /** With distinct ids every declared check is observed passing, in each of those bundles. */
  lemma {:induction false} EveryCheckObserved(b: Bundle, rs: seq<Receipt>, c: Check)
    requires BundleFault(b).None? && b.status == Proposed && c in b.checks
    requires AttachAll(b, rs).status != Proposed && AttachAll(b, rs).status != Published
    requires forall d :: d in b.checks && d.checkId == c.checkId ==> d == c
    ensures AttachAll(b, rs).verification.Some?
    ensures exists o :: o in AttachAll(b, rs).verification.value.checks && o.checkId == c.checkId && Satisfies(c, o)
  {
    DeclaredCheckObserved(b, rs, c);
  }

  /** A publication attached to a bundle at any status starts over at PUBLISHED and keeps the older
      receipts beside the new commit, so only the status says which of them count. */
  lemma {:induction false} ChangeStartsOver(b: Bundle, r: ChangeReceipt)
    requires BundleFault(b).None? && r.bundleId == b.bundleId
    ensures AttachChange(b, r).Ok?
    ensures var after := AttachChange(b, r).value;
      after.status == Published && after.change == Some(r)
      && after.verification == b.verification && after.approval == b.approval && after.application == b.application
  {
  }

  /** A recorded decision is accepted by its own authority, and never by one with another key. */
  lemma {:induction false} RecordedIsAccepted(a: Authority, b: Bundle, reviewer: string, decision: ApprovalDecision, note: string, id: string, other: Authority)
    requires BundleFault(b).None? && Record(a, b, reviewer, decision, note, id).Ok?
    ensures var r := Record(a, b, reviewer, decision, note, id).value;
      && AttachApproval(b, r, a).Ok?
      && AttachApproval(b, r, a).value.status == (if decision == Approve then Approved else Rejected)
      && (other.key != a.key ==> AttachApproval(b, r, other) == Err(BadSignature))
  {
  }
}
