/** Publishing one repair to GitHub, as a machine of single remote requests.

    Any number of publishers of the same repair run side by side or again, requests may be lost
    before or after they take effect, and others may push commits, move the base branch, create the
    repair branch, open a pull request on it or close one. GitHub's own rules are part of the
    machine: a commit never changes, a second creation of a branch is refused, and so is a second
    open pull request for it. */
module GitHubPublication {
  import opened Common
  import opened PublicationFiles

  type Sha = nat

  datatype Commit = Commit(tree: Files, parents: seq<Sha>, message: set<string>)

  /** Head and base revision as GitHub recorded them; `body` is the set of texts that occur in the
      description. */
  datatype Pull = Pull(open: bool, body: set<string>, head: Sha, base: Sha)

  /** The lines that bind commits and pull requests to one incident, bundle and evidence set. */
  datatype Repair = Repair(artifacts: seq<RepairFile>, incidentMarker: string, bundleMarker: string, evidenceMarker: string) {
    function Markers(): set<string> {
      {incidentMarker, bundleMarker, evidenceMarker}
    }
  }

  datatype Remote = Remote(
    commits: map<Sha, Commit>,
    base: Sha,
    branch: Option<Sha>,
    pulls: seq<Pull>)

  datatype Receipt = Receipt(base: Sha, commit: Sha, files: Files, pull: nat)

  /** Where a publisher stands: the request it makes next. */
  datatype Stage =
    | GetBranch
    | GetBase
    | CheckSources(base: Sha, files: Files)
    | PostCommit(base: Sha, files: Files)
    | CheckBeforeBranch(base: Sha, commit: Sha)
    | PostBranch(commit: Sha)
    | ReadBranch(commit: Sha)
    | GetCommit(head: Sha)
    | CheckParent(head: Sha, base: Sha)
    | Compare(head: Sha, base: Sha, files: Files)
    | ListPulls(head: Sha, base: Sha, files: Files)
    | CheckBeforePull(head: Sha, base: Sha, files: Files)
    | PostPull(head: Sha, base: Sha, files: Files)
    | RecoverPull(head: Sha, base: Sha, files: Files)
    | Done(receipt: Receipt)
    | Failed

  /** `receipts` records every receipt ever returned, `created` the pull requests that publishers
      created, and `closed` whether anyone ever closed one. */
  datatype World = World(
    remote: Remote, stages: seq<Stage>, receipts: seq<Receipt>, created: nat, closed: bool)

  /** `arrives`: the request takes effect; `answered`: its success is reported; `sha`: the name
      GitHub gives to a commit created by it. */
  datatype Action =
    | Request(publisher: nat, arrives: bool, answered: bool, sha: Sha)
    | Retry(publisher: nat)
    | PushCommit(pushed: Sha, commit: Commit)
    | MoveBase(to: Sha)
    | CreateBranch(at: Sha)
    | OpenPull(body: set<string>)
    | ClosePull(number: nat)

  // ---------------------------------------------------------------- GitHub

  /** A commit's name determines it: a name in use is only ever given to the same commit. */
  function AddCommit(r: Remote, sha: Sha, commit: Commit): Remote {
    if sha in r.commits then r else r.(commits := r.commits[sha := commit])
  }

  predicate Named(r: Remote, sha: Sha, commit: Commit) {
    sha in r.commits ==> r.commits[sha] == commit
  }

  function AddBranch(r: Remote, sha: Sha): Remote {
    if r.branch.Some? || sha !in r.commits then r else r.(branch := Some(sha))
  }

  predicate HasOpenPull(r: Remote) {
    exists n :: 0 <= n < |r.pulls| && r.pulls[n].open
  }

  predicate CanOpenPull(r: Remote) {
    r.branch.Some? && !HasOpenPull(r)
  }

  function AddPull(r: Remote, body: set<string>): Remote {
    if CanOpenPull(r) then r.(pulls := r.pulls + [Pull(true, body, r.branch.value, r.base)]) else r
  }

  // ---------------------------------------------------------------- the publisher's checks

  predicate Matches(repair: Repair, head: Sha, pull: Pull) {
    repair.bundleMarker in pull.body && pull.head == head
  }

  function Matching(repair: Repair, head: Sha, pulls: seq<Pull>): (r: seq<nat>)
    ensures forall n :: n in r <==> 0 <= n < |pulls| && Matches(repair, head, pulls[n])
  {
    if pulls == [] then []
    else
      var n := |pulls| - 1;
      Matching(repair, head, pulls[..n]) + (if Matches(repair, head, pulls[n]) then [n] else [])
  }

  predicate ValidPull(repair: Repair, head: Sha, base: Sha, pull: Pull) {
    pull.open && Matches(repair, head, pull) && pull.base == base
  }

  /** A pull request that validates gives the receipt; any other ends the attempt. */
  function Finish(repair: Repair, r: Remote, head: Sha, base: Sha, files: Files, n: nat): Stage
    requires n < |r.pulls|
  {
    if ValidPull(repair, head, base, r.pulls[n]) then Done(Receipt(base, head, files, n)) else Failed
  }

  /** An existing branch must be one commit on one parent that carries this repair's markers. */
  predicate RepairCommit(repair: Repair, r: Remote, head: Sha) {
    head in r.commits && |r.commits[head].parents| == 1 && repair.Markers() <= r.commits[head].message
  }

  // ---------------------------------------------------------------- one request

  /** What the remote becomes. */
  function RemoteAfter(repair: Repair, r: Remote, s: Stage, arrives: bool, sha: Sha): Remote {
    match s
    case PostCommit(base, files) =>
      if arrives && base in r.commits then AddCommit(r, sha, Commit(Overlaid(r.commits[base].tree, files), [base], repair.Markers()))
      else r
    case PostBranch(commit) => if arrives then AddBranch(r, commit) else r
    case PostPull(_, _, _) => if arrives then AddPull(r, repair.Markers()) else r
    case _ => r
  }

  /** What the publisher does next; reads see the remote as it is, and an unanswered one fails. */
  function StageAfter(repair: Repair, r: Remote, s: Stage, arrives: bool, answered: bool, sha: Sha): Stage {
    match s
    case GetBranch =>
      if !answered then Failed
      else if r.branch.Some? then GetCommit(r.branch.value)
      else GetBase
    case GetBase =>
      if !answered || r.base !in r.commits then Failed
      else (match Materialize(repair.artifacts, r.commits[r.base].tree)
        case Err(_) => Failed
        case Ok(files) => CheckSources(r.base, files))
    case CheckSources(base, files) => if answered && r.base == base then PostCommit(base, files) else Failed
    case PostCommit(base, files) => if answered && arrives then CheckBeforeBranch(base, sha) else Failed
    case CheckBeforeBranch(base, commit) => if answered && r.base == base then PostBranch(commit) else Failed
    // The answer to the branch creation is not looked at: the branch is read back instead.
    case PostBranch(commit) => ReadBranch(commit)
    case ReadBranch(commit) => if answered && r.branch == Some(commit) then GetCommit(commit) else Failed
    case GetCommit(head) =>
      if answered && RepairCommit(repair, r, head) then CheckParent(head, r.commits[head].parents[0]) else Failed
    case CheckParent(head, base) =>
      if !answered || r.base != base || base !in r.commits then Failed
      else (match Materialize(repair.artifacts, r.commits[base].tree)
        case Err(_) => Failed
        case Ok(files) => Compare(head, base, files))
    case Compare(head, base, files) =>
      if answered && base in r.commits && head in r.commits && Exact(r.commits[base].tree, r.commits[head].tree, files)
      then ListPulls(head, base, files) else Failed
    case ListPulls(head, base, files) =>
      var matching := Matching(repair, head, r.pulls);
      if !answered || |matching| > 1 || (matching == [] && r.pulls != []) then Failed
      else if |matching| == 1 then assert matching[0] in matching; Finish(repair, r, head, base, files, matching[0])
      else CheckBeforePull(head, base, files)
    case CheckBeforePull(head, base, files) => if answered && r.base == base then PostPull(head, base, files) else Failed
    case PostPull(head, base, files) =>
      if arrives && answered && CanOpenPull(r)
      then var r' := AddPull(r, repair.Markers()); Finish(repair, r', head, base, files, |r.pulls|)
      else RecoverPull(head, base, files)
    case RecoverPull(head, base, files) =>
      var matching := Matching(repair, head, r.pulls);
      if answered && |matching| == 1 then assert matching[0] in matching; Finish(repair, r, head, base, files, matching[0])
      else Failed
    case Done(_) => s
    case Failed => s
  }

  /** Whether this request creates a pull request. */
  predicate OpensPull(r: Remote, s: Stage, arrives: bool) {
    s.PostPull? && arrives && CanOpenPull(r)
  }

  function RequestStep(repair: Repair, w: World, i: nat, arrives: bool, answered: bool, sha: Sha): World
    requires i < |w.stages|
  {
    var s := w.stages[i];
    var next := StageAfter(repair, w.remote, s, arrives, answered, sha);
    World(
      RemoteAfter(repair, w.remote, s, arrives, sha),
      w.stages[i := next],
      if next.Done? && !s.Done? then w.receipts + [next.receipt] else w.receipts,
      w.created + if OpensPull(w.remote, s, arrives) then 1 else 0,
      w.closed)
  }

  /** GitHub names a new commit with a name that is free or already that commit's. */
  predicate Enabled(repair: Repair, w: World, a: Action) {
    match a
    case Request(i, arrives, _, sha) =>
      && i < |w.stages|
      && (w.stages[i].PostCommit? && w.stages[i].base in w.remote.commits ==>
        var s := w.stages[i];
        Named(w.remote, sha, Commit(Overlaid(w.remote.commits[s.base].tree, s.files), [s.base], repair.Markers())))
    case Retry(i) => i < |w.stages|
    case PushCommit(sha, commit) => sha !in w.remote.commits
    case MoveBase(to) => to in w.remote.commits
    case CreateBranch(at) => at in w.remote.commits
    case OpenPull(_) => true
    case ClosePull(n) => n < |w.remote.pulls|
  }

  function Next(repair: Repair, w: World, a: Action): World
    requires Enabled(repair, w, a)
  {
    match a
    case Request(i, arrives, answered, sha) => RequestStep(repair, w, i, arrives, answered, sha)
    case Retry(i) => w.(stages := w.stages[i := GetBranch])
    case PushCommit(sha, commit) => w.(remote := AddCommit(w.remote, sha, commit))
    case MoveBase(to) => w.(remote := w.remote.(base := to))
    case CreateBranch(at) => w.(remote := AddBranch(w.remote, at))
    case OpenPull(body) => w.(remote := AddPull(w.remote, body))
    case ClosePull(n) =>
      w.(remote := w.remote.(pulls := w.remote.pulls[n := w.remote.pulls[n].(open := false)]), closed := true)
  }

  /** A whole run; None when some action is not enabled. */
  function Run(repair: Repair, w: World, actions: seq<Action>): Option<World> {
    if actions == [] then Some(w)
    else
      match Run(repair, w, actions[..|actions| - 1])
      case None => None
      case Some(mid) =>
        if Enabled(repair, mid, actions[|actions| - 1]) then Some(Next(repair, mid, actions[|actions| - 1])) else None
  }

  /** Publishers about to start, on any remote with at most one open pull request for the branch. */
  predicate Initial(w: World) {
    && (forall i :: 0 <= i < |w.stages| ==> w.stages[i] == GetBranch)
    && w.receipts == [] && w.created == 0 && !w.closed
    && (w.remote.branch.Some? ==> w.remote.branch.value in w.remote.commits)
    && forall m, n :: 0 <= m < n < |w.remote.pulls| ==> !(w.remote.pulls[m].open && w.remote.pulls[n].open)
  }
}
