/** What every run of the publication machine keeps, and what a retry achieves. */
module PublicationSafety {
  import opened Common
  import opened PublicationFiles
  import opened GitHubPublication

  // ---------------------------------------------------------------- the remote only grows

  predicate SamePull(a: Pull, b: Pull) {
    a.body == b.body && a.head == b.head && a.base == b.base
  }

  /** No commit changes, the branch never moves, and pull requests are only added or closed. */
  ghost predicate Grows(a: Remote, b: Remote) {
    && (forall s :: s in a.commits ==> s in b.commits && b.commits[s] == a.commits[s])
    && (a.branch.Some? ==> b.branch == a.branch)
    && |a.pulls| <= |b.pulls|
    && forall n :: 0 <= n < |a.pulls| ==> SamePull(a.pulls[n], b.pulls[n])
  }

  /** Until someone closes one, the pull requests stay as they are, or gain an open one when none was. */
  predicate PullsLater(a: seq<Pull>, b: seq<Pull>) {
    b == a || (|b| == |a| + 1 && b[..|a|] == a && b[|a|].open && forall n :: 0 <= n < |a| ==> !a[n].open)
  }

  ghost predicate Later(w: World, w': World) {
    && Grows(w.remote, w'.remote)
    && (w.closed ==> w'.closed)
    && (!w'.closed ==> PullsLater(w.remote.pulls, w'.remote.pulls))
  }

  lemma {:induction false} StepIsLater(repair: Repair, w: World, a: Action)
    requires Enabled(repair, w, a)
    ensures Later(w, Next(repair, w, a))
  {
  }

  lemma {:induction false} RunGrows(repair: Repair, w: World, actions: seq<Action>)
    requires Run(repair, w, actions).Some?
    ensures Grows(w.remote, Run(repair, w, actions).value.remote)
  {
    if actions != [] {
      RunGrows(repair, w, actions[..|actions| - 1]);
      var mid := Run(repair, w, actions[..|actions| - 1]).value;
      StepIsLater(repair, mid, actions[|actions| - 1]);
    }
  }

  // ---------------------------------------------------------------- what each stage knows

  /** The branch is one commit on `base` that carries the repair's markers. */
  predicate OnBase(repair: Repair, r: Remote, head: Sha, base: Sha) {
    r.branch == Some(head) && RepairCommit(repair, r, head) && r.commits[head].parents == [base]
  }

  predicate Sourced(repair: Repair, r: Remote, base: Sha, files: Files) {
    base in r.commits && Materialize(repair.artifacts, r.commits[base].tree) == Ok(files)
  }

  /** It changes exactly the materialised files, to exactly their contents. */
  predicate Bound(repair: Repair, r: Remote, head: Sha, base: Sha, files: Files) {
    OnBase(repair, r, head, base) && Sourced(repair, r, base, files)
    && Exact(r.commits[base].tree, r.commits[head].tree, files)
  }

  predicate AllOpen(pulls: seq<Pull>) {
    forall n :: 0 <= n < |pulls| ==> pulls[n].open
  }

  predicate StageOk(repair: Repair, w: World, s: Stage) {
    match s
    case GetCommit(head) => w.remote.branch == Some(head)
    case CheckParent(head, base) => OnBase(repair, w.remote, head, base)
    case Compare(head, base, files) => OnBase(repair, w.remote, head, base) && Sourced(repair, w.remote, base, files)
    case ListPulls(head, base, files) => Bound(repair, w.remote, head, base, files)
    case CheckBeforePull(head, base, files) => Bound(repair, w.remote, head, base, files) && (!w.closed ==> AllOpen(w.remote.pulls))
    case PostPull(head, base, files) => Bound(repair, w.remote, head, base, files) && (!w.closed ==> AllOpen(w.remote.pulls))
    case RecoverPull(head, base, files) => Bound(repair, w.remote, head, base, files)
    case _ => true
  }

  /** The only pull request for this repair at this commit. */
  predicate OnlyMatch(repair: Repair, pulls: seq<Pull>, head: Sha, n: nat) {
    forall m :: 0 <= m < |pulls| && Matches(repair, head, pulls[m]) ==> m == n
  }

  /** Its commit is bound to the repair, and its pull request to the commit and its base; as long as
      nobody closed a pull request, it is open and the only one. */
  predicate ReceiptOk(repair: Repair, w: World, rc: Receipt) {
    && Bound(repair, w.remote, rc.commit, rc.base, rc.files)
    && rc.pull < |w.remote.pulls|
    && Matches(repair, rc.commit, w.remote.pulls[rc.pull]) && w.remote.pulls[rc.pull].base == rc.base
    && (!w.closed ==> w.remote.pulls[rc.pull].open && OnlyMatch(repair, w.remote.pulls, rc.commit, rc.pull))
  }

  predicate OneOpen(pulls: seq<Pull>) {
    forall m, n :: 0 <= m < n < |pulls| ==> !(pulls[m].open && pulls[n].open)
  }

  predicate CreatedOk(w: World) {
    !w.closed ==> w.created <= 1 && (w.created == 1 ==> |w.remote.pulls| == 1 && w.remote.pulls[0].open)
  }

  predicate Inv(repair: Repair, w: World) {
    && (forall i :: 0 <= i < |w.stages| ==> StageOk(repair, w, w.stages[i]))
    && (forall i :: 0 <= i < |w.receipts| ==> ReceiptOk(repair, w, w.receipts[i]))
    && OneOpen(w.remote.pulls)
    && CreatedOk(w)
  }

  // ---------------------------------------------------------------- knowledge is kept

  lemma {:induction false} AllOpenKept(a: seq<Pull>, b: seq<Pull>)
    requires PullsLater(a, b) && AllOpen(a)
    ensures AllOpen(b)
  {
    forall n | 0 <= n < |b| ensures b[n].open {
      if n < |a| { assert b[n] == b[..|a|][n]; }
    }
  }

  lemma {:induction false} StageKept(repair: Repair, w: World, w': World, s: Stage)
    requires StageOk(repair, w, s) && Later(w, w')
    ensures StageOk(repair, w', s)
  {
    if (s.CheckBeforePull? || s.PostPull?) && !w'.closed {
      AllOpenKept(w.remote.pulls, w'.remote.pulls);
    }
  }

  lemma {:induction false} ReceiptKept(repair: Repair, w: World, w': World, rc: Receipt)
    requires ReceiptOk(repair, w, rc) && Later(w, w')
    ensures ReceiptOk(repair, w', rc)
  {
    assert SamePull(w.remote.pulls[rc.pull], w'.remote.pulls[rc.pull]);
    if !w'.closed {
      assert w'.remote.pulls == w.remote.pulls;
    }
  }

  // ---------------------------------------------------------------- one request

  lemma {:induction false} OneMatch(repair: Repair, pulls: seq<Pull>, head: Sha)
    requires |Matching(repair, head, pulls)| == 1
    ensures var n := Matching(repair, head, pulls)[0];
      n < |pulls| && Matches(repair, head, pulls[n]) && OnlyMatch(repair, pulls, head, n)
  {
    var matching := Matching(repair, head, pulls);
    assert matching[0] in matching;
    forall m | 0 <= m < |pulls| && Matches(repair, head, pulls[m]) ensures m == matching[0] {
      assert m in matching;
    }
  }

  lemma {:induction false} CreatedPullOk(repair: Repair, w: World, head: Sha, base: Sha, files: Files)
    requires StageOk(repair, w, PostPull(head, base, files)) && CanOpenPull(w.remote)
    ensures !w.closed ==> w.remote.pulls == []
    ensures !w.closed ==> OnlyMatch(repair, AddPull(w.remote, repair.Markers()).pulls, head, |w.remote.pulls|)
  {
    if !w.closed && w.remote.pulls != [] {
      assert w.remote.pulls[0].open;
      assert HasOpenPull(w.remote);
    }
  }

  lemma {:induction false} MatchedStageOk(repair: Repair, w: World, head: Sha, base: Sha, files: Files)
    requires Bound(repair, w.remote, head, base, files)
    requires |Matching(repair, head, w.remote.pulls)| == 1
    ensures var n := Matching(repair, head, w.remote.pulls)[0];
      && n < |w.remote.pulls|
      && var next := Finish(repair, w.remote, head, base, files, n);
      StageOk(repair, w, next) && (next.Done? ==> ReceiptOk(repair, w, next.receipt))
  {
    OneMatch(repair, w.remote.pulls, head);
  }

  predicate LooksAtPulls(s: Stage) {
    s.ListPulls? || s.PostPull? || s.RecoverPull?
  }

  lemma {:induction false} EarlyStageOk(repair: Repair, w: World, w': World, s: Stage, arrives: bool, answered: bool, sha: Sha)
    requires StageOk(repair, w, s) && !LooksAtPulls(s)
    requires w'.remote == RemoteAfter(repair, w.remote, s, arrives, sha) && w'.closed == w.closed
    ensures StageOk(repair, w', StageAfter(repair, w.remote, s, arrives, answered, sha))
    ensures StageAfter(repair, w.remote, s, arrives, answered, sha).Done? ==> s.Done?
  {
  }

  /** The stage a request leads to knows what it should. */
  lemma {:induction false} NextStageOk(repair: Repair, w: World, w': World, s: Stage, arrives: bool, answered: bool, sha: Sha)
    requires StageOk(repair, w, s)
    requires w'.remote == RemoteAfter(repair, w.remote, s, arrives, sha) && w'.closed == w.closed
    ensures var next := StageAfter(repair, w.remote, s, arrives, answered, sha);
      StageOk(repair, w', next) && (next.Done? && !s.Done? ==> ReceiptOk(repair, w', next.receipt))
  {
    if !LooksAtPulls(s) {
      EarlyStageOk(repair, w, w', s, arrives, answered, sha);
    } else if !s.PostPull? && |Matching(repair, s.head, w.remote.pulls)| == 1 {
      MatchedStageOk(repair, w', s.head, s.base, s.files);
    }
  }

  lemma {:induction false} RequestKeeps(repair: Repair, w: World, a: Action)
    requires Inv(repair, w) && Enabled(repair, w, a) && a.Request?
    ensures Inv(repair, Next(repair, w, a))
  {
    var w', s := Next(repair, w, a), w.stages[a.publisher];
    StepIsLater(repair, w, a);
    var mid := World(w'.remote, w.stages, w.receipts, w'.created, w.closed);
    NextStageOk(repair, w, w', s, a.arrives, a.answered, a.sha);
    forall i | 0 <= i < |w'.stages| ensures StageOk(repair, w', w'.stages[i]) {
      if i != a.publisher { StageKept(repair, w, w', w.stages[i]); }
    }
    forall i | 0 <= i < |w'.receipts| ensures ReceiptOk(repair, w', w'.receipts[i]) {
      if i < |w.receipts| { ReceiptKept(repair, w, w', w.receipts[i]); }
    }
    RequestKeepsPulls(repair, w, a);
  }

  lemma {:induction false} RequestKeepsPulls(repair: Repair, w: World, a: Action)
    requires Inv(repair, w) && Enabled(repair, w, a) && a.Request?
    ensures OneOpen(Next(repair, w, a).remote.pulls) && CreatedOk(Next(repair, w, a))
  {
    var s := w.stages[a.publisher];
    if OpensPull(w.remote, s, a.arrives) {
      assert StageOk(repair, w, s);
      CreatedPullOk(repair, w, s.head, s.base, s.files);
    }
  }

  lemma {:induction false} OthersKeep(repair: Repair, w: World, a: Action)
    requires Inv(repair, w) && Enabled(repair, w, a) && !a.Request?
    ensures Inv(repair, Next(repair, w, a))
  {
    var w' := Next(repair, w, a);
    StepIsLater(repair, w, a);
    forall i | 0 <= i < |w'.stages| ensures StageOk(repair, w', w'.stages[i]) {
      StageKept(repair, w, w', w.stages[i]);
    }
    forall i | 0 <= i < |w'.receipts| ensures ReceiptOk(repair, w', w'.receipts[i]) {
      ReceiptKept(repair, w, w', w.receipts[i]);
    }
  }

  lemma {:induction false} RunKeeps(repair: Repair, w: World, actions: seq<Action>)
    requires Inv(repair, w) && Run(repair, w, actions).Some?
    ensures Inv(repair, Run(repair, w, actions).value)
  {
    if actions != [] {
      RunKeeps(repair, w, actions[..|actions| - 1]);
      var mid, a := Run(repair, w, actions[..|actions| - 1]).value, actions[|actions| - 1];
      if a.Request? {
        RequestKeeps(repair, mid, a);
      } else {
        OthersKeep(repair, mid, a);
      }
    }
  }

  lemma {:induction false} RunKeepsInv(repair: Repair, w: World, actions: seq<Action>)
    requires Initial(w) && Run(repair, w, actions).Some?
    ensures Inv(repair, Run(repair, w, actions).value)
  {
    RunKeeps(repair, w, actions);
  }

  // ---------------------------------------------------------------- publication safety

  /** Over any interleaving, every receipt names a commit whose only parent is the receipt's base and
      whose tree is the base tree with exactly the materialised files put over it, and a pull request
      recorded for that commit on that base. */
  lemma {:induction false} ReceiptIsExact(repair: Repair, w: World, actions: seq<Action>, i: nat)
    requires Initial(w) && Run(repair, w, actions).Some? && i < |Run(repair, w, actions).value.receipts|
    ensures var end := Run(repair, w, actions).value;
      var rc, r := end.receipts[i], end.remote;
      && r.branch == Some(rc.commit)
      && rc.commit in r.commits && rc.base in r.commits
      && r.commits[rc.commit].parents == [rc.base]
      && repair.Markers() <= r.commits[rc.commit].message
      && Materialize(repair.artifacts, r.commits[rc.base].tree) == Ok(rc.files)
      && r.commits[rc.commit].tree == r.commits[rc.base].tree + rc.files
      && rc.pull < |r.pulls| && r.pulls[rc.pull].head == rc.commit && r.pulls[rc.pull].base == rc.base
  {
    RunKeepsInv(repair, w, actions);
    assert ReceiptOk(repair, Run(repair, w, actions).value, Run(repair, w, actions).value.receipts[i]);
  }

  /** Any two receipts, of parallel or retried publishers, name the same commit, base and files; they
      name the same pull request unless somebody closed one. */
  lemma {:induction false} ReceiptsAgree(repair: Repair, w: World, actions: seq<Action>, i: nat, j: nat)
    requires Initial(w) && Run(repair, w, actions).Some?
    requires i < |Run(repair, w, actions).value.receipts| && j < |Run(repair, w, actions).value.receipts|
    ensures var end := Run(repair, w, actions).value;
      var a, b := end.receipts[i], end.receipts[j];
      && a.commit == b.commit && a.base == b.base && a.files == b.files
      && (!end.closed ==> a == b)
  {
    RunKeepsInv(repair, w, actions);
    var end := Run(repair, w, actions).value;
    assert ReceiptOk(repair, end, end.receipts[i]) && ReceiptOk(repair, end, end.receipts[j]);
  }

  /** Publishers together create at most one pull request, as long as nobody closes one; and nobody
      ever moves the branch or rewrites a commit. */
  lemma {:induction false} AtMostOnePull(repair: Repair, w: World, actions: seq<Action>)
    requires Initial(w) && Run(repair, w, actions).Some?
    ensures var end := Run(repair, w, actions).value;
      && (!end.closed ==> end.created <= 1)
      && OneOpen(end.remote.pulls)
      && Grows(w.remote, end.remote)
  {
    RunKeepsInv(repair, w, actions);
    RunGrows(repair, w, actions);
  }

  // ---------------------------------------------------------------- a retry completes

  /** A publication left off after the branch was created, with or without its pull request. */
  predicate Interrupted(repair: Repair, w: World, head: Sha, base: Sha, files: Files) {
    && Bound(repair, w.remote, head, base, files) && w.remote.base == base
    && (w.remote.pulls == []
        || (|w.remote.pulls| == 1 && ValidPull(repair, head, base, w.remote.pulls[0])))
  }

  function Undisturbed(i: nat, n: nat): seq<Action> {
    seq(n, _ => Request(i, true, true, 0))
  }

  lemma {:induction false} RunSteps(repair: Repair, w: World, i: nat, n: nat, mid: World)
    requires i < |w.stages| && Run(repair, w, Undisturbed(i, n)) == Some(mid)
    requires Enabled(repair, mid, Request(i, true, true, 0))
    ensures Run(repair, w, Undisturbed(i, n + 1)) == Some(Next(repair, mid, Request(i, true, true, 0)))
  {
    assert Undisturbed(i, n + 1)[..n] == Undisturbed(i, n);
  }

  /** The world with one publisher at another stage. */
  function At(w: World, i: nat, s: Stage): World
    requires i < |w.stages|
  {
    w.(stages := w.stages[i := s])
  }

  lemma {:induction false} QuietStep(repair: Repair, w: World, i: nat, n: nat, s: Stage, next: Stage)
    requires i < |w.stages| && !s.PostCommit? && !s.PostBranch? && !s.PostPull?
    requires next == StageAfter(repair, w.remote, s, true, true, 0) && !next.Done?
    requires Run(repair, w, Undisturbed(i, n)) == Some(At(w, i, s))
    ensures Run(repair, w, Undisturbed(i, n + 1)) == Some(At(w, i, next))
  {
    assert w.stages[i := s][i := next] == w.stages[i := next];
    RunSteps(repair, w, i, n, At(w, i, s));
  }

  lemma {:induction false} NoneYet(repair: Repair, w: World, i: nat)
    ensures Run(repair, w, Undisturbed(i, 0)) == Some(w)
  {
    assert Undisturbed(i, 0) == [];
  }

  /** Four reads lead a retry to the pull requests. */
  lemma {:induction false} RetryReachesPulls(repair: Repair, w: World, i: nat, head: Sha, base: Sha, files: Files)
    requires Bound(repair, w.remote, head, base, files) && w.remote.base == base
    requires i < |w.stages| && w.stages[i] == GetBranch
    ensures Run(repair, w, Undisturbed(i, 4)) == Some(At(w, i, ListPulls(head, base, files)))
  {
    hide Run, Exact, Materialize;
    assert At(w, i, GetBranch) == w;
    NoneYet(repair, w, i);
    QuietStep(repair, w, i, 0, GetBranch, GetCommit(head));
    QuietStep(repair, w, i, 1, GetCommit(head), CheckParent(head, base));
    QuietStep(repair, w, i, 2, CheckParent(head, base), Compare(head, base, files));
    QuietStep(repair, w, i, 3, Compare(head, base, files), ListPulls(head, base, files));
  }

  lemma {:induction false} OnlyPullMatches(repair: Repair, head: Sha, pulls: seq<Pull>)
    requires |pulls| == 1 && Matches(repair, head, pulls[0])
    ensures Matching(repair, head, pulls) == [0]
  {
    assert pulls[..0] == [];
    assert Matching(repair, head, pulls[..0]) == [];
  }

  /** The end of a retry: publisher `i` holds the receipt, there is one pull request, and `made` of
      them were created on the way. */
  predicate Completed(w: World, end: Option<World>, i: nat, receipt: Receipt, made: nat) {
    && end.Some? && i < |end.value.stages| && end.value.stages[i] == Done(receipt)
    && end.value.created == w.created + made && |end.value.remote.pulls| == 1
  }

  lemma {:induction false} RetryCreates(repair: Repair, w: World, i: nat, n: nat, head: Sha, base: Sha, files: Files)
    requires Bound(repair, w.remote, head, base, files) && w.remote.base == base && w.remote.pulls == []
    requires i < |w.stages| && Run(repair, w, Undisturbed(i, n)) == Some(At(w, i, ListPulls(head, base, files)))
    ensures Completed(w, Run(repair, w, Undisturbed(i, n + 3)), i, Receipt(base, head, files, 0), 1)
  {
    hide Exact, Sourced, Undisturbed, Run;
    QuietStep(repair, w, i, n, ListPulls(head, base, files), CheckBeforePull(head, base, files));
    QuietStep(repair, w, i, n + 1, CheckBeforePull(head, base, files), PostPull(head, base, files));
    var mid := At(w, i, PostPull(head, base, files));
    RunSteps(repair, w, i, n + 2, mid);
  }

  lemma {:induction false} RetryFinds(repair: Repair, w: World, i: nat, n: nat, head: Sha, base: Sha, files: Files)
    requires |w.remote.pulls| == 1 && ValidPull(repair, head, base, w.remote.pulls[0])
    requires i < |w.stages| && Run(repair, w, Undisturbed(i, n)) == Some(At(w, i, ListPulls(head, base, files)))
    ensures Completed(w, Run(repair, w, Undisturbed(i, n + 1)), i, Receipt(base, head, files, 0), 0)
  {
    OnlyPullMatches(repair, head, w.remote.pulls);
    LastStepMatches(repair, At(w, i, ListPulls(head, base, files)), i, head, base, files);
    RunSteps(repair, w, i, n, At(w, i, ListPulls(head, base, files)));
  }

  /** Whatever interrupted it, a retry whose requests all succeed returns a receipt, creating the pull
      request exactly when it was missing. */
  lemma {:induction false} RetryCompletes(repair: Repair, w: World, i: nat, head: Sha, base: Sha, files: Files)
    requires Interrupted(repair, w, head, base, files)
    requires i < |w.stages| && w.stages[i] == GetBranch
    ensures w.remote.pulls == [] ==> Completed(w, Run(repair, w, Undisturbed(i, 7)), i, Receipt(base, head, files, 0), 1)
    ensures w.remote.pulls != [] ==> Completed(w, Run(repair, w, Undisturbed(i, 5)), i, Receipt(base, head, files, 0), 0)
  {
    RetryReachesPulls(repair, w, i, head, base, files);
    if w.remote.pulls == [] {
      RetryCreates(repair, w, i, 4, head, base, files);
    } else {
      RetryFinds(repair, w, i, 4, head, base, files);
    }
  }

  lemma {:induction false} LastStepMatches(repair: Repair, w: World, i: nat, head: Sha, base: Sha, files: Files)
    requires i < |w.stages| && w.stages[i] == ListPulls(head, base, files)
    requires |w.remote.pulls| == 1 && ValidPull(repair, head, base, w.remote.pulls[0])
    requires Matching(repair, head, w.remote.pulls) == [0]
    ensures var end := Next(repair, w, Request(i, true, true, 0));
      && i < |end.stages| && end.stages[i] == Done(Receipt(base, head, files, 0))
      && end.created == w.created && |end.remote.pulls| == 1
  {
  }
}
