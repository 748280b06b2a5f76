/** What a first, undisturbed attempt to publish ends in, and what a branch it leaves behind means
    for every later attempt. */
module PublicationAttempts {
  import opened Common
  import opened UnifiedPatch
  import opened PublicationFiles
  import opened GitHubPublication
  import opened PublicationSafety

  /** `n` requests of one publisher that all arrive and are answered; a commit is named `sha`. */
  function Attempt(i: nat, sha: Sha, n: nat): seq<Action> {
    seq(n, _ => Request(i, true, true, sha))
  }

  /** The world with another remote and one publisher at another stage. */
  function On(w: World, i: nat, r: Remote, s: Stage): World
    requires i < |w.stages|
  {
    w.(remote := r, stages := w.stages[i := s])
  }

  lemma {:induction false} AttemptStep(repair: Repair, w: World, i: nat, sha: Sha, n: nat, mid: World)
    requires Run(repair, w, Attempt(i, sha, n)) == Some(mid) && Enabled(repair, mid, Request(i, true, true, sha))
    ensures Run(repair, w, Attempt(i, sha, n + 1)) == Some(Next(repair, mid, Request(i, true, true, sha)))
  {
    assert Attempt(i, sha, n + 1)[..n] == Attempt(i, sha, n);
  }

  /** One request that neither opens a pull request nor returns a receipt. */
  lemma {:induction false} Quiet(repair: Repair, w: World, i: nat, sha: Sha, n: nat, r: Remote, s: Stage, next: Stage)
    requires i < |w.stages| && Run(repair, w, Attempt(i, sha, n)) == Some(On(w, i, r, s))
    requires next == StageAfter(repair, r, s, true, true, sha) && !next.Done? && !s.PostPull?
    requires s.PostCommit? ==> sha !in r.commits
    ensures Run(repair, w, Attempt(i, sha, n + 1)) == Some(On(w, i, RemoteAfter(repair, r, s, true, sha), next))
  {
    assert w.stages[i := s][i := next] == w.stages[i := next];
    AttemptStep(repair, w, i, sha, n, On(w, i, r, s));
  }

  /** A failed publisher stays failed. */
  lemma {:induction false} FailedStays(repair: Repair, w: World, i: nat, sha: Sha, n: nat, m: nat, r: Remote)
    requires i < |w.stages| && Run(repair, w, Attempt(i, sha, n)) == Some(On(w, i, r, Failed)) && n <= m
    ensures Run(repair, w, Attempt(i, sha, m)) == Some(On(w, i, r, Failed))
    decreases m - n
  {
    if n < m {
      Quiet(repair, w, i, sha, n, r, Failed, Failed);
      FailedStays(repair, w, i, sha, n + 1, m, r);
    }
  }

  /** Nothing of this repair on the remote yet, and a name for its commit. */
  predicate Fresh(w: World, i: nat, sha: Sha) {
    && i < |w.stages| && w.stages[i] == GetBranch
    && w.remote.branch.None? && w.remote.pulls == []
    && w.remote.base in w.remote.commits && sha !in w.remote.commits
  }

  /** No materialised file is in the base already with the same content. */
  predicate AllChange(base: Files, files: Files) {
    forall p :: p in files ==> p !in base || base[p] != files[p]
  }

  function BaseTree(r: Remote): Files
    requires r.base in r.commits
  {
    r.commits[r.base].tree
  }

  function OwnCommit(repair: Repair, r: Remote, files: Files): Commit
    requires r.base in r.commits
  {
    Commit(Overlaid(BaseTree(r), files), [r.base], repair.Markers())
  }

  /** The remote once the commit and its branch are there. */
  function Branched(repair: Repair, r: Remote, sha: Sha, files: Files): Remote
    requires r.base in r.commits
  {
    r.(commits := r.commits[sha := OwnCommit(repair, r, files)], branch := Some(sha))
  }

  lemma {:induction false} ReachesBase(repair: Repair, w: World, i: nat, sha: Sha)
    requires Fresh(w, i, sha)
    ensures Run(repair, w, Attempt(i, sha, 2)) == Some(On(w, i, w.remote,
      match Materialize(repair.artifacts, BaseTree(w.remote)) case Err(_) => Failed case Ok(files) => CheckSources(w.remote.base, files)))
  {
    assert On(w, i, w.remote, GetBranch) == w;
    assert Attempt(i, sha, 0) == [];
    Quiet(repair, w, i, sha, 0, w.remote, GetBranch, GetBase);
    Quiet(repair, w, i, sha, 1, w.remote, GetBase, StageAfter(repair, w.remote, GetBase, true, true, sha));
  }

  /** From the materialised files to the branch: what each request leads to. */
  lemma {:induction false} BranchStages(repair: Repair, r: Remote, sha: Sha, files: Files)
    requires r.base in r.commits && sha !in r.commits && r.branch.None?
    ensures var base, committed := r.base, r.(commits := r.commits[sha := OwnCommit(repair, r, files)]);
      && StageAfter(repair, r, CheckSources(base, files), true, true, sha) == PostCommit(base, files)
      && StageAfter(repair, r, PostCommit(base, files), true, true, sha) == CheckBeforeBranch(base, sha)
      && RemoteAfter(repair, r, PostCommit(base, files), true, sha) == committed
      && StageAfter(repair, committed, CheckBeforeBranch(base, sha), true, true, sha) == PostBranch(sha)
      && StageAfter(repair, committed, PostBranch(sha), true, true, sha) == ReadBranch(sha)
      && RemoteAfter(repair, committed, PostBranch(sha), true, sha) == Branched(repair, r, sha, files)
      && StageAfter(repair, Branched(repair, r, sha, files), ReadBranch(sha), true, true, sha) == GetCommit(sha)
  {
  }

  lemma {:induction false} ReachesCommit(repair: Repair, w: World, i: nat, sha: Sha, files: Files)
    requires Fresh(w, i, sha) && Materialize(repair.artifacts, BaseTree(w.remote)) == Ok(files)
    ensures var committed := w.remote.(commits := w.remote.commits[sha := OwnCommit(repair, w.remote, files)]);
      Run(repair, w, Attempt(i, sha, 4)) == Some(On(w, i, committed, CheckBeforeBranch(w.remote.base, sha)))
  {
    hide StageAfter, Materialize, OwnCommit, Branched, Run, On, Attempt;
    var r, base := w.remote, w.remote.base;
    ReachesBase(repair, w, i, sha);
    BranchStages(repair, r, sha, files);
    Quiet(repair, w, i, sha, 2, r, CheckSources(base, files), PostCommit(base, files));
    Quiet(repair, w, i, sha, 3, r, PostCommit(base, files), CheckBeforeBranch(base, sha));
  }

  lemma {:induction false} ReachesBranch(repair: Repair, w: World, i: nat, sha: Sha, files: Files)
    requires Fresh(w, i, sha) && Materialize(repair.artifacts, BaseTree(w.remote)) == Ok(files)
    ensures Run(repair, w, Attempt(i, sha, 7)) == Some(On(w, i, Branched(repair, w.remote, sha, files), GetCommit(sha)))
  {
    hide StageAfter, Materialize, Branched, OwnCommit, Run, On, Attempt;
    var r, base := w.remote, w.remote.base;
    var committed := r.(commits := r.commits[sha := OwnCommit(repair, r, files)]);
    ReachesCommit(repair, w, i, sha, files);
    BranchStages(repair, r, sha, files);
    Quiet(repair, w, i, sha, 4, committed, CheckBeforeBranch(base, sha), PostBranch(sha));
    Quiet(repair, w, i, sha, 5, committed, PostBranch(sha), ReadBranch(sha));
    Quiet(repair, w, i, sha, 6, Branched(repair, r, sha, files), ReadBranch(sha), GetCommit(sha));
  }

  lemma {:induction false} BranchedKeeps(repair: Repair, r: Remote, sha: Sha, files: Files)
    requires r.base in r.commits && sha !in r.commits
    ensures var branched := Branched(repair, r, sha, files);
      && branched.base == r.base && r.base in branched.commits && branched.commits[r.base] == r.commits[r.base]
      && sha in branched.commits && branched.commits[sha] == OwnCommit(repair, r, files)
      && RepairCommit(repair, branched, sha)
      && (Exact(BaseTree(r), branched.commits[sha].tree, files) <==> AllChange(BaseTree(r), files))
  {
  }

  /** From the branch to its comparison with the base. */
  lemma {:induction false} ComparisonStages(repair: Repair, r: Remote, sha: Sha, files: Files)
    requires r.base in r.commits && sha !in r.commits && Materialize(repair.artifacts, BaseTree(r)) == Ok(files)
    ensures var base, branched := r.base, Branched(repair, r, sha, files);
      && StageAfter(repair, branched, GetCommit(sha), true, true, sha) == CheckParent(sha, base)
      && StageAfter(repair, branched, CheckParent(sha, base), true, true, sha) == Compare(sha, base, files)
      && StageAfter(repair, branched, Compare(sha, base, files), true, true, sha)
        == if AllChange(BaseTree(r), files) then ListPulls(sha, base, files) else Failed
  {
    hide Materialize, Exact, AllChange, RepairCommit, Branched;
    BranchedKeeps(repair, r, sha, files);
  }

  lemma {:induction false} ReachesComparison(repair: Repair, w: World, i: nat, sha: Sha, files: Files)
    requires Fresh(w, i, sha) && Materialize(repair.artifacts, BaseTree(w.remote)) == Ok(files)
    ensures Run(repair, w, Attempt(i, sha, 10)) == Some(On(w, i, Branched(repair, w.remote, sha, files),
      if AllChange(BaseTree(w.remote), files) then ListPulls(sha, w.remote.base, files) else Failed))
  {
    hide StageAfter, Branched, Run, On, Attempt, Materialize;
    var r, base := Branched(repair, w.remote, sha, files), w.remote.base;
    ReachesBranch(repair, w, i, sha, files);
    ComparisonStages(repair, w.remote, sha, files);
    Quiet(repair, w, i, sha, 7, r, GetCommit(sha), CheckParent(sha, base));
    Quiet(repair, w, i, sha, 8, r, CheckParent(sha, base), Compare(sha, base, files));
    Quiet(repair, w, i, sha, 9, r, Compare(sha, base, files), StageAfter(repair, r, Compare(sha, base, files), true, true, sha));
  }

  /** The requests from the pull requests on; none of them looks at the name `sha` of a new commit. */
  lemma {:induction false} PullStages(repair: Repair, r: Remote, sha: Sha, head: Sha, base: Sha, files: Files)
    requires r.branch == Some(head) && r.pulls == [] && r.base == base
    ensures StageAfter(repair, r, ListPulls(head, base, files), true, true, sha) == CheckBeforePull(head, base, files)
    ensures StageAfter(repair, r, CheckBeforePull(head, base, files), true, true, sha) == PostPull(head, base, files)
    ensures StageAfter(repair, r, PostPull(head, base, files), true, true, sha) == Done(Receipt(base, head, files, 0))
  {
  }

  /** The request that opens the pull request and returns the receipt. */
  lemma {:induction false} LastRequest(repair: Repair, w: World, i: nat, sha: Sha, n: nat, r: Remote, head: Sha, base: Sha, files: Files)
    requires i < |w.stages| && r.branch == Some(head) && r.pulls == [] && r.base == base
    requires Run(repair, w, Attempt(i, sha, n)) == Some(On(w, i, r, PostPull(head, base, files)))
    ensures var end := Run(repair, w, Attempt(i, sha, n + 1));
      && end.Some? && i < |end.value.stages| && end.value.stages[i] == Done(Receipt(base, head, files, 0))
      && end.value.receipts == w.receipts + [Receipt(base, head, files, 0)]
      && end.value.remote.branch == Some(head) && |end.value.remote.pulls| == 1
  {
    PullStages(repair, r, sha, head, base, files);
    AttemptStep(repair, w, i, sha, n, On(w, i, r, PostPull(head, base, files)));
  }

  lemma {:induction false} ReachesReceipt(repair: Repair, w: World, i: nat, sha: Sha, files: Files)
    requires Fresh(w, i, sha) && Materialize(repair.artifacts, BaseTree(w.remote)) == Ok(files)
    requires AllChange(BaseTree(w.remote), files)
    ensures var end := Run(repair, w, Attempt(i, sha, 13));
      && end.Some? && i < |end.value.stages| && end.value.stages[i] == Done(Receipt(w.remote.base, sha, files, 0))
      && end.value.receipts == w.receipts + [Receipt(w.remote.base, sha, files, 0)]
      && end.value.remote.branch == Some(sha) && |end.value.remote.pulls| == 1
  {
    hide StageAfter, Run, On, Attempt, Materialize;
    var r, base := Branched(repair, w.remote, sha, files), w.remote.base;
    ReachesComparison(repair, w, i, sha, files);
    PullStages(repair, r, sha, sha, base, files);
    Quiet(repair, w, i, sha, 10, r, ListPulls(sha, base, files), CheckBeforePull(sha, base, files));
    Quiet(repair, w, i, sha, 11, r, CheckBeforePull(sha, base, files), PostPull(sha, base, files));
    LastRequest(repair, w, i, sha, 12, r, sha, base, files);
  }

  /** A first attempt whose requests all succeed ends with a receipt exactly when the files
      materialise and none of them is in the base already. Otherwise it ends failed; its branch is
      made all the same as soon as the files materialise. */
  lemma {:induction false} FirstAttemptPublishesIff(repair: Repair, w: World, i: nat, sha: Sha)
    requires Fresh(w, i, sha)
    ensures var end, files := Run(repair, w, Attempt(i, sha, 13)), Materialize(repair.artifacts, BaseTree(w.remote));
      && end.Some? && i < |end.value.stages|
      && (end.value.stages[i].Done? <==> files.Ok? && AllChange(BaseTree(w.remote), files.value))
      && (end.value.stages[i].Done? || end.value.stages[i].Failed?)
      && end.value.remote.branch == if files.Ok? then Some(sha) else None
  {
    match Materialize(repair.artifacts, BaseTree(w.remote))
    case Err(_) =>
      ReachesBase(repair, w, i, sha);
      FailedStays(repair, w, i, sha, 2, 13, w.remote);
    case Ok(files) =>
      if AllChange(BaseTree(w.remote), files) {
        ReachesReceipt(repair, w, i, sha, files);
      } else {
        ReachesComparison(repair, w, i, sha, files);
        FailedStays(repair, w, i, sha, 10, 13, Branched(repair, w.remote, sha, files));
      }
  }

  // ---------------------------------------------------------------- a branch that can never be published

  /** The branch's commit stands on a base that already holds one of the files. */
  predicate Stranded(repair: Repair, r: Remote, head: Sha, base: Sha, files: Files) {
    && r.branch == Some(head) && head in r.commits && r.commits[head].parents == [base]
    && Sourced(repair, r, base, files) && !AllChange(r.commits[base].tree, files)
  }

  lemma {:induction false} StrandedHasNoReceipt(repair: Repair, w: World, head: Sha, base: Sha, files: Files, rc: Receipt)
    requires Stranded(repair, w.remote, head, base, files)
    ensures !ReceiptOk(repair, w, rc)
  {
  }

  /** No publisher, first or retried, and whatever others do, ever returns a receipt for it. */
  lemma {:induction false} StrandedNeverPublishes(repair: Repair, w: World, actions: seq<Action>, head: Sha, base: Sha, files: Files)
    requires Inv(repair, w) && w.receipts == [] && Stranded(repair, w.remote, head, base, files)
    requires Run(repair, w, actions).Some?
    ensures Run(repair, w, actions).value.receipts == []
  {
    RunKeeps(repair, w, actions);
    RunGrows(repair, w, actions);
    var end := Run(repair, w, actions).value;
    if end.receipts != [] {
      StrandedHasNoReceipt(repair, end, head, base, files, end.receipts[0]);
    }
  }

  lemma {:induction false} RunJoins(repair: Repair, w: World, a: seq<Action>, b: seq<Action>, mid: World)
    requires Run(repair, w, a) == Some(mid)
    ensures Run(repair, w, a + b) == Run(repair, mid, b)
  {
    if b == [] {
      assert a + b == a;
    } else {
      assert (a + b)[..|a + b| - 1] == a + b[..|b| - 1];
      RunJoins(repair, w, a, b[..|b| - 1], mid);
    }
  }

  /** One file that the base already holds: the first attempt fails with its branch made, and after
      that every run of any publishers ends without a receipt. */
  lemma {:induction false} RepeatedFileStrandsRepair(repair: Repair, w: World, i: nat, sha: Sha, files: Files, later: seq<Action>)
    requires Initial(w) && Fresh(w, i, sha)
    requires Materialize(repair.artifacts, BaseTree(w.remote)) == Ok(files) && !AllChange(BaseTree(w.remote), files)
    requires Run(repair, w, Attempt(i, sha, 13) + later).Some?
    ensures var end := Run(repair, w, Attempt(i, sha, 13) + later).value;
      end.receipts == [] && end.remote.branch == Some(sha)
  {
    ReachesComparison(repair, w, i, sha, files);
    FailedStays(repair, w, i, sha, 10, 13, Branched(repair, w.remote, sha, files));
    var mid := On(w, i, Branched(repair, w.remote, sha, files), Failed);
    RunJoins(repair, w, Attempt(i, sha, 13), later, mid);
    RunKeepsInv(repair, w, Attempt(i, sha, 13));
    StrandedNeverPublishes(repair, mid, later, sha, w.remote.base, files);
    RunGrows(repair, mid, later);
  }

  /** Such a repair: one plain file, equal to the one in the base. */
  lemma {:induction false} RepeatedFileExample(repair: Repair, base: Files)
    requires repair.artifacts == [RepairFile(false, "notes", "same")] && base == map["notes" := "same"]
    ensures Materialize(repair.artifacts, base) == Ok(map["notes" := "same"]) && !AllChange(base, map["notes" := "same"])
  {
    assert repair.artifacts[..0] == [];
    assert PlainParts(["notes"]) && Slashed(["notes"]) == "notes" by { assert ["notes"][1..] == []; }
    PiecesOfSlashed(["notes"]);
    assert "notes" in map["notes" := "same"];
  }

  // ---------------------------------------------------------------- when a retry publishes

  /** What a retry's reads of an existing branch lead to: the pull requests, or failure. */
  function BranchVerdict(repair: Repair, r: Remote, head: Sha): Stage {
    if !RepairCommit(repair, r, head) then Failed
    else
      var base := r.commits[head].parents[0];
      if r.base != base || base !in r.commits then Failed
      else match Materialize(repair.artifacts, BaseTree(r))
        case Err(_) => Failed
        case Ok(files) => if Exact(BaseTree(r), r.commits[head].tree, files) then ListPulls(head, base, files) else Failed
  }

  lemma {:induction false} CompareStage(repair: Repair, r: Remote, head: Sha, base: Sha, files: Files)
    requires RepairCommit(repair, r, head) && base in r.commits
    ensures StageAfter(repair, r, Compare(head, base, files), true, true, 0) ==
      if Exact(r.commits[base].tree, r.commits[head].tree, files) then ListPulls(head, base, files) else Failed
  {
  }

  lemma {:induction false} NoRequests(repair: Repair, w: World, i: nat)
    ensures Run(repair, w, Attempt(i, 0, 0)) == Some(w)
  {
    assert Attempt(i, 0, 0) == [];
  }

  lemma {:induction false} RetryReads(repair: Repair, w: World, i: nat, head: Sha)
    requires i < |w.stages| && w.stages[i] == GetBranch && w.remote.branch == Some(head)
    ensures Run(repair, w, Attempt(i, 0, 4)) == Some(On(w, i, w.remote, BranchVerdict(repair, w.remote, head)))
  {
    hide Run, Exact, Materialize, Attempt;
    var r := w.remote;
    assert On(w, i, r, GetBranch) == w;
    NoRequests(repair, w, i);
    Quiet(repair, w, i, 0, 0, r, GetBranch, GetCommit(head));
    var second := StageAfter(repair, r, GetCommit(head), true, true, 0);
    Quiet(repair, w, i, 0, 1, r, GetCommit(head), second);
    if second == Failed {
      FailedStays(repair, w, i, 0, 2, 4, r);
    } else {
      var base := r.commits[head].parents[0];
      var third := StageAfter(repair, r, CheckParent(head, base), true, true, 0);
      Quiet(repair, w, i, 0, 2, r, CheckParent(head, base), third);
      if third == Failed {
        FailedStays(repair, w, i, 0, 3, 4, r);
      } else {
        CompareStage(repair, r, head, base, third.files);
        Quiet(repair, w, i, 0, 3, r, third, BranchVerdict(repair, r, head));
      }
    }
  }

  /** No pull request yet, or exactly one bound to this branch, open and on this base. */
  predicate PullsFit(repair: Repair, r: Remote, head: Sha, base: Sha) {
    var matching := Matching(repair, head, r.pulls);
    r.pulls == [] || (|matching| == 1 && matching[0] in matching && ValidPull(repair, head, base, r.pulls[matching[0]]))
  }

  /** The branch is one marked commit on the present base that changes exactly the repair's files to
      exactly their contents, and the pull requests fit it. */
  predicate Resumable(repair: Repair, r: Remote, head: Sha) {
    var verdict := BranchVerdict(repair, r, head);
    verdict.ListPulls? && PullsFit(repair, r, head, verdict.base)
  }

  /** A publisher that holds its receipt makes no further difference. */
  lemma {:induction false} DoneStays(repair: Repair, w: World, i: nat, n: nat, m: nat, mid: World)
    requires Run(repair, w, Attempt(i, 0, n)) == Some(mid) && i < |mid.stages| && mid.stages[i].Done? && n <= m
    ensures Run(repair, w, Attempt(i, 0, m)) == Some(mid)
    decreases m - n
  {
    hide Run, Attempt, Next;
    if n < m {
      AttemptStep(repair, w, i, 0, n, mid);
      DoneStep(repair, mid, i);
      DoneStays(repair, w, i, n + 1, m, mid);
    }
  }

  lemma {:induction false} DoneStep(repair: Repair, w: World, i: nat)
    requires i < |w.stages| && w.stages[i].Done?
    ensures Next(repair, w, Request(i, true, true, 0)) == w
  {
    assert w.stages[i := w.stages[i]] == w.stages;
  }

  lemma {:induction false} PullListStage(repair: Repair, r: Remote, head: Sha, base: Sha, files: Files)
    ensures var next := StageAfter(repair, r, ListPulls(head, base, files), true, true, 0);
      && (next.Done? <==> r.pulls != [] && PullsFit(repair, r, head, base))
      && (next == CheckBeforePull(head, base, files) <==> r.pulls == [])
      && (next.Done? || next.Failed? || next == CheckBeforePull(head, base, files))
  {
    if r.pulls == [] { assert Matching(repair, head, r.pulls) == []; }
  }

  lemma {:induction false} NoPullsFit(repair: Repair, r: Remote, head: Sha, base: Sha)
    requires r.pulls == []
    ensures PullsFit(repair, r, head, base)
  {
  }

  lemma {:induction false} PullRequests(repair: Repair, w: World, i: nat, head: Sha, base: Sha, files: Files)
    requires i < |w.stages| && w.remote.branch == Some(head) && w.remote.base == base
    requires Run(repair, w, Attempt(i, 0, 4)) == Some(On(w, i, w.remote, ListPulls(head, base, files)))
    ensures var end := Run(repair, w, Attempt(i, 0, 7));
      && end.Some? && i < |end.value.stages|
      && (end.value.stages[i].Done? <==> PullsFit(repair, w.remote, head, base))
      && (end.value.stages[i].Done? || end.value.stages[i].Failed?)
  {
    hide Run, PullsFit, Matching;
    var r, next := w.remote, StageAfter(repair, w.remote, ListPulls(head, base, files), true, true, 0);
    var at := On(w, i, r, ListPulls(head, base, files));
    PullListStage(repair, r, head, base, files);
    if next.Done? {
      AttemptStep(repair, w, i, 0, 4, at);
      DoneStays(repair, w, i, 5, 7, Next(repair, at, Request(i, true, true, 0)));
    } else if next.Failed? {
      Quiet(repair, w, i, 0, 4, r, ListPulls(head, base, files), Failed);
      FailedStays(repair, w, i, 0, 5, 7, r);
    } else {
      NoPullsFit(repair, r, head, base);
      PullStages(repair, r, 0, head, base, files);
      Quiet(repair, w, i, 0, 4, r, ListPulls(head, base, files), CheckBeforePull(head, base, files));
      Quiet(repair, w, i, 0, 5, r, CheckBeforePull(head, base, files), PostPull(head, base, files));
      LastRequest(repair, w, i, 0, 6, r, head, base, files);
    }
  }

  /** A retry that finds its branch, and whose requests all succeed, returns a receipt exactly when the
      remote is resumable, and fails otherwise. */
  lemma {:induction false} RetryPublishesIff(repair: Repair, w: World, i: nat, head: Sha)
    requires i < |w.stages| && w.stages[i] == GetBranch && w.remote.branch == Some(head)
    ensures var end := Run(repair, w, Attempt(i, 0, 7));
      && end.Some? && i < |end.value.stages|
      && (end.value.stages[i].Done? <==> Resumable(repair, w.remote, head))
      && (end.value.stages[i].Done? || end.value.stages[i].Failed?)
  {
    hide Run, PullsFit, Exact, Materialize, RepairCommit;
    var verdict := BranchVerdict(repair, w.remote, head);
    RetryReads(repair, w, i, head);
    if verdict == Failed {
      FailedStays(repair, w, i, 0, 4, 7, w.remote);
    } else {
      PullRequests(repair, w, i, head, verdict.base, verdict.files);
    }
  }

  /** The failing case with a good branch: the base moved on after it was made. */
  lemma {:induction false} MovedBaseRefusesRetry(repair: Repair, w: World, i: nat, head: Sha)
    requires i < |w.stages| && w.stages[i] == GetBranch && w.remote.branch == Some(head)
    requires RepairCommit(repair, w.remote, head) && w.remote.commits[head].parents != [w.remote.base]
    ensures var end := Run(repair, w, Attempt(i, 0, 7));
      end.Some? && i < |end.value.stages| && end.value.stages[i].Failed?
  {
    RetryPublishesIff(repair, w, i, head);
  }

  // ---------------------------------------------------------------- lost answers

  /** Pull request `n` is the only one that carries the bundle's marker on this head. */
  predicate OnlyBound(repair: Repair, r: Remote, head: Sha, n: nat) {
    && n < |r.pulls| && repair.bundleMarker in r.pulls[n].body && r.pulls[n].head == head
    && forall m :: 0 <= m < |r.pulls| && m != n ==> !(repair.bundleMarker in r.pulls[m].body && r.pulls[m].head == head)
  }

  predicate Rising(ns: seq<nat>) {
    forall i, j :: 0 <= i < j < |ns| ==> ns[i] < ns[j]
  }

  lemma {:induction false} MatchingRises(repair: Repair, head: Sha, pulls: seq<Pull>)
    ensures Rising(Matching(repair, head, pulls))
  {
    if pulls != [] {
      var n := |pulls| - 1;
      MatchingRises(repair, head, pulls[..n]);
      var init := Matching(repair, head, pulls[..n]);
      assert forall i :: 0 <= i < |init| ==> init[i] in init;
      assert Rising(init + [n]) && Rising(init + []);
    }
  }

  lemma {:induction false} FirstTwo(ns: seq<nat>)
    requires Rising(ns)
    ensures |ns| > 1 ==> ns[0] < ns[1]
  {
  }

  lemma {:induction false} RisingSame(ns: seq<nat>, n: nat)
    requires Rising(ns) && n in ns && forall i :: 0 <= i < |ns| ==> ns[i] == n
    ensures ns == [n]
  {
    FirstTwo(ns);
  }

  /** What counts as this publisher's pull request, in GitHub's terms. */
  lemma {:induction false} OneMatch(repair: Repair, r: Remote, head: Sha)
    ensures |Matching(repair, head, r.pulls)| == 1 <==> exists n: nat :: OnlyBound(repair, r, head, n)
    ensures forall n: nat :: OnlyBound(repair, r, head, n) ==> Matching(repair, head, r.pulls) == [n]
  {
    var matching := Matching(repair, head, r.pulls);
    MatchingRises(repair, head, r.pulls);
    if |matching| == 1 {
      assert matching[0] in matching;
      assert OnlyBound(repair, r, head, matching[0]);
    }
    forall n: nat | OnlyBound(repair, r, head, n) ensures matching == [n] {
      assert Matches(repair, head, r.pulls[n]);
      assert n in matching;
      forall i | 0 <= i < |matching| ensures matching[i] == n {
        assert matching[i] in matching;
      }
      RisingSame(matching, n);
    }
  }

  /** When the answer to the pull request was lost, one more answered read decides: it returns the
      receipt exactly when a single pull request carries the marker on this head and is open on this
      base, whoever made it; anything else, and a read without an answer, ends the attempt. */
  lemma {:induction false} RecoveryReads(repair: Repair, w: World, i: nat, head: Sha, base: Sha, files: Files, arrives: bool, answered: bool, sha: Sha)
    requires i < |w.stages| && w.stages[i] == RecoverPull(head, base, files)
    ensures var w' := Next(repair, w, Request(i, arrives, answered, sha));
      && w'.remote == w.remote && w'.created == w.created && i < |w'.stages|
      && (forall n: nat :: OnlyBound(repair, w.remote, head, n) && answered && w.remote.pulls[n].open && w.remote.pulls[n].base == base ==>
        w'.stages[i] == Done(Receipt(base, head, files, n)) && w'.receipts == w.receipts + [Receipt(base, head, files, n)])
      && (!(exists n: nat :: OnlyBound(repair, w.remote, head, n) && answered && w.remote.pulls[n].open && w.remote.pulls[n].base == base) ==>
        w'.stages[i] == Failed && w'.receipts == w.receipts)
  {
    OneMatch(repair, w.remote, head);
    var matching := Matching(repair, head, w.remote.pulls);
    if |matching| == 1 {
      assert matching[0] in matching;
      assert OnlyBound(repair, w.remote, head, matching[0]);
    }
  }

  /** Twelve answered requests bring a first attempt to the pull request. */
  lemma {:induction false} ReachesPull(repair: Repair, w: World, i: nat, sha: Sha, files: Files)
    requires Fresh(w, i, sha) && Materialize(repair.artifacts, BaseTree(w.remote)) == Ok(files)
    requires AllChange(BaseTree(w.remote), files)
    ensures Run(repair, w, Attempt(i, sha, 12))
      == Some(On(w, i, Branched(repair, w.remote, sha, files), PostPull(sha, w.remote.base, files)))
  {
    hide StageAfter, Run, On, Attempt, Materialize;
    var r, base := Branched(repair, w.remote, sha, files), w.remote.base;
    ReachesComparison(repair, w, i, sha, files);
    PullStages(repair, r, sha, sha, base, files);
    Quiet(repair, w, i, sha, 10, r, ListPulls(sha, base, files), CheckBeforePull(sha, base, files));
    Quiet(repair, w, i, sha, 11, r, CheckBeforePull(sha, base, files), PostPull(sha, base, files));
  }

  /** The branch's remote with the publisher's own pull request. */
  function Pulled(repair: Repair, w: World, sha: Sha, files: Files): Remote
    requires w.remote.base in w.remote.commits
  {
    Branched(repair, w.remote, sha, files).(
      pulls := [Pull(true, {repair.incidentMarker, repair.bundleMarker, repair.evidenceMarker}, sha, w.remote.base)])
  }

  /** The end of a successful first attempt: one pull request, one receipt, one creation. */
  predicate Published(repair: Repair, w: World, end: World, i: nat, sha: Sha, files: Files)
    requires w.remote.base in w.remote.commits
  {
    && end.remote == Pulled(repair, w, sha, files)
    && i < |end.stages| && end.stages[i] == Done(Receipt(w.remote.base, sha, files, 0))
    && end.receipts == w.receipts + [Receipt(w.remote.base, sha, files, 0)]
    && end.created == w.created + 1
  }

  lemma {:induction false} LostPullAnswer(repair: Repair, w: World, i: nat, r: Remote, head: Sha, base: Sha, files: Files, sha: Sha, answered: bool)
    requires i < |w.stages| && w.stages[i] == PostPull(head, base, files) && w.remote == r
    requires r.branch == Some(head) && r.pulls == [] && r.base == base
    ensures var w' := Next(repair, w, Request(i, true, answered, sha));
      && w'.remote == r.(pulls := [Pull(true, {repair.incidentMarker, repair.bundleMarker, repair.evidenceMarker}, head, base)])
      && w'.created == w.created + 1 && i < |w'.stages|
      && (answered ==> w'.stages[i] == Done(Receipt(base, head, files, 0)) && w'.receipts == w.receipts + [Receipt(base, head, files, 0)])
      && (!answered ==> w'.stages[i] == RecoverPull(head, base, files) && w'.receipts == w.receipts)
  {
  }

  /** A publication whose pull request took effect but whose answer was lost ends, after one more read,
      with the same receipt, remote and number of pull requests as an undisturbed one. */
  lemma {:induction false} LostAnswerIsRecovered(repair: Repair, w: World, i: nat, sha: Sha, files: Files)
    requires Fresh(w, i, sha) && Materialize(repair.artifacts, BaseTree(w.remote)) == Ok(files)
    requires AllChange(BaseTree(w.remote), files)
    ensures var lost := Attempt(i, sha, 12) + [Request(i, true, false, sha), Request(i, true, true, sha)];
      && Run(repair, w, lost).Some? && Published(repair, w, Run(repair, w, lost).value, i, sha, files)
    ensures Run(repair, w, Attempt(i, sha, 13)).Some? && Published(repair, w, Run(repair, w, Attempt(i, sha, 13)).value, i, sha, files)
  {
    hide StageAfter, RemoteAfter, Materialize, AllChange, Branched, Next, Matching;
    var r, base := Branched(repair, w.remote, sha, files), w.remote.base;
    var at := On(w, i, r, PostPull(sha, base, files));
    ReachesPull(repair, w, i, sha, files);
    BranchedShape(repair, w.remote, sha, files);
    LostPullAnswer(repair, at, i, r, sha, base, files, sha, true);
    AttemptStep(repair, w, i, sha, 12, at);
    LostPullAnswer(repair, at, i, r, sha, base, files, sha, false);
    var mid := Next(repair, at, Request(i, true, false, sha));
    assert OnlyBound(repair, mid.remote, sha, 0);
    RecoveryReads(repair, mid, i, sha, base, files, true, true, sha);
    TwoMore(repair, w, Attempt(i, sha, 12), at, Request(i, true, false, sha), Request(i, true, true, sha));
  }

  lemma {:induction false} BranchedShape(repair: Repair, r: Remote, sha: Sha, files: Files)
    requires r.base in r.commits
    ensures var branched := Branched(repair, r, sha, files);
      branched.branch == Some(sha) && branched.base == r.base && branched.pulls == r.pulls
  {
  }

  lemma {:induction false} TwoMore(repair: Repair, w: World, init: seq<Action>, mid: World, a: Action, b: Action)
    requires Run(repair, w, init) == Some(mid) && Enabled(repair, mid, a) && Enabled(repair, Next(repair, mid, a), b)
    ensures Run(repair, w, init + [a, b]) == Some(Next(repair, Next(repair, mid, a), b))
  {
    hide Next, Enabled;
    assert (init + [a, b])[..|init| + 1] == init + [a];
    assert (init + [a])[..|init|] == init;
  }
}
