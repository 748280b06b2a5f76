/** One request of a publisher, read in GitHub's terms: what it changes on the remote, and exactly when
    the publisher goes on to each next request. */
module PublicationRequests {
  import opened Common
  import opened PublicationFiles
  import opened GitHubPublication
  import opened PublicationAttempts

  predicate NoneOpen(r: Remote) {
    forall n :: 0 <= n < |r.pulls| ==> !r.pulls[n].open
  }

  /** A request that does not arrive changes nothing. One that does creates the commit on its parent,
      the branch when there is none, or the pull request when none is open, and changes nothing else. */
  lemma {:induction false} RequestChanges(repair: Repair, w: World, i: nat, arrives: bool, answered: bool, sha: Sha)
    requires i < |w.stages|
    ensures var s, r, r' := w.stages[i], w.remote, RequestStep(repair, w, i, arrives, answered, sha).remote;
      var markers := {repair.incidentMarker, repair.bundleMarker, repair.evidenceMarker};
      && r'.base == r.base
      && r'.commits == (
        if arrives && s.PostCommit? && s.base in r.commits && sha !in r.commits
        then r.commits[sha := Commit(r.commits[s.base].tree + s.files, [s.base], markers)] else r.commits)
      && r'.branch == (
        if arrives && s.PostBranch? && r.branch.None? && s.commit in r.commits then Some(s.commit) else r.branch)
      && r'.pulls == (
        if arrives && s.PostPull? && r.branch.Some? && NoneOpen(r)
        then r.pulls + [Pull(true, markers, r.branch.value, r.base)] else r.pulls)
  {
  }

  /** What others do to the remote, each only the one thing it names. */
  lemma {:induction false} OthersChange(repair: Repair, w: World, a: Action)
    requires Enabled(repair, w, a) && !a.Request?
    ensures var r, w' := w.remote, Next(repair, w, a);
      && w'.receipts == w.receipts && w'.created == w.created && w'.closed == (w.closed || a.ClosePull?)
      && w'.stages == (if a.Retry? then w.stages[a.publisher := GetBranch] else w.stages)
      && w'.remote == match a
        case PushCommit(sha, commit) => r.(commits := r.commits[sha := commit])
        case MoveBase(to) => r.(base := to)
        case CreateBranch(at) => if r.branch.None? then r.(branch := Some(at)) else r
        case OpenPull(body) =>
          if r.branch.Some? && NoneOpen(r) then r.(pulls := r.pulls + [Pull(true, body, r.branch.value, r.base)]) else r
        case ClosePull(n) => r.(pulls := r.pulls[n := r.pulls[n].(open := false)])
        case _ => r
  {
  }

  /** The stage a publisher is in after one more request. */
  function NextStage(repair: Repair, w: World, i: nat, arrives: bool, answered: bool, sha: Sha): (s: Stage)
    requires i < |w.stages|
  {
    RequestStep(repair, w, i, arrives, answered, sha).stages[i]
  }

  /** No write is asked for unless the base was read unchanged right before it. */
  lemma {:induction false} WritesAreGuarded(repair: Repair, w: World, i: nat, arrives: bool, answered: bool, sha: Sha)
    requires i < |w.stages|
    ensures var s, next := w.stages[i], NextStage(repair, w, i, arrives, answered, sha);
      && (next.PostCommit? <==> s.CheckSources? && answered && w.remote.base == s.base)
      && (next.PostCommit? ==> next.base == s.base && next.files == s.files)
      && (next.PostBranch? <==> s.CheckBeforeBranch? && answered && w.remote.base == s.base)
      && (next.PostBranch? ==> next.commit == s.commit)
      && (next.PostPull? <==> s.CheckBeforePull? && answered && w.remote.base == s.base)
      && (next.PostPull? ==> next.head == s.head && next.base == s.base && next.files == s.files)
  {
  }

  /** A first attempt goes on only with files that materialise on the base and with a commit that was
      made; whatever the answer to its branch is, the branch is read back. */
  lemma {:induction false} FirstAttemptGoesOn(repair: Repair, w: World, i: nat, arrives: bool, answered: bool, sha: Sha)
    requires i < |w.stages|
    ensures var s, r, next := w.stages[i], w.remote, NextStage(repair, w, i, arrives, answered, sha);
      && (next.GetBase? <==> s.GetBranch? && answered && r.branch.None?)
      && (next.CheckSources? <==>
        s.GetBase? && answered && r.base in r.commits && Materialize(repair.artifacts, r.commits[r.base].tree).Ok?)
      && (next.CheckSources? ==>
        next.base == r.base && Materialize(repair.artifacts, r.commits[r.base].tree) == Ok(next.files))
      && (next.CheckBeforeBranch? <==> s.PostCommit? && answered && arrives)
      && (next.CheckBeforeBranch? ==> next.base == s.base && next.commit == sha)
      && (next.ReadBranch? <==> s.PostBranch?)
      && (next.ReadBranch? ==> next.commit == s.commit)
      && !next.GetBranch?
  {
  }

  /** An existing branch, its own or found, is taken over exactly when it is one commit on one parent,
      with all three markers, on the present base, and changes exactly the repair's files. */
  lemma {:induction false} BranchGoesOn(repair: Repair, w: World, i: nat, arrives: bool, answered: bool, sha: Sha)
    requires i < |w.stages|
    ensures var s, r, next := w.stages[i], w.remote, NextStage(repair, w, i, arrives, answered, sha);
      && (next.GetCommit? <==>
        answered && r.branch.Some? && (s.GetBranch? || (s.ReadBranch? && r.branch.value == s.commit)))
      && (next.GetCommit? ==> Some(next.head) == r.branch)
      && (next.CheckParent? <==>
        && s.GetCommit? && answered && s.head in r.commits && |r.commits[s.head].parents| == 1
        && repair.incidentMarker in r.commits[s.head].message && repair.bundleMarker in r.commits[s.head].message
        && repair.evidenceMarker in r.commits[s.head].message)
      && (next.CheckParent? ==> next.head == s.head && r.commits[s.head].parents == [next.base])
      && (next.Compare? <==>
        && s.CheckParent? && answered && r.base == s.base && s.base in r.commits
        && Materialize(repair.artifacts, r.commits[s.base].tree).Ok?)
      && (next.Compare? ==>
        next.head == s.head && next.base == s.base && Materialize(repair.artifacts, r.commits[s.base].tree) == Ok(next.files))
      && (next.ListPulls? <==>
        && s.Compare? && answered && s.base in r.commits && s.head in r.commits
        && r.commits[s.head].tree == r.commits[s.base].tree + s.files
        && forall p :: p in s.files && p in r.commits[s.base].tree ==> r.commits[s.base].tree[p] != s.files[p])
      && (next.ListPulls? ==> next.head == s.head && next.base == s.base && next.files == s.files)
  {
  }

  /** The only pull request with the marker on this head, open on this base. */
  predicate Usable(repair: Repair, r: Remote, head: Sha, base: Sha, n: nat) {
    OnlyBound(repair, r, head, n) && r.pulls[n].open && r.pulls[n].base == base
  }

  /** A pull request is made only when there is none at all. A receipt is given exactly for the single
      pull request that carries the marker on this head, open on this base, or for the one just made. */
  lemma {:induction false} PullGoesOn(repair: Repair, w: World, i: nat, arrives: bool, answered: bool, sha: Sha)
    requires i < |w.stages| && !w.stages[i].Done?
    ensures var s, r, next := w.stages[i], w.remote, NextStage(repair, w, i, arrives, answered, sha);
      && (next.CheckBeforePull? <==> s.ListPulls? && answered && r.pulls == [])
      && (next.CheckBeforePull? ==> next.head == s.head && next.base == s.base && next.files == s.files)
      && (next.RecoverPull? <==> s.PostPull? && !(arrives && answered && r.branch.Some? && NoneOpen(r)))
      && (next.RecoverPull? ==> next.head == s.head && next.base == s.base && next.files == s.files)
      && (next.Done? <==>
        || ((s.ListPulls? || s.RecoverPull?) && answered && exists n: nat :: Usable(repair, r, s.head, s.base, n))
        || (s.PostPull? && arrives && answered && r.branch == Some(s.head) && NoneOpen(r) && r.base == s.base))
      && (next.Done? ==>
        && next.receipt.base == s.base && next.receipt.commit == s.head && next.receipt.files == s.files
        && (if s.PostPull? then next.receipt.pull == |r.pulls| else Usable(repair, r, s.head, s.base, next.receipt.pull)))
  {
    hide Materialize, Exact, RepairCommit, OnlyBound, Matching;
    var s, r := w.stages[i], w.remote;
    if s.ListPulls? || s.RecoverPull? {
      UsableIsFinished(repair, r, s.head, s.base, s.files);
    }
  }

  /** With one match, validating it is asking whether it is usable; with another number none is. */
  lemma {:induction false} UsableIsFinished(repair: Repair, r: Remote, head: Sha, base: Sha, files: Files)
    ensures forall n: nat :: Usable(repair, r, head, base, n) ==> Matching(repair, head, r.pulls) == [n] && n < |r.pulls|
    ensures r.pulls == [] ==> Matching(repair, head, r.pulls) == []
    ensures var matching := Matching(repair, head, r.pulls);
      |matching| == 1 ==>
        var n := matching[0];
        n < |r.pulls| && (ValidPull(repair, head, base, r.pulls[n]) <==> Usable(repair, r, head, base, n))
  {
    OneMatch(repair, r, head);
    OnlyBoundIsStored(repair, r, head);
    var matching := Matching(repair, head, r.pulls);
    if |matching| == 1 {
      var n: nat :| OnlyBound(repair, r, head, n);
      assert matching[0] == n;
    }
  }

  lemma {:induction false} OnlyBoundIsStored(repair: Repair, r: Remote, head: Sha)
    ensures forall n: nat :: OnlyBound(repair, r, head, n) ==> n < |r.pulls| && Matches(repair, head, r.pulls[n])
  {
  }
}
