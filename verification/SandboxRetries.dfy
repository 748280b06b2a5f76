/** What the sandbox answers a create request over whole runs: repeated requests, the limits, and how
    long a run stays stored. */
module SandboxRetries {
  import opened Common
  import opened SandboxLimiter

  // ---------------------------------------------------------------- what every run keeps

  predicate DistinctIds(runs: seq<Run>) {
    forall i, j :: 0 <= i < j < |runs| ==> runs[i].id != runs[j].id
  }

  /** Every stored run is the one its session and key point to. */
  predicate KeysPoint(s: Sandbox) {
    forall i :: 0 <= i < |s.runs| ==>
      var pair := (s.runs[i].session, s.runs[i].idempotencyKey);
      pair in s.idempotency && s.idempotency[pair] == s.runs[i].id
  }

  predicate Tidy(s: Sandbox) {
    DistinctIds(s.runs) && KeysPoint(s)
  }

  lemma {:induction false} FindDistinct(runs: seq<Run>, i: nat)
    requires DistinctIds(runs) && i < |runs|
    ensures Find(runs, runs[i].id) == Some(runs[i])
  {
    if i < |runs| - 1 {
      FindDistinct(runs[..|runs| - 1], i);
    }
  }

  lemma {:induction false} FindIsStored(runs: seq<Run>, id: string)
    ensures Find(runs, id).Some? ==> Find(runs, id).value in runs && Find(runs, id).value.id == id
    ensures Find(runs, id).None? ==> forall r :: r in runs ==> r.id != id
  {
    if runs != [] {
      assert runs == runs[..|runs| - 1] + [runs[|runs| - 1]];
      FindIsStored(runs[..|runs| - 1], id);
    }
  }

  lemma {:induction false} DroppedRuns(runs: seq<Run>, id: string)
    requires DistinctIds(runs)
    ensures DistinctIds(Dropped(runs, id))
    ensures forall r :: r in Dropped(runs, id) <==> r in runs && r.id != id
  {
    if runs != [] {
      var init, last := runs[..|runs| - 1], runs[|runs| - 1];
      assert runs == init + [last];
      DroppedRuns(init, id);
      forall r | r in Dropped(init, id) ensures r.id != last.id {
        var i :| 0 <= i < |init| && init[i] == r;
        assert runs[i] == r;
      }
    }
  }

  lemma {:induction false} KeptDistinct(runs: seq<Run>, tail: seq<Run>)
    requires DistinctIds(runs)
    ensures DistinctIds(KeepOnly(runs, tail))
    ensures forall r :: r in KeepOnly(runs, tail) <==> r in runs && Kept(r, tail)
  {
    if runs != [] {
      var init, last := runs[..|runs| - 1], runs[|runs| - 1];
      assert runs == init + [last];
      KeptDistinct(init, tail);
      forall r | r in KeepOnly(init, tail) ensures r.id != last.id {
        var i :| 0 <= i < |init| && init[i] == r;
        assert runs[i] == r;
      }
    }
  }

  lemma {:induction false} PrunedRuns(runs: seq<Run>)
    requires DistinctIds(runs)
    ensures DistinctIds(Pruned(runs))
    ensures forall r :: r in Pruned(runs) ==> r in runs
    ensures forall r :: r in runs && r.status == Running ==> r in Pruned(runs)
  {
    var sorted := NewestFirst(runs);
    if |sorted| > MAX_RUNS { KeptDistinct(runs, sorted[MAX_RUNS..]); }
  }

  /** The stored runs before pruning. */
  function WithNew(s: Sandbox, r: CreateRequest, now: int, id: string): seq<Run> {
    Dropped(MarkStale(s.runs, now), id) + [NewRun(r, now, id)]
  }

  lemma {:induction false} WithNewRuns(s: Sandbox, r: CreateRequest, now: int, id: string)
    requires DistinctIds(s.runs)
    ensures DistinctIds(WithNew(s, r, now, id))
    ensures forall x :: x in WithNew(s, r, now, id) <==>
      x == NewRun(r, now, id) || (x.id != id && x in MarkStale(s.runs, now))
  {
    var marked := MarkStale(s.runs, now);
    DroppedRuns(marked, id);
    var dropped := Dropped(marked, id);
    forall i | 0 <= i < |dropped| ensures dropped[i].id != id { assert dropped[i] in dropped; }
  }

  /** A request under the session and key of a stored run finds that run. */
  lemma {:induction false} StoredIsEarlier(s: Sandbox, r: CreateRequest, i: nat)
    requires Tidy(s) && i < |s.runs| && s.runs[i].session == r.session && s.runs[i].idempotencyKey == r.key
    ensures Earlier(s, r) == Some(s.runs[i].id)
  {
    FindDistinct(s.runs, i);
  }

  /** Another stored run keeps its pair: the new run has a pair that no stored run has. */
  lemma {:induction false} OtherKeyPoints(s: Sandbox, r: CreateRequest, now: int, id: string, x: Run)
    requires Tidy(s) && Refusal(s, r, now).None? && x in MarkStale(s.runs, now)
    ensures (x.session, x.idempotencyKey) != (r.session, r.key)
    ensures (x.session, x.idempotencyKey) in s.idempotency && s.idempotency[(x.session, x.idempotencyKey)] == x.id
  {
    var j :| 0 <= j < |s.runs| && MarkStale(s.runs, now)[j] == x;
    if x.session == r.session && x.idempotencyKey == r.key { StoredIsEarlier(s, r, j); }
  }

  lemma {:induction false} AcceptedRunsAre(s: Sandbox, r: CreateRequest, now: int, id: string)
    requires DistinctIds(s.runs)
    ensures var after := Accepted(s, r, now, id).runs;
      && DistinctIds(after) && NewRun(r, now, id) in after
      && forall x :: x in after ==> x == NewRun(r, now, id) || (x.id != id && x in MarkStale(s.runs, now))
  {
    hide DistinctIds, Dropped, Pruned;
    WithNewRuns(s, r, now, id);
    PrunedRuns(WithNew(s, r, now, id));
  }

  lemma {:induction false} AcceptedIsTidy(s: Sandbox, r: CreateRequest, now: int, id: string)
    requires Tidy(s) && Refusal(s, r, now).None?
    ensures Tidy(Accepted(s, r, now, id)) && NewRun(r, now, id) in Accepted(s, r, now, id).runs
  {
    hide DistinctIds, Refusal, Pruned, WithNew, AcceptedAttempts, MarkStale;
    var after := Accepted(s, r, now, id);
    AcceptedRunsAre(s, r, now, id);
    forall i | 0 <= i < |after.runs|
      ensures var pair := (after.runs[i].session, after.runs[i].idempotencyKey);
        pair in after.idempotency && after.idempotency[pair] == after.runs[i].id
    {
      assert after.runs[i] in after.runs;
      if after.runs[i] != NewRun(r, now, id) { OtherKeyPoints(s, r, now, id, after.runs[i]); }
    }
  }

  lemma {:induction false} ResetIsTidy(s: Sandbox, session: string, id: string)
    requires Tidy(s)
    ensures Tidy(ResetAnswer(s, session, id).0)
  {
    FindIsStored(s.runs, id);
    DroppedRuns(s.runs, id);
    var after := ResetAnswer(s, session, id).0;
    if ResetAnswer(s, session, id).1.WasReset? {
      var gone := Find(s.runs, id).value;
      var g :| 0 <= g < |s.runs| && s.runs[g] == gone;
      forall i | 0 <= i < |after.runs|
        ensures var pair := (after.runs[i].session, after.runs[i].idempotencyKey);
          pair in after.idempotency && after.idempotency[pair] == after.runs[i].id
      {
        assert after.runs[i] in after.runs;
        var j :| 0 <= j < |s.runs| && s.runs[j] == after.runs[i];
      }
    }
  }

  lemma {:induction false} StepIsTidy(w: World, a: Action)
    requires Tidy(w.sandbox)
    ensures Tidy(After(w, a).sandbox)
  {
    hide Tidy, Accepted;
    match a
    case CreateAt(r, now, id) => if Refusal(w.sandbox, r, now).None? { AcceptedIsTidy(w.sandbox, r, now, id); }
    case ResetAt(session, id) => ResetIsTidy(w.sandbox, session, id);
    case StreamAt(id, write) => WrittenIsTidy(w.sandbox, id, write);
  }

  lemma {:induction false} WrittenIsTidy(s: Sandbox, id: string, write: StreamWrite)
    requires Tidy(s)
    ensures Tidy(s.(runs := WriteRun(s.runs, id, write)))
  {
  }

  lemma {:induction false} RunIsTidy(w: World, actions: seq<Action>)
    requires Initial(w) && RunAll(w, actions).Some?
    ensures Tidy(RunAll(w, actions).value.sandbox)
  {
    if actions != [] {
      RunIsTidy(w, actions[..|actions| - 1]);
      StepIsTidy(RunAll(w, actions[..|actions| - 1]).value, actions[|actions| - 1]);
    }
  }

  // ---------------------------------------------------------------- which runs pruning keeps

  /** How many runs were created at this time or later. */
  function NotOlder(runs: seq<Run>, time: int): nat {
    if runs == [] then 0
    else NotOlder(runs[..|runs| - 1], time) + (if runs[|runs| - 1].createdAt >= time then 1 else 0)
  }

  /** How many stand before run `i` when the newest come first: those created later, and those created
      at the same time and stored earlier. */
  function Before(runs: seq<Run>, i: nat): nat
    requires i < |runs|
  {
    NotOlder(runs[..i], runs[i].createdAt) + NotOlder(runs[i + 1..], runs[i].createdAt + 1)
  }

  predicate Descending(runs: seq<Run>) {
    forall i, j :: 0 <= i < j < |runs| ==> runs[i].createdAt >= runs[j].createdAt
  }

  lemma {:induction false} NotOlderSnoc(runs: seq<Run>, run: Run, time: int)
    ensures NotOlder(runs + [run], time) == NotOlder(runs, time) + (if run.createdAt >= time then 1 else 0)
  {
    assert (runs + [run])[..|runs|] == runs;
  }

  lemma {:induction false} NotOlderPrefix(sorted: seq<Run>, time: int)
    requires Descending(sorted)
    ensures NotOlder(sorted, time) <= |sorted|
    ensures forall i :: 0 <= i < |sorted| ==> (sorted[i].createdAt >= time <==> i < NotOlder(sorted, time))
  {
    if sorted != [] {
      NotOlderPrefix(sorted[..|sorted| - 1], time);
    }
  }

  /** The new run goes behind all that are not older. */
  lemma {:induction false} InsertedAt(sorted: seq<Run>, run: Run)
    requires Descending(sorted)
    ensures NotOlder(sorted, run.createdAt) <= |sorted|
    ensures var k := NotOlder(sorted, run.createdAt);
      InsertRun(sorted, run) == sorted[..k] + [run] + sorted[k..]
    ensures Descending(InsertRun(sorted, run))
  {
    NotOlderPrefix(sorted, run.createdAt);
    var n := |sorted|;
    if n > 0 && sorted[n - 1].createdAt < run.createdAt {
      InsertedAt(sorted[..n - 1], run);
      SplitShorter(sorted, NotOlder(sorted, run.createdAt));
    }
    InsertedDescends(sorted, run, NotOlder(sorted, run.createdAt));
  }

  lemma {:induction false} SplitShorter(sorted: seq<Run>, k: nat)
    requires k < |sorted|
    ensures var init, last := sorted[..|sorted| - 1], sorted[|sorted| - 1];
      init[..k] == sorted[..k] && init[k..] + [last] == sorted[k..]
  {
  }

  lemma {:induction false} InsertedDescends(sorted: seq<Run>, run: Run, k: nat)
    requires Descending(sorted) && k <= |sorted|
    requires forall i :: 0 <= i < |sorted| ==> (sorted[i].createdAt >= run.createdAt <==> i < k)
    ensures Descending(sorted[..k] + [run] + sorted[k..])
  {
  }

  /** Each run keeps its place, or moves up by one behind the new one. */
  lemma {:induction false} InsertedPlace(sorted: seq<Run>, run: Run, p: nat)
    requires Descending(sorted) && p < |sorted|
    ensures var q := if sorted[p].createdAt < run.createdAt then p + 1 else p;
      q < |InsertRun(sorted, run)| && InsertRun(sorted, run)[q] == sorted[p]
  {
    hide InsertRun, NotOlder, Descending;
    InsertedAt(sorted, run);
    NotOlderPrefix(sorted, run.createdAt);
  }

  lemma {:induction false} InsertedNew(sorted: seq<Run>, run: Run)
    requires Descending(sorted)
    ensures var k := NotOlder(sorted, run.createdAt); k < |InsertRun(sorted, run)| && InsertRun(sorted, run)[k] == run
  {
    hide InsertRun, NotOlder, Descending;
    InsertedAt(sorted, run);
  }

  lemma {:induction false} InsertedCount(sorted: seq<Run>, run: Run, time: int)
    ensures NotOlder(InsertRun(sorted, run), time) == NotOlder(sorted, time) + (if run.createdAt >= time then 1 else 0)
  {
    if sorted == [] || sorted[|sorted| - 1].createdAt >= run.createdAt {
      NotOlderSnoc(sorted, run, time);
    } else {
      InsertedCount(sorted[..|sorted| - 1], run, time);
      NotOlderSnoc(InsertRun(sorted[..|sorted| - 1], run), sorted[|sorted| - 1], time);
    }
  }

  lemma {:induction false} NewestFirstSorted(runs: seq<Run>, time: int)
    ensures Descending(NewestFirst(runs)) && |NewestFirst(runs)| == |runs|
    ensures NotOlder(NewestFirst(runs), time) == NotOlder(runs, time)
  {
    if runs != [] {
      var init, last := runs[..|runs| - 1], runs[|runs| - 1];
      NewestFirstSorted(init, time);
      InsertedAt(NewestFirst(init), last);
      InsertedCount(NewestFirst(init), last, time);
    }
  }

  /** Run `i` stands at its place. */
  lemma {:induction false} StandsAt(runs: seq<Run>, i: nat)
    requires i < |runs|
    ensures Before(runs, i) < |NewestFirst(runs)| && NewestFirst(runs)[Before(runs, i)] == runs[i]
  {
    hide InsertRun, NotOlder, Descending;
    var n := |runs| - 1;
    var init, last := runs[..n], runs[n];
    NewestFirstSorted(init, last.createdAt);
    if i == n {
      InsertedNew(NewestFirst(init), last);
      LastBefore(runs);
    } else {
      StandsAt(init, i);
      InsertedPlace(NewestFirst(init), last, Before(init, i));
      EarlierBefore(runs, i);
    }
  }

  lemma {:induction false} LastBefore(runs: seq<Run>)
    requires runs != []
    ensures Before(runs, |runs| - 1) == NotOlder(runs[..|runs| - 1], runs[|runs| - 1].createdAt)
  {
    assert runs[|runs|..] == [];
  }

  lemma {:induction false} EarlierBefore(runs: seq<Run>, i: nat)
    requires i < |runs| - 1
    ensures var init, last := runs[..|runs| - 1], runs[|runs| - 1];
      Before(runs, i) == Before(init, i) + (if last.createdAt > runs[i].createdAt then 1 else 0)
  {
    var init, last := runs[..|runs| - 1], runs[|runs| - 1];
    assert init[..i] == runs[..i] && runs[i + 1..] == init[i + 1..] + [last];
    NotOlderSnoc(init[i + 1..], last, runs[i].createdAt + 1);
  }

  lemma {:induction false} StandsOnce(runs: seq<Run>, i: nat)
    requires DistinctIds(runs) && i < |runs|
    ensures forall p :: 0 <= p < |NewestFirst(runs)| && NewestFirst(runs)[p] == runs[i] ==> p == Before(runs, i)
  {
    var sorted, q := NewestFirst(runs), Before(runs, i);
    StandsAt(runs, i);
    NewestFirstKeeps(runs);
    DistinctOnce(runs, i);
    forall p | 0 <= p < |sorted| && sorted[p] == runs[i] ensures p == q {
      if p < q { TwicePresent(sorted, p, q); } else if q < p { TwicePresent(sorted, q, p); }
    }
  }

  lemma {:induction false} TwicePresent(s: seq<Run>, p: nat, q: nat)
    requires p < q < |s| && s[p] == s[q]
    ensures multiset(s)[s[p]] >= 2
  {
    assert s == s[..p] + [s[p]] + s[p + 1..q] + [s[q]] + s[q + 1..];
  }

  lemma {:induction false} DistinctOnce(runs: seq<Run>, i: nat)
    requires DistinctIds(runs) && i < |runs|
    ensures multiset(runs)[runs[i]] == 1
  {
    var a, b := runs[..i], runs[i + 1..];
    assert runs == a + [runs[i]] + b;
    assert runs[i] !in a && runs[i] !in b;
    assert multiset(a)[runs[i]] == 0 && multiset(b)[runs[i]] == 0;
  }

  /** Exactly the running runs and the newest twenty are kept. */
  lemma {:induction false} PrunedExactly(runs: seq<Run>, i: nat)
    requires DistinctIds(runs) && i < |runs|
    ensures runs[i] in Pruned(runs) <==> runs[i].status == Running || Before(runs, i) < 20
  {
    var sorted := NewestFirst(runs);
    StandsAt(runs, i);
    StandsOnce(runs, i);
    NewestFirstSorted(runs, 0);
    if |sorted| > MAX_RUNS {
      var tail := sorted[MAX_RUNS..];
      KeptDistinct(runs, tail);
      if Before(runs, i) >= MAX_RUNS { assert tail[Before(runs, i) - MAX_RUNS] == runs[i]; }
    }
  }

  // ---------------------------------------------------------------- how long a run stays stored

  /** The run of this id, session and key is stored. */
  predicate StoredAt(s: Sandbox, i: nat, id: string, session: string, key: string) {
    i < |s.runs| && s.runs[i].id == id && s.runs[i].session == session && s.runs[i].idempotencyKey == key
  }

  ghost predicate Stored(s: Sandbox, id: string, session: string, key: string) {
    exists i: nat :: StoredAt(s, i, id, session, key)
  }

  /** Run `i` is beyond the newest twenty, the new one included, and not running. */
  predicate OldAndDone(s: Sandbox, i: nat, r: CreateRequest, now: int, id: string)
    requires i < |s.runs| && s.runs[i].id != id
  {
    && !(s.runs[i].status == Running && now - s.runs[i].createdAt <= 20000)
    && exists j: nat :: j < |WithNew(s, r, now, id)| && WithNew(s, r, now, id)[j].id == s.runs[i].id && Before(WithNew(s, r, now, id), j) >= 20
  }

  /** What ends the storage of run `i`: its own session resets it once it ended, or a created run takes
      its id or its place among the newest twenty. */
  predicate Forgets(w: World, a: Action, i: nat)
    requires i < |w.sandbox.runs|
  {
    var run := w.sandbox.runs[i];
    match a
    case CreateAt(r, now, id) =>
      Refusal(w.sandbox, r, now).None? && (run.id == id || OldAndDone(w.sandbox, i, r, now, id))
    case ResetAt(session, id) =>
      SessionOk(session) && id != "" && run.id == id && run.session == session && run.status != Running
    case StreamAt(_, _) => false
  }

  lemma {:induction false} GoneIsNotStored(runs: seq<Run>, after: seq<Run>, gone: Run)
    requires DistinctIds(runs) && gone in runs && gone !in after && forall x :: x in after ==> x in runs
    ensures forall k :: 0 <= k < |after| ==> after[k].id != gone.id
  {
    var g :| 0 <= g < |runs| && runs[g] == gone;
    forall k | 0 <= k < |after| ensures after[k].id != gone.id {
      assert after[k] in after;
      var h :| 0 <= h < |runs| && runs[h] == after[k];
    }
  }

  lemma {:induction false} CreateStores(s: Sandbox, i: nat, r: CreateRequest, now: int, id: string)
    requires Tidy(s) && i < |s.runs| && Refusal(s, r, now).None?
    ensures var run := s.runs[i];
      Stored(Accepted(s, r, now, id), run.id, run.session, run.idempotencyKey)
      <==> !(run.id == id || OldAndDone(s, i, r, now, id))
  {
    var run, runs, after := s.runs[i], WithNew(s, r, now, id), Accepted(s, r, now, id);
    WithNewRuns(s, r, now, id);
    PrunedRuns(runs);
    AcceptedIsTidy(s, r, now, id);
    var marked := MarkStale(s.runs, now);
    if run.id == id {
      forall j: nat ensures !StoredAt(after, j, run.id, run.session, run.idempotencyKey) {
        if StoredAt(after, j, run.id, run.session, run.idempotencyKey) {
          assert after.runs[j] in runs;
          StoredIsEarlier(s, r, i);
        }
      }
    } else {
      assert marked[i] in marked && marked[i] in runs;
      var j :| 0 <= j < |runs| && runs[j] == marked[i];
      PrunedExactly(runs, j);
      forall k: nat | k < |runs| && runs[k].id == run.id ensures k == j {}
      if runs[j] in after.runs {
        var k :| 0 <= k < |after.runs| && after.runs[k] == runs[j];
        assert StoredAt(after, k, run.id, run.session, run.idempotencyKey);
      } else {
        GoneIsNotStored(runs, after.runs, runs[j]);
      }
    }
  }

  /** A stored run stays stored, with its owner and key, over every action that does not forget it. */
  lemma {:induction false} StaysStoredIff(w: World, a: Action, i: nat)
    requires Tidy(w.sandbox) && i < |w.sandbox.runs|
    ensures var run := w.sandbox.runs[i];
      Stored(After(w, a).sandbox, run.id, run.session, run.idempotencyKey) <==> !Forgets(w, a, i)
  {
    hide Accepted, OldAndDone, Refusal;
    var run, after := w.sandbox.runs[i], After(w, a).sandbox;
    match a
    case CreateAt(r, now, id) =>
      if Refusal(w.sandbox, r, now).None? {
        CreateStores(w.sandbox, i, r, now, id);
      } else {
        assert StoredAt(after, i, run.id, run.session, run.idempotencyKey);
      }
    case ResetAt(session, id) => ResetStores(w.sandbox, i, session, id);
    case StreamAt(id, write) => assert StoredAt(after, i, run.id, run.session, run.idempotencyKey);
  }

  lemma {:induction false} ResetStores(s: Sandbox, i: nat, session: string, id: string)
    requires Tidy(s) && i < |s.runs|
    ensures var run := s.runs[i];
      Stored(ResetAnswer(s, session, id).0, run.id, run.session, run.idempotencyKey)
      <==> !(SessionOk(session) && id != "" && run.id == id && run.session == session && run.status != Running)
  {
    var run, after := s.runs[i], ResetAnswer(s, session, id).0;
    if ResetAnswer(s, session, id).1.WasReset? {
      DroppedRuns(s.runs, id);
      if run.id == id {
        FindDistinct(s.runs, i);
        forall k | 0 <= k < |after.runs| ensures after.runs[k].id != id { assert after.runs[k] in after.runs; }
      } else {
        assert run in after.runs;
        var k :| 0 <= k < |after.runs| && after.runs[k] == run;
        assert StoredAt(after, k, run.id, run.session, run.idempotencyKey);
      }
    } else {
      assert StoredAt(after, i, run.id, run.session, run.idempotencyKey);
      if run.id == id { ResetFinds(s, i, session, id); }
    }
  }

  lemma {:induction false} ResetFinds(s: Sandbox, i: nat, session: string, id: string)
    requires Tidy(s) && i < |s.runs| && s.runs[i].id == id
    ensures ResetAnswer(s, session, id).1.WasReset? <==>
      SessionOk(session) && id != "" && s.runs[i].session == session && s.runs[i].status != Running
  {
    FindDistinct(s.runs, i);
  }

  /** A reset is accepted exactly for a stored run of its own session that has ended. It takes away that
      run and its key, and nothing else: not the attempts, so a reset never gives back one of the three. */
  lemma {:induction false} ResetAcceptedIff(s: Sandbox, session: string, id: string)
    requires Tidy(s)
    ensures var (after, answer) := ResetAnswer(s, session, id);
      && (answer == WasReset(id) <==> SessionOk(session) && id != "" && exists i: nat :: EndedRun(s, i, session, id))
      && (answer != WasReset(id) ==> after == s)
      && (forall i: nat :: EndedRun(s, i, session, id) && answer == WasReset(id) ==>
        && after.attempts == s.attempts
        && after.idempotency == s.idempotency - {(session, s.runs[i].idempotencyKey)}
        && (forall x :: x in after.runs <==> x in s.runs && x.id != id))
  {
    DroppedRuns(s.runs, id);
    FindIsStored(s.runs, id);
    forall i: nat | i < |s.runs| ensures Find(s.runs, s.runs[i].id) == Some(s.runs[i]) { FindDistinct(s.runs, i); }
    if Find(s.runs, id).Some? {
      var i :| 0 <= i < |s.runs| && s.runs[i] == Find(s.runs, id).value;
      assert EndedRun(s, i, session, id) <==> s.runs[i].session == session && s.runs[i].status != Running;
    }
  }

  predicate EndedRun(s: Sandbox, i: nat, session: string, id: string) {
    i < |s.runs| && s.runs[i].id == id && s.runs[i].session == session && s.runs[i].status != Running
  }

  // ---------------------------------------------------------------- repeated requests

  /** Letters, digits, underscore and dash, by their codes. */
  predicate WordCode(n: int) {
    65 <= n <= 90 || 97 <= n <= 122 || 48 <= n <= 57 || n == 95 || n == 45
  }

  /** A request that the sandbox can read: bounded session and key, a small JSON body, the fixed scenario. */
  predicate WellFormed(r: CreateRequest) {
    && 16 <= |r.session| <= 80 && (forall i :: 0 <= i < |r.session| ==> WordCode(r.session[i] as int))
    && r.contentLength <= 1024
    && (r.body == Json(None) || r.body == Json(Some("KELVIN_CELSIUS_B042")))
    && 8 <= |r.key| <= 100 && (forall i :: 0 <= i < |r.key| ==> WordCode(r.key[i] as int) || r.key[i] == '.' || r.key[i] == ':')
  }

  lemma {:induction false} MalformedIff(r: CreateRequest)
    ensures Malformed(r).None? <==> WellFormed(r)
    ensures !WellFormed(r) ==> Malformed(r).value in {InvalidSession, PayloadTooLarge, InvalidJson, FixedScenarioOnly, InvalidKey}
  {
    assert forall c: char {:trigger WordChar(c)} {:trigger WordCode(c as int)} :: WordChar(c) <==> WordCode(c as int);
  }

  lemma {:induction false} StoredReplays(w: World, r: CreateRequest, now: int, newId: string, id: string)
    requires Tidy(w.sandbox) && WellFormed(r) && Stored(w.sandbox, id, r.session, r.key)
    ensures CreateAnswer(w.sandbox, r, now, newId) == (w.sandbox, IdempotentReplay(id))
    ensures After(w, CreateAt(r, now, newId)) == w.(clock := now)
  {
    hide WellFormed, Malformed;
    MalformedIff(r);
    var i: nat :| StoredAt(w.sandbox, i, id, r.session, r.key);
    StoredIsEarlier(w.sandbox, r, i);
  }

  /** No action of a list forgets the run that this session and key were given. */
  ghost predicate NeverForgotten(w: World, actions: seq<Action>, id: string, session: string, key: string) {
    forall n: nat, i: nat :: n < |actions| && RunAll(w, actions[..n]).Some?
      && StoredAt(RunAll(w, actions[..n]).value.sandbox, i, id, session, key)
      ==> !Forgets(RunAll(w, actions[..n]).value, actions[n], i)
  }

  lemma {:induction false} NeverForgottenInit(w: World, actions: seq<Action>, id: string, session: string, key: string)
    requires actions != [] && NeverForgotten(w, actions, id, session, key)
    ensures NeverForgotten(w, actions[..|actions| - 1], id, session, key)
  {
    var init := actions[..|actions| - 1];
    assert forall n: nat :: n < |init| ==> init[..n] == actions[..n];
  }

  lemma {:induction false} StaysStored(w: World, actions: seq<Action>, id: string, session: string, key: string)
    requires Tidy(w.sandbox) && Stored(w.sandbox, id, session, key) && RunAll(w, actions).Some?
    requires NeverForgotten(w, actions, id, session, key)
    ensures Tidy(RunAll(w, actions).value.sandbox) && Stored(RunAll(w, actions).value.sandbox, id, session, key)
  {
    hide Tidy, After, Forgets;
    if actions != [] {
      var n := |actions| - 1;
      var mid := RunAll(w, actions[..n]).value;
      NeverForgottenInit(w, actions, id, session, key);
      StaysStored(w, actions[..n], id, session, key);
      var i: nat :| StoredAt(mid.sandbox, i, id, session, key);
      StaysStoredIff(mid, actions[n], i);
      StepIsTidy(mid, actions[n]);
    }
  }

  /** A key is accepted once: after an accepted create, through any later actions that do not forget its
      run, every further well-formed create of that session and key, whoever sends it and whenever, is
      answered with that run and changes neither what is stored nor what was ever accepted. */
  lemma {:induction false} KeyIsAcceptedOnce(
    w: World, before: seq<Action>, r: CreateRequest, now: int, id: string, later: seq<Action>, again: CreateRequest, at: int, newId: string)
    requires Initial(w) && RunAll(w, before).Some?
    requires var mid := RunAll(w, before).value;
      mid.clock <= now && CreateAnswer(mid.sandbox, r, now, id).1 == Created(id)
    requires var accepted := After(RunAll(w, before).value, CreateAt(r, now, id));
      && RunAll(accepted, later).Some? && NeverForgotten(accepted, later, id, r.session, r.key)
      && RunAll(accepted, later).value.clock <= at
    requires WellFormed(again) && again.session == r.session && again.key == r.key
    ensures var end := RunAll(After(RunAll(w, before).value, CreateAt(r, now, id)), later).value;
      && CreateAnswer(end.sandbox, again, at, newId) == (end.sandbox, IdempotentReplay(id))
      && After(end, CreateAt(again, at, newId)) == end.(clock := at)
  {
    hide Tidy, WellFormed, NeverForgotten;
    var mid := RunAll(w, before).value;
    var accepted := After(mid, CreateAt(r, now, id));
    RunIsTidy(w, before);
    StepIsTidy(mid, CreateAt(r, now, id));
    CreatedIsStored(mid, r, now, id);
    StaysStored(accepted, later, id, r.session, r.key);
    StoredReplays(RunAll(accepted, later).value, again, at, newId, id);
  }

  lemma {:induction false} CreatedIsStored(w: World, r: CreateRequest, now: int, id: string)
    requires Tidy(w.sandbox) && CreateAnswer(w.sandbox, r, now, id).1 == Created(id)
    ensures Stored(After(w, CreateAt(r, now, id)).sandbox, id, r.session, r.key)
  {
    hide Malformed, InWindow, Pruned;
    assert Refusal(w.sandbox, r, now).None? by { RefusalCreatesNothing(w.sandbox, r, now); }
    AcceptedIsTidy(w.sandbox, r, now, id);
    var runs := Accepted(w.sandbox, r, now, id).runs;
    var k :| 0 <= k < |runs| && runs[k] == NewRun(r, now, id);
    assert StoredAt(Accepted(w.sandbox, r, now, id), k, id, r.session, r.key);
  }

  /** The run that a create request leaves, and what its first stream makes of it: it is RUNNING, not
      started and without events; then it holds every event before the failure and is COMPLETED, or
      FAILED when the stream raised. */
  lemma {:induction false} CreatedRunStreams(w: World, r: CreateRequest, now: int, id: string, generated: nat, failsAt: Option<nat>)
    requires Tidy(w.sandbox) && CreateAnswer(w.sandbox, r, now, id).1 == Created(id)
    ensures var runs := After(w, CreateAt(r, now, id)).sandbox.runs;
      && Find(runs, id) == Some(Run(id, Running, r.session, r.key, now, false, 0))
      && var fails := failsAt.Some? && failsAt.value < generated;
      Find(WriteAll(runs, id, StreamWrites(generated, failsAt)), id) == Some(
        Run(id, if fails then Failed else Completed, r.session, r.key, now, true, if fails then failsAt.value else generated))
  {
    hide Malformed, InWindow, Pruned, Refusal, StreamWrites;
    assert Refusal(w.sandbox, r, now).None? by { RefusalCreatesNothing(w.sandbox, r, now); }
    AcceptedIsTidy(w.sandbox, r, now, id);
    var runs := Accepted(w.sandbox, r, now, id).runs;
    var k :| 0 <= k < |runs| && runs[k] == NewRun(r, now, id);
    FindDistinct(runs, k);
    StreamedRun(runs, id, generated, failsAt, k);
    var after := WriteAll(runs, id, StreamWrites(generated, failsAt));
    StreamKeepsRuns(runs, id, StreamWrites(generated, failsAt));
    FindDistinct(after, k);
  }

  lemma {:induction false} RefusalCreatesNothing(s: Sandbox, r: CreateRequest, now: int)
    ensures Refusal(s, r, now).Some? ==> !Refusal(s, r, now).value.Created?
  {
  }

  // ---------------------------------------------------------------- the whole answer

  /** Every id is given to one create request only; the source draws it at random. */
  predicate NoReuse(actions: seq<Action>) {
    forall i, j :: 0 <= i < j < |actions| && actions[i].CreateAt? && actions[j].CreateAt? ==> actions[i].id != actions[j].id
  }

  ghost predicate Used(actions: seq<Action>, id: string) {
    exists i :: 0 <= i < |actions| && actions[i].CreateAt? && actions[i].id == id
  }

  predicate PairOf(x: Run, pair: (string, string)) {
    pair == (x.session, x.idempotencyKey)
  }

  /** Ids come from requests, and an id that some key points to is stored, if at all, under that key. */
  ghost predicate Pointed(s: Sandbox, actions: seq<Action>) {
    && (forall pair :: pair in s.idempotency ==> Used(actions, s.idempotency[pair]))
    && (forall x :: x in s.runs ==> Used(actions, x.id))
    && (forall pair, x :: pair in s.idempotency && x in s.runs && x.id == s.idempotency[pair] ==> PairOf(x, pair))
  }

  lemma {:induction false} UsedGrows(actions: seq<Action>, a: Action, id: string)
    ensures Used(actions, id) ==> Used(actions + [a], id)
    ensures a.CreateAt? ==> Used(actions + [a], a.id)
  {
    if Used(actions, id) {
      var i :| 0 <= i < |actions| && actions[i].CreateAt? && actions[i].id == id;
      assert (actions + [a])[i] == actions[i];
    }
    assert (actions + [a])[|actions|] == a;
  }

  lemma {:induction false} MarkedIsStored(s: Sandbox, now: int, x: Run) returns (y: Run)
    requires x in MarkStale(s.runs, now)
    ensures y in s.runs && y.id == x.id && y.session == x.session && y.idempotencyKey == x.idempotencyKey
  {
    var j :| 0 <= j < |s.runs| && MarkStale(s.runs, now)[j] == x;
    y := s.runs[j];
  }

  lemma {:induction false} AcceptedIsPointed(s: Sandbox, actions: seq<Action>, r: CreateRequest, now: int, id: string)
    requires Tidy(s) && Pointed(s, actions) && Refusal(s, r, now).None? && !Used(actions, id)
    ensures Pointed(Accepted(s, r, now, id), actions + [CreateAt(r, now, id)])
  {
    hide Used, DistinctIds, KeysPoint, Refusal, Pruned, WithNew, AcceptedAttempts, MarkStale;
    var after, all := Accepted(s, r, now, id), actions + [CreateAt(r, now, id)];
    AcceptedRunsAre(s, r, now, id) by { TidyIsDistinct(s); }
    forall x ensures Used(actions, x) ==> Used(all, x) { UsedGrows(actions, CreateAt(r, now, id), x); }
    UsedGrows(actions, CreateAt(r, now, id), id);
    forall x | x in after.runs ensures Used(all, x.id) {
      if x != NewRun(r, now, id) { var y := MarkedIsStored(s, now, x); }
    }
    forall pair, x | pair in after.idempotency && x in after.runs && x.id == after.idempotency[pair] ensures PairOf(x, pair) {
      if x != NewRun(r, now, id) {
        var y := MarkedIsStored(s, now, x);
        assert PairOf(y, pair);
      }
    }
  }

  lemma {:induction false} TidyIsDistinct(s: Sandbox)
    requires Tidy(s)
    ensures DistinctIds(s.runs)
  {
  }

  ghost predicate Inherits(runs: seq<Run>, x: Run) {
    exists y :: y in runs && y.id == x.id && y.session == x.session && y.idempotencyKey == x.idempotencyKey
  }

  lemma {:induction false} InheritedIsPointed(s: Sandbox, after: Sandbox, actions: seq<Action>, a: Action)
    requires Pointed(s, actions) && forall x :: x in after.runs ==> Inherits(s.runs, x)
    requires forall pair :: pair in after.idempotency ==> pair in s.idempotency && after.idempotency[pair] == s.idempotency[pair]
    ensures Pointed(after, actions + [a])
  {
    hide Used;
    forall x ensures Used(actions, x) ==> Used(actions + [a], x) { UsedGrows(actions, a, x); }
    forall pair, x | pair in after.idempotency && x in after.runs && x.id == after.idempotency[pair] ensures PairOf(x, pair) {
      var y :| y in s.runs && y.id == x.id && y.session == x.session && y.idempotencyKey == x.idempotencyKey;
      assert PairOf(y, pair);
    }
  }

  lemma {:induction false} OtherStepIsPointed(w: World, actions: seq<Action>, a: Action)
    requires Tidy(w.sandbox) && Pointed(w.sandbox, actions)
    requires a.CreateAt? ==> Refusal(w.sandbox, a.request, a.now).Some?
    ensures Pointed(After(w, a).sandbox, actions + [a])
  {
    hide Pointed, After, Tidy, Inherits;
    forall x | x in After(w, a).sandbox.runs ensures Inherits(w.sandbox.runs, x) { StepInherits(w, a, x); }
    StepDropsKeys(w, a);
    InheritedIsPointed(w.sandbox, After(w, a).sandbox, actions, a);
  }

  lemma {:induction false} StepInherits(w: World, a: Action, x: Run)
    requires Tidy(w.sandbox) && x in After(w, a).sandbox.runs
    requires a.CreateAt? ==> Refusal(w.sandbox, a.request, a.now).Some?
    ensures Inherits(w.sandbox.runs, x)
  {
    hide Refusal, Accepted, Inherits, KeysPoint, SessionOk, Dropped, Find;
    var s, after := w.sandbox, After(w, a).sandbox;
    match a
    case CreateAt(_, _, _) => Inherited(s.runs, x, x);
    case ResetAt(_, id) =>
      DroppedRuns(s.runs, id);
      Inherited(s.runs, x, x);
    case StreamAt(_, _) =>
      var j :| 0 <= j < |after.runs| && after.runs[j] == x;
      Inherited(s.runs, x, s.runs[j]);
  }

  lemma {:induction false} Inherited(runs: seq<Run>, x: Run, y: Run)
    requires y in runs && y.id == x.id && y.session == x.session && y.idempotencyKey == x.idempotencyKey
    ensures Inherits(runs, x)
  {
  }

  lemma {:induction false} StepDropsKeys(w: World, a: Action)
    requires a.CreateAt? ==> Refusal(w.sandbox, a.request, a.now).Some?
    ensures var before, after := w.sandbox.idempotency, After(w, a).sandbox.idempotency;
      forall pair :: pair in after ==> pair in before && after[pair] == before[pair]
  {
    hide Refusal, Accepted;
  }

  lemma {:induction false} RunIsPointed(w: World, actions: seq<Action>)
    requires Initial(w) && RunAll(w, actions).Some? && NoReuse(actions)
    ensures Pointed(RunAll(w, actions).value.sandbox, actions)
  {
    hide Pointed, Used, Tidy, Accepted, Refusal;
    if actions == [] {
      EmptyIsPointed(w.sandbox);
    } else {
      var n := |actions| - 1;
      var init, a, mid := actions[..n], actions[n], RunAll(w, actions[..n]).value;
      assert NoReuse(init);
      RunIsPointed(w, init);
      RunIsTidy(w, init);
      assert actions == init + [a];
      if a.CreateAt? && Refusal(mid.sandbox, a.request, a.now).None? {
        assert !Used(init, a.id) by { FreshIsUnused(actions); }
        AcceptedIsPointed(mid.sandbox, init, a.request, a.now, a.id);
      } else {
        OtherStepIsPointed(mid, init, a);
      }
    }
  }

  lemma {:induction false} EmptyIsPointed(s: Sandbox)
    requires s == Sandbox([], map[], map[])
    ensures Pointed(s, [])
  {
  }

  lemma {:induction false} FreshIsUnused(actions: seq<Action>)
    requires NoReuse(actions) && actions != [] && actions[|actions| - 1].CreateAt?
    ensures !Used(actions[..|actions| - 1], actions[|actions| - 1].id)
  {
  }

  /** A request is a repetition exactly when a run of its session and key is stored. */
  lemma {:induction false} EarlierIff(s: Sandbox, actions: seq<Action>, r: CreateRequest)
    requires Tidy(s) && Pointed(s, actions)
    ensures Earlier(s, r).Some? <==> exists id :: Stored(s, id, r.session, r.key)
    ensures forall id :: Stored(s, id, r.session, r.key) ==> Earlier(s, r) == Some(id)
  {
    hide Used;
    forall id | Stored(s, id, r.session, r.key) ensures Earlier(s, r) == Some(id) {
      var i: nat :| StoredAt(s, i, id, r.session, r.key);
      StoredIsEarlier(s, r, i);
    }
    if Earlier(s, r).Some? {
      var id := s.idempotency[(r.session, r.key)];
      FindIsStored(s.runs, id);
      var i :| 0 <= i < |s.runs| && s.runs[i] == Find(s.runs, id).value;
      assert PairOf(s.runs[i], (r.session, r.key));
      assert StoredAt(s, i, id, r.session, r.key);
      assert Stored(s, id, r.session, r.key);
    }
  }

  /** How many runs of a session were accepted less than ten minutes before `now`. */
  function RecentOf(history: seq<Entry>, session: string, now: int): nat {
    if history == [] then 0
    else
      var last := history[|history| - 1];
      RecentOf(history[..|history| - 1], session, now) + (if last.session == session && now - last.time < 600000 then 1 else 0)
  }

  /** How many runs of a client were accepted less than ten minutes before `now`. */
  function RecentFrom(history: seq<Entry>, client: string, now: int): nat {
    if history == [] then 0
    else
      var last := history[|history| - 1];
      RecentFrom(history[..|history| - 1], client, now) + (if last.client == client && now - last.time < 600000 then 1 else 0)
  }

  lemma {:induction false} RecentOfReads(history: seq<Entry>, session: string, now: int)
    ensures |InWindow(TimesOf(history, SessionKey(session)), now)| == RecentOf(history, session, now)
  {
    if history != [] {
      var init, last := history[..|history| - 1], history[|history| - 1];
      RecentOfReads(init, session, now);
      WindowSnoc(TimesOf(init, SessionKey(session)), last.time, now);
      assert TimesOf(init, SessionKey(session)) + [] == TimesOf(init, SessionKey(session));
    }
  }

  lemma {:induction false} RecentFromReads(history: seq<Entry>, client: string, now: int)
    ensures |InWindow(TimesOf(history, ClientKey(client)), now)| == RecentFrom(history, client, now)
  {
    if history != [] {
      var init, last := history[..|history| - 1], history[|history| - 1];
      RecentFromReads(init, client, now);
      WindowSnoc(TimesOf(init, ClientKey(client)), last.time, now);
      assert TimesOf(init, ClientKey(client)) + [] == TimesOf(init, ClientKey(client));
    }
  }

  /** A run that has not timed out yet is executing. */
  predicate Executing(s: Sandbox, now: int) {
    exists i :: 0 <= i < |s.runs| && s.runs[i].status == Running && now - s.runs[i].createdAt <= 20000
  }

  lemma {:induction false} ExecutingIff(s: Sandbox, now: int)
    ensures AnyRunning(MarkStale(s.runs, now)) <==> Executing(s, now)
  {
    var marked := MarkStale(s.runs, now);
    if Executing(s, now) {
      var i :| 0 <= i < |s.runs| && s.runs[i].status == Running && now - s.runs[i].createdAt <= 20000;
      assert marked[i].status == Running;
    }
    if i :| 0 <= i < |marked| && marked[i].status == Running {
      assert marked[i] == Aged(s.runs[i], now);
    }
  }

  /** The answer to a well-formed request that repeats none. */
  function NewAnswer(w: World, r: CreateRequest, now: int, id: string): Response {
    if RecentOf(w.history, r.session, now) >= 3 then RateLimited
    else if RecentFrom(w.history, r.client, now) >= 12 then ClientRateLimited
    else if Executing(w.sandbox, now) then Busy
    else Created(id)
  }

  /** The answer to a create request, read off what was ever accepted and what is stored: a repetition
      is answered with its run, then the session's three and the client's twelve runs in ten minutes
      count, then one executing run; a run is created exactly when nothing of this stands in the way. */
  lemma {:induction false} CreateAnswered(w: World, actions: seq<Action>, r: CreateRequest, now: int, id: string)
    requires Initial(w) && RunAll(w, actions).Some? && NoReuse(actions) && RunAll(w, actions).value.clock <= now
    ensures var end := RunAll(w, actions).value;
      var (after, answer) := CreateAnswer(end.sandbox, r, now, id);
      && (!WellFormed(r) ==> answer in {InvalidSession, PayloadTooLarge, InvalidJson, FixedScenarioOnly, InvalidKey})
      && (WellFormed(r) ==>
        && (forall x :: Stored(end.sandbox, x, r.session, r.key) ==> answer == IdempotentReplay(x))
        && ((forall x :: !Stored(end.sandbox, x, r.session, r.key)) ==> answer == NewAnswer(end, r, now, id)))
      && (!answer.Created? ==> after == end.sandbox)
  {
    hide Tidy, Pointed, WellFormed, Malformed, Stored, Executing, Earlier, Accepted, Initial, RunAll, InWindow, NoReuse;
    var end := RunAll(w, actions).value;
    RunIsTidy(w, actions);
    RunIsPointed(w, actions);
    MalformedIff(r);
    EarlierIff(end.sandbox, actions, r);
    ExecutingIff(end.sandbox, now);
    LimiterSeesFullHistory(w, actions, SessionKey(r.session), now);
    LimiterSeesFullHistory(w, actions, ClientKey(r.client), now);
    RecentOfReads(end.history, r.session, now);
    RecentFromReads(end.history, r.client, now);
  }
}
