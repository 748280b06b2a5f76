/** Field-level impact analysis: one pass over the downstream assets in degree order. */
module Impact {
  import opened Common
  import opened PolicyEngine

  type Urn = string
  type Field = string

  /** `upstream` feeds `downstream`. */
  datatype Edge = Edge(upstream: Field, downstream: Field)

  /** A lineage hit; `kind` is its entity type in upper case, empty when unknown. */
  datatype Hit = Hit(urn: Urn, name: string, degree: int, kind: string)

  /** The fine-grained edges stored on each asset. */
  type Lineage = Urn -> seq<Edge>

  predicate Considered(hit: Hit) {
    hit.kind == "" || hit.kind == "DATASET"
  }

  function FieldUrn(urn: Urn, field: string): Field {
    "urn:li:schemaField:(" + urn + "," + field + ")"
  }

  function SourceFields(urn: Urn, fields: seq<string>): set<Field> {
    set f | f in fields :: FieldUrn(urn, f)
  }

  // ---------------------------------------------------------------- ordering by degree

  /** Stable insertion: after every hit of the same or a smaller degree. */
  function Insert(sorted: seq<Hit>, hit: Hit): seq<Hit> {
    if sorted == [] || sorted[|sorted| - 1].degree <= hit.degree then sorted + [hit]
    else Insert(sorted[..|sorted| - 1], hit) + [sorted[|sorted| - 1]]
  }

  function ByDegree(hits: seq<Hit>): seq<Hit> {
    if hits == [] then [] else Insert(ByDegree(hits[..|hits| - 1]), hits[|hits| - 1])
  }

  predicate Ascending(hits: seq<Hit>) {
    forall i, j :: 0 <= i < j < |hits| ==> hits[i].degree <= hits[j].degree
  }

  function OfDegree(hits: seq<Hit>, degree: int): seq<Hit> {
    if hits == [] then []
    else
      var last := hits[|hits| - 1];
      OfDegree(hits[..|hits| - 1], degree) + (if last.degree == degree then [last] else [])
  }

  lemma {:induction false} InsertKeeps(sorted: seq<Hit>, hit: Hit)
    ensures multiset(Insert(sorted, hit)) == multiset(sorted) + multiset{hit}
  {
    if sorted != [] && sorted[|sorted| - 1].degree > hit.degree {
      var init, last := sorted[..|sorted| - 1], sorted[|sorted| - 1];
      InsertKeeps(init, hit);
      assert sorted == init + [last];
    }
  }

  lemma {:induction false} InsertSorts(sorted: seq<Hit>, hit: Hit)
    requires Ascending(sorted)
    ensures Ascending(Insert(sorted, hit))
  {
    if sorted == [] || sorted[|sorted| - 1].degree <= hit.degree {
    } else {
      var init, last := sorted[..|sorted| - 1], sorted[|sorted| - 1];
      InsertSorts(init, hit);
      InsertKeeps(init, hit);
      forall h | h in Insert(init, hit) ensures h.degree <= last.degree {
        assert h in multiset(Insert(init, hit));
      }
    }
  }

  lemma {:induction false} InsertIsStable(sorted: seq<Hit>, hit: Hit, d: int)
    requires Ascending(sorted)
    ensures OfDegree(Insert(sorted, hit), d) == OfDegree(sorted, d) + (if hit.degree == d then [hit] else [])
  {
    if sorted == [] || sorted[|sorted| - 1].degree <= hit.degree {
      assert (sorted + [hit])[..|sorted|] == sorted;
    } else {
      var init, last := sorted[..|sorted| - 1], sorted[|sorted| - 1];
      InsertIsStable(init, hit, d);
      var low := Insert(init, hit);
      assert (low + [last])[..|low|] == low;
    }
  }

  /** The order is by degree, and hits of one degree keep their order. */
  lemma {:induction false} ByDegreeIsStable(hits: seq<Hit>)
    ensures Ascending(ByDegree(hits))
    ensures multiset(ByDegree(hits)) == multiset(hits)
    ensures forall d :: OfDegree(ByDegree(hits), d) == OfDegree(hits, d)
  {
    if hits != [] {
      hide Insert, Ascending;
      var init, last := hits[..|hits| - 1], hits[|hits| - 1];
      ByDegreeIsStable(init);
      InsertSorts(ByDegree(init), last);
      InsertKeeps(ByDegree(init), last);
      assert hits == init + [last];
      forall d ensures OfDegree(ByDegree(hits), d) == OfDegree(hits, d) {
        InsertIsStable(ByDegree(init), last, d);
      }
    }
  }

  // ---------------------------------------------------------------- the pass

  function Propagated(edges: seq<Edge>, tainted: set<Field>): set<Field> {
    set e | e in edges && e.upstream in tainted :: e.downstream
  }

  /** The fields one hit adds. */
  function Added(lineage: Lineage, hit: Hit, tainted: set<Field>): set<Field> {
    if Considered(hit) then Propagated(lineage(hit.urn), tainted) else {}
  }

  function Taint(lineage: Lineage, hits: seq<Hit>, start: set<Field>): set<Field> {
    if hits == [] then start
    else
      var before := Taint(lineage, hits[..|hits| - 1], start);
      before + Added(lineage, hits[|hits| - 1], before)
  }

  /** Considered hits that add a field (`reached`) or add none, in order. */
  function Split(lineage: Lineage, hits: seq<Hit>, start: set<Field>, reached: bool): seq<Hit> {
    if hits == [] then []
    else
      var init, hit := hits[..|hits| - 1], hits[|hits| - 1];
      var adds := Added(lineage, hit, Taint(lineage, init, start)) != {};
      Split(lineage, init, start, reached) + (if Considered(hit) && adds == reached then [hit] else [])
  }

  function UrnsOf(hits: seq<Hit>): (r: seq<Urn>)
    ensures |r| == |hits| && forall i :: 0 <= i < |r| ==> r[i] == hits[i].urn
  {
    seq(|hits|, i requires 0 <= i < |hits| => hits[i].urn)
  }

  function NameOf(hit: Hit): string {
    if hit.name != "" then hit.name else hit.urn
  }

  function NamesOf(hits: seq<Hit>): (r: seq<string>)
    ensures |r| == |hits| && forall i :: 0 <= i < |r| ==> r[i] == NameOf(hits[i])
  {
    seq(|hits|, i requires 0 <= i < |hits| => NameOf(hits[i]))
  }

  datatype FieldImpact = FieldImpact(
    sourceUrn: Urn,
    sourceFields: seq<string>,
    affectedUrns: seq<Urn>,
    affectedNames: seq<string>,
    unaffectedUrns: seq<Urn>,
    unaffectedNames: seq<string>,
    tainted: set<Field>)

  /** Comma-separated segments. */
  function Segments(s: string): (r: seq<string>)
    ensures |r| > 0
  {
    if s == "" then [""]
    else
      var r := Segments(s[..|s| - 1]);
      if s[|s| - 1] == ',' then r + [""]
      else r[..|r| - 1] + [r[|r| - 1] + [s[|s| - 1]]]
  }

  /** The last segment but one; a URN without a comma has none. */
  function SourceName(urn: Urn): Option<string> {
    var parts := Segments(urn);
    if |parts| < 2 then None else Some(parts[|parts| - 2])
  }

  datatype ImpactError = NoSourceName

  /** The impact after visiting these hits in order. */
  function ImpactAfter(
    lineage: Lineage, hits: seq<Hit>, sourceUrn: Urn, sourceName: string, sourceFields: seq<string>): FieldImpact
  {
    var start := SourceFields(sourceUrn, sourceFields);
    var reached, missed := Split(lineage, hits, start, true), Split(lineage, hits, start, false);
    FieldImpact(
      sourceUrn, sourceFields, [sourceUrn] + UrnsOf(reached), [sourceName] + NamesOf(reached),
      UrnsOf(missed), NamesOf(missed), Taint(lineage, hits, start))
  }

  lemma {:induction false} ImpactStep(
    lineage: Lineage, hits: seq<Hit>, hit: Hit, sourceUrn: Urn, sourceName: string, sourceFields: seq<string>)
    ensures var before := ImpactAfter(lineage, hits, sourceUrn, sourceName, sourceFields);
      var added := Added(lineage, hit, before.tainted);
      ImpactAfter(lineage, hits + [hit], sourceUrn, sourceName, sourceFields) ==
        if !Considered(hit) then before
        else if added != {} then before.(
          tainted := before.tainted + added,
          affectedUrns := before.affectedUrns + [hit.urn],
          affectedNames := before.affectedNames + [NameOf(hit)])
        else before.(
          unaffectedUrns := before.unaffectedUrns + [hit.urn],
          unaffectedNames := before.unaffectedNames + [NameOf(hit)])
  {
    var start := SourceFields(sourceUrn, sourceFields);
    assert (hits + [hit])[..|hits|] == hits;
    var t := Taint(lineage, hits, start);
    assert t + {} == t;
    var reached, missed := Split(lineage, hits, start, true), Split(lineage, hits, start, false);
    assert reached + [] == reached && missed + [] == missed;
  }

  method TraceFieldImpact(lineage: Lineage, downstream: seq<Hit>, sourceUrn: Urn, sourceFields: seq<string>)
    returns (result: Result<FieldImpact, ImpactError>)
    ensures result == match SourceName(sourceUrn)
      case None => Err(NoSourceName)
      case Some(name) => Ok(ImpactAfter(lineage, ByDegree(downstream), sourceUrn, name, sourceFields))
  {
    var tainted := SourceFields(sourceUrn, sourceFields);
    var name := SourceName(sourceUrn);
    if name.None? {
      return Err(NoSourceName);
    }
    var affectedUrns, affectedNames := [sourceUrn], [name.value];
    var unaffectedUrns: seq<Urn>, unaffectedNames: seq<string> := [], [];
    var hits := ByDegree(downstream);
    for i := 0 to |hits|
      invariant FieldImpact(sourceUrn, sourceFields, affectedUrns, affectedNames, unaffectedUrns, unaffectedNames, tainted)
             == ImpactAfter(lineage, hits[..i], sourceUrn, name.value, sourceFields)
    {
      var hit := hits[i];
      assert hits[..i + 1] == hits[..i] + [hit];
      ImpactStep(lineage, hits[..i], hit, sourceUrn, name.value, sourceFields);
      if !Considered(hit) {
        continue;
      }
      var propagated := Propagated(lineage(hit.urn), tainted);
      if propagated != {} {
        tainted := tainted + propagated;
        affectedUrns, affectedNames := affectedUrns + [hit.urn], affectedNames + [NameOf(hit)];
      } else {
        unaffectedUrns, unaffectedNames := unaffectedUrns + [hit.urn], unaffectedNames + [NameOf(hit)];
      }
    }
    assert hits[..|hits|] == hits;
    return Ok(FieldImpact(
      sourceUrn, sourceFields, affectedUrns, affectedNames, unaffectedUrns, unaffectedNames, tainted));
  }

  // ---------------------------------------------------------------- reachability

  /** Some considered hit stores this edge. */
  predicate Feeds(lineage: Lineage, hits: seq<Hit>, upstream: Field, downstream: Field) {
    exists i :: 0 <= i < |hits| && FeedsAt(lineage, hits, i, upstream, downstream)
  }

  predicate FeedsAt(lineage: Lineage, hits: seq<Hit>, i: nat, upstream: Field, downstream: Field)
    requires i < |hits|
  {
    Considered(hits[i]) && Edge(upstream, downstream) in lineage(hits[i].urn)
  }

  /** A path of stored edges that starts in `start`. */
  predicate Path(lineage: Lineage, hits: seq<Hit>, start: set<Field>, path: seq<Field>) {
    && path != [] && path[0] in start
    && forall i :: 0 < i < |path| ==> Feeds(lineage, hits, path[i - 1], path[i])
  }

  ghost predicate Reachable(lineage: Lineage, hits: seq<Hit>, start: set<Field>, f: Field) {
    exists path :: Path(lineage, hits, start, path) && path[|path| - 1] == f
  }

  lemma {:induction false} StartIsReachable(lineage: Lineage, hits: seq<Hit>, start: set<Field>, f: Field)
    requires f in start
    ensures Reachable(lineage, hits, start, f)
  {
    assert Path(lineage, hits, start, [f]);
  }

  lemma {:induction false} ReachableStep(lineage: Lineage, hits: seq<Hit>, start: set<Field>, f: Field, next: Field)
    requires Reachable(lineage, hits, start, f) && Feeds(lineage, hits, f, next)
    ensures Reachable(lineage, hits, start, next)
  {
    var path :| Path(lineage, hits, start, path) && path[|path| - 1] == f;
    var more := path + [next];
    forall i | 0 < i < |more| ensures Feeds(lineage, hits, more[i - 1], more[i]) {
      if i < |path| { assert Feeds(lineage, hits, path[i - 1], path[i]); }
    }
    assert Path(lineage, hits, start, more);
  }

  /** Soundness, for every order of hits: only reachable fields are ever tainted. */
  lemma {:induction false} TaintIsReachable(lineage: Lineage, hits: seq<Hit>, n: nat, start: set<Field>, f: Field)
    requires n <= |hits| && f in Taint(lineage, hits[..n], start)
    ensures Reachable(lineage, hits, start, f)
  {
    if n == 0 {
      StartIsReachable(lineage, hits, start, f);
    } else {
      assert hits[..n][..n - 1] == hits[..n - 1];
      var before := Taint(lineage, hits[..n - 1], start);
      if f in before {
        TaintIsReachable(lineage, hits, n - 1, start, f);
      } else {
        var e :| e in lineage(hits[n - 1].urn) && e.upstream in before && e.downstream == f;
        TaintIsReachable(lineage, hits, n - 1, start, e.upstream);
        assert FeedsAt(lineage, hits, n - 1, e.upstream, f);
        ReachableStep(lineage, hits, start, e.upstream, f);
      }
    }
  }

  lemma {:induction false} TaintGrows(lineage: Lineage, hits: seq<Hit>, m: nat, n: nat, start: set<Field>)
    requires m <= n <= |hits|
    ensures Taint(lineage, hits[..m], start) <= Taint(lineage, hits[..n], start)
  {
    if m < n {
      TaintGrows(lineage, hits, m, n - 1, start);
      assert hits[..n][..n - 1] == hits[..n - 1];
    }
  }

  /** Whenever one asset's edge continues another's, its degree is strictly larger. */
  ghost predicate Increasing(lineage: Lineage, hits: seq<Hit>) {
    forall i, j, u, f, d ::
      0 <= i < |hits| && 0 <= j < |hits| && FeedsAt(lineage, hits, i, u, f) && FeedsAt(lineage, hits, j, f, d)
      ==> hits[i].degree < hits[j].degree
  }

  /** Every edge that continues another is met after it. */
  ghost predicate PairsInOrder(lineage: Lineage, hits: seq<Hit>) {
    forall i, j, u, f, d ::
      0 <= i < |hits| && 0 <= j < |hits| && FeedsAt(lineage, hits, i, u, f) && FeedsAt(lineage, hits, j, f, d)
      ==> i < j
  }

  lemma {:induction false} IncreasingPairs(lineage: Lineage, hits: seq<Hit>)
    requires Ascending(hits) && Increasing(lineage, hits)
    ensures PairsInOrder(lineage, hits)
  {
    forall i, j, u, f, d |
      0 <= i < |hits| && 0 <= j < |hits| && FeedsAt(lineage, hits, i, u, f) && FeedsAt(lineage, hits, j, f, d)
      ensures i < j
    {
      assert hits[i].degree < hits[j].degree;
    }
  }

  /** A path's last field is tainted as soon as the asset storing its last edge is visited. */
  lemma {:induction false} PathIsTainted(lineage: Lineage, hits: seq<Hit>, start: set<Field>, path: seq<Field>, j: nat)
    requires PairsInOrder(lineage, hits)
    requires Path(lineage, hits, start, path) && |path| >= 2
    requires j < |hits| && FeedsAt(lineage, hits, j, path[|path| - 2], path[|path| - 1])
    ensures path[|path| - 1] in Taint(lineage, hits[..j + 1], start)
  {
    var n := |path|;
    assert hits[..j + 1][..j] == hits[..j];
    var f := path[n - 2];
    if n == 2 {
      TaintGrows(lineage, hits, 0, j, start);
    } else {
      assert Feeds(lineage, hits, path[n - 3], f);
      var i :| 0 <= i < |hits| && FeedsAt(lineage, hits, i, path[n - 3], f);
      PathIsTainted(lineage, hits, start, path[..n - 1], i);
      assert i < j;
      TaintGrows(lineage, hits, i + 1, j, start);
    }
    assert Edge(f, path[n - 1]) in lineage(hits[j].urn);
  }

  ghost predicate Complete(lineage: Lineage, hits: seq<Hit>, start: set<Field>) {
    forall f :: Reachable(lineage, hits, start, f) ==> f in Taint(lineage, hits, start)
  }

  /** When every edge is met before those that continue it, the pass is complete for all source fields. */
  lemma {:induction false} PairsInOrderSuffice(lineage: Lineage, hits: seq<Hit>, start: set<Field>)
    requires PairsInOrder(lineage, hits)
    ensures Complete(lineage, hits, start)
  {
    assert hits[..|hits|] == hits;
    forall f | Reachable(lineage, hits, start, f) ensures f in Taint(lineage, hits, start) {
      var path :| Path(lineage, hits, start, path) && path[|path| - 1] == f;
      if |path| == 1 {
        TaintGrows(lineage, hits, 0, |hits|, start);
      } else {
        assert Feeds(lineage, hits, path[|path| - 2], f);
        var j :| 0 <= j < |hits| && FeedsAt(lineage, hits, j, path[|path| - 2], f);
        PathIsTainted(lineage, hits, start, path, j);
        TaintGrows(lineage, hits, j + 1, |hits|, start);
      }
    }
  }

  /** Completeness: when degrees strictly increase along field edges, one pass finds exactly the
      reachable fields. */
  lemma {:induction false} TaintEqualsReachability(lineage: Lineage, downstream: seq<Hit>, start: set<Field>, f: Field)
    requires Increasing(lineage, ByDegree(downstream))
    ensures f in Taint(lineage, ByDegree(downstream), start) <==> Reachable(lineage, ByDegree(downstream), start, f)
  {
    var hits := ByDegree(downstream);
    ByDegreeIsStable(downstream);
    assert hits[..|hits|] == hits;
    if f in Taint(lineage, hits, start) {
      TaintIsReachable(lineage, hits, |hits|, start, f);
    }
    IncreasingPairs(lineage, hits);
    PairsInOrderSuffice(lineage, hits, start);
  }

  /** Nothing is left to add. */
  predicate Settled(lineage: Lineage, hits: seq<Hit>, t: set<Field>) {
    forall i :: 0 <= i < |hits| ==> Added(lineage, hits[i], t) <= t
  }

  lemma {:induction false} SecondPass(lineage: Lineage, hits: seq<Hit>, n: nat, t: set<Field>)
    requires n <= |hits|
    ensures Taint(lineage, hits[..n], t) == t <==> Settled(lineage, hits[..n], t)
  {
    if n > 0 {
      assert hits[..n] == hits[..n - 1] + [hits[n - 1]];
      assert hits[..n][..n - 1] == hits[..n - 1];
      SecondPass(lineage, hits, n - 1, t);
      var before := Taint(lineage, hits[..n - 1], t);
      TaintGrows(lineage, hits[..n], 0, n - 1, t);
      assert t <= before;
      if Settled(lineage, hits[..n], t) {
        assert forall i :: 0 <= i < n - 1 ==> hits[..n][i] == hits[..n - 1][i];
        assert hits[..n][n - 1] == hits[n - 1];
      }
      if before + Added(lineage, hits[n - 1], before) == t {
        assert before == t;
        forall i | 0 <= i < n ensures Added(lineage, hits[..n][i], t) <= t {
          if i < n - 1 { assert hits[..n - 1][i] == hits[i]; }
        }
      }
    }
  }

  lemma {:induction false} SettledHoldsPath(lineage: Lineage, hits: seq<Hit>, start: set<Field>, t: set<Field>, path: seq<Field>)
    requires start <= t && Settled(lineage, hits, t)
    requires Path(lineage, hits, start, path)
    ensures path[|path| - 1] in t
  {
    var n := |path|;
    if n > 1 {
      SettledHoldsPath(lineage, hits, start, t, path[..n - 1]);
      assert Feeds(lineage, hits, path[n - 2], path[n - 1]);
      var i :| 0 <= i < |hits| && FeedsAt(lineage, hits, i, path[n - 2], path[n - 1]);
      assert path[n - 1] in Added(lineage, hits[i], t);
    }
  }

  /** For arbitrary degrees: the pass is complete exactly when running it once more from its own
      result adds nothing. */
  lemma {:induction false} CompleteIffRepeatable(lineage: Lineage, hits: seq<Hit>, start: set<Field>)
    ensures (forall f :: Reachable(lineage, hits, start, f) ==> f in Taint(lineage, hits, start))
       <==> Taint(lineage, hits, Taint(lineage, hits, start)) == Taint(lineage, hits, start)
  {
    var t := Taint(lineage, hits, start);
    assert hits[..|hits|] == hits;
    SecondPass(lineage, hits, |hits|, t);
    TaintGrows(lineage, hits, 0, |hits|, start);
    if Settled(lineage, hits, t) {
      forall f | Reachable(lineage, hits, start, f) ensures f in t {
        var path :| Path(lineage, hits, start, path) && path[|path| - 1] == f;
        SettledHoldsPath(lineage, hits, start, t, path);
      }
    } else {
      var i :| 0 <= i < |hits| && !(Added(lineage, hits[i], t) <= t);
      var f :| f in Added(lineage, hits[i], t) && f !in t;
      var e :| e in lineage(hits[i].urn) && e.upstream in t && e.downstream == f;
      TaintIsReachable(lineage, hits, |hits|, start, e.upstream);
      assert FeedsAt(lineage, hits, i, e.upstream, f);
      ReachableStep(lineage, hits, start, e.upstream, f);
    }
  }

  /** A path whose edges are stored at assets visited one after the other. */
  ghost predicate InOrder(lineage: Lineage, hits: seq<Hit>, start: set<Field>, path: seq<Field>, visits: seq<nat>) {
    && |path| == |visits| + 1 && path[0] in start
    && (forall i :: 0 <= i < |visits| ==> visits[i] < |hits| && FeedsAt(lineage, hits, visits[i], path[i], path[i + 1]))
    && (forall i, j :: 0 <= i < j < |visits| ==> visits[i] < visits[j])
  }

  /** Such a path that ends in `f` before visit `n`. */
  ghost predicate EndsBefore(
    lineage: Lineage, hits: seq<Hit>, n: nat, start: set<Field>, f: Field, path: seq<Field>, visits: seq<nat>)
  {
    && InOrder(lineage, hits, start, path, visits) && path[|path| - 1] == f
    && forall i :: 0 <= i < |visits| ==> visits[i] < n
  }

  ghost predicate ReachedBefore(lineage: Lineage, hits: seq<Hit>, n: nat, start: set<Field>, f: Field) {
    exists path, visits :: EndsBefore(lineage, hits, n, start, f, path, visits)
  }

  lemma {:induction false} InOrderStep(
    lineage: Lineage, hits: seq<Hit>, start: set<Field>, path: seq<Field>, visits: seq<nat>, n: nat, f: Field)
    requires InOrder(lineage, hits, start, path, visits) && n < |hits| && FeedsAt(lineage, hits, n, path[|path| - 1], f)
    requires forall i :: 0 <= i < |visits| ==> visits[i] < n
    ensures InOrder(lineage, hits, start, path + [f], visits + [n])
  {
  }

  lemma {:induction false} TaintedInOrder(lineage: Lineage, hits: seq<Hit>, n: nat, start: set<Field>, f: Field)
    requires n <= |hits| && f in Taint(lineage, hits[..n], start)
    ensures ReachedBefore(lineage, hits, n, start, f)
  {
    if n == 0 {
      assert EndsBefore(lineage, hits, n, start, f, [f], []);
    } else {
      assert hits[..n][..n - 1] == hits[..n - 1];
      var before := Taint(lineage, hits[..n - 1], start);
      if f in before {
        TaintedInOrder(lineage, hits, n - 1, start, f);
        var path: seq<Field>, visits: seq<nat> :| EndsBefore(lineage, hits, n - 1, start, f, path, visits);
        assert EndsBefore(lineage, hits, n, start, f, path, visits);
      } else {
        var e :| e in lineage(hits[n - 1].urn) && e.upstream in before && e.downstream == f;
        TaintedInOrder(lineage, hits, n - 1, start, e.upstream);
        var path: seq<Field>, visits: seq<nat> :| EndsBefore(lineage, hits, n - 1, start, e.upstream, path, visits);
        InOrderStep(lineage, hits, start, path, visits, n - 1, f);
        assert EndsBefore(lineage, hits, n, start, f, path + [f], visits + [n - 1]);
      }
    }
  }

  lemma {:induction false} InOrderIsTainted(
    lineage: Lineage, hits: seq<Hit>, n: nat, start: set<Field>, path: seq<Field>, visits: seq<nat>)
    requires n <= |hits| && InOrder(lineage, hits, start, path, visits)
    requires forall i :: 0 <= i < |visits| ==> visits[i] < n
    ensures path[|path| - 1] in Taint(lineage, hits[..n], start)
    decreases |visits|
  {
    if visits == [] {
      TaintGrows(lineage, hits, 0, n, start);
    } else {
      var k, last := |visits| - 1, visits[|visits| - 1];
      InOrderIsTainted(lineage, hits, last, start, path[..k + 1], visits[..k]);
      assert hits[..last + 1][..last] == hits[..last];
      assert Edge(path[k], path[k + 1]) in lineage(hits[last].urn);
      TaintGrows(lineage, hits, last + 1, n, start);
    }
  }

  /** What one pass finds, for any order of hits: exactly the fields at the end of a path whose
      edges are met one after the other. It can be read off the lineage before the call. */
  lemma {:induction false} TaintIsOrderedReach(lineage: Lineage, hits: seq<Hit>, n: nat, start: set<Field>, f: Field)
    requires n <= |hits|
    ensures f in Taint(lineage, hits[..n], start) <==> ReachedBefore(lineage, hits, n, start, f)
  {
    if f in Taint(lineage, hits[..n], start) {
      TaintedInOrder(lineage, hits, n, start, f);
    }
    if path: seq<Field>, visits: seq<nat> :| EndsBefore(lineage, hits, n, start, f, path, visits) {
      InOrderIsTainted(lineage, hits, n, start, path, visits);
    }
  }

  /** The pass is complete exactly when every field reached by some path is reached by one in order. */
  lemma {:induction false} CompleteIffInOrder(lineage: Lineage, hits: seq<Hit>, start: set<Field>)
    ensures Complete(lineage, hits, start)
       <==> forall f :: Reachable(lineage, hits, start, f) ==> ReachedBefore(lineage, hits, |hits|, start, f)
  {
    assert hits[..|hits|] == hits;
    forall f ensures f in Taint(lineage, hits, start) <==> ReachedBefore(lineage, hits, |hits|, start, f) {
      TaintIsOrderedReach(lineage, hits, |hits|, start, f);
    }
  }

  /** It is complete for every choice of source fields exactly when it is for each field alone. */
  lemma {:induction false} CompleteForAllStarts(lineage: Lineage, hits: seq<Hit>)
    ensures (forall start :: Complete(lineage, hits, start)) <==>
      forall a, f :: Reachable(lineage, hits, {a}, f) ==> ReachedBefore(lineage, hits, |hits|, {a}, f)
  {
    if forall start :: Complete(lineage, hits, start) {
      forall a, f | Reachable(lineage, hits, {a}, f) ensures ReachedBefore(lineage, hits, |hits|, {a}, f) {
        CompleteIffInOrder(lineage, hits, {a});
      }
    }
    if forall a, f :: Reachable(lineage, hits, {a}, f) ==> ReachedBefore(lineage, hits, |hits|, {a}, f) {
      forall start ensures Complete(lineage, hits, start) {
        CompleteIffInOrder(lineage, hits, start);
        forall f | Reachable(lineage, hits, start, f) ensures ReachedBefore(lineage, hits, |hits|, start, f) {
          var path :| Path(lineage, hits, start, path) && path[|path| - 1] == f;
          assert Path(lineage, hits, {path[0]}, path);
          assert Reachable(lineage, hits, {path[0]}, f);
          ReachedFromMore(lineage, hits, path[0], start, f);
        }
      }
    }
  }

  lemma {:induction false} ReachedFromMore(lineage: Lineage, hits: seq<Hit>, a: Field, start: set<Field>, f: Field)
    requires a in start && ReachedBefore(lineage, hits, |hits|, {a}, f)
    ensures ReachedBefore(lineage, hits, |hits|, start, f)
  {
    var path: seq<Field>, visits: seq<nat> :| EndsBefore(lineage, hits, |hits|, {a}, f, path, visits);
    assert EndsBefore(lineage, hits, |hits|, start, f, path, visits);
  }

  /** S feeds A, and feeds B both directly and through A. */
  function SkipEdge(urn: Urn): seq<Edge> {
    if urn == "A" then [Edge("s", "a")]
    else if urn == "B" then [Edge("a", "b"), Edge("s", "c")]
    else []
  }

  lemma {:induction false} SkipEdgeTaint()
    ensures var b, a := Hit("B", "B", 1, "DATASET"), Hit("A", "A", 1, "DATASET");
      ByDegree([b, a]) == [b, a] && Taint(SkipEdge, [b, a], {"s"}) == {"s", "c", "a"}
  {
    var b, a := Hit("B", "B", 1, "DATASET"), Hit("A", "A", 1, "DATASET");
    assert [b, a][..1] == [b] && [b][..0] == [];
    assert ByDegree([b]) == [b];
    assert Taint(SkipEdge, [], {"s"}) == {"s"};
    assert Added(SkipEdge, b, {"s"}) == {"c"};
    assert Added(SkipEdge, a, {"s", "c"}) == {"a"};
  }

  /** Shortest-hop degrees do not suffice: A and B are both one hop from S, so B may be visited
      before A, and the field that A feeds on B is missed. */
  lemma {:induction false} ShortestHopMisses()
    ensures var hits := [Hit("B", "B", 1, "DATASET"), Hit("A", "A", 1, "DATASET")];
      Reachable(SkipEdge, ByDegree(hits), {"s"}, "b") && "b" !in Taint(SkipEdge, ByDegree(hits), {"s"})
  {
    var hits := [Hit("B", "B", 1, "DATASET"), Hit("A", "A", 1, "DATASET")];
    SkipEdgeTaint();
    assert FeedsAt(SkipEdge, hits, 1, "s", "a") && FeedsAt(SkipEdge, hits, 0, "a", "b");
    StartIsReachable(SkipEdge, hits, {"s"}, "s");
    ReachableStep(SkipEdge, hits, {"s"}, "s", "a");
    ReachableStep(SkipEdge, hits, {"s"}, "a", "b");
  }

  /** S feeds A and B, and A feeds the same field of B. */
  function Shortcut(urn: Urn): seq<Edge> {
    if urn == "A" then [Edge("s", "a")]
    else if urn == "B" then [Edge("a", "b"), Edge("s", "b")]
    else []
  }

  lemma {:induction false} ShortcutTaint(start: set<Field>)
    ensures var b, a := Hit("B", "B", 1, "DATASET"), Hit("A", "A", 1, "DATASET");
      Taint(Shortcut, [b, a], start) ==
        start + (if "a" in start || "s" in start then {"b"} else {}) + (if "s" in start then {"a"} else {})
  {
    var b, a := Hit("B", "B", 1, "DATASET"), Hit("A", "A", 1, "DATASET");
    var t := if "a" in start || "s" in start then {"b"} else {};
    assert [b, a][..1] == [b] && [b][..0] == [];
    assert Taint(Shortcut, [], start) == start;
    assert Shortcut("B")[0] == Edge("a", "b") && Shortcut("B")[1] == Edge("s", "b") && Shortcut("A")[0] == Edge("s", "a");
    assert Added(Shortcut, b, start) == t;
    assert Taint(Shortcut, [b], start) == start + t;
    assert Added(Shortcut, a, start + t) == if "s" in start then {"a"} else {};
  }

  /** That order is not needed: with B before A the edge into A comes after the one that continues it,
      and the pass is complete for all source fields. */
  lemma {:induction false} PairsInOrderIsNotNeeded(start: set<Field>)
    ensures var hits := [Hit("B", "B", 1, "DATASET"), Hit("A", "A", 1, "DATASET")];
      !PairsInOrder(Shortcut, hits) && Complete(Shortcut, hits, start)
  {
    var hits := [Hit("B", "B", 1, "DATASET"), Hit("A", "A", 1, "DATASET")];
    assert Shortcut("B")[0] == Edge("a", "b") && Shortcut("A")[0] == Edge("s", "a");
    assert FeedsAt(Shortcut, hits, 1, "s", "a") && FeedsAt(Shortcut, hits, 0, "a", "b");
    ShortcutTaint(start);
    ShortcutTaint(Taint(Shortcut, hits, start));
    CompleteIffRepeatable(Shortcut, hits, start);
  }

  // ---------------------------------------------------------------- monotonicity

  lemma {:induction false} TaintIsMonotone(lineage: Lineage, hits: seq<Hit>, small: set<Field>, large: set<Field>)
    requires small <= large
    ensures Taint(lineage, hits, small) <= Taint(lineage, hits, large)
  {
    if hits != [] {
      TaintIsMonotone(lineage, hits[..|hits| - 1], small, large);
    }
  }

  /** More contaminated source fields never shrink the tainted set or the affected assets. */
  lemma {:induction false} ImpactIsMonotone(lineage: Lineage, hits: seq<Hit>, small: set<Field>, large: set<Field>, h: Hit)
    requires small <= large
    ensures h in Split(lineage, hits, small, true) ==> h in Split(lineage, hits, large, true)
  {
    if hits != [] {
      var init, last := hits[..|hits| - 1], hits[|hits| - 1];
      ImpactIsMonotone(lineage, init, small, large, h);
      TaintIsMonotone(lineage, init, small, large);
      var f :| f in Added(lineage, last, Taint(lineage, init, small)) || Added(lineage, last, Taint(lineage, init, small)) == {};
      assert Added(lineage, last, Taint(lineage, init, small)) <= Added(lineage, last, Taint(lineage, init, large));
    }
  }

  // ---------------------------------------------------------------- the partition

  lemma {:induction false} SplitCounts(lineage: Lineage, hits: seq<Hit>, start: set<Field>, h: Hit)
    ensures multiset(Split(lineage, hits, start, true))[h] + multiset(Split(lineage, hits, start, false))[h]
         == if Considered(h) then multiset(hits)[h] else 0
  {
    if hits != [] {
      assert hits == hits[..|hits| - 1] + [hits[|hits| - 1]];
      SplitCounts(lineage, hits[..|hits| - 1], start, h);
    }
  }

  lemma {:induction false} UrnIsOf(hits: seq<Hit>, u: Urn)
    requires u in UrnsOf(hits)
    ensures exists h :: h in hits && h.urn == u
  {
    var i :| 0 <= i < |hits| && UrnsOf(hits)[i] == u;
    assert hits[i] in hits;
  }

  lemma {:induction false} TwoPlaces(hits: seq<Hit>, h: Hit)
    requires multiset(hits)[h] >= 2
    ensures exists i, k :: 0 <= i < k < |hits| && hits[i] == h && hits[k] == h
  {
    var init, n := hits[..|hits| - 1], |hits| - 1;
    assert hits == init + [hits[n]];
    if hits[n] == h {
      assert h in multiset(init);
      var i :| 0 <= i < n && init[i] == h;
      assert hits[i] == h;
    } else {
      TwoPlaces(init, h);
      var i, k :| 0 <= i < k < |init| && init[i] == h && init[k] == h;
      assert hits[i] == h && hits[k] == h;
    }
  }

  lemma {:induction false} SeqCount(hits: seq<Hit>, h: Hit)
    requires Distinct(UrnsOf(hits))
    ensures multiset(hits)[h] <= 1
  {
    if multiset(hits)[h] >= 2 {
      TwoPlaces(hits, h);
    }
  }

  predicate NoneShared(a: seq<Urn>, b: seq<Urn>) {
    forall u :: u in a ==> u !in b
  }

  /** With distinct downstream URNs that exclude the source, every considered asset is either
      affected or unaffected and never both. */
  lemma {:induction false} ImpactPartitions(lineage: Lineage, downstream: seq<Hit>, source: Urn, start: set<Field>)
    requires Distinct(UrnsOf(downstream)) && source !in UrnsOf(downstream)
    ensures var hits := ByDegree(downstream);
      var affected, missed := [source] + UrnsOf(Split(lineage, hits, start, true)), UrnsOf(Split(lineage, hits, start, false));
      && NoneShared(affected, missed)
      && (forall h :: h in downstream && Considered(h) ==> h.urn in affected || h.urn in missed)
  {
    var hits := ByDegree(downstream);
    ByDegreeIsStable(downstream);
    var yes, no := Split(lineage, hits, start, true), Split(lineage, hits, start, false);
    forall h ensures h in yes || h in no <==> h in downstream && Considered(h)
      ensures !(h in yes && h in no)
    {
      SplitCounts(lineage, hits, start, h);
      SeqCount(downstream, h);
      assert h in yes <==> h in multiset(yes);
      assert h in no <==> h in multiset(no);
      assert h in downstream <==> h in multiset(downstream);
    }
    forall u | u in [source] + UrnsOf(yes) ensures u !in UrnsOf(no) {
      if u in UrnsOf(no) {
        UrnIsOf(no, u);
        var h :| h in no && h.urn == u;
        DownstreamUrn(downstream, h);
        UrnIsOf(yes, u);
        var k :| k in yes && k.urn == u;
        SameUrnSameHit(downstream, h, k);
      }
    }
    forall h | h in downstream && Considered(h) ensures h.urn in [source] + UrnsOf(yes) || h.urn in UrnsOf(no) {
      if h in yes { DownstreamUrn(yes, h); } else { DownstreamUrn(no, h); }
    }
  }

  lemma {:induction false} DownstreamUrn(hits: seq<Hit>, h: Hit)
    requires h in hits
    ensures h.urn in UrnsOf(hits)
  {
    var i :| 0 <= i < |hits| && hits[i] == h;
    assert UrnsOf(hits)[i] == h.urn;
  }

  lemma {:induction false} SameUrnSameHit(hits: seq<Hit>, h: Hit, k: Hit)
    requires Distinct(UrnsOf(hits)) && h in hits && k in hits && h.urn == k.urn
    ensures h == k
  {
    var i :| 0 <= i < |hits| && hits[i] == h;
    var j :| 0 <= j < |hits| && hits[j] == k;
    assert UrnsOf(hits)[i] == UrnsOf(hits)[j];
  }

  /** An affected asset stores an edge out of a field reachable from the source fields. */
  lemma {:induction false} AffectedIsFed(lineage: Lineage, hits: seq<Hit>, n: nat, start: set<Field>, h: Hit)
    requires n <= |hits| && h in Split(lineage, hits[..n], start, true)
    ensures exists e :: e in lineage(h.urn) && Reachable(lineage, hits, start, e.upstream)
  {
    assert hits[..n][..n - 1] == hits[..n - 1];
    if h in Split(lineage, hits[..n - 1], start, true) {
      AffectedIsFed(lineage, hits, n - 1, start, h);
    } else {
      var before := Taint(lineage, hits[..n - 1], start);
      var f :| f in Added(lineage, h, before);
      var e :| e in lineage(h.urn) && e.upstream in before && e.downstream == f;
      TaintIsReachable(lineage, hits, n - 1, start, e.upstream);
    }
  }

  /** A reachable field that feeds a hit is tainted before that hit is visited. */
  lemma {:induction false} FedIsTainted(lineage: Lineage, hits: seq<Hit>, n: nat, start: set<Field>, e: Edge)
    requires Ascending(hits) && Increasing(lineage, hits)
    requires n < |hits| && FeedsAt(lineage, hits, n, e.upstream, e.downstream)
    requires Reachable(lineage, hits, start, e.upstream)
    ensures e.upstream in Taint(lineage, hits[..n], start)
  {
    var path :| Path(lineage, hits, start, path) && path[|path| - 1] == e.upstream;
    if |path| == 1 {
      TaintGrows(lineage, hits, 0, n, start);
    } else {
      assert Feeds(lineage, hits, path[|path| - 2], e.upstream);
      var i :| 0 <= i < |hits| && FeedsAt(lineage, hits, i, path[|path| - 2], e.upstream);
      PathIsTainted(lineage, hits, start, path, i);
      TaintGrows(lineage, hits, i + 1, n, start);
    }
  }

  /** With strictly increasing degrees the converse holds: no fed asset is missed. */
  lemma {:induction false} MissedIsNotFed(lineage: Lineage, hits: seq<Hit>, n: nat, start: set<Field>, h: Hit, e: Edge)
    requires Ascending(hits) && Increasing(lineage, hits)
    requires n <= |hits| && h in Split(lineage, hits[..n], start, false) && e in lineage(h.urn)
    ensures !Reachable(lineage, hits, start, e.upstream)
  {
    assert hits[..n][..n - 1] == hits[..n - 1];
    if h in Split(lineage, hits[..n - 1], start, false) {
      MissedIsNotFed(lineage, hits, n - 1, start, h, e);
    } else {
      assert h == hits[n - 1] && e.downstream !in Added(lineage, h, Taint(lineage, hits[..n - 1], start));
      assert FeedsAt(lineage, hits, n - 1, e.upstream, e.downstream);
      if Reachable(lineage, hits, start, e.upstream) {
        FedIsTainted(lineage, hits, n - 1, start, e);
      }
    }
  }

  /** The hit stores an edge out of a field that is reached in visit order before the hit is visited. */
  ghost predicate FedInOrder(lineage: Lineage, hits: seq<Hit>, n: nat, start: set<Field>)
    requires n < |hits|
  {
    Considered(hits[n]) && exists e :: e in lineage(hits[n].urn) && ReachedBefore(lineage, hits, n, start, e.upstream)
  }

  lemma {:induction false} AddsIffFedInOrder(lineage: Lineage, hits: seq<Hit>, n: nat, start: set<Field>)
    requires n < |hits|
    ensures Added(lineage, hits[n], Taint(lineage, hits[..n], start)) != {} <==> FedInOrder(lineage, hits, n, start)
  {
    var h, t := hits[n], Taint(lineage, hits[..n], start);
    forall f ensures f in t <==> ReachedBefore(lineage, hits, n, start, f) {
      TaintIsOrderedReach(lineage, hits, n, start, f);
    }
    if Added(lineage, h, t) != {} {
      var f :| f in Added(lineage, h, t);
      var e :| e in lineage(h.urn) && e.upstream in t && e.downstream == f;
    }
    if FedInOrder(lineage, hits, n, start) {
      var e :| e in lineage(h.urn) && ReachedBefore(lineage, hits, n, start, e.upstream);
      assert e.downstream in Added(lineage, h, t);
    }
  }

  lemma {:induction false} FedIsConsidered(lineage: Lineage, hits: seq<Hit>, n: nat, start: set<Field>)
    requires n < |hits| && FedInOrder(lineage, hits, n, start)
    ensures Considered(hits[n])
  {
  }

  /** Whatever the degrees: a hit is reported affected, or unaffected, exactly when some visit of it is
      considered and is, or is not, fed in visit order. */
  lemma {:induction false} AffectedIffFedInOrder(lineage: Lineage, hits: seq<Hit>, n: nat, start: set<Field>, h: Hit, reached: bool)
    requires n <= |hits|
    ensures h in Split(lineage, hits[..n], start, reached) <==>
      exists i :: 0 <= i < n && hits[i] == h && Considered(h) && FedInOrder(lineage, hits, i, start) == reached
  {
    hide FedInOrder, Taint, Added;
    if n > 0 {
      assert hits[..n][..n - 1] == hits[..n - 1];
      AffectedIffFedInOrder(lineage, hits, n - 1, start, h, reached);
      AddsIffFedInOrder(lineage, hits, n - 1, start);
    }
  }

  // ---------------------------------------------------------------- kinds, names and field identifiers

  /** A hit is reported, affected or not, exactly when it is a dataset or of no known kind. */
  lemma {:induction false} KindDecides(lineage: Lineage, hits: seq<Hit>, start: set<Field>, hit: Hit)
    requires hit in hits
    ensures hit in Split(lineage, hits, start, true) + Split(lineage, hits, start, false) <==> hit.kind == "" || hit.kind == "DATASET"
  {
    var init, last := hits[..|hits| - 1], hits[|hits| - 1];
    assert hits == init + [last];
    if hit in init {
      KindDecides(lineage, init, start, hit);
    } else {
      SplitIsConsidered(lineage, init, start);
    }
    if hit != last { assert hit in init; }
  }

  lemma {:induction false} SplitIsConsidered(lineage: Lineage, hits: seq<Hit>, start: set<Field>)
    ensures forall h, reached :: h in Split(lineage, hits, start, reached) ==> h in hits && Considered(h)
  {
    if hits != [] {
      assert hits == hits[..|hits| - 1] + [hits[|hits| - 1]];
      SplitIsConsidered(lineage, hits[..|hits| - 1], start);
    }
  }

  /** An asset is reported under its name, or under its URN when it has none. */
  lemma {:induction false} NamesRead(lineage: Lineage, hits: seq<Hit>, sourceUrn: Urn, sourceName: string, fields: seq<string>, i: nat)
    ensures var start := SourceFields(sourceUrn, fields);
      var impact := ImpactAfter(lineage, hits, sourceUrn, sourceName, fields);
      var reached, missed := Split(lineage, hits, start, true), Split(lineage, hits, start, false);
      && |impact.affectedNames| == |reached| + 1 && |impact.unaffectedNames| == |missed|
      && impact.affectedNames[0] == sourceName
      && (i < |reached| ==> impact.affectedNames[i + 1] == if reached[i].name == "" then reached[i].urn else reached[i].name)
      && (i < |missed| ==> impact.unaffectedNames[i] == if missed[i].name == "" then missed[i].urn else missed[i].name)
  {
    hide Split, SourceFields, Taint;
  }

  lemma {:induction false} SegmentsJoin(s: string, t: string)
    requires ',' !in t
    ensures Segments(s + "," + t) == Segments(s) + [t]
    decreases |t|
  {
    var all := s + "," + t;
    if t == "" {
      assert all[..|all| - 1] == s && all[|all| - 1] == ',';
    } else {
      var init, last := t[..|t| - 1], t[|t| - 1];
      SegmentsJoin(s, init);
      assert all[..|all| - 1] == s + "," + init && all[|all| - 1] == last;
      assert last in t;
      assert init + [last] == t;
    }
  }

  lemma {:induction false} OneSegment(s: string)
    ensures |Segments(s)| == 1 <==> ',' !in s
    ensures ',' !in s ==> Segments(s) == [s]
  {
    if s != "" {
      var init, last := s[..|s| - 1], s[|s| - 1];
      assert s == init + [last];
      OneSegment(init);
    }
  }

  /** The source is named by the last but one of the comma-separated parts of its URN, which is the
      dataset name of a dataset URN; a URN without a comma has no name. */
  lemma {:induction false} SourceNameReads(before: string, name: string, env: string)
    requires ',' !in name && ',' !in env
    ensures SourceName(before + "," + name + "," + env) == Some(name)
    ensures SourceName(name + "," + env) == Some(name)
    ensures SourceName(name).None?
  {
    SegmentsJoin(before + "," + name, env);
    SegmentsJoin(before, name);
    SegmentsJoin(name, env);
    OneSegment(name);
  }

  /** Field identifiers differ for different fields and for different assets. */
  lemma {:induction false} FieldUrnInjective(u: Urn, f: string, v: Urn, g: string)
    requires ',' !in f && ',' !in g && FieldUrn(u, f) == FieldUrn(v, g)
    ensures u == v && f == g
  {
    var head := "urn:li:schemaField:(";
    var a, b := u + ("," + f), v + ("," + g);
    assert FieldUrn(u, f) == head + a + ")" && FieldUrn(v, g) == head + b + ")";
    assert (head + a + ")")[|head|..|head + a|] == a && (head + b + ")")[|head|..|head + b|] == b;
    assert a == b;
    CommaSplits(u, f, v, g);
  }

  lemma {:induction false} CommaSplits(u: string, f: string, v: string, g: string)
    requires ',' !in f && ',' !in g && u + ("," + f) == v + ("," + g)
    ensures u == v && f == g
  {
    var s := u + ("," + f);
    LastComma(u, f);
    LastComma(v, g);
    assert |u| == |v|;
    assert s[..|u|] == u && s[..|v|] == v;
    assert s[|u| + 1..] == f && s[|v| + 1..] == g;
  }

  lemma {:induction false} LastComma(u: string, f: string)
    requires ',' !in f
    ensures var s := u + ("," + f);
      s[|u|] == ',' && forall n :: |u| < n < |s| ==> s[n] != ','
  {
    forall n | |u| < n < |u + ("," + f)| ensures (u + ("," + f))[n] != ',' {
      assert (u + ("," + f))[n] == f[n - |u| - 1];
    }
  }

  // ---------------------------------------------------------------- policy inputs

  /** Live catalog properties of an asset. */
  datatype AssetInfo = AssetInfo(name: string, role: Option<string>, criticality: Option<string>)

  function ContextFor(info: Urn -> AssetInfo, affected: set<Urn>, urn: Urn): AssetContext {
    var a := info(urn);
    AssetContext(
      urn, a.name,
      if a.role.Some? then a.role.value else "dataset",
      if a.criticality.Some? then a.criticality.value else "UNKNOWN",
      urn in affected)
  }

  function AffectedSet(impact: FieldImpact, additional: seq<Urn>): (r: set<Urn>)
    ensures forall u :: u in r <==> u in impact.affectedUrns || u in additional
  {
    (set u | u in impact.affectedUrns) + (set u | u in additional)
  }

  /** One context per asset, in first-mention order; affected when proven or explicitly added. */
  method BuildPolicyContexts(info: Urn -> AssetInfo, impact: FieldImpact, additional: seq<Urn>)
    returns (contexts: seq<AssetContext>)
    ensures var urns := Dedupe(impact.affectedUrns + impact.unaffectedUrns + additional);
      && |contexts| == |urns|
      && forall i :: 0 <= i < |urns| ==>
        && contexts[i].urn == urns[i] && contexts[i].name == info(urns[i]).name
        && contexts[i].role == (if info(urns[i]).role.None? then "dataset" else info(urns[i]).role.value)
        && contexts[i].criticality == (if info(urns[i]).criticality.None? then "UNKNOWN" else info(urns[i]).criticality.value)
        && contexts[i] == ContextFor(info, AffectedSet(impact, additional), urns[i])
        && (contexts[i].affected <==> urns[i] in impact.affectedUrns || urns[i] in additional)
  {
    var affected := AffectedSet(impact, additional);
    var urns := Dedupe(impact.affectedUrns + impact.unaffectedUrns + additional);
    contexts := [];
    for i := 0 to |urns|
      invariant |contexts| == i
      invariant forall j :: 0 <= j < i ==> contexts[j] == ContextFor(info, affected, urns[j])
    {
      contexts := contexts + [ContextFor(info, affected, urns[i])];
    }
  }
}
