/** Ranking by score and identifier, and the construction that moves one candidate from 18th to first.

    Scores are whole micro-degrees, the precision every stored score is rounded to. */
module Ranking {
  import opened Common
  import opened TextLines

  datatype Item = Item(id: string, score: int, batch: string)

  // ---------------------------------------------------------------- the order

  predicate LexLess(s: string, t: string) {
    if t == "" then false
    else if s == "" then true
    else if s[0] != t[0] then s[0] < t[0]
    else LexLess(s[1..], t[1..])
  }

  /** `a` ranks before `b`: by score, highest first, then by identifier. */
  predicate Beats(a: Item, b: Item) {
    a.score > b.score || (a.score == b.score && LexLess(a.id, b.id))
  }

  /** Texts agree up to a place where the first has ended, or has the smaller character. */
  predicate SmallerAt(s: string, t: string, k: nat) {
    k <= |s| && k < |t| && s[..k] == t[..k] && (k == |s| || s[k] < t[k])
  }

  lemma {:induction false} LexLessIff(s: string, t: string)
    ensures LexLess(s, t) <==> exists k: nat :: SmallerAt(s, t, k)
  {
    if s != "" && t != "" && s[0] == t[0] {
      LexLessIff(s[1..], t[1..]);
      if k: nat :| SmallerAt(s[1..], t[1..], k) {
        assert s[..k + 1] == [s[0]] + s[1..][..k] && t[..k + 1] == [t[0]] + t[1..][..k];
        assert SmallerAt(s, t, k + 1);
      }
      if k: nat :| SmallerAt(s, t, k) {
        assert s[1..][..k - 1] == s[..k][1..] && t[1..][..k - 1] == t[..k][1..];
        assert SmallerAt(s[1..], t[1..], k - 1);
      }
    } else if s != "" && t != "" {
      forall k: nat ensures SmallerAt(s, t, k) ==> k == 0 { ApartAtStart(s, t, k); }
      if s[0] < t[0] { assert SmallerAt(s, t, 0); }
    } else if t != "" {
      assert SmallerAt(s, t, 0);
    }
  }

  lemma {:induction false} ApartAtStart(s: string, t: string, k: nat)
    requires s != "" && t != "" && s[0] != t[0]
    ensures SmallerAt(s, t, k) ==> k == 0
  {
    if 0 < k <= |s| && k <= |t| {
      assert s[..k][0] != t[..k][0];
    }
  }

  lemma {:induction false} LexTotal(s: string, t: string)
    ensures LexLess(s, t) || LexLess(t, s) || s == t
    ensures !(LexLess(s, t) && LexLess(t, s)) && (s == t ==> !LexLess(s, t))
  {
    if s != "" && t != "" && s[0] == t[0] {
      LexTotal(s[1..], t[1..]);
      assert s == [s[0]] + s[1..] && t == [t[0]] + t[1..];
    }
  }

  lemma {:induction false} LexTransitive(s: string, t: string, u: string)
    requires LexLess(s, t) && LexLess(t, u)
    ensures LexLess(s, u)
  {
    if s != "" && s[0] == t[0] && t[0] == u[0] {
      LexTransitive(s[1..], t[1..], u[1..]);
    }
  }

  lemma {:induction false} BeatsTotal(a: Item, b: Item)
    ensures !(Beats(a, b) && Beats(b, a)) && !Beats(a, a)
    ensures a.id != b.id ==> Beats(a, b) || Beats(b, a)
  {
    LexTotal(a.id, b.id);
    LexTotal(a.id, a.id);
  }

  lemma {:induction false} BeatsTransitive(a: Item, b: Item, c: Item)
    requires Beats(a, b) && Beats(b, c)
    ensures Beats(a, c)
  {
    if a.score == b.score && b.score == c.score {
      LexTransitive(a.id, b.id, c.id);
    }
  }

  predicate DistinctIds(items: seq<Item>) {
    forall i, j :: 0 <= i < j < |items| ==> items[i].id != items[j].id
  }

  // ---------------------------------------------------------------- sorting

  function Insert(sorted: seq<Item>, x: Item): seq<Item> {
    if sorted == [] || !Beats(x, sorted[|sorted| - 1]) then sorted + [x]
    else Insert(sorted[..|sorted| - 1], x) + [sorted[|sorted| - 1]]
  }

  function Ordered(items: seq<Item>): seq<Item> {
    if items == [] then [] else Insert(Ordered(items[..|items| - 1]), items[|items| - 1])
  }

  predicate Strict(items: seq<Item>) {
    forall i, j :: 0 <= i < j < |items| ==> Beats(items[i], items[j])
  }

  lemma {:induction false} InsertKeeps(sorted: seq<Item>, x: Item)
    ensures multiset(Insert(sorted, x)) == multiset(sorted) + multiset{x}
  {
    if sorted != [] && Beats(x, sorted[|sorted| - 1]) {
      InsertKeeps(sorted[..|sorted| - 1], x);
      assert sorted == sorted[..|sorted| - 1] + [sorted[|sorted| - 1]];
    }
  }

  lemma {:induction false} StrictSnoc(items: seq<Item>, x: Item)
    requires Strict(items) && forall y :: y in items ==> Beats(y, x)
    ensures Strict(items + [x])
  {
  }

  lemma {:induction false} InsertSorts(sorted: seq<Item>, x: Item)
    requires Strict(sorted) && forall y :: y in sorted ==> y.id != x.id
    ensures Strict(Insert(sorted, x))
  {
    if sorted == [] {
    } else {
      var init, last := sorted[..|sorted| - 1], sorted[|sorted| - 1];
      assert last in sorted && sorted == init + [last];
      BeatsTotal(x, last);
      if Beats(x, last) {
        InsertSorts(init, x);
        InsertKeeps(init, x);
        forall y | y in Insert(init, x) ensures Beats(y, last) {
          assert y in multiset(Insert(init, x));
        }
        StrictSnoc(Insert(init, x), last);
      } else {
        forall y | y in sorted ensures Beats(y, x) {
          if y != last { BeatsTransitive(y, last, x); }
        }
        StrictSnoc(sorted, x);
      }
    }
  }

  lemma {:induction false} OrderedIsStrict(items: seq<Item>)
    requires DistinctIds(items)
    ensures Strict(Ordered(items)) && multiset(Ordered(items)) == multiset(items)
    ensures |Ordered(items)| == |items|
  {
    if items != [] {
      var init, last := items[..|items| - 1], items[|items| - 1];
      OrderedIsStrict(init);
      assert items == init + [last];
      forall y | y in Ordered(init) ensures y.id != last.id {
        assert y in multiset(Ordered(init));
      }
      InsertSorts(Ordered(init), last);
      InsertKeeps(Ordered(init), last);
      assert |multiset(Ordered(items))| == |multiset(items)|;
    }
  }

  // ---------------------------------------------------------------- ranks

  /** How many of `items` beat `x`. */
  function Beaters(items: seq<Item>, x: Item): nat {
    if items == [] then 0
    else Beaters(items[..|items| - 1], x) + if Beats(items[|items| - 1], x) then 1 else 0
  }

  function Rank(items: seq<Item>, x: Item): nat {
    1 + Beaters(items, x)
  }

  lemma {:induction false} InsertCounts(sorted: seq<Item>, y: Item, x: Item)
    ensures Beaters(Insert(sorted, y), x) == Beaters(sorted, x) + if Beats(y, x) then 1 else 0
  {
    if sorted == [] || !Beats(y, sorted[|sorted| - 1]) {
      assert (sorted + [y])[..|sorted|] == sorted;
    } else {
      var low := Insert(sorted[..|sorted| - 1], y);
      InsertCounts(sorted[..|sorted| - 1], y, x);
      assert (low + [sorted[|sorted| - 1]])[..|low|] == low;
    }
  }

  lemma {:induction false} OrderedCounts(items: seq<Item>, x: Item)
    ensures Beaters(Ordered(items), x) == Beaters(items, x)
  {
    if items != [] {
      OrderedCounts(items[..|items| - 1], x);
      InsertCounts(Ordered(items[..|items| - 1]), items[|items| - 1], x);
    }
  }

  /** In a strict order those that beat `x` come first: exactly `k` do when the one at `k - 1` does
      and the one at `k` does not. */
  lemma {:induction false} BeatersArePrefix(sorted: seq<Item>, x: Item, k: nat)
    requires Strict(sorted) && k <= |sorted|
    requires k > 0 ==> Beats(sorted[k - 1], x)
    requires k < |sorted| ==> !Beats(sorted[k], x)
    ensures Beaters(sorted, x) == k
    decreases |sorted|
  {
    if sorted != [] {
      var n := |sorted|;
      var init, last := sorted[..n - 1], sorted[n - 1];
      if k < n {
        if Beats(last, x) && k < n - 1 {
          BeatsTransitive(sorted[k], last, x);
        }
        BeatersArePrefix(init, x, k);
      } else {
        if n > 1 { BeatsTransitive(sorted[n - 2], last, x); }
        BeatersArePrefix(init, x, n - 1);
      }
    }
  }

  /** Rank is one plus the number of items that beat it, and it is the position in the order: a
      bijection onto 1..n. */
  lemma {:induction false} RankIsPosition(items: seq<Item>, k: nat)
    requires DistinctIds(items) && k < |items|
    ensures |Ordered(items)| == |items| && Rank(items, Ordered(items)[k]) == k + 1
  {
    OrderedIsStrict(items);
    var sorted := Ordered(items);
    BeatsTotal(sorted[k], sorted[k]);
    BeatersArePrefix(sorted, sorted[k], k);
    OrderedCounts(items, sorted[k]);
  }

  lemma {:induction false} RankIsBijection(items: seq<Item>, x: Item, y: Item)
    requires DistinctIds(items) && x in items && y in items
    ensures 1 <= Rank(items, x) <= |items|
    ensures Rank(items, x) == Rank(items, y) <==> x == y
  {
    OrderedIsStrict(items);
    var sorted := Ordered(items);
    assert x in multiset(sorted) && y in multiset(sorted);
    var i :| 0 <= i < |sorted| && sorted[i] == x;
    var j :| 0 <= j < |sorted| && sorted[j] == y;
    RankIsPosition(items, i);
    RankIsPosition(items, j);
  }

  // ---------------------------------------------------------------- repeated identifiers

  /** How many of `items` are beaten by `x`. */
  function Losers(items: seq<Item>, x: Item): nat {
    if items == [] then 0
    else Losers(items[..|items| - 1], x) + if Beats(x, items[|items| - 1]) then 1 else 0
  }

  lemma {:induction false} BeatsSplits(a: Item, b: Item, c: Item)
    requires Beats(a, c)
    ensures Beats(a, b) || Beats(b, c)
  {
    LexTotal(a.id, b.id);
    LexTotal(b.id, c.id);
    if LexLess(b.id, a.id) && LexLess(a.id, c.id) {
      LexTransitive(b.id, a.id, c.id);
    }
  }

  /** No item stands after one that it beats. */
  predicate Sorted(items: seq<Item>) {
    forall i, j :: 0 <= i < j < |items| ==> !Beats(items[j], items[i])
  }

  lemma {:induction false} SortedSnoc(items: seq<Item>, x: Item)
    requires Sorted(items) && forall y :: y in items ==> !Beats(x, y)
    ensures Sorted(items + [x])
  {
  }

  lemma {:induction false} InsertStaysSorted(sorted: seq<Item>, x: Item)
    requires Sorted(sorted)
    ensures Sorted(Insert(sorted, x))
  {
    if sorted != [] {
      var init, last := sorted[..|sorted| - 1], sorted[|sorted| - 1];
      assert sorted == init + [last];
      if Beats(x, last) {
        InsertStaysSorted(init, x);
        InsertKeeps(init, x);
        BeatsTotal(x, last);
        forall y | y in Insert(init, x) ensures !Beats(last, y) {
          assert y in multiset(Insert(init, x));
        }
        SortedSnoc(Insert(init, x), last);
      } else {
        forall y | y in sorted ensures !Beats(x, y) {
          if Beats(x, y) { BeatsSplits(x, last, y); }
        }
        SortedSnoc(sorted, x);
      }
    }
  }

  lemma {:induction false} InsertLoses(sorted: seq<Item>, y: Item, x: Item)
    ensures Losers(Insert(sorted, y), x) == Losers(sorted, x) + if Beats(x, y) then 1 else 0
  {
    if sorted == [] || !Beats(y, sorted[|sorted| - 1]) {
      assert (sorted + [y])[..|sorted|] == sorted;
    } else {
      var low := Insert(sorted[..|sorted| - 1], y);
      InsertLoses(sorted[..|sorted| - 1], y, x);
      assert (low + [sorted[|sorted| - 1]])[..|low|] == low;
    }
  }

  /** Sorting, whatever repeats. */
  lemma {:induction false} OrderedIsSorted(items: seq<Item>)
    ensures Sorted(Ordered(items)) && multiset(Ordered(items)) == multiset(items) && |Ordered(items)| == |items|
    ensures forall x :: Losers(Ordered(items), x) == Losers(items, x)
  {
    if items != [] {
      var init, last := items[..|items| - 1], items[|items| - 1];
      assert items == init + [last];
      OrderedIsSorted(init);
      InsertStaysSorted(Ordered(init), last);
      InsertKeeps(Ordered(init), last);
      assert |multiset(Ordered(items))| == |multiset(items)|;
      forall x ensures Losers(Ordered(items), x) == Losers(items, x) { InsertLoses(Ordered(init), last, x); }
    }
  }

  lemma {:induction false} LosersAreSuffix(sorted: seq<Item>, x: Item, p: nat)
    requires p <= |sorted|
    requires forall k :: 0 <= k < |sorted| ==> (Beats(x, sorted[k]) <==> k >= p)
    ensures Losers(sorted, x) == |sorted| - p
  {
    if |sorted| > p {
      LosersAreSuffix(sorted[..|sorted| - 1], x, p);
    } else if sorted != [] {
      LosersAreSuffix(sorted[..|sorted| - 1], x, p - 1);
    }
  }

  /** The entries of one identifier that stand last: none of the others is beaten by them. */
  predicate LastOfId(items: seq<Item>, x: Item) {
    x in items && forall y :: y in items && y.id == x.id ==> !Beats(x, y)
  }

  /** Place `p` is the last of its identifier in the order, so what comes after it is beaten. */
  lemma {:induction false} LastPlace(items: seq<Item>, x: Item, p: nat)
    requires LastOfId(items, x) && p < |Ordered(items)| && Ordered(items)[p].id == x.id
    requires forall k :: p < k < |Ordered(items)| ==> Ordered(items)[k].id != x.id
    ensures p + 1 == |items| - Losers(items, x)
  {
    OrderedIsSorted(items);
    var sorted, y := Ordered(items), Ordered(items)[p];
    assert y in multiset(sorted) && x in multiset(sorted);
    var q :| 0 <= q < |sorted| && sorted[q] == x;
    BeatsTotal(x, y);
    assert x.score == y.score;
    forall k | 0 <= k < |sorted| ensures Beats(x, sorted[k]) <==> k >= p + 1 {
      BeatsTotal(y, sorted[k]);
    }
    LosersAreSuffix(sorted, x, p + 1);
  }

  /** Each identifier among the first `i` has the number of its last place. */
  predicate PlacesOf(ordered: seq<Item>, i: nat, ranks: map<string, nat>) {
    && i <= |ordered|
    && (forall id :: id in ranks ==> 1 <= ranks[id] <= i && ordered[ranks[id] - 1].id == id)
    && (forall j :: 0 <= j < i ==> ordered[j].id in ranks && j < ranks[ordered[j].id])
  }

  lemma {:induction false} PlacesStep(ordered: seq<Item>, i: nat, ranks: map<string, nat>)
    requires i < |ordered| && PlacesOf(ordered, i, ranks)
    ensures PlacesOf(ordered, i + 1, ranks[ordered[i].id := i + 1])
  {
  }

  lemma {:induction false} PlacesRank(items: seq<Item>, ranks: map<string, nat>, x: Item)
    requires PlacesOf(Ordered(items), |Ordered(items)|, ranks) && LastOfId(items, x)
    ensures x.id in ranks && ranks[x.id] == |items| - Losers(items, x)
  {
    hide Ordered, Losers, Beats, Sorted;
    OrderedIsSorted(items);
    assert x in multiset(Ordered(items));
    var j :| 0 <= j < |Ordered(items)| && Ordered(items)[j] == x;
    LastPlace(items, x, ranks[x.id] - 1);
  }

  lemma {:induction false} PlacesIds(items: seq<Item>, ranks: map<string, nat>, id: string)
    requires PlacesOf(Ordered(items), |Ordered(items)|, ranks)
    ensures id in ranks <==> exists x :: x in items && x.id == id
  {
    hide Ordered, Losers, Beats, Sorted;
    OrderedIsSorted(items);
    if id in ranks {
      assert Ordered(items)[ranks[id] - 1] in multiset(Ordered(items));
    }
    if x :| x in items && x.id == id {
      assert x in multiset(Ordered(items));
      var j :| 0 <= j < |Ordered(items)| && Ordered(items)[j] == x;
    }
  }

  /** Ranks by identifier. Repeated identifiers keep the place of their last entry; under distinct ones
      `DistinctRank` makes this the number of candidates that beat the entry, plus one. */
  method RankCandidates(scored: seq<Item>) returns (ranks: map<string, nat>)
    ensures forall x :: LastOfId(scored, x) ==> x.id in ranks && ranks[x.id] == |scored| - Losers(scored, x)
    ensures forall id :: id in ranks <==> exists x :: x in scored && x.id == id
  {
    hide PlacesOf, LastOfId, Losers, Ordered;
    var ordered := Ordered(scored);
    ranks := map[];
    NoPlaces(ordered);
    for i := 0 to |ordered|
      invariant PlacesOf(ordered, i, ranks)
    {
      PlacesStep(ordered, i, ranks);
      ranks := ranks[ordered[i].id := i + 1];
    }
    forall x | LastOfId(scored, x) ensures x.id in ranks && ranks[x.id] == |scored| - Losers(scored, x) {
      PlacesRank(scored, ranks, x);
    }
    forall id ensures id in ranks <==> exists x :: x in scored && x.id == id {
      PlacesIds(scored, ranks, id);
    }
  }

  lemma {:induction false} NoPlaces(ordered: seq<Item>)
    ensures PlacesOf(ordered, 0, map[])
  {
  }

  /** Every other item beats or is beaten when no identifier repeats. */
  lemma {:induction false} DistinctRank(items: seq<Item>, x: Item)
    requires DistinctIds(items) && x in items
    ensures LastOfId(items, x) && |items| - Losers(items, x) == Rank(items, x)
  {
    OrderedIsStrict(items);
    OrderedIsSorted(items);
    assert x in multiset(Ordered(items));
    var k :| 0 <= k < |Ordered(items)| && Ordered(items)[k] == x;
    RankIsPosition(items, k);
    forall y | y in items && y.id == x.id ensures !Beats(x, y) {
      assert y == x;
      BeatsTotal(x, x);
    }
    forall j | k < j < |Ordered(items)| ensures Ordered(items)[j].id != x.id {
      SameIdSamePlace(items, k, j);
    }
    LastPlace(items, x, k);
  }

  lemma {:induction false} SameIdSamePlace(items: seq<Item>, i: nat, j: nat)
    requires DistinctIds(items) && i < j < |Ordered(items)|
    ensures Ordered(items)[i].id != Ordered(items)[j].id
  {
    OrderedIsStrict(items);
    var a, b := Ordered(items)[i], Ordered(items)[j];
    assert a in multiset(Ordered(items)) && b in multiset(Ordered(items));
    assert a in items && b in items;
    BeatsTotal(a, b);
    BeatsTotal(a, a);
  }

  // ---------------------------------------------------------------- the candidate at rank 18

  /** Half of a sum, rounded half to even. */
  function Midpoint(upper: int, lower: int): int {
    var sum := upper + lower;
    if sum % 2 == 0 then sum / 2
    else if (sum / 2) % 2 == 0 then sum / 2
    else sum / 2 + 1
  }

  /** The midpoint is as near to the half of the sum as a whole number can be, and even when two are. */
  lemma {:induction false} MidpointRounds(upper: int, lower: int)
    ensures var m := Midpoint(upper, lower);
      -1 <= 2 * m - (upper + lower) <= 1 && ((upper + lower) % 2 == 1 ==> m % 2 == 0)
  {
  }

  function Others(items: seq<Item>, id: string): (r: seq<Item>)
    ensures forall x :: x in r <==> x in items && x.id != id
  {
    if items == [] then []
    else
      var init, last := items[..|items| - 1], items[|items| - 1];
      assert items == init + [last];
      Others(init, id) + (if last.id == id then [] else [last])
  }

  lemma {:induction false} OthersDistinct(items: seq<Item>, id: string)
    requires DistinctIds(items)
    ensures DistinctIds(Others(items, id))
  {
    if items != [] {
      var init, last := items[..|items| - 1], items[|items| - 1];
      OthersDistinct(init, id);
      forall x | x in Others(init, id) ensures x.id != last.id {
        assert x in init;
      }
    }
  }

  /** The item with this id, when there is one. */
  function IndexOf(items: seq<Item>, id: string): (r: Option<nat>)
    ensures r.Some? ==> r.value < |items| && items[r.value].id == id
    ensures r.None? ==> forall i :: 0 <= i < |items| ==> items[i].id != id
  {
    if items == [] then None
    else
      match IndexOf(items[..|items| - 1], id)
      case Some(i) => Some(i)
      case None => if items[|items| - 1].id == id then Some(|items| - 1) else None
  }

  /** The score that `n` + 1 others reach: the one at place `n` among their scores. */
  function ScoreAt(items: seq<Item>, id: string, n: nat): Option<int> {
    var sorted := Ordered(Others(items, id));
    if n < |sorted| then Some(sorted[n].score) else None
  }

  /** There is a score at place `n` exactly when more than `n` others are there, and it is the score of the
      one among them that exactly `n` beat. */
  lemma {:induction false} ScoreAtReads(items: seq<Item>, id: string, n: nat)
    requires DistinctIds(items)
    ensures ScoreAt(items, id, n).Some? <==> n < |Others(items, id)|
    ensures ScoreAt(items, id, n).Some? ==>
      exists x :: x in items && x.id != id && Beaters(Others(items, id), x) == n && ScoreAt(items, id, n) == Some(x.score)
  {
    var others := Others(items, id);
    OthersDistinct(items, id);
    OrderedIsStrict(others);
    if n < |others| {
      RankIsPosition(others, n);
      var x := Ordered(others)[n];
      assert x in multiset(Ordered(others));
      assert x in others && x.score == ScoreAt(items, id, n).value;
    }
  }

  /** The records are as many as the others and the candidate. */
  lemma {:induction false} OthersLength(items: seq<Item>, id: string)
    requires DistinctIds(items)
    ensures |Others(items, id)| == |items| - (if IndexOf(items, id).Some? then 1 else 0)
  {
    if items != [] {
      var init, last := items[..|items| - 1], items[|items| - 1];
      OthersLength(init, id);
    }
  }

  /** The candidate is moved exactly when it is there among at least nineteen records. */
  lemma {:induction false} ForcedIff(items: seq<Item>, id: string)
    requires DistinctIds(items)
    ensures IndexOf(items, id).Some? && ScoreAt(items, id, 16).Some? && ScoreAt(items, id, 17).Some?
      <==> |items| >= 19 && exists i :: 0 <= i < |items| && items[i].id == id
  {
    ScoreAtReads(items, id, 16);
    ScoreAtReads(items, id, 17);
    OthersLength(items, id);
  }

  /** Give the candidate the midpoint of the 17th and 18th scores of the others, in place. */
  method ForceCandidateToRank18(records: array<Item>, id: string) returns (ok: bool)
    modifies records
    ensures ok <==> IndexOf(old(records[..]), id).Some? && ScoreAt(old(records[..]), id, 16).Some? && ScoreAt(old(records[..]), id, 17).Some?
    ensures !ok ==> records[..] == old(records[..])
    ensures ok ==>
      var before := old(records[..]);
      var i := IndexOf(before, id).value;
      var middle := Midpoint(ScoreAt(before, id, 16).value, ScoreAt(before, id, 17).value);
      records[..] == before[i := before[i].(score := middle)]
  {
    var candidate := IndexOf(records[..], id);
    if candidate.None? {
      return false;
    }
    var upper, lower := ScoreAt(records[..], id, 16), ScoreAt(records[..], id, 17);
    if upper.None? || lower.None? {
      return false;
    }
    records[candidate.value] := records[candidate.value].(score := Midpoint(upper.value, lower.value));
    return true;
  }

  lemma {:induction false} BeatersSnoc(items: seq<Item>, y: Item, x: Item)
    ensures Beaters(items + [y], x) == Beaters(items, x) + if Beats(y, x) then 1 else 0
  {
    assert (items + [y])[..|items|] == items;
  }

  predicate OnlyItself(items: seq<Item>, x: Item) {
    forall i :: 0 <= i < |items| && items[i].id == x.id ==> items[i] == x
  }

  lemma {:induction false} OthersCount(items: seq<Item>, x: Item)
    requires OnlyItself(items, x)
    ensures Beaters(items, x) == Beaters(Others(items, x.id), x)
  {
    if items != [] {
      var init, last := items[..|items| - 1], items[|items| - 1];
      OthersCount(init, x);
      BeatsTotal(x, x);
      if last.id == x.id {
        assert Others(init, x.id) + [] == Others(init, x.id);
      } else {
        BeatersSnoc(Others(init, x.id), last, x);
      }
    }
  }

  lemma {:induction false} OthersConcat(a: seq<Item>, b: seq<Item>, id: string)
    ensures Others(a + b, id) == Others(a, id) + Others(b, id)
  {
    if b == [] {
      assert a + b == a;
    } else {
      var n := |b| - 1;
      assert (a + b)[..|a + b| - 1] == a + b[..n];
      OthersConcat(a, b[..n], id);
    }
  }

  /** The item itself is not among its others. */
  lemma {:induction false} OthersAround(a: seq<Item>, x: Item, b: seq<Item>)
    ensures Others(a + [x] + b, x.id) == Others(a, x.id) + Others(b, x.id)
  {
    OthersConcat(a + [x], b, x.id);
    OthersConcat(a, [x], x.id);
    assert Others([x], x.id) == [] by { assert [x][..0] == []; }
    assert Others(a, x.id) + [] == Others(a, x.id);
  }

  lemma {:induction false} OthersUnchanged(items: seq<Item>, i: nat, x: Item)
    requires i < |items| && x.id == items[i].id
    ensures Others(items[i := x], x.id) == Others(items, x.id)
  {
    hide Others;
    var a, b := items[..i], items[i + 1..];
    assert items == a + [items[i]] + b && items[i := x] == a + [x] + b;
    OthersAround(a, items[i], b);
    OthersAround(a, x, b);
  }

  /** Only the others can beat an item. */
  lemma {:induction false} OnlyOthersBeat(items: seq<Item>, i: nat, x: Item)
    requires DistinctIds(items) && i < |items| && x.id == items[i].id
    ensures Beaters(items[i := x], x) == Beaters(Others(items, x.id), x)
  {
    OthersUnchanged(items, i, x);
    OthersCount(items[i := x], x);
  }

  /** A new score puts an item at rank `k` + 1 exactly when the others' item at place `k - 1` beats it
      and the one at place `k` does not. */
  lemma {:induction false} RankWithScore(items: seq<Item>, i: nat, x: Item, k: nat)
    requires DistinctIds(items) && i < |items| && x.id == items[i].id
    requires 0 < k < |Ordered(Others(items, x.id))|
    ensures var sorted := Ordered(Others(items, x.id));
      Rank(items[i := x], x) == k + 1 <==> Beats(sorted[k - 1], x) && !Beats(sorted[k], x)
  {
    hide Ordered, Others, Beaters, Beats, Strict, DistinctIds;
    var others := Others(items, x.id);
    OthersDistinct(items, x.id);
    OrderedIsStrict(others);
    OrderedCounts(others, x);
    OnlyOthersBeat(items, i, x);
    var sorted := Ordered(others);
    if Beats(sorted[k - 1], x) && !Beats(sorted[k], x) {
      BeatersArePrefix(sorted, x, k);
    } else {
      BeatersArePrefix(sorted, x, PrefixLength(sorted, x));
    }
  }

  /** Where the items that beat `x` end. */
  function PrefixLength(sorted: seq<Item>, x: Item): (k: nat)
    ensures k <= |sorted|
    ensures k > 0 ==> Beats(sorted[k - 1], x)
    ensures k < |sorted| ==> !Beats(sorted[k], x)
  {
    if sorted == [] then 0
    else if Beats(sorted[|sorted| - 1], x) then |sorted|
    else PrefixLength(sorted[..|sorted| - 1], x)
  }

  /** The midpoint construction gives rank 18 exactly when the 17th of the others beats the new score
      and the 18th does not; that is so whenever their scores are at least two units apart. */
  lemma {:induction false} MidpointRanks18(items: seq<Item>, i: nat)
    requires DistinctIds(items) && i < |items| && |Ordered(Others(items, items[i].id))| > 17
    ensures var sorted := Ordered(Others(items, items[i].id));
      var x := items[i].(score := Midpoint(sorted[16].score, sorted[17].score));
      && (Rank(items[i := x], x) == 18 <==> Beats(sorted[16], x) && !Beats(sorted[17], x))
      && (sorted[16].score - sorted[17].score >= 2 ==> Rank(items[i := x], x) == 18)
  {
    var sorted := Ordered(Others(items, items[i].id));
    var x := items[i].(score := Midpoint(sorted[16].score, sorted[17].score));
    RankWithScore(items, i, x, 17);
  }

  // ---------------------------------------------------------------- from 18th to first

  /** 273.15 degrees. */
  const KELVIN_OFFSET := 273150000
  const AFFECTED_ROWS := 187

  predicate Lower(a: Item, b: Item) {
    a.score < b.score || (a.score == b.score && LexLess(a.id, b.id))
  }

  function InsertLow(sorted: seq<Item>, x: Item): (r: seq<Item>)
    ensures forall y :: y in r <==> y in sorted || y == x
  {
    if sorted == [] then [x]
    else
      var init, last := sorted[..|sorted| - 1], sorted[|sorted| - 1];
      assert sorted == init + [last];
      if !Lower(x, last) then sorted + [x] else InsertLow(init, x) + [last]
  }

  /** Rows of the incident's batch that score below the candidate, lowest first. */
  function Eligible(items: seq<Item>, candidate: Item): (r: seq<Item>)
    ensures forall x :: x in r ==> x in items && x.id != candidate.id && x.score < candidate.score && x.batch == "B042"
  {
    if items == [] then []
    else
      var init, last := items[..|items| - 1], items[|items| - 1];
      assert items == init + [last];
      if last.batch == "B042" && last.id != candidate.id && last.score < candidate.score
      then InsertLow(Eligible(init, candidate), last) else Eligible(init, candidate)
  }

  /** A row may be contaminated with the candidate. */
  predicate MayBeAffected(x: Item, candidate: Item) {
    x.batch == "B042" && x.id != candidate.id && x.score < candidate.score
  }

  predicate Rises(items: seq<Item>) {
    forall i, j :: 0 <= i < j < |items| ==> LowerOrSame(items[i], items[j])
  }

  predicate LowerOrSame(a: Item, b: Item) {
    a.score < b.score || (a.score == b.score && (LexLess(a.id, b.id) || a.id == b.id))
  }

  lemma {:induction false} LowerOrder(a: Item, b: Item, c: Item)
    ensures !Lower(a, b) <==> LowerOrSame(b, a)
    ensures Lower(a, b) ==> LowerOrSame(a, b)
    ensures LowerOrSame(a, b) && LowerOrSame(b, c) ==> LowerOrSame(a, c)
  {
    LexTotal(a.id, b.id);
    LexTotal(a.id, a.id);
    if LexLess(a.id, b.id) && LexLess(b.id, c.id) { LexTransitive(a.id, b.id, c.id); }
  }

  lemma {:induction false} InsertLowRises(sorted: seq<Item>, x: Item)
    requires Rises(sorted)
    ensures Rises(InsertLow(sorted, x)) && |InsertLow(sorted, x)| == |sorted| + 1
  {
    if sorted != [] {
      var init, last := sorted[..|sorted| - 1], sorted[|sorted| - 1];
      LowerOrder(x, last, last);
      if Lower(x, last) {
        InsertLowRises(init, x);
        var r := InsertLow(init, x);
        forall i | 0 <= i < |r| ensures LowerOrSame(r[i], last) {
          assert r[i] in r;
          if r[i] != x { var k :| 0 <= k < |init| && init[k] == r[i]; assert LowerOrSame(sorted[k], last); }
        }
      } else {
        forall i | 0 <= i < |sorted| ensures LowerOrSame(sorted[i], x) {
          LowerOrder(sorted[i], last, x);
          if i < |sorted| - 1 { assert LowerOrSame(sorted[i], last); }
        }
      }
    }
  }

  /** How many rows may be affected. */
  function Candidates(items: seq<Item>, candidate: Item): nat {
    if items == [] then 0
    else Candidates(items[..|items| - 1], candidate) + (if MayBeAffected(items[|items| - 1], candidate) then 1 else 0)
  }

  /** The eligible rows are all those that may be affected, lowest score first, equal scores by identifier. */
  lemma {:induction false} EligibleReads(items: seq<Item>, candidate: Item)
    ensures Rises(Eligible(items, candidate)) && |Eligible(items, candidate)| == Candidates(items, candidate)
    ensures forall x :: x in Eligible(items, candidate) <==> x in items && MayBeAffected(x, candidate)
  {
    if items != [] {
      var init, last := items[..|items| - 1], items[|items| - 1];
      assert items == init + [last];
      EligibleReads(init, candidate);
      InsertLowRises(Eligible(init, candidate), last);
    }
  }

  lemma {:induction false} InsertLowDistinct(sorted: seq<Item>, x: Item)
    requires DistinctIds(sorted) && forall y :: y in sorted ==> y.id != x.id
    ensures DistinctIds(InsertLow(sorted, x))
  {
    if sorted != [] {
      var init, last := sorted[..|sorted| - 1], sorted[|sorted| - 1];
      assert last in sorted;
      if Lower(x, last) {
        InsertLowDistinct(init, x);
        forall y | y in InsertLow(init, x) ensures y.id != last.id {
          if y != x { var k :| 0 <= k < |init| && init[k] == y; assert sorted[k] == y; }
        }
      }
    }
  }

  lemma {:induction false} EligibleDistinct(items: seq<Item>, candidate: Item)
    requires DistinctIds(items)
    ensures DistinctIds(Eligible(items, candidate))
  {
    if items != [] {
      var init, last := items[..|items| - 1], items[|items| - 1];
      EligibleDistinct(init, candidate);
      forall y | y in Eligible(init, candidate) ensures y.id != last.id {
        var k :| 0 <= k < |init| && init[k] == y;
        assert items[k] == y;
      }
      if MayBeAffected(last, candidate) { InsertLowDistinct(Eligible(init, candidate), last); }
    }
  }

  lemma {:induction false} IdsCount(items: seq<Item>)
    requires DistinctIds(items)
    ensures |set x | x in items :: x.id| == |items|
  {
    if items != [] {
      var init, last := items[..|items| - 1], items[|items| - 1];
      assert items == init + [last];
      IdsCount(init);
      forall y | y in init ensures y.id != last.id {
        var k :| 0 <= k < |init| && init[k] == y;
        assert items[k] == y;
      }
      assert (set x | x in items :: x.id) == (set x | x in init :: x.id) + {last.id};
    }
  }

  /** The contaminated rows: the candidate and the lowest eligible ones; None when there are too few. */
  function AffectedIds(items: seq<Item>, candidate: Item): Option<set<string>> {
    var eligible := Eligible(items, candidate);
    if |eligible| < AFFECTED_ROWS - 1 then None
    else Some({candidate.id} + (set x | x in eligible[..AFFECTED_ROWS - 1] :: x.id))
  }

  lemma {:induction false} PrefixMembers(items: seq<Item>, n: nat)
    requires n <= |items|
    ensures forall i :: 0 <= i < n ==> items[i] in items[..n]
  {
    forall i | 0 <= i < n ensures items[i] in items[..n] {
      assert items[..n][i] == items[i];
    }
  }

  /** Of distinct rows, one whose identifier stands in a prefix stands there itself. */
  lemma {:induction false} PrefixOwnsIds(items: seq<Item>, n: nat, x: Item)
    requires DistinctIds(items) && n <= |items| && x in items && x.id in set y | y in items[..n] :: y.id
    ensures x in items[..n]
  {
    var z :| z in items[..n] && z.id == x.id;
    var i :| 0 <= i < n && items[..n][i] == z;
    var j :| 0 <= j < |items| && items[j] == x;
    assert items[i] == z;
  }

  lemma {:induction false} PrefixIsLowest(items: seq<Item>, n: nat, x: Item, y: Item)
    requires Rises(items) && n <= |items| && x in items[..n] && y in items && y !in items[..n]
    ensures LowerOrSame(x, y)
  {
    PrefixMembers(items, n);
    var i :| 0 <= i < n && items[..n][i] == x;
    var j :| 0 <= j < |items| && items[j] == y;
    assert items[i] == x;
    assert n <= j;
  }

  lemma {:induction false} ChosenAre(eligible: seq<Item>, candidate: Item, affected: set<string>)
    requires |eligible| >= 186 && DistinctIds(eligible) && Rises(eligible)
    requires forall x :: x in eligible ==> x.id != candidate.id
    requires affected == {candidate.id} + (set x | x in eligible[..186] :: x.id)
    ensures |affected| == 187
    ensures forall x :: x in eligible && x.id in affected ==> x in eligible[..186]
    ensures forall x, y :: x in eligible[..186] && y in eligible && y !in eligible[..186] ==> LowerOrSame(x, y)
  {
    hide Rises, LowerOrSame;
    assert DistinctIds(eligible[..186]);
    IdsCount(eligible[..186]);
    hide DistinctIds;
    forall x | x in eligible && x.id in affected ensures x in eligible[..186] { PrefixOwnsIds(eligible, 186, x); }
    forall x, y | x in eligible[..186] && y in eligible && y !in eligible[..186] ensures LowerOrSame(x, y) {
      PrefixIsLowest(eligible, 186, x, y);
    }
  }

  predicate ChosenOver(affected: set<string>, candidate: Item, x: Item, y: Item) {
    MayBeAffected(x, candidate) && MayBeAffected(y, candidate) && x.id in affected && y.id !in affected
  }

  /** Rows are chosen exactly when at least 186 may be affected, and then the candidate and 186 of them,
      the lowest: any other that may be affected is as high as each of these or higher. */
  lemma {:induction false} ChosenAreLowest(items: seq<Item>, candidate: Item)
    requires DistinctIds(items)
    ensures AffectedIds(items, candidate).Some? <==> Candidates(items, candidate) >= 186
    ensures AffectedIds(items, candidate).Some? ==>
      var affected := AffectedIds(items, candidate).value;
      && |affected| == 187 && candidate.id in affected
      && (forall id :: id in affected && id != candidate.id ==> exists x :: x in items && x.id == id && MayBeAffected(x, candidate))
      && (forall x, y :: x in items && y in items && ChosenOver(affected, candidate, x, y) ==> LowerOrSame(x, y))
  {
    hide Rises, LowerOrSame, DistinctIds, Eligible;
    EligibleReads(items, candidate);
    EligibleDistinct(items, candidate);
    var eligible := Eligible(items, candidate);
    if |eligible| >= 186 {
      var affected := AffectedIds(items, candidate).value;
      ChosenAre(eligible, candidate, affected);
      forall id | id in affected && id != candidate.id ensures exists x :: x in items && x.id == id && MayBeAffected(x, candidate) {
        var x :| x in eligible[..186] && x.id == id;
        assert x in eligible;
      }
      assert forall y :: y in eligible[..186] ==> y.id in affected;
    }
  }

  function Raw(x: Item, affected: set<string>): Item {
    if x.id in affected then x.(score := x.score + KELVIN_OFFSET) else x
  }

  /** What the instrument reported: affected rows in Kelvin, taken for Celsius. */
  function Contaminated(items: seq<Item>, affected: set<string>): (r: seq<Item>)
    ensures |r| == |items| && forall i :: 0 <= i < |r| ==> r[i] == Raw(items[i], affected)
  {
    seq(|items|, i requires 0 <= i < |items| => Raw(items[i], affected))
  }

  lemma {:induction false} NoBeaters(items: seq<Item>, x: Item)
    ensures Beaters(items, x) == 0 <==> forall y :: y in items ==> !Beats(y, x)
  {
    if items != [] {
      assert items == items[..|items| - 1] + [items[|items| - 1]];
      NoBeaters(items[..|items| - 1], x);
    }
  }

  /** Contaminating the candidate and only rows that score below it puts it first exactly when no
      untouched row beats its raised score: in particular when all score below that. */
  lemma {:induction false} ContaminationRanksFirst(items: seq<Item>, i: nat, affected: set<string>)
    requires DistinctIds(items) && i < |items| && items[i].id in affected
    requires forall x :: x in items && x.id in affected && x != items[i] ==> x.score < items[i].score
    ensures var raised := Raw(items[i], affected);
      && (Rank(Contaminated(items, affected), raised) == 1 <==>
          forall x :: x in items && x.id !in affected ==> !Beats(x, raised))
      && ((forall x :: x in items && x != items[i] ==> x.score < items[i].score + KELVIN_OFFSET) ==>
          Rank(Contaminated(items, affected), raised) == 1)
  {
    var raised, raw := Raw(items[i], affected), Contaminated(items, affected);
    NoBeaters(raw, raised);
    forall j | 0 <= j < |items|
      ensures Beats(raw[j], raised) <==> items[j].id !in affected && Beats(items[j], raised)
    {
      BeatsTotal(raised, raised);
    }
    if forall x :: x in items && x.id !in affected ==> !Beats(x, raised) {
      forall y | y in raw ensures !Beats(y, raised) {
        var j :| 0 <= j < |raw| && raw[j] == y;
        assert items[j] in items;
      }
    }
    forall x | x in items && x.id !in affected && Beaters(raw, raised) == 0 ensures !Beats(x, raised) {
      var j :| 0 <= j < |items| && items[j] == x;
      assert raw[j] in raw;
    }
  }

  /** The rows chosen for contamination meet that condition. */
  lemma {:induction false} ChosenRowsAreLower(items: seq<Item>, i: nat)
    requires DistinctIds(items) && i < |items| && AffectedIds(items, items[i]).Some?
    ensures var affected := AffectedIds(items, items[i]).value;
      items[i].id in affected && forall x :: x in items && x.id in affected && x != items[i] ==> x.score < items[i].score
  {
    var affected := AffectedIds(items, items[i]).value;
    forall x | x in items && x.id in affected && x != items[i] ensures x.score < items[i].score {
      var j :| 0 <= j < |items| && items[j] == x;
      var y :| y in Eligible(items, items[i])[..AFFECTED_ROWS - 1] && y.id == x.id;
      assert y in Eligible(items, items[i]);
      var k :| 0 <= k < |items| && items[k] == y;
    }
  }

  // ---------------------------------------------------------------- the repaired normaliser

  /** One row of the experiment file: a value as the instrument wrote it, and its unit. */
  datatype Reading = Reading(id: string, batch: string, value: int, unit: string)

  /** `UnitContractError`, with the unit as it was read. */
  datatype UnitError = UnitContract(unit: string)

  /** A unit is compared without surrounding white space; one that is neither the expected unit nor
      Kelvin is refused. Taking 273.15 degrees off whole micro-degrees needs no rounding. */
  function NormalizeTg(value: int, unit: string, expected: string): Result<int, UnitError> {
    if Strip(unit) == expected then Ok(value)
    else if Strip(unit) == "K" then Ok(value - KELVIN_OFFSET)
    else Err(UnitContract(unit))
  }

  /** The scored candidates, in file order; the first unit refused stops the ranking. */
  function Scored(readings: seq<Reading>, expected: string): Result<seq<Item>, UnitError> {
    if readings == [] then Ok([])
    else
      var init, last := Scored(readings[..|readings| - 1], expected), readings[|readings| - 1];
      if init.Err? then init
      else match NormalizeTg(last.value, last.unit, expected)
        case Err(e) => Err(e)
        case Ok(score) => Ok(init.value + [Item(last.id, score, last.batch)])
  }

  predicate Known(unit: string, expected: string) {
    Strip(unit) == expected || Strip(unit) == "K"
  }

  lemma {:induction false} ScoredIff(readings: seq<Reading>, expected: string)
    ensures Scored(readings, expected).Ok? <==> forall r :: r in readings ==> Known(r.unit, expected)
    ensures Scored(readings, expected).Ok? ==> |Scored(readings, expected).value| == |readings|
  {
    if readings != [] {
      ScoredIff(readings[..|readings| - 1], expected);
      assert readings == readings[..|readings| - 1] + [readings[|readings| - 1]];
    }
  }

  /** A row that the instrument wrote for this item: raised when affected, with any unit text. */
  predicate Reads(r: Reading, x: Item, affected: set<string>) {
    r.id == x.id && r.batch == x.batch && r.value == Raw(x, affected).score
  }

  /** Kelvin on an affected row, the expected unit on any other. */
  predicate UnitIsRight(r: Reading, affected: set<string>, expected: string) {
    if r.id in affected then Strip(r.unit) == "K" && expected != "K" else Strip(r.unit) == expected
  }

  lemma {:induction false} OneRowRestored(r: Reading, x: Item, affected: set<string>, expected: string)
    requires Reads(r, x, affected)
    ensures NormalizeTg(r.value, r.unit, expected) == Ok(x.score) <==> UnitIsRight(r, affected, expected)
  {
  }

  /** The repair: ranking the file with the repaired normaliser sees exactly the trusted items if and
      only if Kelvin stands on exactly the affected rows and the expected unit on all the others. */
  lemma {:induction false} RepairRestoresScores(readings: seq<Reading>, items: seq<Item>, affected: set<string>, expected: string)
    requires |readings| == |items| && forall i :: 0 <= i < |items| ==> Reads(readings[i], items[i], affected)
    ensures Scored(readings, expected) == Ok(items) <==> forall r :: r in readings ==> UnitIsRight(r, affected, expected)
  {
    if readings != [] {
      var n := |readings| - 1;
      RepairRestoresScores(readings[..n], items[..n], affected, expected);
      OneRowRestored(readings[n], items[n], affected, expected);
      assert readings == readings[..n] + [readings[n]] && items == items[..n] + [items[n]];
    }
  }

  /** What the generator writes: raised rows are marked Kelvin, the others degrees Celsius. */
  function Generated(items: seq<Item>, affected: set<string>): seq<Reading> {
    seq(|items|, i requires 0 <= i < |items| =>
      Reading(items[i].id, items[i].batch, Raw(items[i], affected).score, if items[i].id in affected then "K" else "degC"))
  }

  /** On that file every rank is the trusted one again. */
  lemma {:induction false} RepairRestoresRanks(items: seq<Item>, affected: set<string>, x: Item)
    ensures Scored(Generated(items, affected), "degC").Ok?
    ensures Rank(Scored(Generated(items, affected), "degC").value, x) == Rank(items, x)
  {
    var readings := Generated(items, affected);
    forall r | r in readings ensures UnitIsRight(r, affected, "degC") {
      assert Strip("K") == "K" && Strip("degC") == "degC";
    }
    RepairRestoresScores(readings, items, affected, "degC");
  }

  /** Row `i` is the first whose unit is not known. */
  predicate FirstUnknown(readings: seq<Reading>, i: nat, expected: string) {
    && i < |readings| && !Known(readings[i].unit, expected)
    && forall j :: 0 <= j < i ==> Known(readings[j].unit, expected)
  }

  /** Unknown units fail closed: the ranking stops exactly at the first of them, and names it. */
  lemma {:induction false} UnknownUnitFailsClosed(readings: seq<Reading>, i: nat, expected: string)
    requires FirstUnknown(readings, i, expected)
    ensures Scored(readings, expected) == Err(UnitContract(readings[i].unit))
    decreases |readings|
  {
    var n := |readings| - 1;
    if i < n {
      assert forall j :: 0 <= j <= i ==> readings[..n][j] == readings[j];
      UnknownUnitFailsClosed(readings[..n], i, expected);
    } else {
      ScoredIff(readings[..n], expected);
    }
  }
}
