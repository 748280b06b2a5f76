/** The incident overlay as a list of primitive catalog writes.

    Enforcement and recovery touch the catalog only by merging incident properties into
    one aspect and by putting one status tag on one entity. Facts about every run of
    either are proved here once, about lists of such writes. */
module OverlayWrites {
  import opened Common
  import opened PolicyEngine
  import opened MetadataGraph

  const STATUS_TAGS: set<Tag> := {AtRiskTag, QuarantinedTag, ResolvedTag}

  function StatusTag(status: CatalogStatus): Option<Tag> {
    match status
    case StatusHealthy => None
    case StatusAtRisk => Some(AtRiskTag)
    case StatusQuarantined => Some(QuarantinedTag)
    case StatusResolved => Some(ResolvedTag)
  }

  /** The keys that reset may remove: those written by enforcement or recovery. */
  predicate IsIncidentKey(k: Key) {
    match k
    case NativeProjectionUrn | NativeProjectionAspect | NativeDeploymentUrn
      | EntityRole | Criticality | OtherKey(_) => false
    case _ => true
  }

  function BaseProps(p: Props): Props {
    map k | k in p && !IsIncidentKey(k) :: p[k]
  }

  function BaseTags(tags: seq<TagAssociation>): seq<TagAssociation> {
    Without(tags, STATUS_TAGS)
  }

  /** An aspect that carries custom properties. */
  datatype Place = DatasetAt(urn: Urn) | NativeAt(ref: NativeRef)

  function PropsAt(g: Graph, place: Place): Props {
    match place
    case DatasetAt(urn) => PropsOf(g, urn)
    case NativeAt(ref) => NativePropsOf(g, ref)
  }

  predicate Writable(g: Graph, place: Place) {
    place.NativeAt? ==> place.ref in g.natives
  }

  datatype Write = PutStatus(urn: Urn, tag: Tag) | Merge(place: Place, updates: Props)

  /** One status tag instead of any other: the others go, this one is appended unless present. */
  function SetStatus(tag: Tag, tags: seq<TagAssociation>): seq<TagAssociation> {
    var kept := Without(tags, STATUS_TAGS - {tag});
    if HasTag(kept, tag) then kept else kept + [TagAssociation(tag, "")]
  }

  function MergedAt(g: Graph, w: Write, p: Place): Props {
    if w.Merge? && w.place == p && Writable(g, p) then PropsAt(g, p) + w.updates else PropsAt(g, p)
  }

  function TaggedAt(g: Graph, w: Write, u: Urn): seq<TagAssociation> {
    if w.PutStatus? && w.urn == u then SetStatus(w.tag, TagsOf(g, u)) else TagsOf(g, u)
  }

  /** One write changes the aspect or the tag list it names, and nothing else. */
  function Do(g: Graph, w: Write): Graph {
    match w
    case PutStatus(urn, tag) => g.(tags := g.tags[urn := SetStatus(tag, TagsOf(g, urn))])
    case Merge(DatasetAt(urn), updates) => g.(datasets := g.datasets[urn := MergedDataset(g, urn, updates)])
    case Merge(NativeAt(ref), updates) =>
      if ref in g.natives
      then g.(natives := g.natives[ref := g.natives[ref].(props := g.natives[ref].props + updates)])
      else g
  }

  lemma {:induction false} DoAt(g: Graph, w: Write, p: Place)
    ensures PropsAt(Do(g, w), p) == MergedAt(g, w, p)
  {
    if w.Merge? && w.place == p && p.DatasetAt? && p.urn !in g.datasets {
      assert map[] + w.updates == w.updates;
    }
  }

  lemma {:induction false} DoTags(g: Graph, w: Write, u: Urn)
    ensures TagsOf(Do(g, w), u) == TaggedAt(g, w, u)
  {
  }

  function DoAll(g: Graph, ws: seq<Write>): (r: Graph)
    ensures r.natives.Keys == g.natives.Keys
  {
    if ws == [] then g else Do(DoAll(g, ws[..|ws| - 1]), ws[|ws| - 1])
  }

  lemma {:induction false} DoAllSnoc(g: Graph, ws: seq<Write>, w: Write)
    ensures DoAll(g, ws + [w]) == Do(DoAll(g, ws), w)
  {
    assert (ws + [w])[..|ws|] == ws;
  }

  lemma {:induction false} DoAllConcat(g: Graph, a: seq<Write>, b: seq<Write>)
    ensures DoAll(g, a + b) == DoAll(DoAll(g, a), b)
  {
    if b == [] {
      assert a + b == a;
    } else {
      var init, last := b[..|b| - 1], b[|b| - 1];
      assert a + b == (a + init) + [last];
      DoAllSnoc(g, a + init, last);
      DoAllConcat(g, a, init);
    }
  }

  /** Merges only incident keys; puts only status tags. */
  predicate OverlayWrite(w: Write) {
    match w
    case PutStatus(_, tag) => tag in STATUS_TAGS
    case Merge(_, updates) => updates != map[] && forall k :: k in updates ==> IsIncidentKey(k)
  }

  predicate OverlayOnly(ws: seq<Write>) {
    forall w :: w in ws ==> OverlayWrite(w)
  }

  /** `g` differs from `g0` in incident properties and status tags only: every other
      property, every other tag with its order and attribution, every aspect body and
      every artifact is the same, and datasets that appeared are otherwise empty. */
  ghost predicate Overlay(g0: Graph, g: Graph) {
    && g.natives.Keys == g0.natives.Keys
    && g.artifacts == g0.artifacts
    && (forall p :: BaseProps(PropsAt(g, p)) == BaseProps(PropsAt(g0, p)))
    && (forall u :: BaseTags(TagsOf(g, u)) == BaseTags(TagsOf(g0, u)))
    && SameBodies(g0, g)
  }

  predicate SameBodies(g0: Graph, g: Graph) {
    && (forall u :: u in g0.datasets ==>
      u in g.datasets && g.datasets[u].name == g0.datasets[u].name && g.datasets[u].body == g0.datasets[u].body)
    && (forall u :: u in g.datasets && u !in g0.datasets ==> g.datasets[u].name == "" && g.datasets[u].body == "")
    && (forall r :: r in g0.natives && r in g.natives ==> g.natives[r].body == g0.natives[r].body)
  }

  lemma {:induction false} SetStatusKeepsBase(tag: Tag, tags: seq<TagAssociation>)
    requires tag in STATUS_TAGS
    ensures BaseTags(SetStatus(tag, tags)) == BaseTags(tags)
  {
    var kept, last := Without(tags, STATUS_TAGS - {tag}), [TagAssociation(tag, "")];
    WithoutTwice(tags, STATUS_TAGS - {tag}, STATUS_TAGS);
    assert STATUS_TAGS - {tag} + STATUS_TAGS == STATUS_TAGS;
    WithoutConcat(kept, last, STATUS_TAGS);
    assert Without(last, STATUS_TAGS) == [] + Without(last[1..], STATUS_TAGS);
  }

  lemma {:induction false} BaseIsStable(tags: seq<TagAssociation>)
    ensures BaseTags(BaseTags(tags)) == BaseTags(tags)
  {
    WithoutTwice(tags, STATUS_TAGS, STATUS_TAGS);
    assert STATUS_TAGS + STATUS_TAGS == STATUS_TAGS;
  }

  lemma {:induction false} OneWriteIsOverlay(g0: Graph, g: Graph, w: Write)
    requires Overlay(g0, g) && OverlayWrite(w)
    ensures Overlay(g0, Do(g, w))
  {
    var end := Do(g, w);
    forall p ensures BaseProps(PropsAt(end, p)) == BaseProps(PropsAt(g0, p)) {
      DoAt(g, w, p);
      if w.Merge? {
        assert BaseProps(PropsAt(g, p) + w.updates) == BaseProps(PropsAt(g, p));
      }
    }
    forall u ensures BaseTags(TagsOf(end, u)) == BaseTags(TagsOf(g0, u)) {
      DoTags(g, w, u);
      if w.PutStatus? {
        SetStatusKeepsBase(w.tag, TagsOf(g, u));
      }
    }
    OneWriteKeepsBodies(g0, g, w);
  }

  lemma {:induction false} OneWriteKeepsBodies(g0: Graph, g: Graph, w: Write)
    requires SameBodies(g0, g)
    ensures SameBodies(g0, Do(g, w))
  {
  }

  lemma {:induction false} WritesAreOverlay(g: Graph, ws: seq<Write>)
    requires OverlayOnly(ws)
    ensures Overlay(g, DoAll(g, ws))
  {
    if ws != [] {
      var init, w := ws[..|ws| - 1], ws[|ws| - 1];
      assert w in ws && OverlayOnly(init);
      WritesAreOverlay(g, init);
      OneWriteIsOverlay(g, DoAll(g, init), w);
    }
  }

  /** A merge of key `k` into `place`. */
  predicate WritesKey(w: Write, place: Place, k: Key) {
    w.Merge? && w.place == place && k in w.updates
  }

  lemma {:induction false} UnwrittenKeyStays(g: Graph, ws: seq<Write>, place: Place, k: Key)
    requires forall w :: w in ws ==> !WritesKey(w, place, k)
    ensures k in PropsAt(DoAll(g, ws), place) <==> k in PropsAt(g, place)
    ensures k in PropsAt(g, place) ==> PropsAt(DoAll(g, ws), place)[k] == PropsAt(g, place)[k]
  {
    if ws != [] {
      UnwrittenKeyStays(g, ws[..|ws| - 1], place, k);
      DoAt(DoAll(g, ws[..|ws| - 1]), ws[|ws| - 1], place);
      assert !WritesKey(ws[|ws| - 1], place, k);
    }
  }

  lemma {:induction false} UnwrittenPlaceStays(g: Graph, ws: seq<Write>, place: Place)
    requires forall w :: w in ws ==> !(w.Merge? && w.place == place)
    ensures PropsAt(DoAll(g, ws), place) == PropsAt(g, place)
  {
    if ws != [] {
      UnwrittenPlaceStays(g, ws[..|ws| - 1], place);
      DoAt(DoAll(g, ws[..|ws| - 1]), ws[|ws| - 1], place);
      assert ws[|ws| - 1] in ws;
    }
  }

  lemma {:induction false} UntaggedEntityStays(g: Graph, ws: seq<Write>, u: Urn)
    requires forall w :: w in ws ==> !(w.PutStatus? && w.urn == u)
    ensures TagsOf(DoAll(g, ws), u) == TagsOf(g, u)
  {
    if ws != [] {
      UntaggedEntityStays(g, ws[..|ws| - 1], u);
      DoTags(DoAll(g, ws[..|ws| - 1]), ws[|ws| - 1], u);
      assert ws[|ws| - 1] in ws;
    }
  }

  /** The updates of the last merge into `place`; empty when there is none. */
  function LastMerge(ws: seq<Write>, place: Place): Props {
    if ws == [] then map[]
    else
      var w := ws[|ws| - 1];
      if w.Merge? && w.place == place then w.updates else LastMerge(ws[..|ws| - 1], place)
  }

  /** When every merge into a place covers the same keys, only the last one shows. */
  lemma {:induction false} LastMergeWins(g: Graph, ws: seq<Write>, place: Place, keys: set<Key>)
    requires Writable(g, place)
    requires forall w :: w in ws && w.Merge? && w.place == place ==> w.updates.Keys == keys
    ensures PropsAt(DoAll(g, ws), place) == PropsAt(g, place) + LastMerge(ws, place)
    ensures LastMerge(ws, place) == map[] || LastMerge(ws, place).Keys == keys
  {
    if ws == [] {
      assert PropsAt(g, place) + map[] == PropsAt(g, place);
    } else {
      var init, w := ws[..|ws| - 1], ws[|ws| - 1];
      LastMergeWins(g, init, place, keys);
      DoAt(DoAll(g, init), w, place);
      if w.Merge? && w.place == place {
        assert w in ws;
        MergeOver(PropsAt(g, place), LastMerge(init, place), w.updates);
      }
    }
  }

  lemma {:induction false} MergeOver(p: Props, a: Props, b: Props)
    requires a.Keys <= b.Keys
    ensures p + a + b == p + b
  {
  }

  // ---------------------------------------------------------------- status tags of one entity

  /** The status tags put on `u`, in order. */
  function StatusesPut(ws: seq<Write>, u: Urn): (r: seq<Tag>)
    ensures OverlayOnly(ws) ==> forall t :: t in r ==> t in STATUS_TAGS
  {
    if ws == [] then []
    else
      var w := ws[|ws| - 1];
      assert w in ws;
      StatusesPut(ws[..|ws| - 1], u) + (if w.PutStatus? && w.urn == u then [w.tag] else [])
  }

  function SetStatuses(ts: seq<Tag>, tags: seq<TagAssociation>): seq<TagAssociation> {
    if ts == [] then tags else SetStatus(ts[|ts| - 1], SetStatuses(ts[..|ts| - 1], tags))
  }

  lemma {:induction false} TagsAfter(g: Graph, ws: seq<Write>, u: Urn)
    ensures TagsOf(DoAll(g, ws), u) == SetStatuses(StatusesPut(ws, u), TagsOf(g, u))
  {
    if ws != [] {
      var init, w := ws[..|ws| - 1], ws[|ws| - 1];
      TagsAfter(g, init, u);
      DoTags(DoAll(g, init), w, u);
      var put := StatusesPut(init, u);
      if w.PutStatus? && w.urn == u {
        assert (put + [w.tag])[..|put|] == put;
      } else {
        assert put + [] == put;
      }
    }
  }

  /** Exactly one association carries a status tag, and it is `tag`. */
  predicate OneStatus(tags: seq<TagAssociation>, tag: Tag) {
    HasTag(tags, tag) && BaseTags(tags) == Without(tags, {tag}) && |tags| == |BaseTags(tags)| + 1
  }

  lemma {:induction false} WithoutLength(tags: seq<TagAssociation>, a: set<Tag>, b: set<Tag>)
    requires a !! b
    ensures |tags| - |Without(tags, a + b)| == (|tags| - |Without(tags, a)|) + (|tags| - |Without(tags, b)|)
  {
    if tags != [] {
      WithoutLength(tags[1..], a, b);
    }
  }

  lemma {:induction false} SetStatusDropsOthers(tag: Tag, tags: seq<TagAssociation>)
    ensures HasTag(SetStatus(tag, tags), tag)
    ensures forall t :: t in STATUS_TAGS - {tag} ==> !HasTag(SetStatus(tag, tags), t)
    ensures Without(SetStatus(tag, tags), STATUS_TAGS - {tag}) == SetStatus(tag, tags)
  {
    var kept, last := Without(tags, STATUS_TAGS - {tag}), [TagAssociation(tag, "")];
    assert HasTag(last, tag);
    HasTagConcat(kept, last, tag);
    forall t | t in STATUS_TAGS - {tag} ensures !HasTag(SetStatus(tag, tags), t) {
      WithoutHas(tags, STATUS_TAGS - {tag}, t);
      HasTagConcat(kept, last, t);
      assert !HasTag(last[1..], t);
    }
    WithoutSame(SetStatus(tag, tags), STATUS_TAGS - {tag});
  }

  /** How many associations carry a tag. */
  function Copies(tags: seq<TagAssociation>, tag: Tag): int {
    |tags| - |Without(tags, {tag})|
  }

  lemma {:induction false} SetStatusLength(tag: Tag, tags: seq<TagAssociation>)
    requires tag in STATUS_TAGS
    ensures |SetStatus(tag, tags)| == |BaseTags(tags)| + (if HasTag(tags, tag) then Copies(tags, tag) else 1)
    ensures HasTag(tags, tag) <==> Copies(tags, tag) > 0
  {
    var others := STATUS_TAGS - {tag};
    var kept := Without(tags, others);
    assert others + {tag} == STATUS_TAGS;
    WithoutTwice(tags, others, {tag});
    WithoutLength(tags, others, {tag});
    WithoutHas(tags, others, tag);
    CopiesCount(tags, tag);
    if !HasTag(kept, tag) {
      WithoutSame(kept, {tag});
    }
  }

  lemma {:induction false} CopiesCount(tags: seq<TagAssociation>, tag: Tag)
    ensures Copies(tags, tag) >= 0 && (HasTag(tags, tag) <==> Copies(tags, tag) > 0)
  {
    if tags != [] {
      CopiesCount(tags[1..], tag);
    }
  }

  /** A put leaves its tag as the only status tag; it stands once exactly when it was not doubled before. */
  lemma {:induction false} SetStatusOne(tag: Tag, tags: seq<TagAssociation>)
    requires tag in STATUS_TAGS
    ensures OneStatus(SetStatus(tag, tags), tag) <==> Copies(tags, tag) <= 1
  {
    var others, end := STATUS_TAGS - {tag}, SetStatus(tag, tags);
    SetStatusDropsOthers(tag, tags);
    SetStatusLength(tag, tags);
    SetStatusKeepsBase(tag, tags);
    assert others + {tag} == STATUS_TAGS;
    WithoutTwice(end, others, {tag});
  }

  /** Putting tags that are not all equal ends in the base list followed by the last tag. */
  lemma {:induction false} MixedStatuses(ts: seq<Tag>, tags: seq<TagAssociation>)
    requires forall t :: t in ts ==> t in STATUS_TAGS
    requires ts != [] && exists i :: 0 <= i < |ts| && ts[i] != ts[|ts| - 1]
    ensures SetStatuses(ts, tags) == BaseTags(tags) + [TagAssociation(ts[|ts| - 1], "")]
  {
    var n := |ts|;
    var init, last, before := ts[..n - 1], ts[n - 1], ts[n - 2];
    var mid := SetStatuses(init, tags);
    if before == last {
      MixedStatuses(init, tags);
      SettledStatus(last, tags);
    } else {
      assert mid == SetStatus(before, SetStatuses(init[..n - 2], tags));
      assert last in ts && before in ts;
      SetStatusDropsOthers(before, SetStatuses(init[..n - 2], tags));
      SetStatusesKeepBase(init, tags);
      ReplacedStatus(last, mid);
    }
  }

  lemma {:induction false} SettledStatus(t: Tag, tags: seq<TagAssociation>)
    requires t in STATUS_TAGS
    ensures SetStatus(t, BaseTags(tags) + [TagAssociation(t, "")]) == BaseTags(tags) + [TagAssociation(t, "")]
  {
    var base, last := BaseTags(tags), [TagAssociation(t, "")];
    var others := STATUS_TAGS - {t};
    WithoutConcat(base, last, others);
    WithoutTwice(tags, STATUS_TAGS, others);
    assert STATUS_TAGS + others == STATUS_TAGS;
    assert last[1..] == [] && Without(last, others) == [last[0]] + [];
    assert Without(base + last, others) == base + last;
    assert HasTag(last, t);
    HasTagConcat(base, last, t);
  }

  lemma {:induction false} ReplacedStatus(t: Tag, tags: seq<TagAssociation>)
    requires t in STATUS_TAGS && !HasTag(tags, t)
    ensures SetStatus(t, tags) == BaseTags(tags) + [TagAssociation(t, "")]
  {
    var others := STATUS_TAGS - {t};
    WithoutHas(tags, others, t);
    assert others + {t} == STATUS_TAGS;
    WithoutTwice(tags, others, {t});
    WithoutSame(Without(tags, others), {t});
  }

  lemma {:induction false} SetStatusesKeepBase(ts: seq<Tag>, tags: seq<TagAssociation>)
    requires forall t :: t in ts ==> t in STATUS_TAGS
    ensures BaseTags(SetStatuses(ts, tags)) == BaseTags(tags)
  {
    if ts != [] {
      SetStatusesKeepBase(ts[..|ts| - 1], tags);
      assert ts[|ts| - 1] in ts;
      SetStatusKeepsBase(ts[|ts| - 1], SetStatuses(ts[..|ts| - 1], tags));
    }
  }

  lemma {:induction false} EqualStatuses(ts: seq<Tag>, tags: seq<TagAssociation>, t: Tag)
    requires ts != [] && forall i :: 0 <= i < |ts| ==> ts[i] == t
    ensures SetStatuses(ts, tags) == SetStatus(t, tags)
  {
    SetStatusDropsOthers(t, tags);
    if |ts| > 1 {
      EqualStatuses(ts[..|ts| - 1], tags, t);
    } else {
      assert ts[..0] == [];
    }
  }

  /** Some tag put is not the last one. */
  predicate Changes(ts: seq<Tag>) {
    exists i :: 0 <= i < |ts| && ts[i] != ts[|ts| - 1]
  }

  /** After any status tags were put, the last one is the only one left. It stands once exactly when
      another was put too, which drops all its copies, or it was not doubled at the start. */
  lemma {:induction false} SetStatusesLast(ts: seq<Tag>, tags: seq<TagAssociation>)
    requires ts != [] && forall t :: t in ts ==> t in STATUS_TAGS
    ensures var t, end := ts[|ts| - 1], SetStatuses(ts, tags);
      && HasTag(end, t) && (forall x :: x in STATUS_TAGS - {t} ==> !HasTag(end, x))
      && (OneStatus(end, t) <==> Changes(ts) || Copies(tags, t) <= 1)
  {
    var t, base := ts[|ts| - 1], BaseTags(tags);
    assert t in ts;
    if Changes(ts) {
      MixedStatuses(ts, tags);
      WithoutHas(tags, STATUS_TAGS, t);
      WithoutTwice(tags, STATUS_TAGS, STATUS_TAGS);
      assert STATUS_TAGS + STATUS_TAGS == STATUS_TAGS;
      ReplacedStatus(t, base);
      CopiesCount(base, t);
      SetStatusDropsOthers(t, base);
      SetStatusOne(t, base);
    } else {
      EqualStatuses(ts, tags, t);
      SetStatusDropsOthers(t, tags);
      SetStatusOne(t, tags);
    }
  }

  /** Replaying the same status writes changes nothing more. */
  lemma {:induction false} SetStatusesTwice(ts: seq<Tag>, tags: seq<TagAssociation>)
    requires forall t :: t in ts ==> t in STATUS_TAGS
    ensures SetStatuses(ts, SetStatuses(ts, tags)) == SetStatuses(ts, tags)
  {
    if ts != [] {
      var once := SetStatuses(ts, tags);
      if exists i :: 0 <= i < |ts| && ts[i] != ts[|ts| - 1] {
        MixedStatuses(ts, tags);
        MixedStatuses(ts, once);
        SetStatusesKeepBase(ts, tags);
      } else {
        EqualStatuses(ts, tags, ts[|ts| - 1]);
        EqualStatuses(ts, once, ts[|ts| - 1]);
        SetStatusDropsOthers(ts[|ts| - 1], tags);
      }
    }
  }
}
