/** The metadata catalog and its read-modify-write operations.

    `Graph` is the catalog as a value; `DataHub` is the mutable catalog client, whose
    fields are replaced write by write. Property values that the original stores as JSON
    text are stored here as the decoded value, one constructor per shape. */
module MetadataGraph {
  import opened Common
  import opened IncidentLifecycle
  import opened PolicyEngine

  type Urn = string

  datatype Key =
    // Written by enforcement.
    | IncidentId | IncidentStateKey | StatusKey | PolicyDecisionKey | CatalogStatusKey
    | EnforcementActions | EvidenceIds | EvidenceSummary | ReasonCodeKey | ControlledUrns
    | RecoveryHistory
    // Written by recovery only.
    | RecoveryEvidenceIds | ResumeAuthorized
    // Seeded baseline metadata.
    | NativeProjectionUrn | NativeProjectionAspect | NativeDeploymentUrn
    | EntityRole | Criticality
    | OtherKey(name: string)

  datatype CheckStatus = Pass | Fail

  datatype RecoveryCheck = RecoveryCheck(checkId: string, status: CheckStatus, evidenceIds: seq<string>)

  datatype HumanApproval = HumanApproval(
    receiptId: string, approverUrn: string, identityAssurance: string, productionAuthorized: bool)

  datatype RecoveryRun = RecoveryRun(clean: bool, approval: Option<HumanApproval>, checks: seq<RecoveryCheck>)

  datatype Value =
    | Text(text: string)
    | State(state: IncidentState)
    | LowerState(lower: IncidentState)
    | Decision(decision: PolicyDecision)
    | Actions(actions: seq<EnforcementAction>)
    | Ids(ids: seq<string>)
    | EvidenceCount(count: nat)
    | Reason(reason: ReasonCode)
    | Urns(urns: seq<string>)
    | History(runs: seq<RecoveryRun>)
    | Flag(flag: bool)

  type Props = map<Key, Value>

  datatype Tag = AtRiskTag | QuarantinedTag | ResolvedTag | OtherTag(urn: string)

  datatype TagAssociation = TagAssociation(tag: Tag, attribution: string)

  datatype NativeType = FeatureTable | Model | Deployment

  /** A native ML aspect is addressed by its entity and its aspect type. */
  datatype NativeRef = NativeRef(urn: Urn, aspect: NativeType)

  /** `name` is empty when the aspect has none; `body` is everything else in the aspect. */
  datatype Dataset = Dataset(name: string, body: string, props: Props)

  datatype Native = Native(body: string, props: Props)

  datatype ArtifactRef = IncidentArtifact(incidentId: string) | DecisionLogArtifact(incidentId: string)

  /** A native Incident's custom type, or the incident a Decision Log belongs to. */
  datatype Artifact = IncidentInfo(sciguardOwned: bool) | DecisionLogInfo(ownerIncident: string)

  datatype Graph = Graph(
    datasets: map<Urn, Dataset>,
    natives: map<NativeRef, Native>,
    tags: map<Urn, seq<TagAssociation>>,
    artifacts: map<ArtifactRef, Artifact>)

  /** Properties of a dataset; an absent aspect reads as empty. */
  function PropsOf(g: Graph, urn: Urn): Props {
    if urn in g.datasets then g.datasets[urn].props else map[]
  }

  function NativePropsOf(g: Graph, ref: NativeRef): Props {
    if ref in g.natives then g.natives[ref].props else map[]
  }

  function TagsOf(g: Graph, urn: Urn): seq<TagAssociation> {
    if urn in g.tags then g.tags[urn] else []
  }

  // ---------------------------------------------------------------- tag lists

  predicate HasTag(tags: seq<TagAssociation>, tag: Tag) {
    tags != [] && (tags[0].tag == tag || HasTag(tags[1..], tag))
  }

  /** The associations whose tag is not in `drop`, in order. */
  function Without(tags: seq<TagAssociation>, drop: set<Tag>): seq<TagAssociation> {
    if tags == [] then []
    else (if tags[0].tag in drop then [] else [tags[0]]) + Without(tags[1..], drop)
  }

  lemma {:induction false} HasTagConcat(a: seq<TagAssociation>, b: seq<TagAssociation>, t: Tag)
    ensures HasTag(a + b, t) <==> HasTag(a, t) || HasTag(b, t)
  {
    if a == [] {
      assert a + b == b;
    } else {
      assert (a + b)[1..] == a[1..] + b;
      HasTagConcat(a[1..], b, t);
    }
  }

  lemma {:induction false} WithoutHas(tags: seq<TagAssociation>, drop: set<Tag>, t: Tag)
    ensures HasTag(Without(tags, drop), t) <==> HasTag(tags, t) && t !in drop
  {
    if tags != [] {
      WithoutHas(tags[1..], drop, t);
      if tags[0].tag !in drop {
        assert ([tags[0]] + Without(tags[1..], drop))[1..] == Without(tags[1..], drop);
      } else {
        assert [] + Without(tags[1..], drop) == Without(tags[1..], drop);
      }
    }
  }

  lemma {:induction false} WithoutSame(tags: seq<TagAssociation>, drop: set<Tag>)
    requires forall t :: t in drop ==> !HasTag(tags, t)
    ensures Without(tags, drop) == tags
  {
    if tags != [] {
      assert forall t :: HasTag(tags[1..], t) ==> HasTag(tags, t);
      WithoutSame(tags[1..], drop);
      assert HasTag(tags, tags[0].tag);
      assert tags == [tags[0]] + tags[1..];
    }
  }

  lemma {:induction false} WithoutFullLength(tags: seq<TagAssociation>, drop: set<Tag>)
    ensures |Without(tags, drop)| <= |tags|
    ensures |Without(tags, drop)| == |tags| ==> Without(tags, drop) == tags
  {
    if tags != [] {
      WithoutFullLength(tags[1..], drop);
      assert tags == [tags[0]] + tags[1..];
    }
  }

  lemma {:induction false} WithoutConcat(a: seq<TagAssociation>, b: seq<TagAssociation>, drop: set<Tag>)
    ensures Without(a + b, drop) == Without(a, drop) + Without(b, drop)
  {
    if a == [] {
      assert a + b == b;
    } else {
      assert (a + b)[1..] == a[1..] + b;
      WithoutConcat(a[1..], b, drop);
    }
  }

  lemma {:induction false} WithoutTwice(tags: seq<TagAssociation>, a: set<Tag>, b: set<Tag>)
    ensures Without(Without(tags, a), b) == Without(tags, a + b)
  {
    if tags != [] {
      WithoutTwice(tags[1..], a, b);
      if tags[0].tag !in a {
        assert ([tags[0]] + Without(tags[1..], a))[1..] == Without(tags[1..], a);
      } else {
        assert [] + Without(tags[1..], a) == Without(tags[1..], a);
      }
    }
  }

  /** Associations for the tags in `wanted` that are not attached yet. */
  function MissingTags(wanted: seq<Tag>, have: seq<TagAssociation>): seq<TagAssociation> {
    if wanted == [] then []
    else
      (if HasTag(have, wanted[0]) then [] else [TagAssociation(wanted[0], "")])
      + MissingTags(wanted[1..], have)
  }

  /** How many of these tags are not attached. */
  function MissingCount(wanted: seq<Tag>, have: seq<TagAssociation>): nat {
    if wanted == [] then 0
    else MissingCount(wanted[..|wanted| - 1], have) + (if HasTag(have, wanted[|wanted| - 1]) then 0 else 1)
  }

  /** The tags that are not attached are added in the order given, each as often as given, and no others. */
  lemma {:induction false} MissingInOrder(wanted: seq<Tag>, have: seq<TagAssociation>, i: nat)
    requires i < |wanted|
    ensures |MissingTags(wanted, have)| == MissingCount(wanted, have)
    ensures !HasTag(have, wanted[i]) ==>
      && MissingCount(wanted[..i], have) < MissingCount(wanted, have)
      && MissingTags(wanted, have)[MissingCount(wanted[..i], have)] == TagAssociation(wanted[i], "")
  {
    MissingSplit(wanted[..i], wanted[i..], have);
    assert wanted == wanted[..i] + wanted[i..];
    MissingLength(wanted, have);
    MissingLength(wanted[..i], have);
  }

  lemma {:induction false} MissingSplit(a: seq<Tag>, b: seq<Tag>, have: seq<TagAssociation>)
    ensures MissingTags(a + b, have) == MissingTags(a, have) + MissingTags(b, have)
  {
    if a == [] {
      assert a + b == b;
    } else {
      assert (a + b)[1..] == a[1..] + b;
      MissingSplit(a[1..], b, have);
    }
  }

  lemma {:induction false} MissingLength(wanted: seq<Tag>, have: seq<TagAssociation>)
    ensures |MissingTags(wanted, have)| == MissingCount(wanted, have)
  {
    if wanted != [] {
      var init, last := wanted[..|wanted| - 1], [wanted[|wanted| - 1]];
      assert wanted == init + last;
      MissingSplit(init, last, have);
      MissingLength(init, have);
      assert last[1..] == [];
    }
  }

  // ---------------------------------------------------------------- the catalog client

  class DataHub {
    var datasets: map<Urn, Dataset>
    var natives: map<NativeRef, Native>
    var tags: map<Urn, seq<TagAssociation>>
    var artifacts: map<ArtifactRef, Artifact>

    constructor (g: Graph)
      ensures State() == g
    {
      datasets, natives, tags, artifacts := g.datasets, g.natives, g.tags, g.artifacts;
    }

    function State(): Graph
      reads this
    {
      Graph(datasets, natives, tags, artifacts)
    }
  }

  datatype WriteError =
    | MissingNativeAspect(ref: NativeRef)
    | UnsupportedAspect(name: string)
    | NoIncident
    | OtherIncident
    | Malformed(key: Key)
    | ForeignArtifact(artifact: ArtifactRef)

  /** Attach tags, keeping those present and their attribution. */
  method AddTags(graph: DataHub, urn: Urn, wanted: seq<Tag>) returns (all: seq<TagAssociation>)
    modifies graph`tags
    ensures all == TagsOf(old(graph.State()), urn) + MissingTags(wanted, TagsOf(old(graph.State()), urn))
    ensures TagsOf(graph.State(), urn) == all
    ensures graph.tags == if all == TagsOf(old(graph.State()), urn) then old(graph.tags) else old(graph.tags)[urn := all]
  {
    var associations := if urn in graph.tags then graph.tags[urn] else [];
    var toAdd := MissingTags(wanted, associations);
    if toAdd == [] {
      return associations;
    }
    associations := associations + toAdd;
    graph.tags := graph.tags[urn := associations];
    return associations;
  }

  /** Detach tags, keeping every other association. */
  method RemoveTags(graph: DataHub, urn: Urn, drop: set<Tag>) returns (remaining: seq<TagAssociation>)
    modifies graph`tags
    ensures remaining == Without(TagsOf(old(graph.State()), urn), drop)
    ensures TagsOf(graph.State(), urn) == remaining
    ensures graph.tags == if remaining == TagsOf(old(graph.State()), urn) then old(graph.tags) else old(graph.tags)[urn := remaining]
  {
    if urn !in graph.tags {
      return [];
    }
    var existing := graph.tags[urn];
    remaining := Without(existing, drop);
    if |remaining| == |existing| {
      WithoutFullLength(existing, drop);
      return;
    }
    graph.tags := graph.tags[urn := remaining];
  }

  /** The dataset aspect after merging properties; a missing aspect is created empty first. */
  function MergedDataset(g: Graph, urn: Urn, updates: Props): Dataset {
    if urn in g.datasets then g.datasets[urn].(props := g.datasets[urn].props + updates)
    else Dataset("", "", updates)
  }

  method AddCustomProperties(graph: DataHub, urn: Urn, updates: Props) returns (merged: Props)
    modifies graph`datasets
    ensures merged == PropsOf(old(graph.State()), urn) + updates
    ensures PropsOf(graph.State(), urn) == merged
    ensures merged == PropsOf(old(graph.State()), urn) ==> graph.datasets == old(graph.datasets)
    ensures updates != map[] ==> graph.datasets == old(graph.datasets)[urn := MergedDataset(old(graph.State()), urn, updates)]
  {
    var existing := if urn in graph.datasets then graph.datasets[urn] else Dataset("", "", map[]);
    var current := existing.props;
    merged := current + updates;
    assert current == map[] ==> merged == updates;
    if merged == current {
      return;
    }
    graph.datasets := graph.datasets[urn := existing.(props := merged)];
  }

  method RemoveCustomProperties(graph: DataHub, urn: Urn, drop: set<Key>) returns (remaining: Props)
    modifies graph`datasets
    ensures remaining == PropsOf(old(graph.State()), urn) - drop
    ensures PropsOf(graph.State(), urn) == remaining
    ensures graph.datasets ==
      if urn in old(graph.datasets)
      then old(graph.datasets)[urn := old(graph.datasets)[urn].(props := remaining)]
      else old(graph.datasets)
  {
    if urn !in graph.datasets {
      return map[];
    }
    var existing := graph.datasets[urn];
    remaining := existing.props - drop;
    if remaining == existing.props {
      return;
    }
    graph.datasets := graph.datasets[urn := existing.(props := remaining)];
  }

  /** Native aspects are never created here: writing to a missing one is an error. */
  method AddAspectCustomProperties(graph: DataHub, ref: NativeRef, updates: Props)
    returns (result: Result<Props, WriteError>)
    modifies graph`natives
    ensures ref !in old(graph.natives) ==> result == Err(MissingNativeAspect(ref)) && graph.natives == old(graph.natives)
    ensures ref in old(graph.natives) ==>
      && result == Ok(old(graph.natives)[ref].props + updates)
      && graph.natives == old(graph.natives)[ref := old(graph.natives)[ref].(props := old(graph.natives)[ref].props + updates)]
  {
    if ref !in graph.natives {
      return Err(MissingNativeAspect(ref));
    }
    var existing := graph.natives[ref];
    var merged := existing.props + updates;
    if merged == existing.props {
      return Ok(existing.props);
    }
    graph.natives := graph.natives[ref := existing.(props := merged)];
    return Ok(merged);
  }

  method RemoveAspectCustomProperties(graph: DataHub, ref: NativeRef, drop: set<Key>) returns (remaining: Props)
    modifies graph`natives
    ensures remaining == NativePropsOf(old(graph.State()), ref) - drop
    ensures graph.natives ==
      if ref in old(graph.natives)
      then old(graph.natives)[ref := old(graph.natives)[ref].(props := remaining)]
      else old(graph.natives)
  {
    if ref !in graph.natives {
      return map[];
    }
    var existing := graph.natives[ref];
    remaining := existing.props - drop;
    if remaining == existing.props {
      return;
    }
    graph.natives := graph.natives[ref := existing.(props := remaining)];
  }
}
