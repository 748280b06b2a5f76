/** The files of a repair: materialised against one base revision, and compared with a branch. */
module PublicationFiles {
  import opened Common
  import opened TextLines
  import opened UnifiedPatch

  type Files = map<string, string>

  /** A code patch, or a file that is published as it is. */
  datatype RepairFile = RepairFile(isPatch: bool, path: string, content: string)

  datatype FileError =
    | MissingHeaders
    | UnsafeTarget(path: string)
    | NoSuchFile(path: string)
    | CannotApply(path: string, reason: PatchError)
    | TargetChanged

  // ---------------------------------------------------------------- materialising

  /** The normal form of a relative path; None when it is absolute, empty or climbs out. */
  function SafeRelativePath(raw: string): Option<string> {
    var parts := Components(Pieces(raw));
    if StartsWith(raw, "/") || ".." in parts || parts == [] then None else Some(Slashed(parts))
  }

  function RemovePrefix(s: string, prefix: string): string {
    if StartsWith(s, prefix) then s[|prefix|..] else s
  }

  /** The file a patch says it changes: the second header line. */
  function PatchTarget(content: string): Result<string, FileError> {
    var lines := SplitLines(content);
    if |lines| < 2 then Err(MissingHeaders)
    else
      var raw := RemovePrefix(BeforeTab(RemovePrefix(Bare(lines[1]), "+++ ")), "b/");
      match SafeRelativePath(raw)
      case None => Err(UnsafeTarget(raw))
      case Some(path) => Ok(path)
  }

  /** One file of the repair: its path and its content against this base tree. */
  function MaterializeOne(artifact: RepairFile, base: Files): Result<(string, string), FileError> {
    if !artifact.isPatch then
      match SafeRelativePath(artifact.path)
      case None => Err(UnsafeTarget(artifact.path))
      case Some(path) => Ok((path, artifact.content))
    else
      match PatchTarget(artifact.content)
      case Err(e) => Err(e)
      case Ok(target) =>
        if target !in base then Err(NoSuchFile(target))
        else match Apply(base[target], artifact.content)
          case Err(e) => Err(CannotApply(target, e))
          case Ok(applied) => if applied.path != target then Err(TargetChanged) else Ok((target, applied.content))
  }

  function Put(files: Result<Files, FileError>, one: Result<(string, string), FileError>): Result<Files, FileError> {
    if files.Err? then files
    else if one.Err? then Err(one.error)
    else Ok(files.value[one.value.0 := one.value.1])
  }

  /** Every artifact against the same base tree; the first failure stops the repair. */
  function Materialize(artifacts: seq<RepairFile>, base: Files): Result<Files, FileError> {
    if artifacts == [] then Ok(map[])
    else Put(Materialize(artifacts[..|artifacts| - 1], base), MaterializeOne(artifacts[|artifacts| - 1], base))
  }

  lemma {:induction false} FirstFailureStays(artifacts: seq<RepairFile>, base: Files, i: nat)
    requires i <= |artifacts| && Materialize(artifacts[..i], base).Err?
    ensures Materialize(artifacts, base) == Materialize(artifacts[..i], base)
    decreases |artifacts| - i
  {
    if i < |artifacts| {
      assert artifacts[..i + 1][..i] == artifacts[..i];
      FirstFailureStays(artifacts, base, i + 1);
    } else {
      assert artifacts[..i] == artifacts;
    }
  }

  method MaterializeFiles(artifacts: seq<RepairFile>, base: Files) returns (result: Result<Files, FileError>)
    ensures result == Materialize(artifacts, base)
  {
    var files: Files := map[];
    for i := 0 to |artifacts|
      invariant Materialize(artifacts[..i], base) == Ok(files)
    {
      assert artifacts[..i + 1][..i] == artifacts[..i];
      var one := MaterializeOne(artifacts[i], base);
      if one.Err? {
        FirstFailureStays(artifacts, base, i + 1);
        return Err(one.error);
      }
      files := files[one.value.0 := one.value.1];
    }
    assert artifacts[..|artifacts|] == artifacts;
    return Ok(files);
  }

  /** The materialised files, artifact by artifact. */
  predicate AllMaterialize(artifacts: seq<RepairFile>, base: Files) {
    forall i :: 0 <= i < |artifacts| ==> MaterializeOne(artifacts[i], base).Ok?
  }

  function PathAt(artifacts: seq<RepairFile>, base: Files, i: nat): string
    requires i < |artifacts| && AllMaterialize(artifacts, base)
  {
    MaterializeOne(artifacts[i], base).value.0
  }

  function ContentAt(artifacts: seq<RepairFile>, base: Files, i: nat): string
    requires i < |artifacts| && AllMaterialize(artifacts, base)
  {
    MaterializeOne(artifacts[i], base).value.1
  }

  lemma {:induction false} MaterializesIff(artifacts: seq<RepairFile>, base: Files)
    ensures Materialize(artifacts, base).Ok? <==> AllMaterialize(artifacts, base)
  {
    hide MaterializeOne;
    if artifacts != [] {
      MaterializesIff(artifacts[..|artifacts| - 1], base);
    }
  }

  predicate LastNamed(artifacts: seq<RepairFile>, base: Files, path: string, i: nat)
    requires AllMaterialize(artifacts, base)
  {
    && i < |artifacts| && PathAt(artifacts, base, i) == path
    && forall j :: i < j < |artifacts| ==> PathAt(artifacts, base, j) != path
  }

  lemma {:induction false} LastNamedLater(artifacts: seq<RepairFile>, base: Files, path: string, i: nat)
    requires artifacts != [] && AllMaterialize(artifacts, base)
    requires LastNamed(artifacts[..|artifacts| - 1], base, path, i)
    requires PathAt(artifacts, base, |artifacts| - 1) != path
    ensures LastNamed(artifacts, base, path, i)
    ensures ContentAt(artifacts, base, i) == ContentAt(artifacts[..|artifacts| - 1], base, i)
  {
    hide MaterializeOne;
    forall j | i < j < |artifacts| - 1 ensures PathAt(artifacts, base, j) == PathAt(artifacts[..|artifacts| - 1], base, j) {}
  }

  /** A path is published exactly when some artifact names it, and then with the content of the last
      artifact that does: two artifacts for one path are not an error, and each patch is applied to
      the base file, not to what an earlier artifact made of it. */
  lemma {:induction false} LastArtifactWins(artifacts: seq<RepairFile>, base: Files, path: string)
    requires Materialize(artifacts, base).Ok?
    ensures AllMaterialize(artifacts, base)
    ensures var files := Materialize(artifacts, base).value;
      && (path in files <==> exists i :: 0 <= i < |artifacts| && PathAt(artifacts, base, i) == path)
      && (path in files ==> exists i :: LastNamed(artifacts, base, path, i) && files[path] == ContentAt(artifacts, base, i))
  {
    hide MaterializeOne;
    MaterializesIff(artifacts, base);
    if artifacts != [] {
      var n := |artifacts| - 1;
      var init := artifacts[..n];
      MaterializesIff(init, base);
      LastArtifactWins(init, base, path);
      forall i | 0 <= i < n ensures PathAt(init, base, i) == PathAt(artifacts, base, i) {}
      if PathAt(artifacts, base, n) == path {
        assert LastNamed(artifacts, base, path, n);
      } else if path in Materialize(init, base).value {
        var i :| LastNamed(init, base, path, i) && Materialize(init, base).value[path] == ContentAt(init, base, i);
        LastNamedLater(artifacts, base, path, i);
      }
    }
  }

  /** No artifact's content is lost exactly when artifacts that name one path agree on it. */
  lemma {:induction false} NothingLostIff(artifacts: seq<RepairFile>, base: Files)
    requires Materialize(artifacts, base).Ok?
    ensures AllMaterialize(artifacts, base)
    ensures (forall i :: 0 <= i < |artifacts| ==>
        PathAt(artifacts, base, i) in Materialize(artifacts, base).value
        && Materialize(artifacts, base).value[PathAt(artifacts, base, i)] == ContentAt(artifacts, base, i))
      <==> (forall i, j :: 0 <= i < j < |artifacts| && PathAt(artifacts, base, i) == PathAt(artifacts, base, j) ==>
        ContentAt(artifacts, base, i) == ContentAt(artifacts, base, j))
  {
    hide MaterializeOne;
    MaterializesIff(artifacts, base);
    var files := Materialize(artifacts, base).value;
    if forall i, j :: 0 <= i < j < |artifacts| && PathAt(artifacts, base, i) == PathAt(artifacts, base, j) ==>
        ContentAt(artifacts, base, i) == ContentAt(artifacts, base, j)
    {
      forall i | 0 <= i < |artifacts|
        ensures PathAt(artifacts, base, i) in files && files[PathAt(artifacts, base, i)] == ContentAt(artifacts, base, i)
      {
        LastArtifactWins(artifacts, base, PathAt(artifacts, base, i));
      }
    }
  }

  /** Every published path is relative, plain, and named by some artifact. */
  lemma {:induction false} MaterializedPathsAreSafe(artifacts: seq<RepairFile>, base: Files, path: string)
    requires Materialize(artifacts, base).Ok? && path in Materialize(artifacts, base).value
    ensures exists parts :: PlainParts(parts) && path == Slashed(parts)
  {
    var init, last := artifacts[..|artifacts| - 1], artifacts[|artifacts| - 1];
    var one := MaterializeOne(last, base).value;
    if path == one.0 {
      var raw := if last.isPatch
        then RemovePrefix(BeforeTab(RemovePrefix(Bare(SplitLines(last.content)[1]), "+++ ")), "b/")
        else last.path;
      SafePathIsPlain(raw);
    } else {
      MaterializedPathsAreSafe(init, base, path);
    }
  }

  lemma {:induction false} SafePathIsPlain(raw: string)
    requires SafeRelativePath(raw).Some?
    ensures exists parts :: PlainParts(parts) && SafeRelativePath(raw).value == Slashed(parts)
  {
    var parts := Components(Pieces(raw));
    PiecesHaveNoSlash(raw);
    ComponentsAreThere(Pieces(raw));
    forall i | 0 <= i < |parts| ensures PlainPart(parts[i]) {
      assert parts[i] in Pieces(raw) && parts[i] in parts;
    }
  }

  // ---------------------------------------------------------------- comparing

  datatype Change = Added | Modified | Removed

  /** One entry of a comparison: the new content stands for its blob hash. */
  datatype Compared = Compared(filename: string, status: Change, content: string)

  /** The tree with the repair's files put over it. */
  function Overlaid(base: Files, files: Files): Files {
    base + files
  }

  predicate Differs(base: Files, head: Files, path: string) {
    (path in base) != (path in head) || (path in base && path in head && base[path] != head[path])
  }

  /** `entries` is the comparison of two trees: each differing path once, with what happened to it. */
  predicate Compares(base: Files, head: Files, entries: seq<Compared>) {
    && (forall i, j :: 0 <= i < j < |entries| ==> entries[i].filename != entries[j].filename)
    && (forall path :: path in base.Keys + head.Keys ==>
      (Differs(base, head, path) <==> exists i :: 0 <= i < |entries| && entries[i].filename == path))
    && (forall i :: 0 <= i < |entries| ==>
      var e := entries[i];
      && (e.filename in base || e.filename in head)
      && (e.status == Removed <==> e.filename !in head)
      && (e.status != Removed ==> e.filename in head && e.content == head[e.filename]))
  }

  /** The files the branch is observed to change, by name; a repeated name is malformed. */
  method ObserveFiles(entries: seq<Compared>) returns (observed: Option<map<string, Compared>>)
    ensures observed.Some? <==> forall i, j :: 0 <= i < j < |entries| ==> entries[i].filename != entries[j].filename
    ensures observed.Some? ==>
      && (forall i :: 0 <= i < |entries| ==> entries[i].filename in observed.value && observed.value[entries[i].filename] == entries[i])
      && (forall f :: f in observed.value ==> exists i :: 0 <= i < |entries| && entries[i].filename == f)
  {
    var files: map<string, Compared> := map[];
    for i := 0 to |entries|
      invariant forall j, k :: 0 <= j < k < i ==> entries[j].filename != entries[k].filename
      invariant forall j :: 0 <= j < i ==> entries[j].filename in files && files[entries[j].filename] == entries[j]
      invariant forall f :: f in files ==> exists j :: 0 <= j < i && entries[j].filename == f
    {
      if entries[i].filename in files {
        return None;
      }
      files := files[entries[i].filename := entries[i]];
    }
    return Some(files);
  }

  /** The branch changes exactly the repair's files, to exactly their contents. */
  predicate Exact(base: Files, head: Files, files: Files) {
    head == Overlaid(base, files) && forall p :: p in files ==> p !in base || base[p] != files[p]
  }

  predicate Agrees(observed: map<string, Compared>, files: Files) {
    && observed.Keys == files.Keys
    && forall p :: p in files ==> p in observed && observed[p].status != Removed && observed[p].content == files[p]
  }

  method CheckObserved(observed: map<string, Compared>, files: Files) returns (ok: bool)
    ensures ok <==> Agrees(observed, files)
  {
    if observed.Keys != files.Keys {
      return false;
    }
    var paths := files.Keys;
    while paths != {}
      invariant paths <= files.Keys
      invariant forall p :: p in files && p !in paths ==> observed[p].status != Removed && observed[p].content == files[p]
      decreases |paths|
    {
      var path :| path in paths;
      if observed[path].status == Removed || observed[path].content != files[path] {
        return false;
      }
      paths := paths - {path};
    }
    return true;
  }

  /** A comparison accepted against the materialised files: the branch's tree is the base tree with
      exactly those files put over it, and none of them was there already. */
  method ValidateComparison(entries: seq<Compared>, files: Files, ghost base: Files, ghost head: Files) returns (ok: bool)
    requires Compares(base, head, entries)
    ensures ok <==> Exact(base, head, files)
  {
    var observed := ObserveFiles(entries);
    if observed.None? {
      return false;
    }
    ok := CheckObserved(observed.value, files);
    ComparisonDecides(base, head, entries, observed.value, files);
  }

  lemma {:induction false} ComparisonDecides(base: Files, head: Files, entries: seq<Compared>, observed: map<string, Compared>, files: Files)
    requires Compares(base, head, entries)
    requires forall i :: 0 <= i < |entries| ==> entries[i].filename in observed && observed[entries[i].filename] == entries[i]
    requires forall f :: f in observed ==> exists i :: 0 <= i < |entries| && entries[i].filename == f
    ensures Agrees(observed, files) <==> Exact(base, head, files)
  {
    forall p ensures p in observed <==> ((p in base || p in head) && Differs(base, head, p)) {
      if p in observed {
        var i :| 0 <= i < |entries| && entries[i].filename == p;
      }
    }
    forall p | p in observed
      ensures observed[p].status == Removed <==> p !in head
      ensures p in head ==> observed[p].content == head[p]
    {
      var i :| 0 <= i < |entries| && entries[i].filename == p;
      assert observed[p] == entries[i];
    }
    if Agrees(observed, files) {
      AgreeingIsExact(base, head, observed, files);
    }
    if Exact(base, head, files) {
      forall p ensures p in observed <==> p in files {}
    }
  }

  lemma {:induction false} AgreeingIsExact(base: Files, head: Files, observed: map<string, Compared>, files: Files)
    requires Agrees(observed, files)
    requires forall p :: p in observed <==> ((p in base || p in head) && Differs(base, head, p))
    requires forall p :: p in observed ==> (observed[p].status == Removed <==> p !in head) && (p in head ==> observed[p].content == head[p])
    ensures Exact(base, head, files)
  {
    forall p ensures p in head <==> p in base + files {
      assert p in files <==> p in observed;
    }
    forall p | p in head ensures head[p] == (base + files)[p] {
      assert p in files <==> p in observed;
    }
  }
}
