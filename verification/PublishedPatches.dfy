/** From a diff to the published file: what one repair artifact becomes on a base tree. */
module PublishedPatches {
  import opened Common
  import opened TextLines
  import opened UnifiedPatch
  import opened PatchRoundTrip
  import opened PatchProperties
  import opened PublicationFiles

  // ---------------------------------------------------------------- paths

  lemma {:induction false} ComponentsMembers(pieces: seq<string>, part: string)
    ensures part in Components(pieces) <==> part in pieces && part != "" && part != "."
  {
    if pieces != [] {
      ComponentsMembers(pieces[1..], part);
      assert pieces == [pieces[0]] + pieces[1..];
    }
  }

  /** A path is published exactly when it is relative, never climbs, and names something. */
  lemma {:induction false} SafePathIff(raw: string)
    ensures SafeRelativePath(raw).Some? <==>
      && !StartsWith(raw, "/") && ".." !in Pieces(raw)
      && exists part :: part in Pieces(raw) && part != "" && part != "."
  {
    var parts := Components(Pieces(raw));
    forall part ensures part in parts <==> part in Pieces(raw) && part != "" && part != "." {
      ComponentsMembers(Pieces(raw), part);
    }
    if parts != [] { assert parts[0] in parts; }
  }

  /** A path of plain components stays as it is. */
  lemma {:induction false} PlainPathStays(path: string)
    requires PlainParts(Pieces(path))
    ensures SafeRelativePath(path) == Some(path)
  {
    hide Pieces, Components, Slashed;
    SlashedPieces(path);
    PiecesOfSlashed(Pieces(path));
    assert ".." !in Pieces(path) by { PlainHasNoParent(Pieces(path)); }
  }

  lemma {:induction false} PlainHasNoParent(parts: seq<string>)
    requires PlainParts(parts)
    ensures ".." !in parts
  {
  }

  // ---------------------------------------------------------------- patches

  lemma {:induction false} HeaderTarget(path: string)
    requires HeaderSafe(path)
    ensures RemovePrefix(BeforeTab(RemovePrefix(Bare(FileHeader("+++ ", 'b', path)), "+++ ")), "b/") == path
  {
    var named := "b/" + path;
    var line := FileHeader("+++ ", 'b', path);
    assert line == ("+++ " + named) + "\n";
    assert line[|line| - 2] == path[|path| - 1];
    assert Bare(line) == "+++ " + named by { assert line[..|line| - 1] == "+++ " + named; }
    PrefixOfConcat("+++ ", named);
    assert '\t' !in named by { assert forall c :: c in named ==> c == 'b' || c == '/' || c in path; }
    BeforeTabOf(named);
    PrefixOfConcat("b/", path);
  }

  /** Under the headers of one safe path, that path is the target. */
  lemma {:induction false} TargetUnderHeaders(path: string, body: seq<string>)
    requires HeaderSafe(path) && StandAlone(body)
    ensures PatchTarget(Join(FileHeaders(path) + body)) == Ok(path)
  {
    hide SplitLines, Join, Bare, BeforeTab, SafeRelativePath, FileHeader;
    PatchTextSplits(path, body);
    HeaderTarget(path);
    PlainPathStays(path);
  }

  /** A patch becomes a file exactly when the base holds its target and applying it there succeeds for
      that very path. */
  lemma {:induction false} PatchMaterializesIff(artifact: RepairFile, base: Files, path: string, content: string)
    requires artifact.isPatch
    ensures MaterializeOne(artifact, base) == Ok((path, content)) <==>
      && PatchTarget(artifact.content) == Ok(path) && path in base
      && Apply(base[path], artifact.content) == Ok(AppliedPatch(path, content))
  {
    hide PatchTarget, Apply;
  }

  /** Any other artifact becomes a file exactly when its path is safe, with its content as it is. */
  lemma {:induction false} FileMaterializesIff(artifact: RepairFile, base: Files, path: string, content: string)
    requires !artifact.isPatch
    ensures MaterializeOne(artifact, base) == Ok((path, content)) <==>
      SafeRelativePath(artifact.path) == Some(path) && content == artifact.content
    ensures PlainParts(Pieces(artifact.path)) ==> MaterializeOne(artifact, base) == Ok((artifact.path, artifact.content))
  {
    hide SafeRelativePath;
    if PlainParts(Pieces(artifact.path)) { PlainPathStays(artifact.path); }
  }

  /** A faithful diff of a file of the base is published as exactly the edited file, under its path. */
  lemma {:induction false} DiffMaterializes(artifact: RepairFile, base: Files, path: string, hs: seq<Hunk>)
    requires artifact.isPatch && artifact.content == Render(path, hs)
    requires HeaderSafe(path) && path in base && AllWellFormed(hs) && hs != []
    requires Fits(SplitLines(base[path]), 0, hs) && Faithful(SplitLines(base[path]), 0, hs)
    ensures MaterializeOne(artifact, base) == Ok((path, Join(Splice(SplitLines(base[path]), 0, hs))))
  {
    hide Apply, PatchTarget, MaterializeOne, Fits, Faithful, Splice, RenderHunks, HeadFor, HeadsFor;
    RoundTrip(base[path], path, hs);
    var headers := Headers(hs, 0, 0);
    HeadersFit(hs, 0, 0);
    HeadLinesRead(headers);
    HunksRead(HeadLines(headers), HeadTokens(headers), hs);
    TargetUnderHeaders(path, RenderHunks(HeadLines(headers), hs));
    PatchMaterializesIff(artifact, base, path, Join(Splice(SplitLines(base[path]), 0, hs)));
  }
}
