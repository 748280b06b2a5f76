/** The fail-closed unified-diff applier, in the "Diff -u or -U Output Format" of the
    `diff` utility in POSIX.1-2008. */
module UnifiedPatch {
  import opened Common
  import opened TextLines

  datatype PatchError =
    | IncompletePatch
    | ExpectedHeader(prefix: string)
    | CreationOrDeletion
    | UnsafePath(path: string)
    | PathChanges
    | OutsideHunk(line: string)
    | OutOfOrder
    | UnsupportedLine(line: string)
    | ContextDrift(sourceLine: nat)
    | CountMismatch

  // ---------------------------------------------------------------- file headers

  /** Everything before the first tab. */
  function BeforeTab(s: string): string {
    if s == "" || s[0] == '\t' then "" else [s[0]] + BeforeTab(s[1..])
  }

  /** The pieces between slashes. */
  function Pieces(s: string): (r: seq<string>)
    ensures |r| > 0
  {
    if s == "" then [""]
    else
      var r := Pieces(s[1..]);
      if s[0] == '/' then [""] + r else [[s[0]] + r[0]] + r[1..]
  }

  /** Path components: no empty or single-dot piece survives. */
  function Components(pieces: seq<string>): (r: seq<string>)
    ensures forall i :: 0 <= i < |r| ==> r[i] != "" && r[i] != "."
  {
    if pieces == [] then []
    else (if pieces[0] == "" || pieces[0] == "." then [] else [pieces[0]]) + Components(pieces[1..])
  }

  function Slashed(parts: seq<string>): string {
    if parts == [] then "" else if |parts| == 1 then parts[0] else parts[0] + "/" + Slashed(parts[1..])
  }

  function NamedPath(named: string): Result<string, PatchError> {
    if named == "/dev/null" then Err(CreationOrDeletion)
    else
      var raw := if StartsWith(named, "a/") || StartsWith(named, "b/") then named[2..] else named;
      var parts := Components(Pieces(raw));
      if StartsWith(raw, "/") || ".." in parts || parts == [] then Err(UnsafePath(raw))
      else Ok(Slashed(parts))
  }

  /** The repository path named by a header line. */
  function HeaderPath(line: string, prefix: string): Result<string, PatchError> {
    if !StartsWith(line, prefix) then Err(ExpectedHeader(prefix))
    else NamedPath(Strip(BeforeTab(line[|prefix|..])))
  }

  /** A component that path normalisation leaves alone. */
  predicate PlainPart(part: string) {
    part != "" && part != "." && part != ".." && '/' !in part
  }

  predicate PlainParts(parts: seq<string>) {
    parts != [] && forall i :: 0 <= i < |parts| ==> PlainPart(parts[i])
  }

  lemma {:induction false} PiecesHaveNoSlash(s: string)
    ensures forall i :: 0 <= i < |Pieces(s)| ==> '/' !in Pieces(s)[i]
  {
    if s != "" {
      PiecesHaveNoSlash(s[1..]);
      var r := Pieces(s[1..]);
      assert '/' !in r[0];
      if s[0] != '/' {
        assert Pieces(s)[0] == [s[0]] + r[0];
        assert '/' !in [s[0]];
      }
    }
  }

  lemma {:induction false} ComponentsAreThere(pieces: seq<string>)
    ensures forall i :: 0 <= i < |Components(pieces)| ==> Components(pieces)[i] in pieces
  {
    if pieces != [] {
      ComponentsAreThere(pieces[1..]);
    }
  }

  /** An accepted path is relative, made of plain components, and cannot climb out. */
  lemma {:induction false} HeaderPathIsSafe(line: string, prefix: string)
    requires HeaderPath(line, prefix).Ok?
    ensures exists parts :: PlainParts(parts) && HeaderPath(line, prefix).value == Slashed(parts)
  {
    var named := Strip(BeforeTab(line[|prefix|..]));
    var raw := if StartsWith(named, "a/") || StartsWith(named, "b/") then named[2..] else named;
    var parts := Components(Pieces(raw));
    PiecesHaveNoSlash(raw);
    ComponentsAreThere(Pieces(raw));
    forall i | 0 <= i < |parts| ensures PlainPart(parts[i]) {
      assert parts[i] in Pieces(raw);
      assert parts[i] in parts;
    }
  }

  lemma {:induction false} PiecesOfPart(part: string, rest: string)
    requires '/' !in part
    ensures Pieces(part + "/" + rest) == [part] + Pieces(rest)
    ensures Pieces(part) == [part]
  {
    if part == "" {
      assert part + "/" + rest == "/" + rest;
      assert ("/" + rest)[1..] == rest;
    } else {
      assert forall c :: c in part[1..] ==> c in part;
      PiecesOfPart(part[1..], rest);
      assert (part + "/" + rest)[1..] == part[1..] + "/" + rest;
      assert part[0] in part;
      assert [part[0]] + part[1..] == part;
    }
  }

  lemma {:induction false} PiecesOfSlashed(parts: seq<string>)
    requires PlainParts(parts)
    ensures Pieces(Slashed(parts)) == parts && Components(parts) == parts
    ensures Slashed(parts) != "" && !StartsWith(Slashed(parts), "/")
  {
    hide Pieces;
    assert PlainPart(parts[0]);
    assert parts[0][0] in parts[0];
    if |parts| == 1 {
      PiecesOfPart(parts[0], "");
      assert Slashed(parts) == parts[0];
    } else {
      PiecesOfSlashed(parts[1..]);
      PiecesOfPart(parts[0], Slashed(parts[1..]));
      assert Slashed(parts)[0] == parts[0][0];
    }
  }

  /** A path that a header can carry. */
  predicate HeaderSafe(path: string) {
    && '\t' !in path && Unbroken(path)
    && path != "" && !IsSpace(path[|path| - 1])
    && PlainParts(Pieces(path))
  }

  lemma {:induction false} SlashedPieces(s: string)
    ensures Slashed(Pieces(s)) == s
  {
    if s != "" {
      SlashedPieces(s[1..]);
      var r := Pieces(s[1..]);
      if s[0] == '/' {
        assert ([""] + r)[1..] == r;
        assert s == "/" + s[1..];
      } else {
        assert ([[s[0]] + r[0]] + r[1..])[1..] == r[1..];
        assert s == [s[0]] + s[1..];
      }
    }
  }

  lemma {:induction false} BeforeTabOf(s: string)
    requires '\t' !in s
    ensures BeforeTab(s) == s
  {
    if s != "" {
      assert forall c :: c in s[1..] ==> c in s;
      BeforeTabOf(s[1..]);
      assert s[0] in s;
    }
  }

  lemma {:induction false} StripHeader(side: char, path: string)
    requires !IsSpace(side) && path != "" && !IsSpace(path[|path| - 1])
    ensures Strip([side] + "/" + path + "\n") == [side] + "/" + path
  {
    var s := [side] + "/" + path;
    assert (s + "\n")[..|s|] == s;
    assert s[|s| - 1] == path[|path| - 1];
  }

  function FileHeader(prefix: string, side: char, path: string): string {
    prefix + ([side] + "/" + path + "\n")
  }

  lemma {:induction false} HeaderRoundTrip(prefix: string, side: char, path: string)
    requires HeaderSafe(path) && (side == 'a' || side == 'b')
    ensures HeaderPath(FileHeader(prefix, side, path), prefix) == Ok(path)
  {
    var named := [side] + "/" + path;
    PrefixOfConcat(prefix, named + "\n");
    assert '\t' !in named + "\n" by {
      assert forall c :: c in named + "\n" ==> c == side || c == '/' || c in path || c == '\n';
    }
    BeforeTabOf(named + "\n");
    StripHeader(side, path);
    SidedPath(side, path);
  }

  lemma {:induction false} SidedPath(side: char, path: string)
    requires PlainParts(Pieces(path)) && (side == 'a' || side == 'b')
    ensures NamedPath([side] + "/" + path) == Ok(path)
  {
    hide Pieces, Components, Slashed;
    var named, parts := [side] + "/" + path, Pieces(path);
    SlashedPieces(path);
    PiecesOfSlashed(parts);
    assert named[..2] == [side, '/'] && named[2..] == path;
    assert "a/" == ['a', '/'] && "b/" == ['b', '/'] && "/dev/null"[0] == '/';
    assert ".." !in parts by {
      assert !PlainPart("..");
    }
  }

  // ---------------------------------------------------------------- hunk headers

  /** A start and a count; an omitted count is one. */
  datatype Range = Range(start: nat, count: nat)

  datatype HunkHeader = HunkHeader(before: Range, after: Range)

  function ParseRange(s: string): Option<(Range, string)> {
    var n := Digits(s);
    if n == 0 then None
    else
      var start, rest := Number(s[..n]), s[n..];
      if StartsWith(rest, ",") && Digits(rest[1..]) > 0 then
        var m := Digits(rest[1..]);
        Some((Range(start, Number(rest[1..][..m])), rest[1..][m..]))
      else Some((Range(start, 1), rest))
  }

  /** The hunk grammar; anything else is not a hunk header. */
  function ParseHeader(line: string): Option<HunkHeader> {
    if !StartsWith(line, "@@ -") then None
    else match ParseRange(line[4..])
      case None => None
      case Some((before, afterOld)) =>
        if !StartsWith(afterOld, " +") then None
        else match ParseRange(afterOld[2..])
          case None => None
          case Some((after, afterNew)) =>
            if StartsWith(afterNew, " @@") && (|afterNew| == 3 || afterNew[3] == ' ')
            then Some(HunkHeader(before, after))
            else None
  }

  function RangeText(r: Range): string {
    if r.count == 1 then Decimal(r.start) else Decimal(r.start) + ("," + Decimal(r.count))
  }

  function HeaderText(h: HunkHeader): string {
    "@@ -" + (RangeText(h.before) + (" +" + (RangeText(h.after) + " @@")))
  }

  lemma {:induction false} RangeRoundTrip(r: Range, rest: string)
    requires rest != "" && rest[0] == ' '
    ensures ParseRange(RangeText(r) + rest) == Some((r, rest))
  {
    NumberOfDecimal(r.start);
    NumberOfDecimal(r.count);
    var start, count := Decimal(r.start), Decimal(r.count);
    if r.count == 1 {
      DigitsOf(start, rest);
      assert (start + rest)[|start|..] == rest && (start + rest)[..|start|] == start;
    } else {
      var tail := "," + (count + rest);
      assert RangeText(r) + rest == start + tail;
      DigitsOf(start, tail);
      assert (start + tail)[|start|..] == tail && (start + tail)[..|start|] == start;
      assert tail[1..] == count + rest;
      DigitsOf(count, rest);
      assert (count + rest)[|count|..] == rest && (count + rest)[..|count|] == count;
    }
  }

  lemma {:induction false} HeaderTextRoundTrip(h: HunkHeader)
    ensures ParseHeader(HeaderText(h)) == Some(h)
  {
    var afterNew := " @@";
    var afterOld := " +" + (RangeText(h.after) + afterNew);
    PrefixOfConcat("@@ -", RangeText(h.before) + afterOld);
    RangeRoundTrip(h.before, afterOld);
    PrefixOfConcat(" +", RangeText(h.after) + afterNew);
    RangeRoundTrip(h.after, afterNew);
  }

  predicate AllDigits(s: string) {
    s != "" && forall i :: 0 <= i < |s| ==> IsDigit(s[i])
  }

  /** A number, standing for a range of one, or two numbers and a comma between them. */
  ghost predicate SpellsRange(text: string, r: Range) {
    || (AllDigits(text) && r == Range(Number(text), 1))
    || exists a, b :: AllDigits(a) && AllDigits(b) && text == a + ("," + b) && r == Range(Number(a), Number(b))
  }

  lemma {:induction false} SpelledRangeReads(text: string, r: Range, rest: string)
    requires SpellsRange(text, r) && rest != "" && rest[0] == ' '
    ensures ParseRange(text + rest) == Some((r, rest))
  {
    if AllDigits(text) && r == Range(Number(text), 1) {
      DigitsOf(text, rest);
      assert (text + rest)[|text|..] == rest && (text + rest)[..|text|] == text;
    } else {
      var a, b :| AllDigits(a) && AllDigits(b) && text == a + ("," + b) && r == Range(Number(a), Number(b));
      assert text + rest == a + ("," + (b + rest));
      TwoNumbersRead(a, b, rest);
    }
  }

  lemma {:induction false} TwoNumbersRead(a: string, b: string, rest: string)
    requires AllDigits(a) && AllDigits(b) && rest != "" && rest[0] == ' '
    ensures ParseRange(a + ("," + (b + rest))) == Some((Range(Number(a), Number(b)), rest))
  {
    var tail := "," + (b + rest);
    DigitsOf(a, tail);
    assert (a + tail)[|a|..] == tail && (a + tail)[..|a|] == a;
    assert tail[1..] == b + rest;
    DigitsOf(b, rest);
    assert (b + rest)[|b|..] == rest && (b + rest)[..|b|] == b;
  }

  lemma {:induction false} ReadRangeIsSpelled(s: string) returns (text: string)
    requires ParseRange(s).Some?
    ensures s == text + ParseRange(s).value.1 && SpellsRange(text, ParseRange(s).value.0)
  {
    var n := Digits(s);
    var a, rest := s[..n], s[n..];
    assert s == a + rest;
    if StartsWith(rest, ",") && Digits(rest[1..]) > 0 {
      var m := Digits(rest[1..]);
      text := SecondNumber(a, rest, m);
    } else {
      text := a;
      assert AllDigits(a);
    }
  }

  lemma {:induction false} SecondNumber(a: string, rest: string, m: nat) returns (text: string)
    requires AllDigits(a) && StartsWith(rest, ",") && 0 < m == Digits(rest[1..])
    ensures a + rest == text + rest[1..][m..]
    ensures SpellsRange(text, Range(Number(a), Number(rest[1..][..m])))
  {
    var b := rest[1..][..m];
    text := a + ("," + b);
    assert rest == "," + (b + rest[1..][m..]);
    assert AllDigits(b);
  }

  ghost predicate SpellsHeader(line: string, before: string, after: string, tail: string, h: HunkHeader) {
    && SpellsRange(before, h.before) && SpellsRange(after, h.after) && (tail != "" ==> tail[0] == ' ')
    && line == "@@ -" + (before + (" +" + (after + (" @@" + tail))))
  }

  /** The lines that are hunk headers: two ranges between the markers, and nothing after them or
      anything after a space. */
  lemma {:induction false} HeaderIff(line: string, h: HunkHeader)
    ensures ParseHeader(line) == Some(h) <==> exists before, after, tail :: SpellsHeader(line, before, after, tail, h)
  {
    hide ParseRange, SpellsRange;
    if before, after, tail :| SpellsHeader(line, before, after, tail, h) {
      var afterNew := " @@" + tail;
      var afterOld := " +" + (after + afterNew);
      PrefixOfConcat("@@ -", before + afterOld);
      SpelledRangeReads(before, h.before, afterOld);
      PrefixOfConcat(" +", after + afterNew);
      SpelledRangeReads(after, h.after, afterNew);
      PrefixOfConcat(" @@", tail);
    }
    if ParseHeader(line) == Some(h) {
      var before := ReadRangeIsSpelled(line[4..]);
      var afterOld := ParseRange(line[4..]).value.1;
      var after := ReadRangeIsSpelled(afterOld[2..]);
      var afterNew := ParseRange(afterOld[2..]).value.1;
      assert line == "@@ -" + line[4..] && afterOld == " +" + afterOld[2..] && afterNew == " @@" + afterNew[3..];
      assert SpellsHeader(line, before, after, afterNew[3..], h);
    }
  }

  // ---------------------------------------------------------------- patch lines

  const NO_NEWLINE := "\\ No newline at end of file"

  datatype Mark = Context | Delete | Insert

  /** What a patch line is to the applier. */
  datatype Kind =
    | Head(header: Option<HunkHeader>)
    | NoNewline
    | Edit(mark: Mark, content: string)
    | Other

  datatype Token = Token(line: string, kind: Kind)

  function MarkOf(c: char): Option<Mark> {
    if c == ' ' then Some(Context)
    else if c == '-' then Some(Delete)
    else if c == '+' then Some(Insert)
    else None
  }

  /** A line that may open a hunk starts with "@@ "; it does when the whole grammar matches. */
  function Read(line: string): Token {
    Token(line,
      if StartsWith(line, "@@ ") then Head(ParseHeader(WithoutNewline(line)))
      else if StartsWith(line, NO_NEWLINE) then NoNewline
      else if line == "" || MarkOf(line[0]).None? then Other
      else Edit(MarkOf(line[0]).value, line[1..]))
  }

  function Tokens(lines: seq<string>): seq<Token> {
    if lines == [] then [] else [Read(lines[0])] + Tokens(lines[1..])
  }

  lemma {:induction false} ParsedStarts(text: string)
    requires ParseHeader(text).Some?
    ensures StartsWith(text, "@@ ")
  {
    assert text[..3] == text[..4][..3];
  }

  lemma {:induction false} LongerStarts(text: string, line: string, prefix: string)
    requires |text| <= |line| && line[..|text|] == text && StartsWith(text, prefix)
    ensures StartsWith(line, prefix)
  {
    assert line[..|prefix|] == text[..|prefix|];
  }

  /** Only a line that starts with "@@ " can match the hunk grammar. */
  lemma {:induction false} OnlyHeadsParse(line: string)
    requires ParseHeader(WithoutNewline(line)).Some?
    ensures StartsWith(line, "@@ ")
  {
    ParsedStarts(WithoutNewline(line));
    LongerStarts(WithoutNewline(line), line, "@@ ");
  }

  lemma {:induction false} HeadReads(line: string)
    ensures var header := ParseHeader(WithoutNewline(line));
      && Read(line).line == line
      && (header.Some? ==> Read(line).kind == Head(header))
      && (header.None? ==> !(Read(line).kind.Head? && Read(line).kind.header.Some?))
  {
    if ParseHeader(WithoutNewline(line)).Some? {
      OnlyHeadsParse(line);
    }
  }

  // ---------------------------------------------------------------- applying

  /** Where one hunk body ends: the lines left, the source cursor and what was emitted. */
  datatype BodyEnd = BodyEnd(rest: seq<Token>, cursor: nat, output: seq<string>, consumed: nat)

  function Prepend(content: seq<string>, consumed: nat, r: Result<BodyEnd, PatchError>): Result<BodyEnd, PatchError> {
    if r.Err? then r else Ok(r.value.(output := content + r.value.output, consumed := consumed + r.value.consumed))
  }

  function Step(mark: Mark): nat {
    if mark == Insert then 0 else 1
  }

  function Emitted(mark: Mark, content: string): seq<string> {
    if mark == Delete then [] else [content]
  }

  function Body(source: seq<string>, tokens: seq<Token>, cursor: nat): Result<BodyEnd, PatchError>
    decreases |tokens|
  {
    if tokens == [] || tokens[0].kind.Head? then Ok(BodyEnd(tokens, cursor, [], 0))
    else match tokens[0].kind
      case NoNewline => Body(source, tokens[1..], cursor)
      case Edit(mark, content) =>
        if mark != Insert && (cursor >= |source| || source[cursor] != content) then Err(ContextDrift(cursor + 1))
        else Prepend(Emitted(mark, content), Step(mark), Body(source, tokens[1..], cursor + Step(mark)))
      case _ => Err(UnsupportedLine(tokens[0].line))
  }

  lemma {:induction false} BodyShrinks(source: seq<string>, tokens: seq<Token>, cursor: nat)
    requires Body(source, tokens, cursor).Ok?
    ensures |Body(source, tokens, cursor).value.rest| <= |tokens|
    ensures cursor <= |source| ==> Body(source, tokens, cursor).value.cursor <= |source|
    ensures Body(source, tokens, cursor).value.cursor == cursor + Body(source, tokens, cursor).value.consumed
    decreases |tokens|
  {
    if tokens != [] && !tokens[0].kind.Head? {
      match tokens[0].kind
      case NoNewline => BodyShrinks(source, tokens[1..], cursor);
      case Edit(mark, content) => BodyShrinks(source, tokens[1..], cursor + Step(mark));
      case _ =>
    }
  }

  function Target(h: HunkHeader): nat {
    if h.before.start == 0 then 0 else h.before.start - 1
  }

  function Emit(content: seq<string>, r: Result<seq<string>, PatchError>): Result<seq<string>, PatchError> {
    if r.Err? then r else Ok(content + r.value)
  }

  /** Everything from the source cursor on, with the remaining hunks applied. */
  function Hunks(source: seq<string>, tokens: seq<Token>, cursor: nat): Result<seq<string>, PatchError>
    requires cursor <= |source|
    decreases |tokens|
  {
    if tokens == [] then Ok(source[cursor..])
    else if !tokens[0].kind.Head? || tokens[0].kind.header.None? then Err(OutsideHunk(tokens[0].line))
    else
      var header := tokens[0].kind.header.value;
      var target := Target(header);
      if target < cursor || target > |source| then Err(OutOfOrder)
      else match Body(source, tokens[1..], target)
        case Err(e) => Err(e)
        case Ok(end) =>
          if end.consumed != header.before.count || |end.output| != header.after.count then Err(CountMismatch)
          else
            BodyShrinks(source, tokens[1..], target);
            Emit(source[cursor..target] + end.output, Hunks(source, end.rest, end.cursor))
  }

  datatype AppliedPatch = AppliedPatch(path: string, content: string)

  function Apply(original: string, patch: string): Result<AppliedPatch, PatchError> {
    var lines := SplitLines(patch);
    if |lines| < 3 then Err(IncompletePatch)
    else match HeaderPath(lines[0], "--- ")
      case Err(e) => Err(e)
      case Ok(oldPath) =>
        match HeaderPath(lines[1], "+++ ")
        case Err(e) => Err(e)
        case Ok(newPath) =>
          if oldPath != newPath then Err(PathChanges)
          else match Hunks(SplitLines(original), Tokens(lines[2..]), 0)
            case Err(e) => Err(e)
            case Ok(output) => Ok(AppliedPatch(newPath, Join(output)))
  }

  /** What one body line contributes: emitted text and consumed source lines. */
  function LineEffect(source: seq<string>, line: string, cursor: nat): Result<(seq<string>, nat), PatchError> {
    if StartsWith(line, NO_NEWLINE) then Ok(([], 0))
    else if line == "" || MarkOf(line[0]).None? then Err(UnsupportedLine(line))
    else
      var mark, content := MarkOf(line[0]).value, line[1..];
      if mark != Insert && (cursor >= |source| || source[cursor] != content) then Err(ContextDrift(cursor + 1))
      else Ok((Emitted(mark, content), Step(mark)))
  }

  lemma {:induction false} BodyLine(source: seq<string>, lines: seq<string>, index: nat, cursor: nat)
    requires index < |lines| && !StartsWith(lines[index], "@@ ")
    ensures Body(source, Tokens(lines[index..]), cursor) ==
      match LineEffect(source, lines[index], cursor)
      case Err(e) => Err(e)
      case Ok((text, n)) => Prepend(text, n, Body(source, Tokens(lines[index + 1..]), cursor + n))
  {
    hide StartsWith, ParseHeader, WithoutNewline, Prepend;
    assert lines[index..][0] == lines[index] && lines[index..][1..] == lines[index + 1..];
    PrependNothing(Body(source, Tokens(lines[index + 1..]), cursor));
  }

  /** The body from `start` is what was done so far, followed by the body from `index`. */
  ghost predicate BodySoFar(
    source: seq<string>, lines: seq<string>, start: nat, at: nat, index: nat, cursor: nat, consumed: nat, output: seq<string>)
    requires start <= |lines| && index <= |lines|
  {
    Body(source, Tokens(lines[start..]), at) == Prepend(output, consumed, Body(source, Tokens(lines[index..]), cursor))
  }

  lemma {:induction false} BodySoFarStep(
    source: seq<string>, lines: seq<string>, start: nat, at: nat, index: nat, cursor: nat, consumed: nat, output: seq<string>)
    requires start <= |lines| && index < |lines| && !StartsWith(lines[index], "@@ ")
    requires BodySoFar(source, lines, start, at, index, cursor, consumed, output)
    ensures var effect := LineEffect(source, lines[index], cursor);
      && (effect.Err? ==> Body(source, Tokens(lines[start..]), at) == Err(effect.error))
      && (effect.Ok? ==> BodySoFar(
        source, lines, start, at, index + 1, cursor + effect.value.1, consumed + effect.value.1, output + effect.value.0))
  {
    hide LineEffect, Read;
    BodyLine(source, lines, index, cursor);
    var effect := LineEffect(source, lines[index], cursor);
    if effect.Ok? {
      PrependTwice(output, consumed, effect.value.0, effect.value.1,
        Body(source, Tokens(lines[index + 1..]), cursor + effect.value.1));
    }
  }

  lemma {:induction false} BodySoFarEnd(
    source: seq<string>, lines: seq<string>, start: nat, at: nat, index: nat, cursor: nat, consumed: nat, output: seq<string>)
    requires start <= |lines| && index <= |lines| && (index < |lines| ==> StartsWith(lines[index], "@@ "))
    requires BodySoFar(source, lines, start, at, index, cursor, consumed, output)
    ensures Body(source, Tokens(lines[start..]), at) == Ok(BodyEnd(Tokens(lines[index..]), cursor, output, consumed))
  {
    assert output + [] == output;
  }

  /** One hunk body, from `start` on. */
  method ApplyBody(source: seq<string>, lines: seq<string>, start: nat, at: nat)
    returns (result: Result<BodyEnd, PatchError>, index: nat)
    requires start <= |lines|
    ensures result == Body(source, Tokens(lines[start..]), at)
    ensures result.Ok? ==> start <= index <= |lines| && result.value.rest == Tokens(lines[index..])
  {
    hide LineEffect, Body, Prepend, Tokens, StartsWith;
    index := start;
    var cursor: nat, consumed: nat := at, 0;
    var output: seq<string> := [];
    PrependNothing(Body(source, Tokens(lines[start..]), at));
    while index < |lines| && !StartsWith(lines[index], "@@ ")
      invariant start <= index <= |lines|
      invariant BodySoFar(source, lines, start, at, index, cursor, consumed, output)
    {
      var effect := LineEffect(source, lines[index], cursor);
      BodySoFarStep(source, lines, start, at, index, cursor, consumed, output);
      if effect.Err? {
        return Err(effect.error), index;
      }
      var (text, n) := effect.value;
      output, consumed, cursor, index := output + text, consumed + n, cursor + n, index + 1;
    }
    BodySoFarEnd(source, lines, start, at, index, cursor, consumed, output);
    return Ok(BodyEnd(Tokens(lines[index..]), cursor, output, consumed)), index;
  }

  lemma {:induction false} PrependNothing(r: Result<BodyEnd, PatchError>)
    ensures Prepend([], 0, r) == r
  {
    if r.Ok? {
      assert [] + r.value.output == r.value.output;
    }
  }

  lemma {:induction false} PrependTwice(a: seq<string>, m: nat, b: seq<string>, n: nat, r: Result<BodyEnd, PatchError>)
    ensures Prepend(a, m, Prepend(b, n, r)) == Prepend(a + b, m + n, r)
  {
    if r.Ok? {
      assert a + (b + r.value.output) == (a + b) + r.value.output;
    }
  }

  lemma {:induction false} EmitTwice(a: seq<string>, b: seq<string>, r: Result<seq<string>, PatchError>)
    ensures Emit(a, Emit(b, r)) == Emit(a + b, r)
  {
    if r.Ok? {
      assert a + (b + r.value) == (a + b) + r.value;
    }
  }

  /** One accepted hunk. */
  lemma {:induction false} HunkStep(source: seq<string>, tokens: seq<Token>, cursor: nat, header: HunkHeader, end: BodyEnd)
    requires cursor <= |source| && tokens != [] && tokens[0].kind == Head(Some(header))
    requires cursor <= Target(header) <= |source|
    requires Body(source, tokens[1..], Target(header)) == Ok(end)
    requires end.consumed == header.before.count && |end.output| == header.after.count
    ensures end.cursor <= |source| && |end.rest| < |tokens|
    ensures Hunks(source, tokens, cursor) == Emit(source[cursor..Target(header)] + end.output, Hunks(source, end.rest, end.cursor))
  {
    BodyShrinks(source, tokens[1..], Target(header));
  }

  /** The hunk at `index`: what it emits, and where source and patch stand after it. */
  method ApplyHunk(source: seq<string>, lines: seq<string>, index: nat, cursor: nat)
    returns (result: Result<seq<string>, PatchError>, next: nat, after: nat)
    requires index < |lines| && cursor <= |source|
    ensures result.Err? ==> Hunks(source, Tokens(lines[index..]), cursor) == Err(result.error)
    ensures result.Ok? ==>
      && index < next <= |lines| && after <= |source|
      && Hunks(source, Tokens(lines[index..]), cursor) == Emit(result.value, Hunks(source, Tokens(lines[next..]), after))
  {
    var header := ParseHeader(WithoutNewline(lines[index]));
    next, after := index, cursor;
    HeadReads(lines[index]);
    if header.None? {
      return Err(OutsideHunk(lines[index])), next, after;
    }
    var target := Target(header.value);
    if target < cursor || target > |source| {
      return Err(OutOfOrder), next, after;
    }
    var body, end := ApplyBody(source, lines, index + 1, target);
    if body.Err? {
      return Err(body.error), next, after;
    }
    if body.value.consumed != header.value.before.count || |body.value.output| != header.value.after.count {
      return Err(CountMismatch), next, after;
    }
    HunkStep(source, Tokens(lines[index..]), cursor, header.value, body.value);
    return Ok(source[cursor..target] + body.value.output), end, body.value.cursor;
  }

  method ApplyHunks(source: seq<string>, lines: seq<string>) returns (result: Result<seq<string>, PatchError>)
    requires |lines| >= 3
    ensures result == Hunks(source, Tokens(lines[2..]), 0)
  {
    var output: seq<string>, cursor: nat, index: nat, sawHunk := [], 0, 2, false;
    ghost var whole := Hunks(source, Tokens(lines[2..]), 0);
    assert whole.Ok? ==> [] + whole.value == whole.value;
    while index < |lines|
      invariant 2 <= index <= |lines| && cursor <= |source| && (sawHunk || index == 2)
      invariant whole == Emit(output, Hunks(source, Tokens(lines[index..]), cursor))
      decreases |lines| - index
    {
      var step, next, after := ApplyHunk(source, lines, index, cursor);
      if step.Err? {
        return step;
      }
      EmitTwice(output, step.value, Hunks(source, Tokens(lines[next..]), after));
      output, cursor, index, sawHunk := output + step.value, after, next, true;
    }
    // At least one hunk was read, so a patch without hunks never gets here.
    assert sawHunk;
    return Ok(output + source[cursor..]);
  }

  /** Apply a single-file diff only when every context line matches. */
  method ApplyUnifiedPatch(original: string, patch: string) returns (result: Result<AppliedPatch, PatchError>)
    ensures result == Apply(original, patch)
  {
    var lines := SplitLines(patch);
    if |lines| < 3 {
      return Err(IncompletePatch);
    }
    var oldPath := HeaderPath(lines[0], "--- ");
    if oldPath.Err? {
      return Err(oldPath.error);
    }
    var newPath := HeaderPath(lines[1], "+++ ");
    if newPath.Err? {
      return Err(newPath.error);
    }
    if oldPath.value != newPath.value {
      return Err(PathChanges);
    }
    var output := ApplyHunks(SplitLines(original), lines);
    if output.Err? {
      return Err(output.error);
    }
    return Ok(AppliedPatch(newPath.value, Join(output.value)));
  }
}
