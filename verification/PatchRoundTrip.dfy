/** What the applier makes of a rendered diff: exactly when it gives the intended file back. */
module PatchRoundTrip {
  import opened Common
  import opened TextLines
  import opened UnifiedPatch

  // ---------------------------------------------------------------- edits

  datatype HunkLine = HunkLine(mark: Mark, text: string)

  /** Changes from line `at` of the old file on, counting from zero. */
  datatype Hunk = Hunk(at: nat, lines: seq<HunkLine>)

  /** The lines a hunk replaces. */
  function OldSide(lines: seq<HunkLine>): seq<string> {
    if lines == [] then []
    else (if lines[0].mark == Insert then [] else [lines[0].text]) + OldSide(lines[1..])
  }

  /** The lines it puts in their place. */
  function NewSide(lines: seq<HunkLine>): seq<string> {
    if lines == [] then []
    else (if lines[0].mark == Delete then [] else [lines[0].text]) + NewSide(lines[1..])
  }

  function End(h: Hunk): nat {
    h.at + |OldSide(h.lines)|
  }

  /** Ordered hunks that do not overlap and whose old side is there, from `cursor` on. */
  predicate Fits(old_: seq<string>, cursor: nat, hs: seq<Hunk>)
    decreases |hs|
  {
    if hs == [] then cursor <= |old_|
    else
      && cursor <= hs[0].at && End(hs[0]) <= |old_|
      && old_[hs[0].at..End(hs[0])] == OldSide(hs[0].lines)
      && Fits(old_, End(hs[0]), hs[1..])
  }

  /** The edited file, from `cursor` on: untouched lines with every old side replaced. */
  function Splice(old_: seq<string>, cursor: nat, hs: seq<Hunk>): seq<string>
    requires Fits(old_, cursor, hs)
    decreases |hs|
  {
    if hs == [] then old_[cursor..]
    else old_[cursor..hs[0].at] + NewSide(hs[0].lines) + Splice(old_, End(hs[0]), hs[1..])
  }

  // ---------------------------------------------------------------- rendering

  function MarkChar(m: Mark): char {
    match m
    case Context => ' '
    case Delete => '-'
    case Insert => '+'
  }

  /** A line without a newline is followed by the marker that says so. */
  function RenderLine(line: HunkLine): seq<string> {
    if Terminated(line.text) then [[MarkChar(line.mark)] + line.text]
    else [[MarkChar(line.mark)] + (line.text + "\n"), NO_NEWLINE + "\n"]
  }

  function RenderBody(lines: seq<HunkLine>): seq<string> {
    if lines == [] then [] else RenderLine(lines[0]) + RenderBody(lines[1..])
  }

  /** An empty range names the line before it; any other names its first line, from one. */
  function RangeAt(at: nat, count: nat): Range {
    Range(if count == 0 then at else at + 1, count)
  }

  function HeaderOf(h: Hunk, newAt: nat): HunkHeader {
    HunkHeader(RangeAt(h.at, |OldSide(h.lines)|), RangeAt(newAt, |NewSide(h.lines)|))
  }

  /** Where the hunk's new side starts, when `cursor` old lines have become `newCursor` lines. */
  function NewAt(h: Hunk, cursor: nat, newCursor: nat): nat {
    if h.at < cursor then newCursor else newCursor + (h.at - cursor)
  }

  function HeadLine(h: HunkHeader): string {
    HeaderText(h) + "\n"
  }

  /** The hunk headers, given that `cursor` old lines have become `newCursor` lines. */
  function Headers(hs: seq<Hunk>, cursor: nat, newCursor: nat): (r: seq<HunkHeader>)
    ensures |r| == |hs|
  {
    if hs == [] then []
    else
      var newAt := NewAt(hs[0], cursor, newCursor);
      [HeaderOf(hs[0], newAt)] + Headers(hs[1..], End(hs[0]), newAt + |NewSide(hs[0].lines)|)
  }

  function HeadLines(headers: seq<HunkHeader>): (r: seq<string>)
    ensures |r| == |headers|
  {
    seq(|headers|, i requires 0 <= i < |headers| => HeadLine(headers[i]))
  }

  function RenderHunks(heads: seq<string>, hs: seq<Hunk>): seq<string>
    requires |heads| == |hs|
  {
    if hs == [] then [] else [heads[0]] + RenderBody(hs[0].lines) + RenderHunks(heads[1..], hs[1..])
  }

  function FileHeaders(path: string): (r: seq<string>)
    ensures |r| == 2
  {
    [FileHeader("--- ", 'a', path), FileHeader("+++ ", 'b', path)]
  }

  function PatchLines(path: string, heads: seq<string>, hs: seq<Hunk>): seq<string>
    requires |heads| == |hs|
  {
    FileHeaders(path) + RenderHunks(heads, hs)
  }

  /** The text of the unified diff. */
  function Render(path: string, hs: seq<Hunk>): string {
    Join(PatchLines(path, HeadLines(Headers(hs, 0, 0)), hs))
  }

  /** A header with the hunk's old range and new count; its new start may be anything. */
  predicate HeadFor(head: Token, h: Hunk) {
    && head.kind.Head? && head.kind.header.Some?
    && head.kind.header.value.before == RangeAt(h.at, |OldSide(h.lines)|)
    && head.kind.header.value.after.count == |NewSide(h.lines)|
  }

  predicate HeadsFor(heads: seq<Token>, hs: seq<Hunk>) {
    |heads| == |hs| && (hs != [] ==> HeadFor(heads[0], hs[0]) && HeadsFor(heads[1..], hs[1..]))
  }

  // ---------------------------------------------------------------- what the applier sees

  /** A rendered line always ends in a newline, whatever marker follows. */
  function SeenText(text: string): string {
    if Terminated(text) then text else text + "\n"
  }

  function SeenLines(lines: seq<HunkLine>): (r: seq<HunkLine>)
    ensures |r| == |lines|
  {
    if lines == [] then [] else [lines[0].(text := SeenText(lines[0].text))] + SeenLines(lines[1..])
  }

  /** The old position the applier starts a hunk at: an insertion after line one starts a line early. */
  function Placed(h: Hunk): nat {
    if |OldSide(h.lines)| == 0 && h.at > 0 then h.at - 1 else h.at
  }

  function Shift(hs: seq<Hunk>): (r: seq<Hunk>)
    ensures |r| == |hs|
  {
    if hs == [] then [] else [Hunk(Placed(hs[0]), SeenLines(hs[0].lines))] + Shift(hs[1..])
  }

  predicate OldTerminated(lines: seq<HunkLine>) {
    lines == [] || ((lines[0].mark != Insert ==> Terminated(lines[0].text)) && OldTerminated(lines[1..]))
  }

  predicate WellFormed(lines: seq<HunkLine>) {
    lines == [] || (IsLine(lines[0].text) && WellFormed(lines[1..]))
  }

  lemma {:induction false} SeenTail(lines: seq<HunkLine>)
    requires lines != []
    ensures SeenLines(lines)[1..] == SeenLines(lines[1..])
  {
  }

  lemma {:induction false} SeenOldSide(lines: seq<HunkLine>)
    requires OldTerminated(lines)
    ensures OldSide(SeenLines(lines)) == OldSide(lines)
  {
    if lines != [] {
      SeenTail(lines);
      SeenOldSide(lines[1..]);
    }
  }

  /** A body line as the applier reads it. */
  function EditTokens(line: HunkLine): seq<Token> {
    if Terminated(line.text) then [Token(RenderLine(line)[0], Edit(line.mark, line.text))]
    else [Token(RenderLine(line)[0], Edit(line.mark, line.text + "\n")), Token(NO_NEWLINE + "\n", NoNewline)]
  }

  function BodyTokens(lines: seq<HunkLine>): seq<Token> {
    if lines == [] then [] else EditTokens(lines[0]) + BodyTokens(lines[1..])
  }

  function HunkTokens(heads: seq<Token>, hs: seq<Hunk>): seq<Token>
    requires |heads| == |hs|
  {
    if hs == [] then [] else [heads[0]] + BodyTokens(hs[0].lines) + HunkTokens(heads[1..], hs[1..])
  }

  predicate BodyStops(tokens: seq<Token>) {
    tokens == [] || tokens[0].kind.Head?
  }

  /** The old side stands at the cursor. */
  predicate Matches(source: seq<string>, cursor: nat, lines: seq<HunkLine>) {
    cursor + |OldSide(lines)| <= |source| && source[cursor..cursor + |OldSide(lines)|] == OldSide(lines)
  }

  lemma {:induction false} MatchesTail(source: seq<string>, cursor: nat, lines: seq<HunkLine>)
    requires lines != [] && Matches(source, cursor, lines)
    ensures Matches(source, cursor + Step(lines[0].mark), lines[1..])
    ensures lines[0].mark != Insert ==> cursor < |source| && source[cursor] == lines[0].text
  {
    var side := source[cursor..cursor + |OldSide(lines)|];
    if lines[0].mark != Insert {
      assert side[0] == lines[0].text;
      assert source[cursor + 1..cursor + |OldSide(lines)|] == side[1..];
    }
  }

  function BodyResult(lines: seq<HunkLine>, rest: seq<Token>, cursor: nat): BodyEnd {
    BodyEnd(rest, cursor + |OldSide(lines)|, NewSide(SeenLines(lines)), |OldSide(lines)|)
  }

  lemma {:induction false} SidesStep(lines: seq<HunkLine>)
    requires lines != []
    ensures NewSide(SeenLines(lines)) == Emitted(lines[0].mark, SeenText(lines[0].text)) + NewSide(SeenLines(lines[1..]))
    ensures |OldSide(lines)| == Step(lines[0].mark) + |OldSide(lines[1..])|
  {
    hide SeenText;
    SeenTail(lines);
  }

  lemma {:induction false} BodyResultStep(lines: seq<HunkLine>, rest: seq<Token>, cursor: nat)
    requires lines != []
    ensures Prepend(Emitted(lines[0].mark, SeenText(lines[0].text)), Step(lines[0].mark),
        Ok(BodyResult(lines[1..], rest, cursor + Step(lines[0].mark))))
      == Ok(BodyResult(lines, rest, cursor))
  {
    hide SeenText, SeenLines, NewSide, OldSide, Emitted, Step;
    SidesStep(lines);
  }

  /** A rendered line is one edit, whether a marker follows it or not. */
  lemma {:induction false} EditBody(source: seq<string>, line: HunkLine, tail: seq<Token>, cursor: nat)
    requires line.mark != Insert ==> cursor < |source| && source[cursor] == line.text && Terminated(line.text)
    ensures Body(source, EditTokens(line) + tail, cursor) ==
      Prepend(Emitted(line.mark, SeenText(line.text)), Step(line.mark), Body(source, tail, cursor + Step(line.mark)))
  {
    hide Terminated, RenderLine, Prepend, Emitted;
    var tokens := EditTokens(line) + tail;
    if Terminated(line.text) {
      assert tokens[1..] == tail;
    } else {
      assert tokens[1..][1..] == tail;
    }
  }

  lemma {:induction false} BodyHead(source: seq<string>, lines: seq<HunkLine>, rest: seq<Token>, cursor: nat)
    requires lines != [] && Matches(source, cursor, lines) && OldTerminated(lines)
    requires var n := Step(lines[0].mark);
      Body(source, BodyTokens(lines[1..]) + rest, cursor + n) == Ok(BodyResult(lines[1..], rest, cursor + n))
    ensures Body(source, BodyTokens(lines) + rest, cursor) == Ok(BodyResult(lines, rest, cursor))
  {
    hide Body, EditTokens, Terminated, Matches, OldSide, NewSide, SeenLines, BodyResult;
    Assoc(EditTokens(lines[0]), BodyTokens(lines[1..]), rest);
    MatchesTail(source, cursor, lines);
    BodyResultStep(lines, rest, cursor);
    EditBody(source, lines[0], BodyTokens(lines[1..]) + rest, cursor);
  }

  /** A matching body is emitted whole. */
  lemma {:induction false} BodyOfRendered(source: seq<string>, lines: seq<HunkLine>, rest: seq<Token>, cursor: nat)
    requires BodyStops(rest) && Matches(source, cursor, lines) && OldTerminated(lines)
    ensures Body(source, BodyTokens(lines) + rest, cursor) == Ok(BodyResult(lines, rest, cursor))
    decreases |lines|
  {
    if lines == [] {
      assert BodyTokens(lines) + rest == rest;
    } else {
      MatchesTail(source, cursor, lines);
      BodyOfRendered(source, lines[1..], rest, cursor + Step(lines[0].mark));
      BodyHead(source, lines, rest, cursor);
    }
  }

  /** One with an unterminated context or deleted line is a drift. */
  lemma {:induction false} UnterminatedIsDrift(source: seq<string>, lines: seq<HunkLine>, rest: seq<Token>, cursor: nat)
    requires Matches(source, cursor, lines) && !OldTerminated(lines)
    ensures Body(source, BodyTokens(lines) + rest, cursor).Err?
    decreases |lines|
  {
    hide Terminated, Matches, OldSide, RenderLine;
    var line, tail := lines[0], BodyTokens(lines[1..]) + rest;
    assert BodyTokens(lines) + rest == EditTokens(line) + tail;
    MatchesTail(source, cursor, lines);
    if line.mark == Insert || Terminated(line.text) {
      UnterminatedIsDrift(source, lines[1..], rest, cursor + Step(line.mark));
    } else {
      assert |SeenText(line.text)| != |line.text|;
    }
  }

  // ---------------------------------------------------------------- whole patches

  predicate AllWellFormed(hs: seq<Hunk>) {
    hs == [] || (WellFormed(hs[0].lines) && AllWellFormed(hs[1..]))
  }

  predicate AllOldTerminated(hs: seq<Hunk>) {
    hs == [] || (OldTerminated(hs[0].lines) && AllOldTerminated(hs[1..]))
  }

  /** Old sides are found where the applier looks for them. */
  predicate Seeks(source: seq<string>, cursor: nat, hs: seq<Hunk>)
    decreases |hs|
  {
    if hs == [] then cursor <= |source|
    else
      var t, n := Placed(hs[0]), |OldSide(hs[0].lines)|;
      cursor <= t && Matches(source, t, hs[0].lines) && Seeks(source, t + n, hs[1..])
  }

  lemma {:induction false} SidesOfSeen(lines: seq<HunkLine>)
    ensures |NewSide(SeenLines(lines))| == |NewSide(lines)|
  {
    if lines != [] {
      SeenTail(lines);
      SidesOfSeen(lines[1..]);
    }
  }

  lemma {:induction false} ShiftTail(hs: seq<Hunk>)
    requires hs != []
    ensures Shift(hs)[1..] == Shift(hs[1..])
  {
  }

  lemma {:induction false} SeeksFits(source: seq<string>, cursor: nat, hs: seq<Hunk>)
    requires Seeks(source, cursor, hs) && AllOldTerminated(hs)
    ensures Fits(source, cursor, Shift(hs))
    decreases |hs|
  {
    if hs != [] {
      SeenOldSide(hs[0].lines);
      ShiftTail(hs);
      SeeksFits(source, Placed(hs[0]) + |OldSide(hs[0].lines)|, hs[1..]);
    }
  }

  lemma {:induction false} HeadNumbers(head: Token, h: Hunk)
    requires HeadFor(head, h)
    ensures var header := head.kind.header.value;
      Target(header) == Placed(h) && header.before.count == |OldSide(h.lines)|
      && header.after.count == |NewSide(SeenLines(h.lines))|
  {
    SidesOfSeen(h.lines);
  }

  lemma {:induction false} HunkWithBody(
    source: seq<string>, head: Token, h: Hunk, body: seq<Token>, rest: seq<Token>, cursor: nat, end: BodyEnd)
    requires HeadFor(head, h) && cursor <= Placed(h) <= |source|
    requires Body(source, body + rest, Placed(h)) == Ok(end)
    requires end.consumed == |OldSide(h.lines)| && |end.output| == |NewSide(SeenLines(h.lines))|
    ensures end.cursor <= |source|
    ensures Hunks(source, [head] + body + rest, cursor)
         == Emit(source[cursor..Placed(h)] + end.output, Hunks(source, end.rest, end.cursor))
  {
    HeadNumbers(head, h);
    assert ([head] + body + rest)[1..] == body + rest;
    HunkStep(source, [head] + body + rest, cursor, head.kind.header.value, end);
  }

  lemma {:induction false} OneRenderedHunk(source: seq<string>, head: Token, h: Hunk, rest: seq<Token>, cursor: nat)
    requires HeadFor(head, h) && BodyStops(rest)
    requires cursor <= Placed(h) && Matches(source, Placed(h), h.lines) && OldTerminated(h.lines)
    ensures Hunks(source, [head] + BodyTokens(h.lines) + rest, cursor) ==
      Emit(source[cursor..Placed(h)] + NewSide(SeenLines(h.lines)), Hunks(source, rest, Placed(h) + |OldSide(h.lines)|))
  {
    hide Hunks, Body, BodyTokens, HeadFor, SeenLines, NewSide, OldSide, OldTerminated;
    BodyOfRendered(source, h.lines, rest, Placed(h));
    HunkWithBody(source, head, h, BodyTokens(h.lines), rest, cursor, BodyResult(h.lines, rest, Placed(h)));
  }

  lemma {:induction false} DriftingHunk(source: seq<string>, head: Token, h: Hunk, rest: seq<Token>, cursor: nat)
    requires HeadFor(head, h) && cursor <= |source|
    requires cursor <= Placed(h) && Matches(source, Placed(h), h.lines) && !OldTerminated(h.lines)
    ensures Hunks(source, [head] + BodyTokens(h.lines) + rest, cursor).Err?
  {
    var tokens := [head] + BodyTokens(h.lines) + rest;
    assert tokens[1..] == BodyTokens(h.lines) + rest;
    UnterminatedIsDrift(source, h.lines, rest, Placed(h));
  }

  lemma {:induction false} ShiftedSplice(source: seq<string>, cursor: nat, hs: seq<Hunk>)
    requires hs != [] && Seeks(source, cursor, hs) && AllOldTerminated(hs)
    ensures var h, next := hs[0], Placed(hs[0]) + |OldSide(hs[0].lines)|;
      && Fits(source, cursor, Shift(hs)) && Fits(source, next, Shift(hs[1..]))
      && Splice(source, cursor, Shift(hs)) ==
        source[cursor..Placed(h)] + NewSide(SeenLines(h.lines)) + Splice(source, next, Shift(hs[1..]))
  {
    hide SeenLines, NewSide, OldTerminated;
    SeeksFits(source, cursor, hs);
    ShiftTail(hs);
    SeenOldSide(hs[0].lines);
  }

  lemma {:induction false} HunksHead(source: seq<string>, cursor: nat, heads: seq<Token>, hs: seq<Hunk>)
    requires hs != [] && Seeks(source, cursor, hs) && AllOldTerminated(hs) && HeadsFor(heads, hs)
    requires var next := Placed(hs[0]) + |OldSide(hs[0].lines)|;
      && Fits(source, next, Shift(hs[1..]))
      && Hunks(source, HunkTokens(heads[1..], hs[1..]), next) == Ok(Splice(source, next, Shift(hs[1..])))
    ensures Fits(source, cursor, Shift(hs))
    ensures Hunks(source, HunkTokens(heads, hs), cursor) == Ok(Splice(source, cursor, Shift(hs)))
  {
    hide Hunks, NewSide, SeenLines, OldSide;
    OneRenderedHunk(source, heads[0], hs[0], HunkTokens(heads[1..], hs[1..]), cursor);
    ShiftedSplice(source, cursor, hs);
  }

  /** The applier splices exactly the shifted hunks, with a newline on every line, whatever new
      starts the headers claim. */
  lemma {:induction false} HunksOfRendered(source: seq<string>, cursor: nat, heads: seq<Token>, hs: seq<Hunk>)
    requires Seeks(source, cursor, hs) && AllOldTerminated(hs) && HeadsFor(heads, hs)
    ensures Fits(source, cursor, Shift(hs))
    ensures Hunks(source, HunkTokens(heads, hs), cursor) == Ok(Splice(source, cursor, Shift(hs)))
    decreases |hs|
  {
    if hs != [] {
      hide Hunks, HunkTokens, Splice, Fits, Shift, OldSide, OldTerminated, HeadFor;
      HunksOfRendered(source, Placed(hs[0]) + |OldSide(hs[0].lines)|, heads[1..], hs[1..]);
      HunksHead(source, cursor, heads, hs);
    }
  }

  lemma {:induction false} StopsAtHead(heads: seq<Token>, hs: seq<Hunk>)
    requires HeadsFor(heads, hs)
    ensures BodyStops(HunkTokens(heads, hs))
  {
  }

  lemma {:induction false} HunkTokensHead(heads: seq<Token>, hs: seq<Hunk>)
    requires |heads| == |hs| && hs != []
    ensures HunkTokens(heads, hs) == [heads[0]] + BodyTokens(hs[0].lines) + HunkTokens(heads[1..], hs[1..])
  {
  }

  /** It reports an error when some context or deleted line has no newline. */
  lemma {:induction false} DriftOfRendered(source: seq<string>, cursor: nat, heads: seq<Token>, hs: seq<Hunk>)
    requires Seeks(source, cursor, hs) && !AllOldTerminated(hs) && HeadsFor(heads, hs)
    ensures cursor <= |source| && Hunks(source, HunkTokens(heads, hs), cursor).Err?
    decreases |hs|
  {
    hide Hunks, HeadFor, OldTerminated, OldSide, BodyStops, HunkTokens;
    StopsAtHead(heads[1..], hs[1..]);
    HunkTokensHead(heads, hs);
    if OldTerminated(hs[0].lines) {
      OneRenderedHunk(source, heads[0], hs[0], HunkTokens(heads[1..], hs[1..]), cursor);
      DriftOfRendered(source, Placed(hs[0]) + |OldSide(hs[0].lines)|, heads[1..], hs[1..]);
    } else {
      DriftingHunk(source, heads[0], hs[0], HunkTokens(heads[1..], hs[1..]), cursor);
    }
  }

  // ---------------------------------------------------------------- the patch text reads as its tokens

  lemma {:induction false} TokensConcat(a: seq<string>, b: seq<string>)
    ensures Tokens(a + b) == Tokens(a) + Tokens(b)
  {
    if a == [] {
      assert a + b == b;
    } else {
      assert (a + b)[1..] == a[1..] + b;
      TokensConcat(a[1..], b);
    }
  }

  /** A mark in front of a line makes another line. */
  lemma {:induction false} MarkedLine(c: char, text: string)
    requires IsLine(text) && !Separates(c)
    ensures IsLine([c] + SeenText(text)) && Terminated([c] + SeenText(text))
  {
    assert Unbroken([c]);
    if Terminated(text) {
      LineEndAfter([c], text);
    } else {
      UnterminatedIsUnbroken(text);
      UnbrokenLine([c] + text);
      assert [c] + (text + "\n") == [c] + text + "\n";
    }
  }

  lemma {:induction false} FirstReads(line: HunkLine)
    requires IsLine(line.text)
    ensures Read(RenderLine(line)[0]) == EditTokens(line)[0]
    ensures StandAlone([RenderLine(line)[0]])
  {
    var first := RenderLine(line)[0];
    assert "@@ "[0] == '@' && NO_NEWLINE[0] == '\\';
    assert first[0] == MarkChar(line.mark) && first[1..] == SeenText(line.text);
    MarkedLine(MarkChar(line.mark), line.text);
    assert first == [MarkChar(line.mark)] + SeenText(line.text);
  }

  lemma {:induction false} LineReads(line: HunkLine)
    requires IsLine(line.text)
    ensures Tokens(RenderLine(line)) == EditTokens(line)
    ensures StandAlone(RenderLine(line))
  {
    FirstReads(line);
    TokensOne(RenderLine(line)[0]);
    if !Terminated(line.text) {
      MarkerReads();
      TokensOne(NO_NEWLINE + "\n");
      TokensConcat([RenderLine(line)[0]], [NO_NEWLINE + "\n"]);
    }
  }

  lemma {:induction false} TokensOne(line: string)
    ensures Tokens([line]) == [Read(line)]
  {
    assert [line][1..] == [];
  }

  lemma {:induction false} MarkerReads()
    ensures Read(NO_NEWLINE + "\n") == Token(NO_NEWLINE + "\n", NoNewline)
    ensures StandAlone([NO_NEWLINE + "\n"])
  {
    assert (NO_NEWLINE + "\n")[..|NO_NEWLINE|] == NO_NEWLINE;
    assert "@@ "[0] == '@' && NO_NEWLINE[0] == '\\';
    assert Unbroken(NO_NEWLINE);
    UnbrokenLine(NO_NEWLINE);
  }

  lemma {:induction false} StandAloneConcat(a: seq<string>, b: seq<string>)
    requires StandAlone(a) && StandAlone(b)
    ensures StandAlone(a + b)
  {
  }

  lemma {:induction false} BodyReads(lines: seq<HunkLine>)
    requires WellFormed(lines)
    ensures Tokens(RenderBody(lines)) == BodyTokens(lines)
    ensures StandAlone(RenderBody(lines))
  {
    if lines != [] {
      LineReads(lines[0]);
      BodyReads(lines[1..]);
      TokensConcat(RenderLine(lines[0]), RenderBody(lines[1..]));
      StandAloneConcat(RenderLine(lines[0]), RenderBody(lines[1..]));
    }
  }

  lemma {:induction false} DecimalIsUnbroken(n: nat)
    ensures Unbroken(Decimal(n))
  {
    NumberOfDecimal(n);
    assert forall c :: IsDigit(c) ==> !Separates(c);
  }

  lemma {:induction false} HeaderTextIsUnbroken(h: HunkHeader)
    ensures Unbroken(HeaderText(h))
  {
    DecimalIsUnbroken(h.before.start);
    DecimalIsUnbroken(h.before.count);
    DecimalIsUnbroken(h.after.start);
    DecimalIsUnbroken(h.after.count);
    assert Unbroken(RangeText(h.before)) && Unbroken(RangeText(h.after));
  }

  /** A header line that reads as `head`. */
  predicate ReadsAs(line: string, head: Token) {
    StandAlone([line]) && Read(line) == head
  }

  predicate AllReadAs(lines: seq<string>, heads: seq<Token>) {
    |lines| == |heads| && forall i :: 0 <= i < |lines| ==> ReadsAs(lines[i], heads[i])
  }

  lemma {:induction false} HunksRead(lines: seq<string>, heads: seq<Token>, hs: seq<Hunk>)
    requires AllWellFormed(hs) && |lines| == |hs| && AllReadAs(lines, heads)
    ensures Tokens(RenderHunks(lines, hs)) == HunkTokens(heads, hs)
    ensures StandAlone(RenderHunks(lines, hs)) && |RenderHunks(lines, hs)| >= |hs|
    decreases |hs|
  {
    if hs != [] {
      assert ReadsAs(lines[0], heads[0]);
      BodyReads(hs[0].lines);
      HunksRead(lines[1..], heads[1..], hs[1..]);
      var rest := RenderHunks(lines[1..], hs[1..]);
      OneHead(lines[0], heads[0], RenderBody(hs[0].lines));
      TokensConcat([lines[0]] + RenderBody(hs[0].lines), rest);
      StandAloneConcat([lines[0]] + RenderBody(hs[0].lines), rest);
    }
  }

  lemma {:induction false} OneHead(line: string, head: Token, body: seq<string>)
    requires ReadsAs(line, head) && StandAlone(body)
    ensures Tokens([line] + body) == [head] + Tokens(body)
    ensures StandAlone([line] + body)
  {
    assert ([line] + body)[1..] == body;
    StandAloneConcat([line], body);
  }

  lemma {:induction false} FileHeaderStandsAlone(prefix: string, side: char, path: string)
    requires HeaderSafe(path) && !Separates(side) && prefix != "" && Unbroken(prefix)
    ensures StandAlone([FileHeader(prefix, side, path)])
  {
    var text := prefix + ([side] + "/" + path);
    assert FileHeader(prefix, side, path) == text + "\n";
    assert Unbroken(text);
    UnbrokenLine(text);
  }

  lemma {:induction false} PatchTextSplits(path: string, body: seq<string>)
    requires HeaderSafe(path) && StandAlone(body)
    ensures SplitLines(Join(FileHeaders(path) + body)) == FileHeaders(path) + body
  {
    var before, after := FileHeader("--- ", 'a', path), FileHeader("+++ ", 'b', path);
    FileHeaderStandsAlone("--- ", 'a', path);
    FileHeaderStandsAlone("+++ ", 'b', path);
    StandAloneConcat([before], [after]);
    assert FileHeaders(path) == [before] + [after];
    StandAloneConcat(FileHeaders(path), body);
    StandAloneLines(FileHeaders(path) + body);
    SplitJoin(FileHeaders(path) + body);
  }

  /** Under the headers of one safe path, what is applied is what the hunk lines say. */
  lemma {:induction false} ApplyUnderHeaders(original: string, path: string, body: seq<string>)
    requires HeaderSafe(path) && StandAlone(body) && body != []
    ensures Apply(original, Join(FileHeaders(path) + body)) ==
      match Hunks(SplitLines(original), Tokens(body), 0)
      case Err(e) => Err(e)
      case Ok(output) => Ok(AppliedPatch(path, Join(output)))
  {
    hide SplitLines, Join, HeaderPath, HeaderSafe, FileHeader, Hunks, Tokens;
    PatchTextSplits(path, body);
    HeaderRoundTrip("--- ", 'a', path);
    HeaderRoundTrip("+++ ", 'b', path);
    assert (FileHeaders(path) + body)[2..] == body;
  }

  /** What applying a patch with these header lines returns. */
  lemma {:induction false} ApplyWithHeads(original: string, path: string, lines: seq<string>, heads: seq<Token>, hs: seq<Hunk>)
    requires HeaderSafe(path) && AllWellFormed(hs) && hs != []
    requires |lines| == |hs| && AllReadAs(lines, heads) && HeadsFor(heads, hs)
    requires Seeks(SplitLines(original), 0, hs)
    ensures var result := Apply(original, Join(PatchLines(path, lines, hs)));
      && (!AllOldTerminated(hs) ==> result.Err?)
      && (AllOldTerminated(hs) ==>
        && Fits(SplitLines(original), 0, Shift(hs))
        && result == Ok(AppliedPatch(path, Join(Splice(SplitLines(original), 0, Shift(hs))))))
  {
    HunksRead(lines, heads, hs);
    ApplyUnderHeaders(original, path, RenderHunks(lines, hs));
    if AllOldTerminated(hs) {
      HunksOfRendered(SplitLines(original), 0, heads, hs);
    } else {
      DriftOfRendered(SplitLines(original), 0, heads, hs);
    }
  }

  lemma {:induction false} HeaderLine(h: HunkHeader)
    ensures ReadsAs(HeaderText(h) + "\n", Token(HeaderText(h) + "\n", Head(Some(h))))
  {
    hide HeaderText, ParseHeader, Separates, LineEnd;
    var text := HeaderText(h);
    HeaderTextIsUnbroken(h);
    UnbrokenLine(text);
    HeaderTextRoundTrip(h);
    OnlyHeadsParse(text + "\n");
    assert (text + "\n")[..3] == ['@', '@', ' '];
  }

  function HeadToken(h: HunkHeader): Token {
    Token(HeadLine(h), Head(Some(h)))
  }

  function HeadTokens(headers: seq<HunkHeader>): (r: seq<Token>)
    ensures |r| == |headers|
    ensures forall i :: 0 <= i < |r| ==> r[i].kind == Head(Some(headers[i]))
  {
    seq(|headers|, i requires 0 <= i < |headers| => HeadToken(headers[i]))
  }

  lemma {:induction false} HeadLinesRead(headers: seq<HunkHeader>)
    ensures AllReadAs(HeadLines(headers), HeadTokens(headers))
  {
    forall i | 0 <= i < |headers| ensures ReadsAs(HeadLines(headers)[i], HeadTokens(headers)[i]) {
      HeaderLine(headers[i]);
    }
  }

  lemma {:induction false} HeadTokensTail(headers: seq<HunkHeader>)
    requires headers != []
    ensures HeadTokens(headers)[0] == HeadToken(headers[0]) && HeadTokens(headers)[1..] == HeadTokens(headers[1..])
  {
  }

  lemma {:induction false} HeadersFit(hs: seq<Hunk>, cursor: nat, newCursor: nat)
    ensures HeadsFor(HeadTokens(Headers(hs, cursor, newCursor)), hs)
    decreases |hs|
  {
    if hs != [] {
      hide HeadFor, HeadToken, HeadTokens, HeaderOf, NewSide, OldSide, NewAt;
      var newAt := NewAt(hs[0], cursor, newCursor);
      var headers := Headers(hs, cursor, newCursor);
      HeadersFit(hs[1..], End(hs[0]), newAt + |NewSide(hs[0].lines)|);
      assert headers == [HeaderOf(hs[0], newAt)] + Headers(hs[1..], End(hs[0]), newAt + |NewSide(hs[0].lines)|);
      HeadTokensTail(headers);
      HeadTokenFits(hs[0], newAt);
    }
  }

  lemma {:induction false} HeadTokenFits(h: Hunk, newAt: nat)
    ensures HeadFor(HeadToken(HeaderOf(h, newAt)), h)
  {
  }

  /** What applying a rendered diff returns: an error when a context or deleted line has no newline,
      and otherwise the splice of the shifted hunks. */
  lemma {:induction false} ApplyRendered(original: string, path: string, hs: seq<Hunk>)
    requires HeaderSafe(path) && AllWellFormed(hs) && hs != []
    requires Seeks(SplitLines(original), 0, hs)
    ensures !AllOldTerminated(hs) ==> Apply(original, Render(path, hs)).Err?
    ensures AllOldTerminated(hs) ==>
      && Fits(SplitLines(original), 0, Shift(hs))
      && Apply(original, Render(path, hs)) == Ok(AppliedPatch(path, Join(Splice(SplitLines(original), 0, Shift(hs)))))
  {
    var headers := Headers(hs, 0, 0);
    HeadersFit(hs, 0, 0);
    HeadLinesRead(headers);
    ApplyWithHeads(original, path, HeadLines(headers), HeadTokens(headers), hs);
  }
}
