/** When a rendered diff gives the intended file back, when its reverse does, and what any
    accepted patch amounts to. */
module PatchProperties {
  import opened Common
  import opened TextLines
  import opened UnifiedPatch
  import opened PatchRoundTrip

  // ---------------------------------------------------------------- the condition

  predicate PureInsertion(h: Hunk) {
    |OldSide(h.lines)| == 0 && h.at > 0
  }

  predicate LinesTerminated(lines: seq<HunkLine>) {
    lines == [] || (Terminated(lines[0].text) && LinesTerminated(lines[1..]))
  }

  predicate RepeatsBefore(source: seq<string>, cursor: nat, h: Hunk) {
    PureInsertion(h) ==>
      cursor < h.at <= |source| && forall t :: t in NewSide(h.lines) ==> t == source[h.at - 1]
  }

  /** Every line of the diff ends in a newline, and an insertion that replaces nothing is at the
      start of the file or repeats the untouched line before it. */
  predicate Faithful(source: seq<string>, cursor: nat, hs: seq<Hunk>)
    decreases |hs|
  {
    hs == [] || (
      && LinesTerminated(hs[0].lines)
      && RepeatsBefore(source, cursor, hs[0])
      && Faithful(source, End(hs[0]), hs[1..]))
  }

  /** An untouched line stands before each insertion that replaces nothing. */
  predicate Room(cursor: nat, hs: seq<Hunk>)
    decreases |hs|
  {
    hs == [] || ((PureInsertion(hs[0]) ==> cursor < hs[0].at) && Room(End(hs[0]), hs[1..]))
  }

  /** Consecutive hunks leave at least one untouched line between them. */
  predicate Apart(hs: seq<Hunk>)
    decreases |hs|
  {
    hs == [] || ((|hs| > 1 ==> End(hs[0]) < hs[1].at) && Apart(hs[1..]))
  }

  lemma {:induction false} ApartHasRoom(cursor: nat, hs: seq<Hunk>)
    requires Apart(hs) && (hs != [] ==> cursor < hs[0].at || hs[0].at == 0)
    ensures Room(cursor, hs)
    decreases |hs|
  {
    if hs != [] {
      ApartHasRoom(End(hs[0]), hs[1..]);
    }
  }

  lemma {:induction false} OldLinesTerminated(lines: seq<HunkLine>)
    requires LinesTerminated(lines)
    ensures OldTerminated(lines)
  {
    if lines != [] {
      OldLinesTerminated(lines[1..]);
    }
  }

  lemma {:induction false} FaithfulHasRoom(source: seq<string>, cursor: nat, hs: seq<Hunk>)
    requires Faithful(source, cursor, hs)
    ensures Room(cursor, hs) && AllOldTerminated(hs)
    decreases |hs|
  {
    if hs != [] {
      FaithfulHasRoom(source, End(hs[0]), hs[1..]);
      OldLinesTerminated(hs[0].lines);
    }
  }

  lemma {:induction false} RoomSeeks(source: seq<string>, c: nat, cursor: nat, hs: seq<Hunk>)
    requires Fits(source, cursor, hs) && Room(cursor, hs) && c <= cursor
    ensures Seeks(source, c, hs)
    decreases |hs|
  {
    if hs != [] {
      RoomSeeks(source, Placed(hs[0]) + |OldSide(hs[0].lines)|, End(hs[0]), hs[1..]);
    }
  }

  // ---------------------------------------------------------------- the condition suffices

  lemma {:induction false} SeenIsSame(lines: seq<HunkLine>)
    requires LinesTerminated(lines)
    ensures SeenLines(lines) == lines
  {
    if lines != [] {
      SeenIsSame(lines[1..]);
      assert lines == [lines[0]] + lines[1..];
    }
  }

  lemma {:induction false} ShiftedSame(source: seq<string>, c: nat, hs: seq<Hunk>)
    requires hs != [] && Seeks(source, c, hs) && AllOldTerminated(hs) && LinesTerminated(hs[0].lines)
    ensures var h, next := hs[0], Placed(hs[0]) + |OldSide(hs[0].lines)|;
      && Fits(source, c, Shift(hs)) && Fits(source, next, Shift(hs[1..]))
      && Splice(source, c, Shift(hs)) == source[c..Placed(h)] + NewSide(h.lines) + Splice(source, next, Shift(hs[1..]))
  {
    SeenIsSame(hs[0].lines);
    ShiftedSplice(source, c, hs);
  }

  lemma {:induction false} Repeats(ins: seq<string>, x: string)
    requires forall t :: t in ins ==> t == x
    ensures ins + [x] == [x] + ins
  {
    forall i | 0 <= i < |ins| + 1 ensures (ins + [x])[i] == x && ([x] + ins)[i] == x {
      assert i < |ins| ==> ins[i] in ins;
      assert i > 0 ==> ins[i - 1] in ins;
    }
  }

  /** From any applier cursor at or before the true one, a faithful diff ends in the same lines. */
  lemma {:induction false} FaithfulSplice(source: seq<string>, c: nat, cursor: nat, hs: seq<Hunk>)
    requires Fits(source, cursor, hs) && Faithful(source, cursor, hs) && c <= cursor <= |source|
    requires Seeks(source, c, hs) && AllOldTerminated(hs)
    ensures Fits(source, c, Shift(hs))
    ensures Splice(source, c, Shift(hs)) == source[c..cursor] + Splice(source, cursor, hs)
    decreases |hs|
  {
    SeeksFits(source, c, hs);
    if hs != [] {
      var h, rest := hs[0], hs[1..];
      var next := Placed(h) + |OldSide(h.lines)|;
      FaithfulSplice(source, next, End(h), rest);
      ShiftedSame(source, c, hs);
      HeadParts(source, c, cursor, h, Splice(source, End(h), rest));
    }
  }

  lemma {:induction false} HeadParts(source: seq<string>, c: nat, cursor: nat, h: Hunk, tail: seq<string>)
    requires c <= cursor <= h.at && End(h) <= |source| && RepeatsBefore(source, cursor, h)
    ensures var next := Placed(h) + |OldSide(h.lines)|;
      source[c..Placed(h)] + NewSide(h.lines) + (source[next..End(h)] + tail)
        == source[c..cursor] + (source[cursor..h.at] + NewSide(h.lines) + tail)
  {
    if PureInsertion(h) {
      InsertionParts(source, c, cursor, h.at, NewSide(h.lines), tail);
    }
  }

  /** An insertion that repeats the line before it may start one line early. */
  lemma {:induction false} InsertionParts(source: seq<string>, c: nat, cursor: nat, at: nat, ins: seq<string>, tail: seq<string>)
    requires c <= cursor < at <= |source| && forall t :: t in ins ==> t == source[at - 1]
    ensures source[c..at - 1] + ins + (source[at - 1..at] + tail) == source[c..cursor] + (source[cursor..at] + ins + tail)
  {
    var x, p := source[at - 1..at], source[c..at - 1];
    assert x == [source[at - 1]];
    Repeats(ins, source[at - 1]);
    Reassociate(p, ins, x, tail);
    assert p + x == source[c..cursor] + source[cursor..at];
    assert (source[c..cursor] + source[cursor..at]) + ins + tail == source[c..cursor] + (source[cursor..at] + ins + tail);
  }

  lemma {:induction false} SpliceHead(source: seq<string>, c: nat, cursor: nat, at: nat)
    requires c <= cursor <= at <= |source|
    ensures source[c..cursor] + source[cursor..at] == source[c..at]
  {
  }

  lemma {:induction false} Reassociate(p: seq<string>, ins: seq<string>, x: seq<string>, tail: seq<string>)
    requires ins + x == x + ins
    ensures p + ins + (x + tail) == (p + x) + ins + tail
  {
    assert p + ins + (x + tail) == p + (ins + x) + tail;
    assert p + (x + ins) + tail == (p + x) + ins + tail;
  }

  /** Round trip: a faithful diff of ordered hunks, applied to the file it was made for, gives
      exactly the edited file. */
  lemma {:induction false} RoundTrip(original: string, path: string, hs: seq<Hunk>)
    requires HeaderSafe(path) && AllWellFormed(hs) && hs != []
    requires Fits(SplitLines(original), 0, hs) && Faithful(SplitLines(original), 0, hs)
    ensures Apply(original, Render(path, hs)) == Ok(AppliedPatch(path, Join(Splice(SplitLines(original), 0, hs))))
  {
    var source := SplitLines(original);
    FaithfulHasRoom(source, 0, hs);
    RoomSeeks(source, 0, 0, hs);
    ApplyRendered(original, path, hs);
    FaithfulSplice(source, 0, 0, hs);
    assert source[0..0] + Splice(source, 0, hs) == Splice(source, 0, hs);
  }

  // ---------------------------------------------------------------- the condition is necessary

  /** Emitted lines that the diff marks as having no newline. */
  function Missing(lines: seq<HunkLine>): nat {
    if lines == [] then 0
    else (if lines[0].mark != Delete && !Terminated(lines[0].text) then 1 else 0) + Missing(lines[1..])
  }

  function AllMissing(hs: seq<Hunk>): nat {
    if hs == [] then 0 else Missing(hs[0].lines) + AllMissing(hs[1..])
  }

  lemma {:induction false} SeenIsLonger(lines: seq<HunkLine>)
    ensures |Join(NewSide(SeenLines(lines)))| == |Join(NewSide(lines))| + Missing(lines)
  {
    if lines != [] {
      SeenIsLonger(lines[1..]);
      SeenTail(lines);
      var line := lines[0];
      var plain, seen := NewSide(lines[1..]), NewSide(SeenLines(lines[1..]));
      assert [] + plain == plain && [] + seen == seen;
    }
  }

  lemma {:induction false} NothingMissing(lines: seq<HunkLine>)
    requires OldTerminated(lines) && Missing(lines) == 0
    ensures LinesTerminated(lines)
  {
    if lines != [] {
      NothingMissing(lines[1..]);
    }
  }

  lemma {:induction false} JoinThree(a: seq<string>, b: seq<string>, d: seq<string>)
    ensures Join(a + b + d) == Join(a) + Join(b) + Join(d)
  {
    JoinConcat(a + b, d);
    JoinConcat(a, b);
  }

  /** The output is longer than intended by one newline for each line that should have none. */
  lemma {:induction false} OutputLength(source: seq<string>, c: nat, cursor: nat, hs: seq<Hunk>)
    requires Fits(source, cursor, hs) && c <= cursor <= |source|
    requires Seeks(source, c, hs) && AllOldTerminated(hs)
    ensures Fits(source, c, Shift(hs))
    ensures |Join(Splice(source, c, Shift(hs)))| == |Join(source[c..cursor])| + |Join(Splice(source, cursor, hs))| + AllMissing(hs)
    decreases |hs|
  {
    hide Join, SeenLines, NewSide, OldTerminated;
    SeeksFits(source, c, hs);
    if hs == [] {
      assert source[c..] == source[c..cursor] + source[cursor..];
      JoinConcat(source[c..cursor], source[cursor..]);
    } else {
      var h, rest := hs[0], hs[1..];
      var next := Placed(h) + |OldSide(h.lines)|;
      OutputLength(source, next, End(h), rest);
      ShiftedSplice(source, c, hs);
      SeenIsLonger(h.lines);
      JoinThree(source[c..Placed(h)], NewSide(SeenLines(h.lines)), Splice(source, next, Shift(rest)));
      JoinThree(source[cursor..h.at], NewSide(h.lines), Splice(source, End(h), rest));
      CutLengths(source, c, cursor, Placed(h), next, h);
    }
  }

  lemma {:induction false} CutLengths(source: seq<string>, c: nat, cursor: nat, placed: nat, next: nat, h: Hunk)
    requires c <= cursor <= h.at <= |source| && c <= placed == Placed(h) && next == placed + |OldSide(h.lines)| && End(h) <= |source|
    ensures |Join(source[c..placed])| + |Join(source[next..End(h)])| == |Join(source[c..cursor])| + |Join(source[cursor..h.at])|
  {
    assert source[c..h.at] == source[c..cursor] + source[cursor..h.at];
    JoinConcat(source[c..cursor], source[cursor..h.at]);
    if PureInsertion(h) {
      assert source[c..h.at] == source[c..placed] + source[next..End(h)];
      JoinConcat(source[c..placed], source[next..End(h)]);
    } else {
      assert source[next..End(h)] == [];
    }
  }

  /** Two lines that start one text are the same line. */
  lemma {:induction false} SameFirstLine(x: string, a: string, i: string, b: string)
    requires IsLine(x) && Terminated(x) && !Fuses(x, a)
    requires IsLine(i) && Terminated(i) && !Fuses(i, b)
    requires x + a == i + b
    ensures x == i && a == b
  {
    LeadsIff(x, a);
    LeadsIff(i, b);
    assert (x + a)[..|x|] == x && (i + b)[..|i|] == i;
    assert (x + a)[|x|..] == a && (i + b)[|i|..] == b;
  }

  /** A line that stands before `rest` fuses with nothing that starts like it. */
  lemma {:induction false} LeadsAnother(line: string, rest: string, other: string)
    requires Leads(line, rest) && rest != "" && (other != "" ==> other[0] == rest[0])
    ensures IsLine(line) && Terminated(line) && !Fuses(line, other)
  {
    LeadsIff(line, rest);
  }

  /** Two texts that commute start alike, so the first is no carriage return before the second. */
  lemma {:induction false} CommutingNeverFuse(i: string, x: string)
    requires IsLine(i) && i + x == x + i
    ensures !Fuses(i, x)
  {
    if x != "" {
      assert (i + x)[0] == i[0] && (x + i)[0] == x[0];
    }
  }

  /** If moving a line past others changes nothing, the others repeat it. */
  lemma {:induction false} Commuting(ins: seq<string>, x: string, tail: string)
    requires ins != [] ==> Leads(x, Join(ins) + tail)
    requires LinesBefore(ins, tail) && forall t :: t in ins ==> Terminated(t)
    requires Join(ins) + x == x + Join(ins)
    ensures forall t :: t in ins ==> t == x
    decreases |ins|
  {
    if ins != [] {
      var i, rest := ins[0], ins[1..];
      assert i in ins && ins == [i] + rest;
      LeadsIff(i, Join(rest) + tail);
      LeadsAnother(x, Join(ins) + tail, Join(ins));
      assert Join(ins) + x == i + (Join(rest) + x);
      if rest == [] {
        assert Join(rest) + x == x && Join(ins) == i;
        CommutingNeverFuse(i, x);
      } else {
        assert LinesBefore(rest, tail) && rest[0] != "";
        LeadsAnother(i, Join(rest) + tail, Join(rest) + x);
      }
      SameFirstLine(x, Join(ins), i, Join(rest) + x);
      assert Join(ins) == x + Join(rest);
      Commuting(rest, x, tail);
    }
  }

  /** Equal strings with equal heads, or with tails of equal length, have equal tails. */
  lemma {:induction false} CancelHead(a: string, b: string, d: string)
    requires a + b == a + d
    ensures b == d
  {
    assert (a + b)[|a|..] == b && (a + d)[|a|..] == d;
  }

  lemma {:induction false} ShiftedInsertion(x: string, ins: string, y: string, z: string)
    requires ins + (x + y) == x + ins + z && |y| == |z|
    ensures ins + x == x + ins && y == z
  {
    var n := |ins| + |x|;
    assert ins + (x + y) == (ins + x) + y;
    assert ((ins + x) + y)[..n] == ins + x && ((ins + x) + y)[n..] == y;
    assert ((x + ins) + z)[..n] == x + ins && ((x + ins) + z)[n..] == z;
  }

  /** A diff that the applier accepts and that leaves no line unterminated. */
  predicate Acceptable(source: seq<string>, c: nat, cursor: nat, hs: seq<Hunk>) {
    && c <= cursor <= |source| && Fits(source, cursor, hs) && Room(cursor, hs)
    && Seeks(source, c, hs) && AllOldTerminated(hs) && AllWellFormed(hs) && AllMissing(hs) == 0
    && IsLines(Splice(source, cursor, hs))
    && Fits(source, c, Shift(hs))
  }

  /** The output, from the applier's cursor, against the intended text, from the true one. */
  predicate SameText(source: seq<string>, c: nat, cursor: nat, hs: seq<Hunk>)
    requires Acceptable(source, c, cursor, hs)
  {
    Join(Splice(source, c, Shift(hs))) == Join(source[c..cursor]) + Join(Splice(source, cursor, hs))
  }

  lemma {:induction false} AcceptableTail(source: seq<string>, c: nat, cursor: nat, hs: seq<Hunk>)
    requires hs != [] && Acceptable(source, c, cursor, hs)
    ensures Acceptable(source, Placed(hs[0]) + |OldSide(hs[0].lines)|, End(hs[0]), hs[1..])
    ensures LinesTerminated(hs[0].lines)
  {
    NothingMissing(hs[0].lines);
    ShiftedSame(source, c, hs);
    LinesConcat(source[cursor..hs[0].at] + NewSide(hs[0].lines), Splice(source, End(hs[0]), hs[1..]), "");
  }

  /** Equal texts, read at the first hunk. */
  lemma {:induction false} TextEquation(source: seq<string>, c: nat, cursor: nat, hs: seq<Hunk>)
    requires hs != [] && Acceptable(source, c, cursor, hs) && SameText(source, c, cursor, hs)
    requires LinesTerminated(hs[0].lines)
    ensures var h, next := hs[0], Placed(hs[0]) + |OldSide(hs[0].lines)|;
      && Fits(source, next, Shift(hs[1..]))
      && Join(source[c..Placed(h)] + NewSide(h.lines) + Splice(source, next, Shift(hs[1..])))
        == Join(source[c..cursor]) + Join(source[cursor..h.at] + NewSide(h.lines) + Splice(source, End(h), hs[1..]))
  {
    hide Join, IsLines;
    ShiftedSame(source, c, hs);
  }

  lemma {:induction false} IntendedHead(source: seq<string>, cursor: nat, hs: seq<Hunk>)
    requires hs != [] && cursor <= |source| && Fits(source, cursor, hs) && IsLines(Splice(source, cursor, hs))
    ensures IsLines(source[cursor..hs[0].at] + NewSide(hs[0].lines) + Splice(source, End(hs[0]), hs[1..]))
  {
    hide IsLines;
  }

  lemma {:induction false} LengthEquation(source: seq<string>, c: nat, cursor: nat, hs: seq<Hunk>)
    requires Acceptable(source, c, cursor, hs)
    ensures |Join(Splice(source, c, Shift(hs)))| == |Join(source[c..cursor])| + |Join(Splice(source, cursor, hs))|
  {
    OutputLength(source, c, cursor, hs);
  }

  /** After an insertion placed a line early, the output goes on with the line it went before. */
  lemma {:induction false} SkippedLineComesBack(source: seq<string>, c: nat, cursor: nat, hs: seq<Hunk>)
    requires hs != [] && Acceptable(source, c, cursor, hs)
    requires Acceptable(source, Placed(hs[0]) + |OldSide(hs[0].lines)|, End(hs[0]), hs[1..])
    ensures var y := Splice(source, Placed(hs[0]) + |OldSide(hs[0].lines)|, Shift(hs[1..]));
      PureInsertion(hs[0]) ==> y != [] && y[0] == source[hs[0].at - 1]
  {
    hide Join, IsLines, Seeks, AllOldTerminated, AllWellFormed, AllMissing;
    if PureInsertion(hs[0]) && hs[1..] != [] {
      var next, h := hs[0].at - 1, hs[1];
      assert Placed(h) > next;
      assert Shift(hs[1..])[0] == Hunk(Placed(h), SeenLines(h.lines));
      assert source[next..Placed(h)][0] == source[next];
    }
  }

  lemma {:induction false} SameTextHead(source: seq<string>, c: nat, cursor: nat, hs: seq<Hunk>)
    requires hs != [] && Acceptable(source, c, cursor, hs) && SameText(source, c, cursor, hs)
    requires LinesTerminated(hs[0].lines)
    requires Acceptable(source, Placed(hs[0]) + |OldSide(hs[0].lines)|, End(hs[0]), hs[1..])
    ensures RepeatsBefore(source, cursor, hs[0])
    ensures SameText(source, Placed(hs[0]) + |OldSide(hs[0].lines)|, End(hs[0]), hs[1..])
  {
    hide Join, OldSide, NewSide, SeenLines, Seeks, RepeatsBefore, Splice, LinesTerminated, Shift;
    var h, rest := hs[0], hs[1..];
    var next := Placed(h) + |OldSide(h.lines)|;
    TextEquation(source, c, cursor, hs);
    IntendedHead(source, cursor, hs);
    LengthEquation(source, next, End(h), rest);
    SkippedLineComesBack(source, c, cursor, hs);
    HeadIsFaithful(source, c, cursor, h, Splice(source, next, Shift(rest)), Splice(source, End(h), rest));
  }

  /** When nothing is missing and the texts agree, the diff was faithful. */
  lemma {:induction false} SameTextIsFaithful(source: seq<string>, c: nat, cursor: nat, hs: seq<Hunk>)
    requires Acceptable(source, c, cursor, hs) && SameText(source, c, cursor, hs)
    ensures Faithful(source, cursor, hs)
    decreases |hs|
  {
    hide Acceptable, SameText, Join;
    if hs != [] {
      AcceptableTail(source, c, cursor, hs);
      SameTextHead(source, c, cursor, hs);
      SameTextIsFaithful(source, Placed(hs[0]) + |OldSide(hs[0].lines)|, End(hs[0]), hs[1..]);
    }
  }

  lemma {:induction false} HeadIsFaithful(source: seq<string>, c: nat, cursor: nat, h: Hunk, y: seq<string>, z: seq<string>)
    requires c <= cursor <= h.at && End(h) <= |source| && (PureInsertion(h) ==> cursor < h.at)
    requires WellFormed(h.lines) && LinesTerminated(h.lines)
    requires IsLines(source[cursor..h.at] + NewSide(h.lines) + z)
    requires PureInsertion(h) ==> y != [] && y[0] == source[h.at - 1]
    requires var next := Placed(h) + |OldSide(h.lines)|;
      |Join(y)| == |Join(source[next..End(h)])| + |Join(z)|
    requires Join(source[c..Placed(h)] + NewSide(h.lines) + y) == Join(source[c..cursor]) + Join(source[cursor..h.at] + NewSide(h.lines) + z)
    ensures RepeatsBefore(source, cursor, h)
    ensures var next := Placed(h) + |OldSide(h.lines)|;
      Join(y) == Join(source[next..End(h)]) + Join(z)
  {
    InsertedTerminated(h.lines);
    if PureInsertion(h) {
      InsertionIsShifted(source, c, cursor, h.at, NewSide(h.lines), y, z);
    } else {
      ReplacementIsThere(source, c, cursor, h.at, NewSide(h.lines), y, z);
      assert "" + Join(z) == Join(z);
    }
  }

  lemma {:induction false} JoinHead(lines: seq<string>)
    requires lines != []
    ensures Join(lines) == lines[0] + Join(lines[1..])
    ensures |Join(lines)| == |lines[0]| + |Join(lines[1..])|
  {
  }

  /** What equal texts say about an insertion placed a line early. */
  lemma {:induction false} InsertionIsShifted(source: seq<string>, c: nat, cursor: nat, at: nat, ins: seq<string>, y: seq<string>, z: seq<string>)
    requires c <= cursor < at <= |source| && forall t :: t in ins ==> Terminated(t)
    requires IsLines(source[cursor..at] + ins + z) && y != [] && y[0] == source[at - 1]
    requires |Join(y)| == |Join(source[at - 1..at])| + |Join(z)|
    requires Join(source[c..at - 1] + ins + y) == Join(source[c..cursor]) + Join(source[cursor..at] + ins + z)
    ensures forall t :: t in ins ==> t == source[at - 1]
    ensures Join(y) == Join(source[at - 1..at]) + Join(z)
  {
    hide IsLines, Join, LinesBefore, Leads, Terminated;
    var x, p := source[at - 1], source[c..at - 1];
    assert source[at - 1..at] == [x] && source[c..at] == p + [x];
    JoinOne(x);
    JoinHead(y);
    JoinThree(p, ins, y);
    JoinThree(source[cursor..at], ins, z);
    JoinConcat(source[c..cursor], source[cursor..at]);
    SpliceHead(source, c, cursor, at);
    JoinConcat(p, [x]);
    CancelBoth(Join(source[c..cursor]), Join(source[cursor..at]), Join(p), x, Join(ins), Join(y), Join(z));
    LastKept(source[cursor..at], ins, z);
    ShiftedInsertion(x, Join(ins), Join(y[1..]), Join(z));
    Commuting(ins, x, Join(z));
  }

  lemma {:induction false} ReplacementIsThere(source: seq<string>, c: nat, cursor: nat, at: nat, new_: seq<string>, y: seq<string>, z: seq<string>)
    requires c <= cursor <= at <= |source|
    requires Join(source[c..at] + new_ + y) == Join(source[c..cursor]) + Join(source[cursor..at] + new_ + z)
    ensures Join(y) == Join(z)
  {
    JoinThree(source[c..at], new_, y);
    JoinThree(source[cursor..at], new_, z);
    JoinConcat(source[c..cursor], source[cursor..at]);
    SpliceHead(source, c, cursor, at);
    CancelReplaced(Join(source[c..cursor]), Join(source[cursor..at]), Join(new_), Join(y), Join(z));
  }

  lemma {:induction false} CancelReplaced(a: string, b: string, new_: string, y: string, z: string)
    requires a + b + new_ + y == a + (b + new_ + z)
    ensures y == z
  {
    assert a + (b + new_ + z) == a + b + new_ + z;
    CancelHead(a + b + new_, y, z);
  }

  /** `a` before `b` is `p` before `x`: cancel `p`. */
  lemma {:induction false} CancelBoth(a: string, b: string, p: string, x: string, ins: string, y: string, z: string)
    requires a + b == p + x
    requires p + ins + y == a + (b + ins + z)
    ensures ins + y == x + ins + z
  {
    assert a + (b + ins + z) == (a + b) + (ins + z);
    assert (p + x) + (ins + z) == p + (x + ins + z);
    assert p + ins + y == p + (ins + y);
    CancelHead(p, ins + y, x + ins + z);
  }

  lemma {:induction false} JoinOne(x: string)
    ensures Join([x]) == x
  {
    assert [x][1..] == [];
    assert x + "" == x;
  }

  lemma {:induction false} LastKept(kept: seq<string>, ins: seq<string>, z: seq<string>)
    requires kept != [] && IsLines(kept + ins + z)
    ensures Leads(kept[|kept| - 1], Join(ins) + Join(z)) && LinesBefore(ins, Join(z))
  {
    var n := |kept| - 1;
    var x := kept[n];
    assert kept + ins + z == kept + (ins + z) && kept == kept[..n] + [x];
    LinesConcat(kept, ins + z, "");
    LinesConcat(ins, z, "");
    LinesConcat(kept[..n], [x], Join(ins + z) + "");
    JoinConcat(ins, z);
    assert Join(z) + "" == Join(z) && Join(ins + z) + "" == Join(ins) + Join(z);
    assert [x][1..] == [] && "" + (Join(ins) + Join(z)) == Join(ins) + Join(z);
  }

  lemma {:induction false} InsertedTerminated(lines: seq<HunkLine>)
    requires LinesTerminated(lines)
    ensures forall t :: t in NewSide(lines) ==> Terminated(t)
  {
    if lines != [] {
      InsertedTerminated(lines[1..]);
    }
  }

  /** Exactness: when hunks stand apart and the intended text really has these lines, the applier
      returns it if and only if the diff is faithful. A caller can check that on the diff alone
      together with the line before each insertion. */
  lemma {:induction false} RoundTripExactly(original: string, path: string, hs: seq<Hunk>)
    requires HeaderSafe(path) && AllWellFormed(hs) && hs != [] && Apart(hs)
    requires Fits(SplitLines(original), 0, hs) && IsLines(Splice(SplitLines(original), 0, hs))
    ensures Apply(original, Render(path, hs)) == Ok(AppliedPatch(path, Join(Splice(SplitLines(original), 0, hs))))
       <==> Faithful(SplitLines(original), 0, hs)
  {
    var source := SplitLines(original);
    var wanted := Join(Splice(source, 0, hs));
    if Faithful(source, 0, hs) {
      RoundTrip(original, path, hs);
    } else {
      ApartHasRoom(0, hs);
      RoomSeeks(source, 0, 0, hs);
      ApplyRendered(original, path, hs);
      if AllOldTerminated(hs) {
        OutputLength(source, 0, 0, hs);
        assert source[0..0] == [];
        if Join(Splice(source, 0, Shift(hs))) == wanted {
          assert "" + wanted == wanted;
          SameTextIsFaithful(source, 0, 0, hs);
        }
      }
    }
  }

  /** Diffs whose hunks replace at least one line, or stand at the file start, are faithful once
      every line ends in a newline: this is what a diff of two newline-terminated files looks like. */
  lemma {:induction false} PlainDiffsAreFaithful(source: seq<string>, cursor: nat, hs: seq<Hunk>)
    requires forall h :: h in hs ==> LinesTerminated(h.lines) && !PureInsertion(h)
    ensures Faithful(source, cursor, hs)
    decreases |hs|
  {
    if hs != [] {
      assert hs[0] in hs;
      PlainDiffsAreFaithful(source, End(hs[0]), hs[1..]);
    }
  }

  lemma {:induction false} SeparatedLine(text: string, c: char)
    requires Unbroken(text) && text != "" && Separates(c)
    ensures StandAlone([text + [c]])
  {
    LineEndAfter(text, [c]);
    assert (text + [c])[0] == text[0] && LineEnd([c]) == 1;
  }

  lemma {:induction false} TwoLines(a: string, b: string)
    requires StandAlone([a, b])
    ensures SplitLines(a + b) == [a, b]
  {
    JoinOne(b);
    assert [a] + [b] == [a, b];
    StandAloneLines([a, b]);
    SplitJoin([a, b]);
  }

  lemma {:induction false} InsertionIsShiftedUp(source: seq<string>, line: string)
    requires |source| == 2 && IsLine(line) && Terminated(line)
    ensures var hs := [Hunk(1, [HunkLine(Insert, line)])];
      && Seeks(source, 0, hs) && AllOldTerminated(hs) && AllWellFormed(hs) && Fits(source, 0, Shift(hs))
      && Splice(source, 0, Shift(hs)) == [line] + source
  {
    var hs := [Hunk(1, [HunkLine(Insert, line)])];
    assert hs[0].lines[1..] == [] && hs[1..] == [];
    assert OldTerminated([]) && OldTerminated(hs[0].lines) && AllOldTerminated(hs);
    assert WellFormed([]) && WellFormed(hs[0].lines) && AllWellFormed(hs);
    assert OldSide(hs[0].lines) == [] && Placed(hs[0]) == 0;
    assert Seeks(source, 0, hs[1..]) && Seeks(source, 0, hs);
    SeenIsSame(hs[0].lines);
    ShiftedSplice(source, 0, hs);
    assert Splice(source, 0, Shift([])) == source;
  }

  /** A bare insertion after line one is not: "c" lands before "a" instead of between "a" and "b". */
  lemma {:induction false} InsertionComesEarly(path: string)
    requires HeaderSafe(path)
    ensures Apply("a\n" + "b\n", Render(path, [Hunk(1, [HunkLine(Insert, "c\n")])])) == Ok(AppliedPatch(path, "c\n" + ("a\n" + "b\n")))
  {
    hide Apply, Render, HeaderSafe, SplitLines, StandAlone, Splice, Fits;
    var original := "a\n" + "b\n";
    SeparatedLine("a", '\n');
    SeparatedLine("b", '\n');
    SeparatedLine("c", '\n');
    assert "a" + ['\n'] == "a\n" && "b" + ['\n'] == "b\n" && "c" + ['\n'] == "c\n";
    StandAloneConcat(["a\n"], ["b\n"]);
    assert ["a\n", "b\n"] == ["a\n"] + ["b\n"];
    TwoLines("a\n", "b\n");
    InsertionIsShiftedUp(["a\n", "b\n"], "c\n");
    ApplyRendered(original, path, [Hunk(1, [HunkLine(Insert, "c\n")])]);
    JoinSplit(original);
  }

  // ---------------------------------------------------------------- lines that are not newline lines

  /** A two-line context hunk of a diff made at newlines only, over one line with another separator. */
  function BrokenHunk(c: char): Hunk {
    Hunk(0, [HunkLine(Context, ['a', c] + "b\n"), HunkLine(Insert, "d\n")])
  }

  /** How the applier cuts the body of its diff. */
  function BrokenBody(c: char): (r: seq<string>)
    ensures |r| == 3
  {
    [[' ', 'a', c], "b\n", "+d\n"]
  }

  lemma {:induction false} BrokenText(path: string, c: char)
    ensures Render(path, [BrokenHunk(c)]) == Join(FileHeaders(path) + ([HeadLine(HeaderOf(BrokenHunk(c), 0))] + BrokenBody(c)))
  {
    var h := BrokenHunk(c);
    var files, head := FileHeaders(path), HeadLine(HeaderOf(h, 0));
    var context: string, inserted: string := [' ', 'a', c] + "b\n", "+d\n";
    assert RenderLine(h.lines[0]) == [[' '] + (['a', c] + "b\n")] && [' '] + (['a', c] + "b\n") == context;
    assert ['+'] + "d\n" == inserted && RenderLine(h.lines[1]) == [inserted];
    assert RenderBody(h.lines[2..]) == [] && RenderBody(h.lines[1..]) == [inserted];
    assert RenderBody(h.lines) == [context] + [inserted];
    assert HeadLines(Headers([h], 0, 0)) == [head];
    assert RenderHunks([head], [h]) == [head] + RenderBody(h.lines) + [];
    assert PatchLines(path, [head], [h]) == (files + [head]) + ([context] + [inserted]);
    assert files + ([head] + BrokenBody(c)) == (files + [head]) + BrokenBody(c);
    JoinConcat(files + [head], [context] + [inserted]);
    JoinConcat(files + [head], BrokenBody(c));
    BodyTexts(c);
  }

  lemma {:induction false} BodyTexts(c: char)
    ensures Join([[' ', 'a', c] + "b\n"] + ["+d\n"]) == Join(BrokenBody(c))
  {
    JoinConcat([[' ', 'a', c] + "b\n"], ["+d\n"]);
    JoinThree([[' ', 'a', c]], ["b\n"], ["+d\n"]);
    JoinOne([' ', 'a', c] + "b\n");
    JoinOne([' ', 'a', c]);
    JoinOne("b\n");
    assert BrokenBody(c) == [[' ', 'a', c]] + ["b\n"] + ["+d\n"];
  }

  lemma {:induction false} SeparatedLines(c: char)
    requires Separates(c) && c != '\n'
    ensures StandAlone(BrokenBody(c)) && StandAlone([['a', c], "b\n"])
  {
    hide StandAlone;
    SeparatedLine("a", c);
    SeparatedLine(" a", c);
    SeparatedLine("b", '\n');
    SeparatedLine("+d", '\n');
    assert "a" + [c] == ['a', c] && " a" + [c] == [' ', 'a', c];
    assert "b" + ['\n'] == "b\n" && "+d" + ['\n'] == "+d\n";
    StandAloneConcat([['a', c]], ["b\n"]);
    StandAloneConcat([[' ', 'a', c]], ["b\n"]);
    StandAloneConcat([[' ', 'a', c]] + ["b\n"], ["+d\n"]);
    assert [['a', c], "b\n"] == [['a', c]] + ["b\n"];
    assert BrokenBody(c) == [[' ', 'a', c]] + ["b\n"] + ["+d\n"];
  }

  lemma {:induction false} TwoTokens(lines: seq<string>)
    requires |lines| >= 2
    ensures Tokens(lines) == [Read(lines[0]), Read(lines[1])] + Tokens(lines[2..])
  {
    assert lines[1..][1..] == lines[2..];
  }

  /** The second piece of the context line is no patch line. */
  lemma {:induction false} BrokenBodyFails(c: char)
    ensures Body([['a', c], "b\n"], Tokens(BrokenBody(c)), 0) == Err(UnsupportedLine("b\n"))
  {
    var source, tokens := [['a', c], "b\n"], Tokens(BrokenBody(c));
    TwoTokens(BrokenBody(c));
    assert "@@ "[0] == '@' && NO_NEWLINE[0] == '\\';
    assert [' ', 'a', c][1..] == ['a', c] && "b\n"[0] == 'b';
    assert tokens[0] == Token([' ', 'a', c], Edit(Context, ['a', c])) && tokens[1] == Token("b\n", Other);
    assert tokens[1..][0] == tokens[1] && Body(source, tokens[1..], 1) == Err(UnsupportedLine("b\n"));
  }

  lemma {:induction false} BrokenHunkFails(c: char)
    ensures var head := HeadLine(HeaderOf(BrokenHunk(c), 0));
      Hunks([['a', c], "b\n"], Tokens([head] + BrokenBody(c)), 0) == Err(UnsupportedLine("b\n"))
  {
    hide HeadLine, BrokenBody, Body;
    var head := HeaderOf(BrokenHunk(c), 0);
    HeadReadsBack(head);
    BrokenBodyFails(c);
    assert ([HeadLine(head)] + BrokenBody(c))[1..] == BrokenBody(c);
    assert Tokens([HeadLine(head)] + BrokenBody(c)) == [Read(HeadLine(head))] + Tokens(BrokenBody(c));
  }

  lemma {:induction false} HeadReadsBack(h: HunkHeader)
    ensures Read(HeadLine(h)).kind == Head(Some(h)) && StandAlone([HeadLine(h)])
  {
    HeaderLine(h);
  }

  /** The applier cuts lines at every separator, a diff only at newlines: a form feed, or any other
      separator but a newline, inside a context line of a correct diff makes the applier refuse it. */
  lemma {:induction false} SeparatorBreaksDiff(path: string, c: char)
    requires HeaderSafe(path) && Separates(c) && c != '\n'
    ensures Apply(['a', c] + "b\n", Render(path, [BrokenHunk(c)])) == Err(UnsupportedLine("b\n"))
  {
    hide Apply, Render, Hunks, Tokens, HeadLine, BrokenBody, FileHeaders, SplitLines, Join;
    var head := HeadLine(HeaderOf(BrokenHunk(c), 0));
    SeparatedLines(c);
    TwoLines(['a', c], "b\n");
    BrokenText(path, c);
    HeadReadsBack(HeaderOf(BrokenHunk(c), 0));
    StandAloneConcat([head], BrokenBody(c));
    ApplyUnderHeaders(['a', c] + "b\n", path, [head] + BrokenBody(c));
    BrokenHunkFails(c);
  }

  // ---------------------------------------------------------------- reversing

  function Flip(m: Mark): Mark {
    match m
    case Context => Context
    case Delete => Insert
    case Insert => Delete
  }

  function FlipLines(lines: seq<HunkLine>): (r: seq<HunkLine>)
    ensures |r| == |lines|
  {
    if lines == [] then [] else [HunkLine(Flip(lines[0].mark), lines[0].text)] + FlipLines(lines[1..])
  }

  lemma {:induction false} FlippedSides(lines: seq<HunkLine>)
    ensures OldSide(FlipLines(lines)) == NewSide(lines) && NewSide(FlipLines(lines)) == OldSide(lines)
  {
    if lines != [] {
      FlippedSides(lines[1..]);
    }
  }

  /** The reversed hunks, standing where their new sides are. */
  function Reverse(hs: seq<Hunk>, cursor: nat, newCursor: nat): (r: seq<Hunk>)
    ensures |r| == |hs|
  {
    if hs == [] then []
    else
      var newAt := NewAt(hs[0], cursor, newCursor);
      [Hunk(newAt, FlipLines(hs[0].lines))] + Reverse(hs[1..], End(hs[0]), newAt + |NewSide(hs[0].lines)|)
  }

  predicate EditsBack(source: seq<string>, edited: seq<string>, cursor: nat, newCursor: nat, back: seq<Hunk>) {
    cursor <= |source| && Fits(edited, newCursor, back) && Splice(edited, newCursor, back) == source[cursor..]
  }

  lemma {:induction false} ReverseHead(source: seq<string>, edited: seq<string>, cursor: nat, newCursor: nat, h: Hunk, newAt: nat, back: seq<Hunk>)
    requires cursor <= h.at && End(h) <= |source| && source[h.at..End(h)] == OldSide(h.lines)
    requires var newEnd := newAt + |NewSide(h.lines)|;
      && newCursor <= newAt && newEnd <= |edited|
      && edited[newCursor..newAt] == source[cursor..h.at] && edited[newAt..newEnd] == NewSide(h.lines)
      && EditsBack(source, edited, End(h), newEnd, back)
    ensures EditsBack(source, edited, cursor, newCursor, [Hunk(newAt, FlipLines(h.lines))] + back)
  {
    hide FlipLines, NewSide, OldSide;
    FlippedSides(h.lines);
    assert source[cursor..] == edited[newCursor..newAt] + OldSide(h.lines) + source[End(h)..];
  }

  /** The reversed diff fits the edited file and edits it back. */
  lemma {:induction false} ReverseEditsBack(source: seq<string>, edited: seq<string>, cursor: nat, newCursor: nat, hs: seq<Hunk>)
    requires Fits(source, cursor, hs) && cursor <= |source| && newCursor <= |edited|
    requires edited[newCursor..] == Splice(source, cursor, hs)
    ensures EditsBack(source, edited, cursor, newCursor, Reverse(hs, cursor, newCursor))
    decreases |hs|
  {
    if hs != [] {
      var h, newAt := hs[0], NewAt(hs[0], cursor, newCursor);
      var newEnd := newAt + |NewSide(h.lines)|;
      ReverseEditsBack(source, edited, End(h), newEnd, hs[1..]);
      ReverseHead(source, edited, cursor, newCursor, h, newAt, Reverse(hs[1..], End(h), newEnd));
    }
  }

  /** In the text of the reversed diff every header has its two ranges exchanged. */
  lemma {:induction false} ReverseExchangesRanges(source: seq<string>, hs: seq<Hunk>, cursor: nat, newCursor: nat, i: nat)
    requires i < |hs| && Fits(source, cursor, hs)
    ensures var there, back := Headers(hs, cursor, newCursor)[i], Headers(Reverse(hs, cursor, newCursor), newCursor, cursor)[i];
      back == HunkHeader(there.after, there.before)
    decreases |hs|
  {
    var h := hs[0];
    var newAt := NewAt(h, cursor, newCursor);
    FlippedSides(h.lines);
    var back := Reverse(hs, cursor, newCursor);
    assert back[0] == Hunk(newAt, FlipLines(h.lines));
    assert back[1..] == Reverse(hs[1..], End(h), newAt + |NewSide(h.lines)|);
    assert NewAt(back[0], newCursor, cursor) == h.at;
    if i > 0 {
      ReverseExchangesRanges(source, hs[1..], End(h), newAt + |NewSide(h.lines)|, i - 1);
    }
  }

  /** Applying the reversed diff to the edited file gives the original back, when the reversed diff
      is faithful: its own old sides, the new sides of the diff, are not empty past the file start. */
  lemma {:induction false} ReversedPatchRestores(original: string, path: string, hs: seq<Hunk>)
    requires HeaderSafe(path) && AllWellFormed(hs) && hs != []
    requires Fits(SplitLines(original), 0, hs) && IsLines(Splice(SplitLines(original), 0, hs))
    requires Faithful(Splice(SplitLines(original), 0, hs), 0, Reverse(hs, 0, 0))
    ensures Apply(Join(Splice(SplitLines(original), 0, hs)), Render(path, Reverse(hs, 0, 0))) == Ok(AppliedPatch(path, original))
  {
    var source := SplitLines(original);
    var edited := Splice(source, 0, hs);
    SplitJoin(edited);
    ReverseEditsBack(source, edited, 0, 0, hs);
    ReverseWellFormed(hs, 0, 0);
    RoundTrip(Join(edited), path, Reverse(hs, 0, 0));
    JoinSplit(original);
    assert source[0..] == source;
  }

  lemma {:induction false} FlippedWellFormed(lines: seq<HunkLine>)
    requires WellFormed(lines)
    ensures WellFormed(FlipLines(lines))
  {
    if lines != [] {
      FlippedWellFormed(lines[1..]);
    }
  }

  lemma {:induction false} ReverseWellFormed(hs: seq<Hunk>, cursor: nat, newCursor: nat)
    requires AllWellFormed(hs)
    ensures AllWellFormed(Reverse(hs, cursor, newCursor))
    decreases |hs|
  {
    if hs != [] {
      var newAt := NewAt(hs[0], cursor, newCursor);
      ReverseWellFormed(hs[1..], End(hs[0]), newAt + |NewSide(hs[0].lines)|);
      FlippedWellFormed(hs[0].lines);
    }
  }

  // ---------------------------------------------------------------- any accepted patch

  /** The edits of one hunk body. */
  function BodyEdits(tokens: seq<Token>): seq<HunkLine> {
    if tokens == [] then []
    else match tokens[0].kind
      case NoNewline => BodyEdits(tokens[1..])
      case Edit(mark, content) => [HunkLine(mark, content)] + BodyEdits(tokens[1..])
      case _ => []
  }

  /** What an accepted body did to source and output. */
  predicate BodyDid(source: seq<string>, cursor: nat, end: BodyEnd, edits: seq<HunkLine>) {
    && end.output == NewSide(edits) && end.consumed == |OldSide(edits)|
    && end.cursor == cursor + |OldSide(edits)| <= |source|
    && source[cursor..end.cursor] == OldSide(edits)
  }

  lemma {:induction false} EditDid(source: seq<string>, cursor: nat, mark: Mark, content: string, end: BodyEnd, edits: seq<HunkLine>)
    requires mark != Insert ==> cursor < |source| && source[cursor] == content
    requires BodyDid(source, cursor + Step(mark), end, edits)
    ensures BodyDid(source, cursor, Prepend(Emitted(mark, content), Step(mark), Ok(end)).value, [HunkLine(mark, content)] + edits)
  {
    assert ([HunkLine(mark, content)] + edits)[1..] == edits;
    if mark != Insert {
      assert source[cursor..end.cursor] == [content] + source[cursor + 1..end.cursor];
    }
  }

  lemma {:induction false} AcceptedBody(source: seq<string>, tokens: seq<Token>, cursor: nat)
    requires cursor <= |source| && Body(source, tokens, cursor).Ok?
    ensures BodyDid(source, cursor, Body(source, tokens, cursor).value, BodyEdits(tokens))
    decreases |tokens|
  {
    if tokens != [] && !tokens[0].kind.Head? {
      match tokens[0].kind
      case NoNewline =>
        AcceptedBody(source, tokens[1..], cursor);
      case Edit(mark, content) =>
        AcceptedBody(source, tokens[1..], cursor + Step(mark));
        EditDid(source, cursor, mark, content, Body(source, tokens[1..], cursor + Step(mark)).value, BodyEdits(tokens[1..]));
      case _ =>
    }
  }

  /** Nothing is guessed: whatever patch is accepted, the output is the source with ordered,
      non-overlapping replacements of lines that stand there exactly as the patch says. */
  lemma {:induction false} AcceptedIsSplice(source: seq<string>, tokens: seq<Token>, cursor: nat) returns (hs: seq<Hunk>)
    requires cursor <= |source| && Hunks(source, tokens, cursor).Ok?
    ensures Fits(source, cursor, hs) && Hunks(source, tokens, cursor).value == Splice(source, cursor, hs)
    ensures tokens != [] ==> hs != []
    decreases |tokens|
  {
    if tokens == [] {
      hs := [];
    } else {
      var header := tokens[0].kind.header.value;
      var target := Target(header);
      var end := Body(source, tokens[1..], target).value;
      BodyShrinks(source, tokens[1..], target);
      AcceptedBody(source, tokens[1..], target);
      HunkStep(source, tokens, cursor, header, end);
      var rest := AcceptedIsSplice(source, end.rest, end.cursor);
      var h := Hunk(target, BodyEdits(tokens[1..]));
      hs := [h] + rest;
      assert hs[1..] == rest;
    }
  }

  /** An accepted patch text names one safe path, in both its file headers, and splices the original. */
  lemma {:induction false} AcceptedPatch(original: string, patch: string) returns (hs: seq<Hunk>)
    requires Apply(original, patch).Ok?
    ensures hs != [] && Fits(SplitLines(original), 0, hs)
    ensures Apply(original, patch).value.content == Join(Splice(SplitLines(original), 0, hs))
    ensures exists parts :: PlainParts(parts) && Apply(original, patch).value.path == Slashed(parts)
    ensures var lines, path := SplitLines(patch), Apply(original, patch).value.path;
      |lines| > 2 && HeaderPath(lines[0], "--- ") == Ok(path) && HeaderPath(lines[1], "+++ ") == Ok(path)
  {
    var lines := SplitLines(patch);
    HeaderPathIsSafe(lines[1], "+++ ");
    hs := AcceptedIsSplice(SplitLines(original), Tokens(lines[2..]), 0);
    assert lines[2..] != [];
    assert Tokens(lines[2..]) != [];
  }
}
