/** Lines of text, decimal numbers and prefixes. */
module TextLines {

  predicate StartsWith(s: string, prefix: string) {
    |prefix| <= |s| && s[..|prefix|] == prefix
  }

  lemma {:induction false} PrefixOfConcat(prefix: string, rest: string)
    ensures StartsWith(prefix + rest, prefix) && (prefix + rest)[|prefix|..] == rest
  {
  }

  /** White space as Python's `str.strip` sees it. */
  predicate IsSpace(c: char) {
    || '\t' <= c <= '\r' || '\U{1C}' <= c <= ' ' || c == '\U{85}' || c == '\U{A0}'
    || c == '\U{1680}' || '\U{2000}' <= c <= '\U{200A}' || c == '\U{2028}' || c == '\U{2029}'
    || c == '\U{202F}' || c == '\U{205F}' || c == '\U{3000}'
  }

  function Strip(s: string): string {
    if s != "" && IsSpace(s[0]) then Strip(s[1..])
    else if s != "" && IsSpace(s[|s| - 1]) then Strip(s[..|s| - 1])
    else s
  }

  /** Stripping leaves something of a text that does not start with white space. */
  lemma {:induction false} StripKeeps(s: string)
    requires s != "" && !IsSpace(s[0])
    ensures Strip(s) != ""
  {
    if IsSpace(s[|s| - 1]) {
      StripKeeps(s[..|s| - 1]);
    }
  }

  // ---------------------------------------------------------------- lines

  /** The characters at which Python's `str.splitlines` ends a line. */
  predicate Separates(c: char) {
    || '\n' <= c <= '\r' || '\U{1C}' <= c <= '\U{1E}'
    || c == '\U{85}' || c == '\U{2028}' || c == '\U{2029}'
  }

  /** The separators by their codes: line feed to carriage return, the file, group and record
      separators, next line, and the two Unicode separators. */
  lemma {:induction false} SeparatorsAre(c: char)
    ensures var n := c as int;
      Separates(c) <==> 10 <= n <= 13 || 28 <= n <= 30 || n == 133 || n == 8232 || n == 8233
  {
  }

  predicate Unbroken(s: string) {
    forall i :: 0 <= i < |s| ==> !Separates(s[i])
  }

  /** Length of the first line, its separator included; a carriage return and a newline are one. */
  function LineEnd(s: string): (n: nat)
    ensures n <= |s| && (s != "" ==> n > 0)
  {
    if s == "" then 0
    else if s[0] == '\r' && |s| > 1 && s[1] == '\n' then 2
    else if Separates(s[0]) then 1
    else 1 + LineEnd(s[1..])
  }

  /** The lines of a text, each with its separator; only the last may lack one. */
  function SplitLines(s: string): seq<string> {
    if s == "" then [] else [s[..LineEnd(s)]] + SplitLines(s[LineEnd(s)..])
  }

  function Join(lines: seq<string>): string {
    if lines == [] then "" else lines[0] + Join(lines[1..])
  }

  predicate Terminated(line: string) {
    line != "" && Separates(line[|line| - 1])
  }

  /** A line without the newline it ends in; other separators stay. */
  function WithoutNewline(line: string): string {
    if line != "" && line[|line| - 1] == '\n' then line[..|line| - 1] else line
  }

  /** A line without the separator it ends in. */
  function Bare(line: string): string {
    if |line| > 1 && line[|line| - 2] == '\r' && line[|line| - 1] == '\n' then line[..|line| - 2]
    else if Terminated(line) then line[..|line| - 1]
    else line
  }

  /** `line` is the first line of what it makes with `rest`. */
  predicate Leads(line: string, rest: string) {
    line != "" && LineEnd(line + rest) == |line|
  }

  predicate IsLine(line: string) {
    line != "" && LineEnd(line) == |line|
  }

  /** A carriage return before a newline is not the end of a line. */
  predicate Fuses(line: string, rest: string) {
    line != "" && rest != "" && line[|line| - 1] == '\r' && rest[0] == '\n'
  }

  lemma {:induction false} LeadsIff(line: string, rest: string)
    ensures Leads(line, rest) <==> IsLine(line) && (rest == "" || (Terminated(line) && !Fuses(line, rest)))
  {
    var s := line + rest;
    if rest == "" {
      assert s == line;
    } else if |line| > 1 {
      assert s[1..] == line[1..] + rest;
      if !Separates(line[0]) {
        LeadsIff(line[1..], rest);
      }
    } else if |line| == 1 {
      assert s[1..] == rest;
    }
  }

  /** Unbroken text only makes a first line longer. */
  lemma {:induction false} LineEndAfter(a: string, b: string)
    requires Unbroken(a)
    ensures LineEnd(a + b) == |a| + LineEnd(b)
  {
    if a == "" {
      assert a + b == b;
    } else {
      assert (a + b)[1..] == a[1..] + b;
      LineEndAfter(a[1..], b);
    }
  }

  lemma {:induction false} UnterminatedIsUnbroken(line: string)
    requires IsLine(line) && !Terminated(line)
    ensures Unbroken(line)
  {
    if |line| > 1 {
      UnterminatedIsUnbroken(line[1..]);
      assert line == [line[0]] + line[1..];
    }
  }

  /** Unbroken text and a newline are a line. */
  lemma {:induction false} UnbrokenLine(text: string)
    requires Unbroken(text)
    ensures IsLine(text + "\n") && Terminated(text + "\n")
    ensures WithoutNewline(text + "\n") == text
  {
    LineEndAfter(text, "\n");
    assert (text + "\n")[..|text|] == text;
  }

  /** Lines that are the lines of what they make with `rest`. */
  predicate LinesBefore(lines: seq<string>, rest: string) {
    lines == [] || (Leads(lines[0], Join(lines[1..]) + rest) && LinesBefore(lines[1..], rest))
  }

  /** Lines that are the lines of the text they make. */
  predicate IsLines(lines: seq<string>) {
    LinesBefore(lines, "")
  }

  lemma {:induction false} JoinSplit(s: string)
    ensures Join(SplitLines(s)) == s
  {
    if s != "" {
      JoinSplit(s[LineEnd(s)..]);
      assert SplitLines(s)[1..] == SplitLines(s[LineEnd(s)..]);
    }
  }

  /** Splitting undoes joining exactly for the lines of a text. */
  lemma {:induction false} SplitJoin(lines: seq<string>)
    ensures IsLines(lines) <==> SplitLines(Join(lines)) == lines
  {
    if lines != [] {
      var s, rest := Join(lines), Join(lines[1..]);
      assert s == lines[0] + rest && rest + "" == rest;
      SplitJoin(lines[1..]);
      if SplitLines(s) == lines {
        assert SplitLines(s)[0] == s[..LineEnd(s)] && SplitLines(s)[1..] == SplitLines(s[LineEnd(s)..]);
        assert s[LineEnd(s)..] == rest;
      }
      if IsLines(lines) {
        assert s[..|lines[0]|] == lines[0] && s[|lines[0]|..] == rest;
      }
    }
  }

  lemma {:induction false} JoinConcat(a: seq<string>, b: seq<string>)
    ensures Join(a + b) == Join(a) + Join(b)
  {
    if a == [] {
      assert a + b == b;
    } else {
      assert (a + b)[1..] == a[1..] + b;
      JoinConcat(a[1..], b);
    }
  }

  lemma {:induction false} LinesConcat(a: seq<string>, b: seq<string>, rest: string)
    ensures LinesBefore(a + b, rest) <==> LinesBefore(a, Join(b) + rest) && LinesBefore(b, rest)
  {
    if a == [] {
      assert a + b == b;
    } else {
      assert (a + b)[1..] == a[1..] + b;
      LinesConcat(a[1..], b, rest);
      JoinConcat(a[1..], b);
      assert Join(a[1..]) + (Join(b) + rest) == Join(a[1..]) + Join(b) + rest;
    }
  }

  /** Lines that stay apart in any order: none lacks its separator or starts with a newline. */
  predicate StandAlone(lines: seq<string>) {
    forall i :: 0 <= i < |lines| ==> IsLine(lines[i]) && Terminated(lines[i]) && lines[i][0] != '\n'
  }

  lemma {:induction false} StandAloneLines(lines: seq<string>)
    requires StandAlone(lines)
    ensures IsLines(lines)
  {
    if lines != [] {
      StandAloneLines(lines[1..]);
      var rest := Join(lines[1..]) + "";
      assert rest != "" ==> rest[0] == lines[1][0];
      LeadsIff(lines[0], rest);
    }
  }

  // ---------------------------------------------------------------- decimal numbers

  predicate IsDigit(c: char) {
    '0' <= c <= '9'
  }

  function Digit(n: nat): char
    requires n < 10
  {
    n as char + '0'
  }

  function DigitValue(c: char): nat
    requires IsDigit(c)
  {
    c as int - '0' as int
  }

  function Decimal(n: nat): string {
    if n < 10 then [Digit(n)] else Decimal(n / 10) + [Digit(n % 10)]
  }

  function Number(s: string): nat
    requires forall i :: 0 <= i < |s| ==> IsDigit(s[i])
  {
    if s == "" then 0 else 10 * Number(s[..|s| - 1]) + DigitValue(s[|s| - 1])
  }

  lemma {:induction false} NumberOfDecimal(n: nat)
    ensures Decimal(n) != "" && forall i :: 0 <= i < |Decimal(n)| ==> IsDigit(Decimal(n)[i])
    ensures Number(Decimal(n)) == n
  {
    if n >= 10 {
      NumberOfDecimal(n / 10);
      assert Decimal(n)[..|Decimal(n)| - 1] == Decimal(n / 10);
    } else {
      assert Decimal(n)[..0] == "";
    }
  }

  /** How many digits a text starts with. */
  function Digits(s: string): (n: nat)
    ensures n <= |s| && forall i :: 0 <= i < n ==> IsDigit(s[i])
    ensures n < |s| ==> !IsDigit(s[n])
  {
    if s == "" || !IsDigit(s[0]) then 0 else 1 + Digits(s[1..])
  }

  lemma {:induction false} DigitsOf(a: string, rest: string)
    requires forall i :: 0 <= i < |a| ==> IsDigit(a[i])
    requires rest == "" || !IsDigit(rest[0])
    ensures Digits(a + rest) == |a|
  {
    if a == "" {
      assert a + rest == rest;
    } else {
      assert (a + rest)[1..] == a[1..] + rest;
      DigitsOf(a[1..], rest);
    }
  }
}
