/** Strings as the sources use them: decimal numerals, substring search, lines. */
module Text {
  import opened Wrappers

  predicate IsDigit(c: char) {
    '0' <= c <= '9'
  }

  predicate AllDigits(s: string) {
    forall i :: 0 <= i < |s| ==> IsDigit(s[i])
  }

  /** End of the longest run of digits starting at `i`. */
  function DigitEnd(s: string, i: nat): (j: nat)
    requires i <= |s|
    ensures i <= j <= |s| && (j < |s| ==> !IsDigit(s[j]))
    ensures forall k :: i <= k < j ==> IsDigit(s[k])
    decreases |s| - i
  {
    if i < |s| && IsDigit(s[i]) then DigitEnd(s, i + 1) else i
  }

  function DigitChar(d: nat): (c: char)
    requires d < 10
    ensures IsDigit(c)
  {
    (d + '0' as int) as char
  }

  function Dec(n: nat): string {
    if n < 10 then [DigitChar(n)] else Dec(n / 10) + [DigitChar(n % 10)]
  }

  function NatOf(s: string): nat
    requires AllDigits(s)
  {
    if s == "" then 0 else NatOf(s[..|s| - 1]) * 10 + (s[|s| - 1] as int - '0' as int)
  }

  /** Decimal printing yields a canonical numeral that reads back as the number. */
  lemma {:induction false} DecRoundTrip(n: nat)
    ensures Dec(n) != "" && AllDigits(Dec(n)) && NatOf(Dec(n)) == n
    ensures Dec(n)[0] == '0' ==> Dec(n) == "0"
  {
    if n < 10 {
      assert NatOf("") == 0;
    } else {
      DecRoundTrip(n / 10);
      assert Dec(n)[..|Dec(n)| - 1] == Dec(n / 10);
    }
  }

  lemma {:induction false} DigitEndIs(s: string, i: nat, j: nat)
    requires i <= j <= |s| && (j < |s| ==> !IsDigit(s[j]))
    requires forall k :: i <= k < j ==> IsDigit(s[k])
    ensures DigitEnd(s, i) == j
    decreases j - i
  {
    if i < j {
      DigitEndIs(s, i + 1, j);
    }
  }

  /** `pat` occurs in `s` at position `i`. */
  predicate At(s: string, pat: string, i: nat) {
    i <= |s| && pat <= s[i..]
  }

  predicate Contains(s: string, pat: string) {
    exists i :: 0 <= i <= |s| && At(s, pat, i)
  }

  /** First occurrence of `pat` at or after `i`. */
  function Find(s: string, pat: string, i: nat): (r: Option<nat>)
    ensures r.Some? ==> i <= r.value && At(s, pat, r.value)
    ensures r.Some? ==> forall j :: i <= j < r.value ==> !At(s, pat, j)
    ensures r.None? ==> forall j :: i <= j ==> !At(s, pat, j)
    decreases |s| - i
  {
    if i > |s| then None
    else if At(s, pat, i) then Some(i)
    else Find(s, pat, i + 1)
  }

  // ---- Lines ----

  /** The line boundaries of `str.splitlines`. */
  predicate IsBreak(c: char) {
    c == '\n' || c == '\r' || c as int in {0xB, 0xC, 0x1C, 0x1D, 0x1E, 0x85, 0x2028, 0x2029}
  }

  function BreakFrom(s: string, i: nat): (j: nat)
    requires i <= |s|
    ensures i <= j <= |s| && (j < |s| ==> IsBreak(s[j]))
    ensures forall k :: i <= k < j ==> !IsBreak(s[k])
    decreases |s| - i
  {
    if i < |s| && !IsBreak(s[i]) then BreakFrom(s, i + 1) else i
  }

  function SplitLines(s: string): seq<string> {
    if s == "" then []
    else
      var n := BreakFrom(s, 0);
      if n == |s| then [s]
      else [s[..n]] + SplitLines(s[n + (if s[n] == '\r' && n + 1 < |s| && s[n + 1] == '\n' then 2 else 1)..])
  }

  /** `"\n".join(lines)` */
  function JoinLines(lines: seq<string>): string {
    if lines == [] then "" else if |lines| == 1 then lines[0] else lines[0] + "\n" + JoinLines(lines[1..])
  }

  predicate OneLine(s: string) {
    forall i :: 0 <= i < |s| ==> !IsBreak(s[i])
  }

  lemma {:induction false} LinesAreLines(s: string)
    ensures forall i :: 0 <= i < |SplitLines(s)| ==> OneLine(SplitLines(s)[i])
  {
    if s != "" {
      var n := BreakFrom(s, 0);
      if n < |s| {
        LinesAreLines(s[n + (if s[n] == '\r' && n + 1 < |s| && s[n + 1] == '\n' then 2 else 1)..]);
      }
    }
  }

  /** A trailing empty line is lost when lines are joined. */
  function DropTrailingEmpty(lines: seq<string>): seq<string> {
    if lines != [] && lines[|lines| - 1] == "" then lines[..|lines| - 1] else lines
  }

  lemma {:induction false} BreakIs(s: string, i: nat, j: nat)
    requires i <= j <= |s| && (j < |s| ==> IsBreak(s[j])) && forall k :: i <= k < j ==> !IsBreak(s[k])
    ensures BreakFrom(s, i) == j
    decreases j - i
  {
    if i < j {
      BreakIs(s, i + 1, j);
    }
  }

  lemma SplitFirst(line: string, rest: string)
    requires OneLine(line)
    ensures SplitLines(line + "\n" + rest) == [line] + SplitLines(rest)
  {
    var s := line + "\n" + rest;
    BreakIs(s, 0, |line|);
    assert s[|line|] == '\n' && s[..|line|] == line && s[|line| + 1..] == rest;
  }

  lemma SplitNothing()
    ensures SplitLines("") == []
  {
  }

  lemma SplitOne(line: string)
    requires OneLine(line)
    ensures SplitLines(line) == if line == "" then [] else [line]
  {
    BreakIs(line, 0, |line|);
  }

  lemma {:induction false} SplitJoin(lines: seq<string>)
    requires forall i :: 0 <= i < |lines| ==> OneLine(lines[i])
    ensures SplitLines(JoinLines(lines)) == DropTrailingEmpty(lines)
  {
    hide SplitLines, OneLine;
    if lines == [] {
      SplitNothing();
    } else if |lines| == 1 {
      SplitOne(lines[0]);
      assert lines == [lines[0]];
    } else {
      var rest := JoinLines(lines[1..]);
      SplitJoin(lines[1..]);
      SplitFirst(lines[0], rest);
      assert lines == [lines[0]] + lines[1..];
    }
  }

  // ---- Lines ended by a newline ----

  /** Every line ended by a newline. */
  function Ended(lines: seq<string>): string {
    if lines == [] then "" else lines[0] + "\n" + Ended(lines[1..])
  }

  /** The pieces that a line and its newline split into. */
  function PiecesOf(line: string): (pieces: seq<string>)
    ensures pieces != []
  {
    assert line + "\n" != "";
    SplitLines(line + "\n")
  }

  function Pieces(lines: seq<string>): seq<string> {
    if lines == [] then [] else PiecesOf(lines[0]) + Pieces(lines[1..])
  }

  /** How many characters the boundary at `n` has. */
  function BreakLength(s: string, n: nat): nat
    requires n < |s|
  {
    if s[n] == '\r' && n + 1 < |s| && s[n + 1] == '\n' then 2 else 1
  }

  lemma SplitStep(s: string, n: nat)
    requires n < |s| && IsBreak(s[n]) && forall k :: 0 <= k < n ==> !IsBreak(s[k])
    ensures n + BreakLength(s, n) <= |s|
    ensures SplitLines(s) == [s[..n]] + SplitLines(s[n + BreakLength(s, n)..])
  {
    BreakIs(s, 0, n);
  }

  /** Splitting never reaches across a newline. */
  lemma {:induction false} SplitAtNewline(a: string, b: string)
    ensures SplitLines(a + "\n" + b) == SplitLines(a + "\n") + SplitLines(b)
    decreases |a|
  {
    hide SplitLines, IsBreak;
    var s, t := a + "\n" + b, a + "\n";
    var n := FirstBreak(a);
    assert s[..n] == t[..n] == a[..n] && s[n] == t[n];
    SplitStep(s, n);
    SplitStep(t, n);
    var k := n + BreakLength(t, n);
    if k > |a| {
      SplitNothing();
      assert t[k..] == "" && s[k..] == b;
    } else {
      SplitAtNewline(a[k..], b);
      assert s[k..] == a[k..] + "\n" + b && t[k..] == a[k..] + "\n";
    }
  }

  /** The first boundary of a line and its newline. */
  lemma FirstBreak(a: string) returns (n: nat)
    ensures n <= |a| && IsBreak((a + "\n")[n]) && forall k :: 0 <= k < n ==> !IsBreak(a[k])
  {
    var t := a + "\n";
    n := BreakFrom(t, 0);
    assert t[|a|] == '\n';
    assert forall k :: 0 <= k < |a| ==> t[k] == a[k];
  }

  lemma {:induction false} PiecesOfText(lines: seq<string>)
    ensures SplitLines(Ended(lines)) == Pieces(lines)
  {
    hide SplitLines;
    if lines == [] {
      SplitNothing();
    } else {
      PiecesOfText(lines[1..]);
      SplitAtNewline(lines[0], Ended(lines[1..]));
    }
  }

  lemma {:induction false} PiecesConcat(a: seq<string>, b: seq<string>)
    ensures Pieces(a + b) == Pieces(a) + Pieces(b)
  {
    hide PiecesOf;
    if a == [] {
      assert a + b == b;
    } else {
      PiecesConcat(a[1..], b);
      assert (a + b)[1..] == a[1..] + b;
    }
  }

  /** What precedes the first boundary stays in front of the first piece. */
  lemma PrefixSplits(a: string, s: string)
    requires OneLine(a)
    ensures PiecesOf(a + s) == [a + PiecesOf(s)[0]] + PiecesOf(s)[1..]
  {
    hide SplitLines;
    var t, u := s + "\n", a + s + "\n";
    assert u == a + t;
    var n := FirstBreak(s);
    assert t[..n] == s[..n];
    forall k | 0 <= k < |a| + n
      ensures !IsBreak(u[k])
    {
      assert u[k] == if k < |a| then a[k] else s[k - |a|];
    }
    SplitStep(t, n);
    SplitStep(u, |a| + n);
    assert u[..|a| + n] == a + t[..n] && u[|a| + n + BreakLength(t, n)..] == t[n + BreakLength(t, n)..];
  }

  lemma OnePiece(line: string)
    requires OneLine(line)
    ensures PiecesOf(line) == [line]
  {
    SplitFirst(line, "");
    SplitNothing();
    assert line + "\n" + "" == line + "\n";
  }
}
