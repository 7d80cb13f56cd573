/** Hunks of a unified diff, and the agreement of the scanners on them. */
module DiffAgreement {
  import opened Wrappers
  import opened Text
  import opened DiffAnnotator

  // ---- Well-formed hunks ----

  /** A hunk, with the lines that follow its header just as the scanners see them. */
  datatype Hunk = Hunk(
    oldStart: nat, oldCount: Option<nat>, newStart: nat, newCount: Option<nat>, section: string, body: seq<string>)

  function CountText(count: Option<nat>): string {
    if count.None? then "" else "," + Dec(count.value)
  }

  function HunkLine(h: Hunk): string {
    var opening := "@@ -" + Dec(h.oldStart) + CountText(h.oldCount) + " +";
    opening + Dec(h.newStart) + CountText(h.newCount) + (" @@" + h.section)
  }

  function RenderHunk(h: Hunk): seq<string> {
    [HunkLine(h)] + h.body
  }

  function RenderHunks(hunks: seq<Hunk>): seq<string> {
    if hunks == [] then [] else RenderHunk(hunks[0]) + RenderHunks(hunks[1..])
  }

  /** How many lines of a body are numbered. */
  function NewLines(body: seq<string>): nat {
    if body == [] then 0 else (if Numbered(body[0]) then 1 else 0) + NewLines(body[1..])
  }

  /** How many lines of the new file the header promises. */
  function CountOf(h: Hunk): nat {
    if h.newCount.Some? then h.newCount.value else 1
  }

  /** The numbers of lines that are not numbered, but already read like marked ones. */
  function Lookalikes(body: seq<string>): set<int> {
    if body == [] then {}
    else
      (if !Numbered(body[0]) && MarkerOf(body[0]).Some? then {MarkerOf(body[0]).value as int} else {})
      + Lookalikes(body[1..])
  }

  predicate NoHeaderIn(body: seq<string>) {
    forall i :: 0 <= i < |body| ==> FileHeader(body[i]).None? && HunkHeader(body[i]).None?
  }

  /** No line of the body reads as a header, and as many as the header of the hunk counts, or more, are numbered. */
  predicate WellFormedHunk(h: Hunk) {
    NoHeaderIn(h.body) && CountOf(h) <= NewLines(h.body)
  }

  /** A line between two hunks that no scanner takes for a header, a marker or a numbered line. */
  predicate PlainLine(line: string) {
    FileHeader(line).None? && HunkHeader(line).None? && MarkerOf(line).None? && !Numbered(line)
  }

  // ---- What the annotated text says ----

  /** A line that carries a marker, with the file section it stands in. */
  datatype Mark = Mark(file: string, line: nat, text: string)

  function LineMark(line: string, file: Option<string>): seq<Mark> {
    if FileHeader(line).None? && MarkerOf(line).Some? && file.Some? then [Mark(file.value, MarkerOf(line).value, line)]
    else []
  }

  function Marks(lines: seq<string>, current: Option<string>): seq<Mark> {
    if lines == [] then []
    else
      var file := CurrentFile(lines[0], current);
      LineMark(lines[0], file) + Marks(lines[1..], file)
  }

  ghost predicate Marked(marks: seq<Mark>, file: string, line: int) {
    exists i :: 0 <= i < |marks| && marks[i].file == file && marks[i].line == line
  }

  ghost predicate Covered(pairs: seq<(string, Range)>, file: string, line: int) {
    exists i :: 0 <= i < |pairs| && pairs[i].0 == file && pairs[i].1.first <= line <= pairs[i].1.last
  }

  /** What is marked is what the ranges cover, and the strays. */
  ghost predicate Differ(marks: seq<Mark>, pairs: seq<(string, Range)>, strays: set<(string, int)>) {
    forall f, n :: Marked(marks, f, n) <==> Covered(pairs, f, n) || (f, n) in strays
  }

  // ---- The scanners on concatenations ----

  function After(lines: seq<string>, st: Scan): Scan {
    if lines == [] then st else After(lines[1..], Next(lines[0], st))
  }

  function FileAfter(lines: seq<string>, current: Option<string>): Option<string> {
    if lines == [] then current else FileAfter(lines[1..], CurrentFile(lines[0], current))
  }

  lemma {:induction false} AnnotateConcat(a: seq<string>, b: seq<string>, st: Scan)
    ensures Annotate(a + b, st) == Annotate(a, st) + Annotate(b, After(a, st))
  {
    hide AnnotateLine, Next;
    if a == [] {
      assert a + b == b;
    } else {
      AnnotateConcat(a[1..], b, Next(a[0], st));
      assert (a + b)[1..] == a[1..] + b;
    }
  }

  lemma {:induction false} RangesConcat(a: seq<string>, b: seq<string>, current: Option<string>)
    ensures RangesFrom(a + b, current) == RangesFrom(a, current) + RangesFrom(b, FileAfter(a, current))
  {
    hide CurrentFile, LineRange;
    if a == [] {
      assert a + b == b;
    } else {
      var file := CurrentFile(a[0], current);
      RangesConcat(a[1..], b, file);
      assert (a + b)[1..] == a[1..] + b;
      var first, middle, last := LineRange(a[0], file), RangesFrom(a[1..], file), RangesFrom(b, FileAfter(a, current));
      assert first + (middle + last) == (first + middle) + last;
    }
  }

  lemma {:induction false} MarksConcat(a: seq<string>, b: seq<string>, current: Option<string>)
    ensures Marks(a + b, current) == Marks(a, current) + Marks(b, FileAfter(a, current))
  {
    hide CurrentFile, LineMark;
    if a == [] {
      assert a + b == b;
    } else {
      var file := CurrentFile(a[0], current);
      MarksConcat(a[1..], b, file);
      assert (a + b)[1..] == a[1..] + b;
      var first, middle, last := LineMark(a[0], file), Marks(a[1..], file), Marks(b, FileAfter(a, current));
      assert first + (middle + last) == (first + middle) + last;
    }
  }

  lemma MarkerReadsBack(n: nat, line: string)
    ensures MarkerOf(Marker(n) + line) == Some(n) && FileHeader(Marker(n) + line).None?
  {
    var s, d := Marker(n) + line, Dec(n);
    DecRoundTrip(n);
    assert s[2..2 + |d|] == d;
    forall k | 2 <= k < 2 + |d|
      ensures IsDigit(s[k])
    {
      assert s[k] == d[k - 2];
    }
    DigitEndIs(s, 2, 2 + |d|);
  }

  /** Annotation keeps every file header, and adds none. */
  lemma AnnotateKeepsHeader(line: string, st: Scan)
    ensures FileHeader(AnnotateLine(line, st)) == FileHeader(line)
  {
    if IsMarked(line, st) {
      MarkerReadsBack(st.line, line);
    }
  }

  lemma {:induction false} AnnotateKeepsFile(lines: seq<string>, st: Scan, current: Option<string>)
    ensures FileAfter(Annotate(lines, st), current) == FileAfter(lines, current)
  {
    hide FileHeader, AnnotateLine, Next;
    if lines != [] {
      AnnotateKeepsHeader(lines[0], st);
      AnnotateKeepsFile(lines[1..], Next(lines[0], st), CurrentFile(lines[0], current));
    }
  }

  // ---- Agreement, piece by piece ----

  /** On `lines`, in the given state, the two scanners differ in the strays alone. */
  ghost predicate ScansDiffer(lines: seq<string>, st: Scan, current: Option<string>, strays: set<(string, int)>) {
    Differ(Marks(Annotate(lines, st), current), RangesFrom(lines, current), strays)
  }

  ghost predicate ScansAgree(lines: seq<string>, st: Scan, current: Option<string>) {
    ScansDiffer(lines, st, current, {})
  }

  lemma MarkedConcat(m: seq<Mark>, m': seq<Mark>, f: string, n: int)
    ensures Marked(m + m', f, n) <==> Marked(m, f, n) || Marked(m', f, n)
  {
    if Marked(m, f, n) {
      var i :| 0 <= i < |m| && m[i].file == f && m[i].line == n;
      assert (m + m')[i] == m[i];
    }
    if Marked(m', f, n) {
      var i :| 0 <= i < |m'| && m'[i].file == f && m'[i].line == n;
      assert (m + m')[|m| + i] == m'[i];
    }
  }

  lemma CoveredConcat(p: seq<(string, Range)>, p': seq<(string, Range)>, f: string, n: int)
    ensures Covered(p + p', f, n) <==> Covered(p, f, n) || Covered(p', f, n)
  {
    if Covered(p, f, n) {
      var i :| 0 <= i < |p| && p[i].0 == f && p[i].1.first <= n <= p[i].1.last;
      assert (p + p')[i] == p[i];
    }
    if Covered(p', f, n) {
      var i :| 0 <= i < |p'| && p'[i].0 == f && p'[i].1.first <= n <= p'[i].1.last;
      assert (p + p')[|p| + i] == p'[i];
    }
  }

  lemma DifferConcat(
      m: seq<Mark>, p: seq<(string, Range)>, x: set<(string, int)>,
      m': seq<Mark>, p': seq<(string, Range)>, x': set<(string, int)>)
    requires Differ(m, p, x) && Differ(m', p', x')
    ensures Differ(m + m', p + p', x + x')
  {
    hide Marked, Covered;
    forall f, n
      ensures Marked(m + m', f, n) <==> Covered(p + p', f, n) || (f, n) in x + x'
    {
      MarkedConcat(m, m', f, n);
      CoveredConcat(p, p', f, n);
    }
  }

  lemma ScansConcat(
      a: seq<string>, b: seq<string>, st: Scan, current: Option<string>, x: set<(string, int)>, x': set<(string, int)>)
    requires ScansDiffer(a, st, current, x) && ScansDiffer(b, After(a, st), FileAfter(a, current), x')
    ensures ScansDiffer(a + b, st, current, x + x')
  {
    hide Differ, Marks, Annotate, RangesFrom, After, FileAfter;
    AnnotateConcat(a, b, st);
    RangesConcat(a, b, current);
    MarksConcat(Annotate(a, st), Annotate(b, After(a, st)), current);
    AnnotateKeepsFile(a, st, current);
    DifferConcat(Marks(Annotate(a, st), current), RangesFrom(a, current), x,
      Marks(Annotate(b, After(a, st)), FileAfter(a, current)), RangesFrom(b, FileAfter(a, current)), x');
  }

  lemma {:induction false} AfterConcat(a: seq<string>, b: seq<string>, st: Scan)
    ensures After(a + b, st) == After(b, After(a, st))
  {
    hide Next;
    if a == [] {
      assert a + b == b;
    } else {
      AfterConcat(a[1..], b, Next(a[0], st));
      assert (a + b)[1..] == a[1..] + b;
    }
  }

  lemma {:induction false} PlainLinesAgree(lines: seq<string>, st: Scan, current: Option<string>)
    requires forall j :: 0 <= j < |lines| ==> PlainLine(lines[j])
    ensures ScansAgree(lines, st, current) && FileAfter(lines, current) == current && After(lines, st) == st
  {
    hide FileHeader, HunkHeader, MarkerOf, Numbered;
    if lines != [] {
      PlainLinesAgree(lines[1..], Next(lines[0], st), current);
      assert PlainLine(lines[0]);
      assert Marks(Annotate(lines, st), current) == Marks(Annotate(lines[1..], Next(lines[0], st)), current);
      assert RangesFrom(lines, current) == RangesFrom(lines[1..], current);
    }
  }

  lemma DecAt(s: string, i: nat, n: nat)
    requires i + |Dec(n)| < |s| && s[i..i + |Dec(n)|] == Dec(n) && !IsDigit(s[i + |Dec(n)|])
    ensures i < DigitEnd(s, i) == i + |Dec(n)| && NatOf(s[i..DigitEnd(s, i)]) == n
  {
    DecRoundTrip(n);
    forall k | i <= k < i + |Dec(n)|
      ensures IsDigit(s[k])
    {
      assert s[k] == s[i..i + |Dec(n)|][k - i];
    }
    DigitEndIs(s, i, i + |Dec(n)|);
  }

  lemma CountAt(s: string, i: nat, count: Option<nat>)
    requires i + |CountText(count)| < |s| && s[i..i + |CountText(count)|] == CountText(count)
    requires s[i + |CountText(count)|] == ' '
    ensures CountEnd(s, i) == i + |CountText(count)|
    ensures count.Some? ==> i < CountEnd(s, i) && NatOf(s[i + 1..CountEnd(s, i)]) == count.value
  {
    if count.Some? {
      assert s[i] == s[i..i + |CountText(count)|][0];
      assert s[i + 1..i + |CountText(count)|] == s[i..i + |CountText(count)|][1..] == Dec(count.value);
      DecAt(s, i + 1, count.value);
    }
  }

  /** A printed number and optional count, before a space, are scanned whole. */
  lemma PairAt(s: string, i: nat, a: nat, b: nat, n: nat, count: Option<nat>)
    requires i <= a <= b < |s| && s[i..a] == Dec(n) && s[a..b] == CountText(count) && s[b] == ' '
    ensures i < a == DigitEnd(s, i) && CountEnd(s, a) == b && NatOf(s[i..a]) == n
    ensures if count.None? then b == a else a < b && AllDigits(s[a + 1..b]) && NatOf(s[a + 1..b]) == count.value
  {
    hide DigitEnd, CountEnd, NatOf, Dec;
    assert a == i + |Dec(n)| && b == a + |CountText(count)|;
    if count.Some? {
      assert s[a] == s[a..b][0];
    }
    DecAt(s, i, n);
    CountAt(s, a, count);
  }

  lemma HeaderOfParts(s: string, a: nat, b: nat, c: nat, d: nat, start: nat, count: Option<nat>)
    requires |s| >= d + 3 && "@@ -" <= s && 4 < a <= b < b + 2 < c <= d
    requires DigitEnd(s, 4) == a && CountEnd(s, a) == b && DigitEnd(s, b + 2) == c && CountEnd(s, c) == d
    requires s[b] == ' ' && s[b + 1] == '+' && s[d] == ' ' && s[d + 1] == '@' && s[d + 2] == '@'
    requires NatOf(s[b + 2..c]) == start && if count.None? then c == d else c < d && NatOf(s[c + 1..d]) == count.value
    ensures HunkHeader(s) == Some((start, count)) && FileHeader(s).None? && MarkerOf(s).None?
  {
    hide DigitEnd, CountEnd, NatOf;
    assert s[0] == '@';
  }

  lemma SliceOfThree(s: string, left: string, p: string, q: string, right: string)
    requires s == left + p + q + right
    ensures |s| == |left| + |p| + |q| + |right|
    ensures s[|left|..|left| + |p|] == p && s[|left| + |p|..|left| + |p| + |q|] == q && s[|left| + |p| + |q|..] == right
  {
  }

  lemma HunkLineTwoWays(open: string, p: string, q: string, mid: string, r: string, t: string, end: string)
    ensures open + p + q + mid + r + t + end == open + p + q + (mid + (r + t + end)) ==
      (open + p + q + mid) + r + t + end
  {
  }

  lemma HunkLineParses(h: Hunk)
    ensures HunkHeader(HunkLine(h)) == Some((h.newStart, h.newCount))
    ensures FileHeader(HunkLine(h)).None? && MarkerOf(HunkLine(h)).None?
  {
    hide DigitEnd, CountEnd, NatOf, HunkHeader, FileHeader, MarkerOf, Dec, CountText;
    var s := HunkLine(h);
    var p, q, r, t := Dec(h.oldStart), CountText(h.oldCount), Dec(h.newStart), CountText(h.newCount);
    var opening := "@@ -" + p + q + " +";
    var right, end := " +" + (r + t + (" @@" + h.section)), " @@" + h.section;
    var a, b := 4 + |p|, 4 + |p| + |q|;
    var c, d := b + 2 + |r|, b + 2 + |r| + |t|;
    HunkLineTwoWays("@@ -", p, q, " +", r, t, end);
    SliceOfThree(s, "@@ -", p, q, right);
    SliceOfThree(s, opening, r, t, end);
    assert s[b] == s[b..][0] && s[b + 1] == s[b..][1];
    assert s[d] == s[d..][0] && s[d + 1] == s[d..][1] && s[d + 2] == s[d..][2];
    HunkLineOfSlices(s, h, a, b, c, d);
  }

  lemma HunkLineOfSlices(s: string, h: Hunk, a: nat, b: nat, c: nat, d: nat)
    requires 4 <= a <= b < b + 2 <= c <= d && d + 3 <= |s| && "@@ -" <= s
    requires s[4..a] == Dec(h.oldStart) && s[a..b] == CountText(h.oldCount)
    requires s[b + 2..c] == Dec(h.newStart) && s[c..d] == CountText(h.newCount)
    requires s[b] == ' ' && s[b + 1] == '+' && s[d] == ' ' && s[d + 1] == '@' && s[d + 2] == '@'
    ensures HunkHeader(s) == Some((h.newStart, h.newCount)) && FileHeader(s).None? && MarkerOf(s).None?
  {
    hide DigitEnd, CountEnd, NatOf, HunkHeader, FileHeader, MarkerOf, Dec, CountText;
    PairAt(s, 4, a, b, h.oldStart, h.oldCount);
    PairAt(s, b + 2, c, d, h.newStart, h.newCount);
    HeaderOfParts(s, a, b, c, d, h.newStart, h.newCount);
  }

  lemma BodyStep(line: string, rest: seq<string>, n: nat, current: Option<string>)
    requires FileHeader(line).None? && HunkHeader(line).None?
    ensures var st := Scan(n, true);
      Marks(Annotate([line] + rest, st), current) ==
        if Numbered(line) then
          (if current.Some? then [Mark(current.value, n, Marker(n) + line)] else [])
          + Marks(Annotate(rest, Scan(n + 1, true)), current)
        else LineMark(line, current) + Marks(Annotate(rest, st), current)
  {
    hide HunkHeader, Marker;
    MarkerReadsBack(n, line);
    hide FileHeader, MarkerOf;
    assert ([line] + rest)[1..] == rest;
    var out := Annotate([line] + rest, Scan(n, true));
    assert out[1..] == Annotate(rest, Next(line, Scan(n, true)));
    assert Numbered(line) ==>
      LineMark(out[0], current) == if current.Some? then [Mark(current.value, n, out[0])] else [];
  }

  /** The marks are those of file `current` with numbers from `n` up to, not including, `end`, or among the
      lookalikes. */
  ghost predicate MarksSpan(marks: seq<Mark>, current: Option<string>, n: nat, end: nat, alike: set<int>) {
    forall f, k :: Marked(marks, f, k) <==> current == Some(f) && (n <= k < end || k in alike)
  }

  /** A mark in front, numbered `n` or a lookalike. */
  lemma SpanStep(
      marks: seq<Mark>, m: Mark, current: Option<string>, n: nat, n': nat, end: nat, alike: set<int>, alike': set<int>)
    requires MarksSpan(marks, current, n', end, alike) && (current.Some? ==> m.file == current.value)
    requires (n == m.line && n' == n + 1 <= end && alike' == alike) || (n' == n && alike' == {m.line as int} + alike)
    ensures MarksSpan((if current.Some? then [m] else []) + marks, current, n, end, alike')
  {
    var first := if current.Some? then [m] else [];
    forall f, k
      ensures Marked(first + marks, f, k) <==> current == Some(f) && (n <= k < end || k in alike')
    {
      MarkedConcat(first, marks, f, k);
      assert current.Some? ==> first[0] == m;
    }
  }

  /** A body numbers its numbered lines from the number it starts at. */
  lemma {:induction false} BodyMarks(body: seq<string>, n: nat, current: Option<string>)
    requires NoHeaderIn(body)
    ensures MarksSpan(Marks(Annotate(body, Scan(n, true)), current), current, n, n + NewLines(body), Lookalikes(body))
    ensures RangesFrom(body, current) == [] && FileAfter(body, current) == current
    ensures After(body, Scan(n, true)) == Scan(n + NewLines(body), true)
  {
    hide Annotate, Marks, FileHeader, HunkHeader, MarkerOf, MarksSpan, Numbered;
    if body == [] {
      NoMarks(Scan(n, true), current);
      EmptySpan(current, n);
    } else {
      var line, rest := body[0], body[1..];
      assert body == [line] + rest;
      var n' := if Numbered(line) then n + 1 else n;
      BodyMarks(rest, n', current);
      BodyStep(line, rest, n, current);
      var marks := Marks(Annotate(rest, Scan(n', true)), current);
      var m := Mark(if current.Some? then current.value else "",
        if Numbered(line) || MarkerOf(line).None? then n else MarkerOf(line).value,
        if Numbered(line) then Marker(n) + line else line);
      if Numbered(line) || MarkerOf(line).Some? {
        SpanStep(marks, m, current, n, n', n + NewLines(body), Lookalikes(rest), Lookalikes(body));
      } else {
        assert LineMark(line, current) == [] && [] + marks == marks;
        assert {} + Lookalikes(rest) == Lookalikes(rest);
      }
    }
  }

  lemma EmptySpan(current: Option<string>, n: nat)
    ensures MarksSpan([], current, n, n, {})
  {
  }

  lemma NoMarks(st: Scan, current: Option<string>)
    ensures Annotate([], st) == [] && Marks([], current) == []
  {
  }

  /** The range of a hunk is as long as its header says. */
  lemma HunkRange(h: Hunk, current: Option<string>)
    ensures LineRange(HunkLine(h), current) ==
      if CountOf(h) == 0 || current.None? then []
      else [(current.value, Range(h.newStart, h.newStart + CountOf(h) - 1))]
  {
    HunkLineParses(h);
    hide HunkLine, HunkHeader, FileHeader;
  }

  /** The first line of a hunk moves the annotator to its start and carries no mark. */
  lemma HunkStep(line: string, start: nat, count: Option<nat>, body: seq<string>, st: Scan, current: Option<string>)
    requires HunkHeader(line) == Some((start, count)) && FileHeader(line).None? && MarkerOf(line).None?
    ensures Marks(Annotate([line] + body, st), current) == Marks(Annotate(body, Scan(start, true)), current)
    ensures RangesFrom([line] + body, current) == LineRange(line, current) + RangesFrom(body, current)
    ensures FileAfter([line] + body, current) == FileAfter(body, current)
    ensures After([line] + body, st) == After(body, Scan(start, true))
  {
    hide HunkHeader, FileHeader, MarkerOf;
    assert ([line] + body)[1..] == body;
    var out := Annotate([line] + body, st);
    assert out[1..] == Annotate(body, Scan(start, true));
  }

  /** What the two scanners make of a hunk, whether or not its header counts its lines. */
  lemma HunkScans(h: Hunk, st: Scan, current: Option<string>)
    requires NoHeaderIn(h.body)
    ensures var end := h.newStart + NewLines(h.body);
      && MarksSpan(Marks(Annotate(RenderHunk(h), st), current), current, h.newStart, end, Lookalikes(h.body))
      && RangesFrom(RenderHunk(h), current) == LineRange(HunkLine(h), current)
      && FileAfter(RenderHunk(h), current) == current && After(RenderHunk(h), st) == Scan(end, true)
  {
    hide HunkLine, HunkHeader, FileHeader, MarkerOf, Marks, Annotate, FileAfter, After, RangesFrom, LineRange;
    hide NewLines, Lookalikes, MarksSpan, NoHeaderIn;
    HunkLineParses(h);
    BodyMarks(h.body, h.newStart, current);
    HunkStep(HunkLine(h), h.newStart, h.newCount, h.body, st, current);
  }

  lemma RangeCovers(file: string, start: nat, count: nat, f: string, k: int)
    ensures Covered(if count == 0 then [] else [(file, Range(start, start + count - 1))], f, k)
      <==> f == file && start <= k < start + count
  {
    var pairs := if count == 0 then [] else [(file, Range(start, start + count - 1))];
    assert count > 0 ==> pairs[0] == (file, Range(start, start + count - 1));
  }

  /** The lines that the header counts are those that the body numbers, give or take lookalikes. */
  predicate Fits(h: Hunk) {
    && NewLines(h.body) <= CountOf(h)
    && (forall k :: k in Lookalikes(h.body) ==> h.newStart <= k < h.newStart + CountOf(h))
    && (forall k :: h.newStart + NewLines(h.body) <= k < h.newStart + CountOf(h) ==> k in Lookalikes(h.body))
  }

  /** Inside a file section the scanners agree on a hunk, whatever its lines, exactly when it fits: when no line is a
      lookalike, exactly when its header counts its numbered lines. */
  lemma HunkAgreesIffCounted(h: Hunk, st: Scan, file: string)
    requires NoHeaderIn(h.body)
    ensures ScansAgree(RenderHunk(h), st, Some(file)) <==> Fits(h)
    ensures Lookalikes(h.body) == {} ==> (Fits(h) <==> NewLines(h.body) == CountOf(h))
  {
    hide HunkLine, RenderHunk, Marks, Annotate, RangesFrom, NewLines, Lookalikes, LineRange, NoHeaderIn, Marked,
      Covered;
    HunkScans(h, st, Some(file));
    HunkRange(h, Some(file));
    var marks, pairs := Marks(Annotate(RenderHunk(h), st), Some(file)), RangesFrom(RenderHunk(h), Some(file));
    forall f, k
      ensures Covered(pairs, f, k) <==> f == file && h.newStart <= k < h.newStart + CountOf(h)
    {
      RangeCovers(file, h.newStart, CountOf(h), f, k);
    }
    if ScansAgree(RenderHunk(h), st, Some(file)) {
      forall k
        ensures h.newStart <= k < h.newStart + NewLines(h.body) || k in Lookalikes(h.body)
          <==> h.newStart <= k < h.newStart + CountOf(h)
      {
        assert Marked(marks, file, k) <==> Covered(pairs, file, k);
      }
      var k := h.newStart + CountOf(h);
      var alike := k in Lookalikes(h.body);
    }
    if Fits(h) {
      forall f, k
        ensures Marked(marks, f, k) <==> Covered(pairs, f, k)
      {
        var alike := k in Lookalikes(h.body);
      }
    }
    if Lookalikes(h.body) == {} {
      FitsIffCounted(h);
    }
  }

  lemma FitsIffCounted(h: Hunk)
    requires Lookalikes(h.body) == {}
    ensures Fits(h) <==> NewLines(h.body) == CountOf(h)
  {
    hide NewLines;
    var alike := h.newStart + NewLines(h.body) in Lookalikes(h.body);
  }

  predicate SurplusNumber(h: Hunk, k: int) {
    h.newStart + CountOf(h) <= k < h.newStart + NewLines(h.body)
  }

  /** The numbers that a hunk gives to lines beyond those its header counts. */
  function Surplus(h: Hunk, current: Option<string>): set<(string, int)> {
    if current.None? then {}
    else set k | h.newStart + CountOf(h) <= k < h.newStart + NewLines(h.body) :: (current.value, k)
  }

  function LookalikesOf(h: Hunk, current: Option<string>): set<(string, int)> {
    if current.None? then {} else set k | k in Lookalikes(h.body) :: (current.value, k)
  }

  lemma HunkMarks(h: Hunk, st: Scan, current: Option<string>)
    requires WellFormedHunk(h)
    ensures ScansDiffer(RenderHunk(h), st, current, Surplus(h, current) + LookalikesOf(h, current))
    ensures FileAfter(RenderHunk(h), current) == current
    ensures After(RenderHunk(h), st) == Scan(h.newStart + NewLines(h.body), true)
  {
    hide RenderHunk, Marks, Annotate, RangesFrom, NewLines, Lookalikes, LineRange, After, FileAfter, NoHeaderIn,
      Marked, HunkLine, Covered;
    HunkScans(h, st, current);
    HunkRange(h, current);
    var pairs, strays := RangesFrom(RenderHunk(h), current), Surplus(h, current) + LookalikesOf(h, current);
    forall f, k
      ensures Covered(pairs, f, k) <==> current == Some(f) && h.newStart <= k < h.newStart + CountOf(h)
    {
      if current.Some? {
        RangeCovers(current.value, h.newStart, CountOf(h), f, k);
      } else {
        RangeCovers(f, h.newStart, 0, f, k);
      }
    }
    forall f, k
      ensures (f, k) in strays
        <==> current == Some(f) && (SurplusNumber(h, k) || k in Lookalikes(h.body))
    {
    }
  }

  /** Where the annotator stands after some hunks. */
  function HunksEnd(hunks: seq<Hunk>, st: Scan): Scan {
    if hunks == [] then st
    else Scan(hunks[|hunks| - 1].newStart + NewLines(hunks[|hunks| - 1].body), true)
  }

  function AllSurplus(hunks: seq<Hunk>, current: Option<string>): set<(string, int)> {
    if hunks == [] then {} else Surplus(hunks[0], current) + AllSurplus(hunks[1..], current)
  }

  function AllLookalikes(hunks: seq<Hunk>, current: Option<string>): set<(string, int)> {
    if hunks == [] then {} else LookalikesOf(hunks[0], current) + AllLookalikes(hunks[1..], current)
  }

  lemma {:induction false} HunksMarks(hunks: seq<Hunk>, st: Scan, current: Option<string>)
    requires forall j :: 0 <= j < |hunks| ==> WellFormedHunk(hunks[j])
    ensures ScansDiffer(RenderHunks(hunks), st, current, AllSurplus(hunks, current) + AllLookalikes(hunks, current))
    ensures FileAfter(RenderHunks(hunks), current) == current
    ensures After(RenderHunks(hunks), st) == HunksEnd(hunks, st)
  {
    hide HunkLine, ScansDiffer, WellFormedHunk, FileAfter, After, RenderHunk, NewLines, Surplus, LookalikesOf;
    if hunks != [] {
      var h, tail := hunks[0], hunks[1..];
      var first, rest := RenderHunk(h), RenderHunks(tail);
      HunkMarks(h, st, current);
      HunksMarks(tail, After(first, st), current);
      ScansConcat(first, rest, st, current, Surplus(h, current) + LookalikesOf(h, current),
        AllSurplus(tail, current) + AllLookalikes(tail, current));
      Regroup(Surplus(h, current), LookalikesOf(h, current), AllSurplus(tail, current), AllLookalikes(tail, current));
      FileAfterConcat(first, rest, current);
      AfterConcat(first, rest, st);
      assert if |hunks| == 1 then tail == [] else tail[|hunks| - 2] == hunks[|hunks| - 1];
    } else {
      NoLines(st, current);
    }
  }

  lemma Regroup(a: set<(string, int)>, b: set<(string, int)>, c: set<(string, int)>, d: set<(string, int)>)
    ensures (a + b) + (c + d) == (a + c) + (b + d)
  {
  }

  lemma NoLines(st: Scan, current: Option<string>)
    ensures ScansDiffer([], st, current, {} + {}) && FileAfter([], current) == current && After([], st) == st
  {
  }

  lemma {:induction false} FileAfterConcat(a: seq<string>, b: seq<string>, current: Option<string>)
    ensures FileAfter(a + b, current) == FileAfter(b, FileAfter(a, current))
  {
    hide CurrentFile;
    if a == [] {
      assert a + b == b;
    } else {
      FileAfterConcat(a[1..], b, CurrentFile(a[0], current));
      assert (a + b)[1..] == a[1..] + b;
    }
  }

  // ---- Every line of an annotated diff ----

  lemma {:induction false} NewLinesConcat(a: seq<string>, b: seq<string>)
    ensures NewLines(a + b) == NewLines(a) + NewLines(b)
  {
    hide Numbered;
    if a == [] {
      assert a + b == b;
    } else {
      NewLinesConcat(a[1..], b);
      assert (a + b)[1..] == a[1..] + b;
    }
  }

  /** The hunk that opens at line `h` is still open before line `i`. */
  predicate OpenHunk(lines: seq<string>, h: nat, i: nat)
    requires h < i <= |lines|
  {
    && HunkHeader(lines[h]).Some? && FileHeader(lines[h]).None?
    && forall j :: h < j < i ==> FileHeader(lines[j]).None? && HunkHeader(lines[j]).None?
  }

  /** Where the scan stands before line `i`, told by the hunk that is open there. */
  ghost predicate ScanStands(lines: seq<string>, i: nat, st: Scan)
    requires i <= |lines|
  {
    && (st.inHunk <==> exists h :: 0 <= h < i && OpenHunk(lines, h, i))
    && forall h :: 0 <= h < i && OpenHunk(lines, h, i) ==>
      st.line == HunkHeader(lines[h]).value.0 + NewLines(lines[h + 1..i])
  }

  lemma ScanStep(lines: seq<string>, i: nat, st: Scan)
    requires i < |lines| && ScanStands(lines, i, st)
    ensures ScanStands(lines, i + 1, Next(lines[i], st))
  {
    hide FileHeader, HunkHeader, Numbered, NewLines;
    var line, next := lines[i], i + 1;
    assert OpenHunk(lines, i, next) <==> HunkHeader(line).Some? && FileHeader(line).None?;
    assert lines[next..next] == [];
    NewLinesNone();
    NewLinesOne(line);
    forall h | 0 <= h < i
      ensures OpenHunk(lines, h, next) <==>
        OpenHunk(lines, h, i) && FileHeader(line).None? && HunkHeader(line).None?
      ensures NewLines(lines[h + 1..next]) == NewLines(lines[h + 1..i]) + if Numbered(line) then 1 else 0
    {
      NewLinesConcat(lines[h + 1..i], [line]);
      assert lines[h + 1..next] == lines[h + 1..i] + [line];
    }
  }

  lemma NewLinesNone()
    ensures NewLines([]) == 0
  {
  }

  lemma NewLinesOne(line: string)
    ensures NewLines([line]) == if Numbered(line) then 1 else 0
  {
    hide Numbered;
    assert [line][1..] == [];
  }

  lemma {:induction false} ScanSoFar(lines: seq<string>, i: nat)
    requires i <= |lines|
    ensures ScanStands(lines, i, After(lines[..i], START))
  {
    hide Next, OpenHunk;
    if i > 0 {
      ScanSoFar(lines, i - 1);
      ScanStep(lines, i - 1, After(lines[..i - 1], START));
      AfterConcat(lines[..i - 1], [lines[i - 1]], START);
      assert lines[..i] == lines[..i - 1] + [lines[i - 1]];
    }
  }

  lemma AnnotatedAt(lines: seq<string>, i: nat)
    requires i < |lines|
    ensures Annotate(lines, START)[i] == AnnotateLine(lines[i], After(lines[..i], START))
  {
    hide AnnotateLine, Next, After;
    AnnotateConcat(lines[..i], lines[i..], START);
    assert lines == lines[..i] + lines[i..];
  }

  /** An added or context line of an open hunk gets its number: the start of the hunk and the added and context lines
      since. */
  lemma NumberedLine(lines: seq<string>, h: nat, i: nat)
    requires h < i < |lines| && OpenHunk(lines, h, i)
    requires Numbered(lines[i]) && FileHeader(lines[i]).None? && HunkHeader(lines[i]).None?
    ensures Annotate(lines, START)[i] ==
      "[L" + Dec(HunkHeader(lines[h]).value.0 + NewLines(lines[h + 1..i])) + "]" + lines[i]
  {
    hide FileHeader, HunkHeader, Numbered, Next, After, NewLines, Annotate;
    ScanSoFar(lines, i);
    AnnotatedAt(lines, i);
  }

  /** Every other line stays as it is. */
  lemma OtherLine(lines: seq<string>, i: nat)
    requires i < |lines|
    requires Numbered(lines[i]) && FileHeader(lines[i]).None? && HunkHeader(lines[i]).None? ==>
      forall h :: 0 <= h < i ==> !OpenHunk(lines, h, i)
    ensures Annotate(lines, START)[i] == lines[i]
  {
    hide FileHeader, HunkHeader, Numbered, Next, After, NewLines, Annotate;
    ScanSoFar(lines, i);
    AnnotatedAt(lines, i);
  }

  // ---- From lines to text ----

  lemma {:induction false} AnnotatedLinesAreLines(lines: seq<string>, st: Scan)
    requires forall i :: 0 <= i < |lines| ==> OneLine(lines[i])
    ensures forall i :: 0 <= i < |lines| ==> OneLine(Annotate(lines, st)[i])
  {
    hide FileHeader, HunkHeader, Next;
    if lines != [] {
      AnnotatedLinesAreLines(lines[1..], Next(lines[0], st));
      DecRoundTrip(st.line);
      assert OneLine(Marker(st.line) + lines[0]);
    }
  }

  lemma DroppedLineHasNoMark(lines: seq<string>, current: Option<string>)
    ensures Marks(DropTrailingEmpty(lines), current) == Marks(lines, current)
  {
    if lines != [] && lines[|lines| - 1] == "" {
      var front := lines[..|lines| - 1];
      MarksConcat(front, [""], current);
      assert lines == front + [""];
      assert Marks([""], FileAfter(front, current)) == [];
    }
  }

  /** The annotated text, read back line by line, carries the marks of the annotated lines. */
  lemma AnnotatedTextMarks(text: string)
    ensures var annotated := JoinLines(Annotate(SplitLines(text), START));
      Marks(SplitLines(annotated), None) == Marks(Annotate(SplitLines(text), START), None)
  {
    hide Marks, Annotate, SplitLines, JoinLines, DropTrailingEmpty;
    var out := Annotate(SplitLines(text), START);
    LinesAreLines(text);
    AnnotatedLinesAreLines(SplitLines(text), START);
    SplitJoin(out);
    DroppedLineHasNoMark(out, None);
  }

  lemma {:induction false} CoveredIsSelected(pairs: seq<(string, Range)>, f: string, n: int)
    ensures Covered(pairs, f, n) <==> exists r :: r in Select(pairs, f) && r.first <= n <= r.last
  {
    if pairs != [] {
      CoveredIsSelected(pairs[1..], f, n);
      CoveredConcat([pairs[0]], pairs[1..], f, n);
      assert pairs == [pairs[0]] + pairs[1..];
      assert Covered([pairs[0]], f, n) <==> pairs[0].0 == f && pairs[0].1.first <= n <= pairs[0].1.last by {
        assert [pairs[0]][0] == pairs[0];
      }
    }
  }
}
