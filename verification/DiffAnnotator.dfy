/** The unified-diff scanners: they read the same text separately and must agree on line numbers. */
module DiffAnnotator {
  import opened Wrappers
  import opened Text

  // ---- Line patterns ----

  /** `^\+\+\+ b/(.+)$` */
  function FileHeader(line: string): Option<string> {
    if "+++ b/" <= line && |line| > 6 then Some(line[6..]) else None
  }

  /** `(?:,(\d+))?` at `i`: the end of the group, or `i`. */
  function CountEnd(line: string, i: nat): (j: nat)
    requires i <= |line|
    ensures i <= j <= |line|
    ensures j > i ==> j > i + 1 && forall k :: i < k < j ==> IsDigit(line[k])
  {
    if i < |line| && line[i] == ',' && DigitEnd(line, i + 1) > i + 1 then DigitEnd(line, i + 1) else i
  }

  /** `^@@ -\d+(?:,\d+)? \+(\d+)(?:,(\d+))? @@`: the new start and the new count, if given. */
  function HunkHeader(line: string): Option<(nat, Option<nat>)> {
    if !("@@ -" <= line) || DigitEnd(line, 4) == 4 then None
    else
      var a := CountEnd(line, DigitEnd(line, 4));
      if !(a + 1 < |line| && line[a] == ' ' && line[a + 1] == '+') || DigitEnd(line, a + 2) == a + 2 then None
      else
        var b := DigitEnd(line, a + 2);
        var c := CountEnd(line, b);
        if !(c + 2 < |line| && line[c] == ' ' && line[c + 1] == '@' && line[c + 2] == '@') then None
        else Some((NatOf(line[a + 2..b]), if c == b then None else Some(NatOf(line[b + 1..c]))))
  }

  function Marker(n: nat): string {
    "[L" + Dec(n) + "]"
  }

  /** `^\[L(\d+)\]` */
  function MarkerOf(line: string): Option<nat> {
    if !("[L" <= line) then None
    else
      var i := DigitEnd(line, 2);
      if i == 2 || i == |line| || line[i] != ']' then None else Some(NatOf(line[2..i]))
  }

  // ---- parse_hunk_ranges ----

  /** Inclusive new-file line numbers. */
  datatype Range = Range(first: nat, last: nat)

  function RangeOf(header: (nat, Option<nat>)): Option<Range> {
    var count := if header.1.Some? then header.1.value else 1;
    if count == 0 then None else Some(Range(header.0, header.0 + count - 1))
  }

  function CurrentFile(line: string, current: Option<string>): Option<string> {
    if FileHeader(line).Some? then FileHeader(line) else current
  }

  function LineRange(line: string, file: Option<string>): seq<(string, Range)> {
    if FileHeader(line).Some? || HunkHeader(line).None? || file.None? then []
    else
      match RangeOf(HunkHeader(line).value)
      case None => []
      case Some(r) => [(file.value, r)]
  }

  /** The ranges in order, each with its file. */
  function RangesFrom(lines: seq<string>, current: Option<string>): seq<(string, Range)> {
    if lines == [] then []
    else
      var file := CurrentFile(lines[0], current);
      LineRange(lines[0], file) + RangesFrom(lines[1..], file)
  }

  function Select<T>(pairs: seq<(string, T)>, file: string): seq<T> {
    if pairs == [] then [] else (if pairs[0].0 == file then [pairs[0].1] else []) + Select(pairs[1..], file)
  }

  ghost predicate Groups(ranges: map<string, seq<Range>>, pairs: seq<(string, Range)>) {
    forall f :: (f in ranges <==> Select(pairs, f) != []) && (f in ranges ==> ranges[f] == Select(pairs, f))
  }

  lemma {:induction false} SelectSnoc<T>(pairs: seq<(string, T)>, p: (string, T))
    ensures forall f :: Select(pairs + [p], f) == Select(pairs, f) + if p.0 == f then [p.1] else []
  {
    if pairs == [] {
      assert pairs + [p] == [p];
    } else {
      SelectSnoc(pairs[1..], p);
      assert (pairs + [p])[1..] == pairs[1..] + [p];
    }
  }

  lemma NoGroups()
    ensures Groups(map[], [])
  {
  }

  function AddRange(ranges: map<string, seq<Range>>, file: string, r: Range): map<string, seq<Range>> {
    ranges[file := (if file in ranges then ranges[file] else []) + [r]]
  }

  lemma GroupsSnoc(ranges: map<string, seq<Range>>, pairs: seq<(string, Range)>, file: string, r: Range)
    requires Groups(ranges, pairs)
    ensures Groups(AddRange(ranges, file, r), pairs + [(file, r)])
  {
    var grown, longer := AddRange(ranges, file, r), pairs + [(file, r)];
    SelectSnoc(pairs, (file, r));
    forall f
      ensures f in grown <==> Select(longer, f) != []
      ensures f in grown ==> grown[f] == Select(longer, f)
    {
      assert Select(pairs, f) + [] == Select(pairs, f);
    }
    assert Groups(grown, longer);
  }

  lemma RangesStep(lines: seq<string>, i: nat, current: Option<string>)
    requires i < |lines|
    ensures var file := CurrentFile(lines[i], current);
      RangesFrom(lines[i..], current) == LineRange(lines[i], file) + RangesFrom(lines[i + 1..], file)
  {
    assert lines[i..][1..] == lines[i + 1..];
  }

  lemma NoRanges(current: Option<string>)
    ensures RangesFrom([], current) == []
  {
  }

  method ParseHunkRanges(diffText: string) returns (ranges: map<string, seq<Range>>)
    ensures Groups(ranges, RangesFrom(SplitLines(diffText), None))
  {
    ranges := map[];
    var currentFile: Option<string> := None;
    hide SplitLines, FileHeader, HunkHeader, Groups, RangesFrom, AddRange;
    var lines := SplitLines(diffText);
    ghost var done: seq<(string, Range)> := [];
    assert Groups(ranges, done) by {
      NoGroups();
    }
    for i := 0 to |lines|
      invariant Groups(ranges, done)
      invariant done + RangesFrom(lines[i..], currentFile) == RangesFrom(lines, None)
    {
      var line := lines[i];
      RangesStep(lines, i, currentFile);
      var fileMatch := FileHeader(line);
      if fileMatch.Some? {
        currentFile := fileMatch;
        continue;
      }
      var hunkMatch := HunkHeader(line);
      if hunkMatch.Some? && currentFile.Some? {
        var start := hunkMatch.value.0;
        var count := if hunkMatch.value.1.Some? then hunkMatch.value.1.value else 1;
        if count == 0 {
          continue;
        }
        var end := start + count - 1;
        var file := currentFile.value;
        GroupsSnoc(ranges, done, file, Range(start, end));
        assert done + ([(file, Range(start, end))] + RangesFrom(lines[i + 1..], currentFile))
            == done + [(file, Range(start, end))] + RangesFrom(lines[i + 1..], currentFile);
        ranges := AddRange(ranges, file, Range(start, end));
        done := done + [(file, Range(start, end))];
      }
    }
    NoRanges(currentFile);
    assert lines[|lines|..] == [] && done == RangesFrom(lines, None);
  }

  // ---- annotate_diff ----

  datatype Scan = Scan(line: nat, inHunk: bool)

  function Next(line: string, st: Scan): Scan {
    if FileHeader(line).Some? then st.(inHunk := false)
    else if HunkHeader(line).Some? then Scan(HunkHeader(line).value.0, true)
    else if st.inHunk && Numbered(line) then st.(line := st.line + 1)
    else st
  }

  predicate StartsWith(line: string, c: char) {
    line != "" && line[0] == c
  }

  predicate Numbered(line: string) {
    StartsWith(line, '+') || StartsWith(line, ' ')
  }

  predicate IsMarked(line: string, st: Scan) {
    FileHeader(line).None? && HunkHeader(line).None? && st.inHunk && Numbered(line)
  }

  function AnnotateLine(line: string, st: Scan): string {
    if IsMarked(line, st) then Marker(st.line) + line else line
  }

  function Annotate(lines: seq<string>, st: Scan): (out: seq<string>)
    ensures |out| == |lines|
  {
    if lines == [] then [] else [AnnotateLine(lines[0], st)] + Annotate(lines[1..], Next(lines[0], st))
  }

  const START := Scan(0, false)

  method AnnotateDiff(diffText: string) returns (r: string)
    ensures r == JoinLines(Annotate(SplitLines(diffText), START))
  {
    hide SplitLines, FileHeader, HunkHeader, JoinLines, Marker;
    var outputLines: seq<string> := [];
    var currentLine, inHunk := 0, false;
    var lines := SplitLines(diffText);
    for i := 0 to |lines|
      invariant outputLines + Annotate(lines[i..], Scan(currentLine, inHunk)) == Annotate(lines, START)
    {
      var line := lines[i];
      ghost var st := Scan(currentLine, inHunk);
      assert lines[i..][1..] == lines[i + 1..];
      assert outputLines + ([AnnotateLine(line, st)] + Annotate(lines[i + 1..], Next(line, st)))
          == outputLines + [AnnotateLine(line, st)] + Annotate(lines[i + 1..], Next(line, st));
      if FileHeader(line).Some? {
        inHunk := false;
        outputLines := outputLines + [line];
        continue;
      }
      var hunkMatch := HunkHeader(line);
      if hunkMatch.Some? {
        currentLine := hunkMatch.value.0;
        inHunk := true;
        outputLines := outputLines + [line];
        continue;
      }
      if !inHunk {
        outputLines := outputLines + [line];
        continue;
      }
      if StartsWith(line, '-') {
        outputLines := outputLines + [line];
      } else if StartsWith(line, '+') || StartsWith(line, ' ') {
        outputLines := outputLines + [Marker(currentLine) + line];
        currentLine := currentLine + 1;
      } else {
        outputLines := outputLines + [line];
      }
    }
    assert outputLines == Annotate(lines, START);
    r := JoinLines(outputLines);
  }

  // ---- filter_findings ----

  /** The `line` of a finding: missing, a number, or a value that cannot be compared with one. */
  datatype LineField = NoLine | Line(n: int) | NoNumber

  datatype Finding = Finding(file: Option<string>, line: LineField, text: string) {
    function File(): string {
      if file.Some? then file.value else ""
    }

    function LineNumber(): int {
      if line.Line? then line.n else 0
    }
  }

  datatype FilterResult = FilterResult(filtered: seq<Finding>, unpostable: seq<Finding>, allUnpostable: bool)

  predicate InRanges(ranges: map<string, seq<Range>>, file: string, line: int) {
    file in ranges && exists r :: r in ranges[file] && r.first <= line <= r.last
  }

  predicate InRange(f: Finding, ranges: map<string, seq<Range>>) {
    f.line != NoNumber && InRanges(ranges, f.File(), f.LineNumber())
  }

  /** What the filter keeps: with no range at all, everything. */
  predicate Kept(f: Finding, ranges: map<string, seq<Range>>) {
    ranges == map[] || InRange(f, ranges)
  }

  /** Comparing the finding's line with a range raises. */
  predicate Unusable(f: Finding, ranges: map<string, seq<Range>>) {
    f.line == NoNumber && f.File() in ranges && ranges[f.File()] != []
  }

  function FilterBy<T>(s: seq<T>, p: T -> bool): seq<T> {
    if s == [] then [] else (if p(s[0]) then [s[0]] else []) + FilterBy(s[1..], p)
  }

  function IsKept(ranges: map<string, seq<Range>>): Finding -> bool {
    f => Kept(f, ranges)
  }

  function IsNotKept(ranges: map<string, seq<Range>>): Finding -> bool {
    f => !Kept(f, ranges)
  }

  lemma {:induction false} FilterSnoc<T>(s: seq<T>, x: T, p: T -> bool)
    ensures FilterBy(s + [x], p) == FilterBy(s, p) + if p(x) then [x] else []
  {
    if s == [] {
      assert s + [x] == [x];
    } else {
      FilterSnoc(s[1..], x, p);
      assert (s + [x])[1..] == s[1..] + [x];
    }
  }

  lemma {:induction false} FilterAll<T>(s: seq<T>, p: T -> bool, keep: bool)
    requires forall x :: p(x) == keep
    ensures FilterBy(s, p) == if keep then s else []
  {
    if s != [] {
      FilterAll(s[1..], p, keep);
      assert s == [s[0]] + s[1..];
    }
  }

  /** The two lists split the findings in order, into those kept and the others; unless comparing raises. */
  method FilterFindings(findings: seq<Finding>, ranges: map<string, seq<Range>>)
    returns (raised: bool, r: FilterResult)
    ensures raised <==> ranges != map[] && exists i :: 0 <= i < |findings| && Unusable(findings[i], ranges)
    ensures !raised ==>
      && r.filtered == FilterBy(findings, IsKept(ranges)) && r.unpostable == FilterBy(findings, IsNotKept(ranges))
      && (r.allUnpostable <==> findings != [] && r.filtered == [])
  {
    raised, r := false, FilterResult([], [], false);
    if findings == [] {
      return;
    }
    if ranges == map[] {
      FilterAll(findings, IsKept(ranges), true);
      FilterAll(findings, IsNotKept(ranges), false);
      return false, FilterResult(findings, [], false);
    }
    var filtered: seq<Finding> := [];
    var unpostable: seq<Finding> := [];
    for i := 0 to |findings|
      invariant filtered == FilterBy(findings[..i], IsKept(ranges))
      invariant unpostable == FilterBy(findings[..i], IsNotKept(ranges))
      invariant forall j :: 0 <= j < i ==> !Unusable(findings[j], ranges)
    {
      var finding := findings[i];
      FilterSnoc(findings[..i], finding, IsKept(ranges));
      FilterSnoc(findings[..i], finding, IsNotKept(ranges));
      assert findings[..i + 1] == findings[..i] + [finding];
      var fileRanges := if finding.File() in ranges then ranges[finding.File()] else [];
      if fileRanges != [] && finding.line == NoNumber {
        return true, r;
      }
      if exists r :: r in fileRanges && r.first <= finding.LineNumber() <= r.last {
        filtered := filtered + [finding];
      } else {
        unpostable := unpostable + [finding];
      }
    }
    assert findings[..|findings|] == findings;
    r := FilterResult(filtered, unpostable, filtered == []);
  }

  // ---- extract_code_region ----

  /** The marked lines of one file's section within a window, up to the next file header. */
  function Extract(lines: seq<string>, file: string, lo: int, hi: int, inFile: bool): seq<string> {
    if lines == [] then []
    else if FileHeader(lines[0]).Some? then
      if inFile then [] else Extract(lines[1..], file, lo, hi, FileHeader(lines[0]).value == file)
    else
      (if inFile && InWindow(lines[0], lo, hi) then [lines[0]] else [])
      + Extract(lines[1..], file, lo, hi, inFile)
  }

  predicate InWindow(line: string, lo: int, hi: int) {
    MarkerOf(line).Some? && lo <= MarkerOf(line).value <= hi
  }

  lemma ExtractStep(lines: seq<string>, i: nat, file: string, lo: int, hi: int, inFile: bool, collected: seq<string>)
    requires i < |lines|
    ensures collected + Extract(lines[i..], file, lo, hi, inFile) ==
      if FileHeader(lines[i]).Some? then
        if inFile then collected
        else collected + Extract(lines[i + 1..], file, lo, hi, FileHeader(lines[i]).value == file)
      else if inFile && InWindow(lines[i], lo, hi) then
        collected + [lines[i]] + Extract(lines[i + 1..], file, lo, hi, inFile)
      else collected + Extract(lines[i + 1..], file, lo, hi, inFile)
  {
    hide FileHeader, MarkerOf;
    assert lines[i..][1..] == lines[i + 1..];
  }

  lemma ExtractNothing(file: string, lo: int, hi: int, inFile: bool)
    ensures Extract([], file, lo, hi, inFile) == []
  {
  }

  lemma NothingToExtract(file: string, lo: int, hi: int)
    ensures JoinLines(Extract(SplitLines(""), file, lo, hi, false)) == ""
  {
  }

  method ExtractCodeRegion(annotated: string, file: string, line: int, context: int) returns (r: string)
    ensures r == JoinLines(Extract(SplitLines(annotated), file, line - context, line + context, false))
  {
    hide SplitLines, FileHeader, MarkerOf, JoinLines, Extract;
    if annotated == "" {
      NothingToExtract(file, line - context, line + context);
      return "";
    }
    var lines := SplitLines(annotated);
    var inFile := false;
    var collected: seq<string> := [];
    var lo, hi := line - context, line + context;
    for i := 0 to |lines|
      invariant collected + Extract(lines[i..], file, lo, hi, inFile) == Extract(lines, file, lo, hi, false)
    {
      var rawLine := lines[i];
      ExtractStep(lines, i, file, lo, hi, inFile, collected);
      var header := FileHeader(rawLine);
      if header.Some? {
        if inFile {
          break;
        }
        if header.value == file {
          inFile := true;
        }
        continue;
      }
      if !inFile {
        continue;
      }
      var marker := MarkerOf(rawLine);
      if marker.Some? {
        if lo <= marker.value <= hi {
          collected := collected + [rawLine];
        }
      }
    }
    assert collected == Extract(lines, file, lo, hi, false) by {
      ExtractNothing(file, lo, hi, inFile);
      assert lines[|lines|..] == [];
    }
    r := JoinLines(collected);
  }
}
