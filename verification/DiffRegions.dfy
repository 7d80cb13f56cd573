/** Findings and code regions against the marks of the annotated text. */
module DiffRegions {
  import opened Wrappers
  import opened Text
  import opened DiffAnnotator
  import opened DiffAgreement
  import opened DiffSections

  /** The paths of the file headers, in order. */
  function Headers(lines: seq<string>): seq<string> {
    if lines == [] then []
    else LineHeader(lines[0]) + Headers(lines[1..])
  }

  function LineHeader(line: string): seq<string> {
    if FileHeader(line).Some? then [FileHeader(line).value] else []
  }

  /** The texts of one file's marks within a window. */
  function Texts(marks: seq<Mark>, file: string, lo: int, hi: int): seq<string> {
    if marks == [] then []
    else TextOf(marks[0], file, lo, hi) + Texts(marks[1..], file, lo, hi)
  }

  function TextOf(m: Mark, file: string, lo: int, hi: int): seq<string> {
    if m.file == file && lo <= m.line <= hi then [m.text] else []
  }

  // ---- Extraction ----

  lemma {:induction false} TextsConcat(a: seq<Mark>, b: seq<Mark>, file: string, lo: int, hi: int)
    ensures Texts(a + b, file, lo, hi) == Texts(a, file, lo, hi) + Texts(b, file, lo, hi)
  {
    hide TextOf;
    if a == [] {
      assert a + b == b;
    } else {
      TextsConcat(a[1..], b, file, lo, hi);
      assert (a + b)[1..] == a[1..] + b;
    }
  }

  /** One line's contribution to the marked texts. */
  lemma TextsStep(lines: seq<string>, current: Option<string>, file: string, lo: int, hi: int)
    requires lines != []
    ensures var next := CurrentFile(lines[0], current);
      Texts(Marks(lines, current), file, lo, hi) ==
        (if FileHeader(lines[0]).None? && next == Some(file) && InWindow(lines[0], lo, hi) then [lines[0]] else [])
        + Texts(Marks(lines[1..], next), file, lo, hi)
  {
    hide FileHeader, MarkerOf, CurrentFile;
    var next := CurrentFile(lines[0], current);
    TextsConcat(LineMark(lines[0], next), Marks(lines[1..], next), file, lo, hi);
  }

  lemma {:induction false} OutsideIsEmpty(lines: seq<string>, current: Option<string>, file: string, lo: int, hi: int)
    requires current != Some(file) && file !in Headers(lines)
    ensures Texts(Marks(lines, current), file, lo, hi) == []
  {
    hide FileHeader, InWindow, Texts, Marks;
    if lines == [] {
      NoTexts(current, file, lo, hi);
    } else {
      OutsideIsEmpty(lines[1..], CurrentFile(lines[0], current), file, lo, hi);
      TextsStep(lines, current, file, lo, hi);
    }
  }

  lemma NoTexts(current: Option<string>, file: string, lo: int, hi: int)
    ensures Texts(Marks([], current), file, lo, hi) == []
  {
  }

  lemma {:induction false} InsideIsMarked(lines: seq<string>, file: string, lo: int, hi: int)
    requires file !in Headers(lines)
    ensures Extract(lines, file, lo, hi, true) == Texts(Marks(lines, Some(file)), file, lo, hi)
  {
    hide FileHeader, InWindow, Texts, Marks;
    if lines == [] {
      NoTexts(Some(file), file, lo, hi);
    } else {
      TextsStep(lines, Some(file), file, lo, hi);
      if FileHeader(lines[0]).Some? {
        OutsideIsEmpty(lines[1..], FileHeader(lines[0]), file, lo, hi);
      } else {
        InsideIsMarked(lines[1..], file, lo, hi);
      }
    }
  }

  lemma HeaderCount(lines: seq<string>, file: string)
    requires lines != [] && multiset(Headers(lines))[file] <= 1
    ensures FileHeader(lines[0]) == Some(file) ==> file !in Headers(lines[1..])
    ensures multiset(Headers(lines[1..]))[file] <= 1
  {
    hide FileHeader;
    var rest := Headers(lines[1..]);
    assert multiset(Headers(lines)) == multiset(LineHeader(lines[0])) + multiset(rest);
    assert file in rest <==> file in multiset(rest);
  }

  /** On any lines that open a file's section at most once, extraction yields that file's marked lines in the window. */
  lemma {:induction false} ExtractIsMarked(lines: seq<string>, current: Option<string>, file: string, lo: int, hi: int)
    requires current != Some(file) && multiset(Headers(lines))[file] <= 1
    ensures Extract(lines, file, lo, hi, false) == Texts(Marks(lines, current), file, lo, hi)
  {
    hide FileHeader, InWindow, Texts, Marks, Headers;
    if lines == [] {
      NoTexts(current, file, lo, hi);
    } else {
      TextsStep(lines, current, file, lo, hi);
      HeaderCount(lines, file);
      if FileHeader(lines[0]) == Some(file) {
        InsideIsMarked(lines[1..], file, lo, hi);
      } else {
        ExtractIsMarked(lines[1..], CurrentFile(lines[0], current), file, lo, hi);
      }
    }
  }

  // ---- The headers of a well-formed diff ----

  lemma {:induction false} HeadersConcat(a: seq<string>, b: seq<string>)
    ensures Headers(a + b) == Headers(a) + Headers(b)
  {
    hide LineHeader;
    if a == [] {
      assert a + b == b;
    } else {
      HeadersConcat(a[1..], b);
      assert (a + b)[1..] == a[1..] + b;
      var first, middle, last := LineHeader(a[0]), Headers(a[1..]), Headers(b);
      assert first + (middle + last) == (first + middle) + last;
    }
  }

  lemma {:induction false} NoHeaders(lines: seq<string>)
    requires forall i :: 0 <= i < |lines| ==> FileHeader(lines[i]).None?
    ensures Headers(lines) == []
  {
    hide FileHeader;
    if lines != [] {
      NoHeaders(lines[1..]);
    }
  }

  lemma {:induction false} HunksHeaders(hunks: seq<Hunk>)
    requires forall j :: 0 <= j < |hunks| ==> WellFormedHunk(hunks[j])
    ensures Headers(RenderHunks(hunks)) == []
  {
    hide FileHeader, HunkLine, NewLines;
    if hunks != [] {
      HunksHeaders(hunks[1..]);
      HunkLineParses(hunks[0]);
      NoHeaders(hunks[0].body);
      HeadersConcat([HunkLine(hunks[0])], hunks[0].body);
      HeadersConcat(RenderHunk(hunks[0]), RenderHunks(hunks[1..]));
    }
  }

  /** Only a changed file has a header that the scanners know. */
  lemma SectionHeaders(f: Section)
    requires WellFormedSection(f)
    ensures Headers(RenderSection(f)) == if f.Changed? then [f.path] else []
  {
    hide FileHeader, WellFormedHunk, RenderHunks, HunkHeader, MarkerOf, Numbered;
    assert forall j :: 0 <= j < |f.preamble| ==> PlainLine(f.preamble[j]);
    NoHeaders(f.preamble);
    match f {
      case Changed(preamble, path, hunks) =>
        ChangedHead(path);
        assert HunksOf(f) == hunks;
        HunksHeaders(hunks);
        HeadersConcat(preamble, ["+++ b/" + path] + RenderHunks(hunks));
        HeadersConcat(["+++ b/" + path], RenderHunks(hunks));
      case Nameless(preamble, header, hunks) =>
        assert HunksOf(f) == hunks;
        HunksHeaders(hunks);
        HeadersConcat(preamble, [header] + RenderHunks(hunks));
        HeadersConcat([header], RenderHunks(hunks));
      case Bare(preamble) =>
    }
  }

  lemma ChangedHead(path: string)
    requires path != ""
    ensures FileHeader("+++ b/" + path) == Some(path)
  {
    assert ("+++ b/" + path)[6..] == path;
  }

  lemma {:induction false} DiffHeaders(diff: seq<Section>)
    requires WellFormed(diff)
    ensures Headers(Render(diff)) == Paths(diff)
  {
    hide RenderSection, WellFormedSection;
    if diff != [] {
      SectionHeaders(diff[0]);
      DiffHeaders(diff[1..]);
      HeadersConcat(RenderSection(diff[0]), Render(diff[1..]));
    }
  }

  lemma {:induction false} AnnotateKeepsHeaders(lines: seq<string>, st: Scan)
    ensures Headers(Annotate(lines, st)) == Headers(lines)
  {
    hide FileHeader, AnnotateLine, Next;
    if lines != [] {
      AnnotateKeepsHeader(lines[0], st);
      AnnotateKeepsHeaders(lines[1..], Next(lines[0], st));
    }
  }

  lemma EmptyLineIsNoHeader()
    ensures Headers([""]) == []
  {
  }

  lemma DroppedLineIsNoHeader(lines: seq<string>)
    ensures Headers(DropTrailingEmpty(lines)) == Headers(lines)
  {
    hide Headers;
    if lines != [] && lines[|lines| - 1] == "" {
      var front := lines[..|lines| - 1];
      EmptyLineIsNoHeader();
      HeadersConcat(front, [""]);
      assert lines == front + [""];
    }
  }

  lemma AnnotatedTextHeaders(text: string)
    ensures Headers(SplitLines(JoinLines(Annotate(SplitLines(text), START)))) == Headers(SplitLines(text))
  {
    hide Headers, Annotate, SplitLines, JoinLines, DropTrailingEmpty;
    var out := Annotate(SplitLines(text), START);
    LinesAreLines(text);
    AnnotatedLinesAreLines(SplitLines(text), START);
    SplitJoin(out);
    DroppedLineIsNoHeader(out);
    AnnotateKeepsHeaders(SplitLines(text), START);
  }

  // ---- Findings ----

  lemma {:induction false} DistinctOnce(s: seq<string>, x: string)
    requires forall i, j :: 0 <= i < j < |s| ==> s[i] != s[j]
    ensures multiset(s)[x] <= 1
  {
    if s != [] {
      DistinctOnce(s[1..], x);
      assert s == [s[0]] + s[1..];
      assert s[0] !in s[1..];
    }
  }

  lemma {:induction false} MarkedHasText(marks: seq<Mark>, file: string, line: int, lo: int, hi: int)
    requires Marked(marks, file, line) && lo <= line <= hi
    ensures Texts(marks, file, lo, hi) != []
  {
    var i :| 0 <= i < |marks| && marks[i].file == file && marks[i].line == line;
    if i > 0 {
      assert marks[1..][i - 1] == marks[i];
      MarkedHasText(marks[1..], file, line, lo, hi);
    }
  }

  lemma {:induction false} TextsAreMarked(lines: seq<string>, current: Option<string>, file: string, lo: int, hi: int)
    ensures "" !in Texts(Marks(lines, current), file, lo, hi)
  {
    hide FileHeader, Texts, Marks;
    if lines == [] {
      NoTexts(current, file, lo, hi);
    } else {
      TextsAreMarked(lines[1..], CurrentFile(lines[0], current), file, lo, hi);
      TextsStep(lines, current, file, lo, hi);
    }
  }

  lemma TextNeedsMark(marks: seq<Mark>, file: string, lo: int, hi: int) returns (n: int)
    requires Texts(marks, file, lo, hi) != []
    ensures lo <= n <= hi && Marked(marks, file, n)
  {
    if TextOf(marks[0], file, lo, hi) != [] {
      n := marks[0].line;
    } else {
      n := TextNeedsMark(marks[1..], file, lo, hi);
      var i :| 0 <= i < |marks[1..]| && marks[1..][i].file == file && marks[1..][i].line == n;
      assert marks[i + 1] == marks[1..][i];
    }
  }

  /** A diff as read by the scanners: its text, the ranges reported, and the annotated text. */
  ghost predicate Read(text: string, diff: seq<Section>, ranges: map<string, seq<Range>>, annotated: string) {
    && WellFormed(diff) && SplitLines(text) == Render(diff)
    && Groups(ranges, RangesFrom(SplitLines(text), None))
    && annotated == JoinLines(Annotate(SplitLines(text), START))
  }

  /** What `extract_code_region` returns. */
  function Region(annotated: string, file: string, line: int, context: int): string {
    JoinLines(Extract(SplitLines(annotated), file, line - context, line + context, false))
  }

  predicate NearStray(strays: set<(string, int)>, file: string, line: int, context: int) {
    exists x :: x in strays && x.0 == file && line - context <= x.1 <= line + context
  }

  /** With each file once, a region is its file's marked lines in the window, and it is empty exactly when the window
      holds no mark. */
  lemma RegionIsMarked(
      text: string, diff: seq<Section>, ranges: map<string, seq<Range>>, annotated: string, file: string, line: int,
      context: int)
    requires Read(text, diff, ranges, annotated) && DistinctPaths(diff)
    ensures var marks, lo, hi := Marks(SplitLines(annotated), None), line - context, line + context;
      && Extract(SplitLines(annotated), file, lo, hi, false) == Texts(marks, file, lo, hi)
      && (Region(annotated, file, line, context) != "" <==> exists n :: lo <= n <= hi && Marked(marks, file, n))
  {
    hide SplitLines, Annotate, RangesFrom, Render, WellFormed, Groups, Extract, Marks, Texts, Headers, Marked;
    var lines, lo, hi := SplitLines(annotated), line - context, line + context;
    AnnotatedTextHeaders(text);
    DiffHeaders(diff);
    DistinctOnce(Paths(diff), file);
    ExtractIsMarked(lines, None, file, lo, hi);
    TextsAreMarked(lines, None, file, lo, hi);
    var marks := Marks(lines, None);
    var region := Texts(marks, file, lo, hi);
    if region != [] {
      var n := TextNeedsMark(marks, file, lo, hi);
      assert region[0] in region && JoinLines(region) != "";
    }
    if n :| lo <= n <= hi && Marked(marks, file, n) {
      MarkedHasText(marks, file, n, lo, hi);
    }
  }

  /** The region of a kept finding is not empty, exactly when some range was reported or a stray's or lookalike's number
      lies in the finding's window. */
  lemma KeptFindingsHaveRegions(
      text: string, diff: seq<Section>, ranges: map<string, seq<Range>>, annotated: string, f: Finding, context: nat)
    requires Read(text, diff, ranges, annotated) && DistinctPaths(diff) && Kept(f, ranges)
    ensures Region(annotated, f.File(), f.LineNumber(), context) != "" <==>
      || ranges != map[]
      || NearStray(Strays(diff, START, None) + DiffLookalikes(diff, None), f.File(), f.LineNumber(), context)
  {
    hide SplitLines, Annotate, RangesFrom, Render, WellFormed, Groups, Marks, Marked, Region, Strays, DiffLookalikes;
    var strays := Strays(diff, START, None) + DiffLookalikes(diff, None);
    var marks, file, line := Marks(SplitLines(annotated), None), f.File(), f.LineNumber();
    MarkersMatchRanges(text, diff, ranges, annotated);
    RegionIsMarked(text, diff, ranges, annotated, file, line, context);
    if ranges != map[] {
      assert line - context <= line <= line + context && Marked(marks, file, line);
    } else {
      if n :| line - context <= n <= line + context && Marked(marks, file, n) {
        assert (file, n) in strays;
      }
      if x :| x in strays && x.0 == file && line - context <= x.1 <= line + context {
        assert (x.0, x.1) == x && Marked(marks, file, x.1);
      }
    }
  }

  lemma {:induction false} StraysHavePaths(diff: seq<Section>, st: Scan, current: Option<string>, x: (string, int))
    requires x in Strays(diff, st, current) + DiffLookalikes(diff, current)
    ensures x.0 in Paths(diff) || current == Some(x.0)
  {
    hide HunksEnd, AllSurplus, AllLookalikes;
    if diff != [] {
      var f := diff[0];
      SurplusIsOwn(HunksOf(f), FileOf(f, current));
      LookalikesAreOwn(HunksOf(f), FileOf(f, current));
      if x in Strays(diff[1..], SectionEnd(f, st), FileOf(f, current)) + DiffLookalikes(diff[1..], FileOf(f, current)) {
        StraysHavePaths(diff[1..], SectionEnd(f, st), FileOf(f, current), x);
      }
    }
  }

  lemma {:induction false} LookalikesAreOwn(hunks: seq<Hunk>, current: Option<string>)
    ensures forall x :: x in AllLookalikes(hunks, current) ==> current == Some(x.0)
  {
    hide Lookalikes;
    if hunks != [] {
      LookalikesAreOwn(hunks[1..], current);
    }
  }

  lemma {:induction false} NoEmptyPath(diff: seq<Section>)
    requires WellFormed(diff)
    ensures "" !in Paths(diff)
  {
    hide WellFormedHunk, PlainLine, NamelessHeader;
    if diff != [] {
      assert WellFormedSection(diff[0]);
      NoEmptyPath(diff[1..]);
    }
  }

  /** A finding without a file and a line. */
  const NOWHERE := Finding(None, NoLine, "")

  lemma NowhereIsUnmarked(text: string, diff: seq<Section>, ranges: map<string, seq<Range>>, annotated: string, n: int)
    requires Read(text, diff, ranges, annotated) && ranges == map[]
    ensures Kept(NOWHERE, ranges) && !Marked(Marks(SplitLines(annotated), None), NOWHERE.File(), n)
  {
    hide SplitLines, Annotate, RangesFrom, Render, WellFormed, Groups, Marks, Marked, Strays, DiffLookalikes;
    MarkersMatchRanges(text, diff, ranges, annotated);
    NoEmptyPath(diff);
    if ("", n) in Strays(diff, START, None) + DiffLookalikes(diff, None) {
      StraysHavePaths(diff, START, None, ("", n));
    }
  }

  /** Every kept finding has a region, exactly when some range was reported. */
  lemma AllKeptHaveRegions(
      text: string, diff: seq<Section>, ranges: map<string, seq<Range>>, annotated: string, context: nat)
    requires Read(text, diff, ranges, annotated) && DistinctPaths(diff)
    ensures (forall f :: Kept(f, ranges) ==> Region(annotated, f.File(), f.LineNumber(), context) != "")
      <==> ranges != map[]
  {
    hide *;
    if ranges == map[] {
      forall n
        ensures !Marked(Marks(SplitLines(annotated), None), NOWHERE.File(), n)
      {
        NowhereIsUnmarked(text, diff, ranges, annotated, n);
      }
      NowhereIsUnmarked(text, diff, ranges, annotated, 0);
      RegionIsMarked(text, diff, ranges, annotated, NOWHERE.File(), NOWHERE.LineNumber(), context);
    } else {
      forall f | Kept(f, ranges)
        ensures Region(annotated, f.File(), f.LineNumber(), context) != ""
      {
        KeptFindingsHaveRegions(text, diff, ranges, annotated, f, context);
      }
    }
  }

  /** On regular diffs a finding with a line number is kept iff its line is marked, exactly when some range was reported
      and marks and ranges agree. */
  lemma KeptIffMarked(text: string, diff: seq<Section>, ranges: map<string, seq<Range>>, annotated: string)
    requires Read(text, diff, ranges, annotated) && Regular(diff)
    ensures (forall f: Finding :: f.line != NoNumber ==>
        (Kept(f, ranges) <==> Marked(Marks(SplitLines(annotated), None), f.File(), f.LineNumber())))
      <==> ranges != map[] && AllCovered(diff, ranges) && Harmless(diff, false, false)
  {
    hide SplitLines, Annotate, RangesFrom, Render, WellFormed, Groups, Marks, Marked, Regular, AllCovered, Harmless,
      InRanges, JoinLines;
    var marks := Marks(SplitLines(annotated), None);
    AgreeIffHarmless(text, diff, ranges, annotated);
    if ranges == map[] {
      NowhereIsUnmarked(text, diff, ranges, annotated, 0);
    } else if forall f: Finding :: f.line != NoNumber ==>
        (Kept(f, ranges) <==> Marked(marks, f.File(), f.LineNumber())) {
      forall file, n
        ensures Marked(marks, file, n) <==> InRanges(ranges, file, n)
      {
        var f := Finding(Some(file), Line(n), "");
        assert Kept(f, ranges) <==> Marked(marks, f.File(), f.LineNumber());
      }
    }
  }

  // ---- When no range is reported ----

  /** From the first changed file on, no hunk counts a line. */
  predicate NothingCounted(diff: seq<Section>, inFile: bool) {
    if diff == [] then true
    else
      var inFile' := inFile || diff[0].Changed?;
      (inFile' ==> ShowsNothing(HunksOf(diff[0]))) && NothingCounted(diff[1..], inFile')
  }

  ghost predicate CoverNothing(pairs: seq<(string, Range)>) {
    forall f, n :: !Covered(pairs, f, n)
  }

  lemma {:induction false} NoRangesIff(diff: seq<Section>, current: Option<string>)
    requires WellFormed(diff)
    ensures CoverNothing(RangesFrom(Render(diff), current)) <==> NothingCounted(diff, current.Some?)
  {
    hide WellFormedSection, RenderSection, RangesFrom, Covered, InSome, ShowsNothing;
    if diff == [] {
      NoRanges(current);
      NoneCovered();
      assert Render(diff) == [];
    } else {
      var g, rest := diff[0], diff[1..];
      var file, pairs := FileOf(g, current), RangesFrom(Render(diff), current);
      var pairs' := RangesFrom(Render(rest), file);
      NoRangesIff(rest, file);
      SomeCountedIff(HunksOf(g));
      forall f, n
        ensures Covered(pairs, f, n) <==> (file == Some(f) && InSome(HunksOf(g), n)) || Covered(pairs', f, n)
      {
        SectionSplit(g, rest, current, f, n);
      }
      if file.Some? && !ShowsNothing(HunksOf(g)) {
        var n :| InSome(HunksOf(g), n);
        assert Covered(pairs, file.value, n);
      } else {
        forall f, n
          ensures Covered(pairs, f, n) <==> Covered(pairs', f, n)
        {
          assert file == Some(f) ==> !InSome(HunksOf(g), n);
        }
      }
      assert NothingCounted(diff, current.Some?) <==>
        (file.Some? ==> ShowsNothing(HunksOf(g))) && NothingCounted(rest, file.Some?);
    }
  }

  lemma SomeCountedIff(hunks: seq<Hunk>)
    ensures ShowsNothing(hunks) <==> forall n :: !InSome(hunks, n)
  {
    hide CountOf;
    if i :| 0 <= i < |hunks| && CountOf(hunks[i]) != 0 {
      assert hunks[i].newStart <= hunks[i].newStart < hunks[i].newStart + CountOf(hunks[i]);
      assert InSome(hunks, hunks[i].newStart);
    }
  }

  /** The filter keeps everything exactly when no hunk of a changed file, or after one, counts a line. */
  lemma NothingReported(text: string, diff: seq<Section>, ranges: map<string, seq<Range>>, annotated: string)
    requires Read(text, diff, ranges, annotated)
    ensures ranges == map[] <==> NothingCounted(diff, false)
  {
    hide SplitLines, Annotate, Render, WellFormed, NothingCounted, RangesFrom, CoverNothing, Groups;
    var pairs := RangesFrom(SplitLines(text), None);
    NoRangesIff(diff, None);
    EmptyIff(ranges, pairs);
    RangesAreNotEmpty(SplitLines(text), None);
  }

  ghost predicate NonEmptyRanges(pairs: seq<(string, Range)>) {
    forall i :: 0 <= i < |pairs| ==> pairs[i].1.first <= pairs[i].1.last
  }

  lemma {:induction false} RangesAreNotEmpty(lines: seq<string>, current: Option<string>)
    ensures NonEmptyRanges(RangesFrom(lines, current))
  {
    hide FileHeader, HunkHeader;
    if lines != [] {
      RangesAreNotEmpty(lines[1..], CurrentFile(lines[0], current));
    }
  }

  lemma EmptyIff(ranges: map<string, seq<Range>>, pairs: seq<(string, Range)>)
    requires Groups(ranges, pairs)
    ensures NonEmptyRanges(pairs) ==> (ranges == map[] <==> CoverNothing(pairs))
  {
    if pairs == [] {
      assert forall f :: Select(pairs, f) == [];
    } else {
      assert Select(pairs, pairs[0].0) != [];
      if NonEmptyRanges(pairs) {
        assert Covered(pairs, pairs[0].0, pairs[0].1.first);
      }
    }
  }

  /** A deleted file and nothing else: every finding is kept, and none has a region. */
  lemma DeletionOnly(ranges: map<string, seq<Range>>, annotated: string, f: Finding, context: nat)
    requires Groups(ranges, RangesFrom(SplitLines(Ended(DeletedLines())), None))
    requires annotated == JoinLines(Annotate(SplitLines(Ended(DeletedLines())), START))
    ensures Kept(f, ranges) && Region(annotated, f.File(), f.LineNumber(), context) == ""
  {
    hide Groups, RangesFrom, SplitLines, Annotate, JoinLines, DeletedLines, Region, Ended;
    var diff, text := [DeletedFile()], Ended(DeletedLines());
    DeletedLinesArePrintable();
    PrintableIsOneLine(DeletedLines());
    OnePieces(DeletedLines());
    PiecesOfText(DeletedLines());
    DeletionIsRead();
    NothingReported(text, diff, ranges, annotated);
    KeptFindingsHaveRegions(text, diff, ranges, annotated, f, context);
  }

  lemma DeletionIsRead()
    ensures var diff := [DeletedFile()];
      && WellFormed(diff) && DistinctPaths(diff) && Render(diff) == DeletedLines() && NothingCounted(diff, false)
      && Strays(diff, START, None) + DiffLookalikes(diff, None) == {}
  {
    hide WellFormedSection, RenderSection, DeletedLines, AllSurplus, AllLookalikes, ShowsNothing;
    var diff := [DeletedFile()];
    DeletedFileRenders();
    NoneSurplus(DeletedFile().hunks);
    assert diff[1..] == [];
  }

  // ---- The two halves of the filter ----

  /** Puts two lists back together as `keep` dictates. */
  function Weave<T>(keep: seq<bool>, kept: seq<T>, rest: seq<T>): seq<T> {
    if keep == [] then []
    else if keep[0] then (if kept == [] then [] else [kept[0]] + Weave(keep[1..], kept[1..], rest))
    else if rest == [] then []
    else [rest[0]] + Weave(keep[1..], kept, rest[1..])
  }

  /** Kept and rejected elements together are the input: none lost, none added, each list in input order. */
  lemma {:induction false} FilterSplits<T>(s: seq<T>, p: T -> bool, notP: T -> bool)
    requires forall i :: 0 <= i < |s| ==> (notP(s[i]) <==> !p(s[i]))
    ensures var kept, rest := FilterBy(s, p), FilterBy(s, notP);
      && Weave(seq(|s|, i requires 0 <= i < |s| => p(s[i])), kept, rest) == s
      && |kept| + |rest| == |s|
      && (forall x :: x in kept ==> p(x)) && (forall x :: x in rest ==> notP(x))
  {
    if s != [] {
      FilterSplits(s[1..], p, notP);
      var keep := seq(|s|, i requires 0 <= i < |s| => p(s[i]));
      assert keep[1..] == seq(|s[1..]|, i requires 0 <= i < |s[1..]| => p(s[1..][i]));
      assert s == [s[0]] + s[1..];
      var kept, rest := FilterBy(s, p), FilterBy(s, notP);
      if p(s[0]) {
        assert kept[1..] == FilterBy(s[1..], p) && rest == FilterBy(s[1..], notP);
      } else {
        assert rest[1..] == FilterBy(s[1..], notP) && kept == FilterBy(s[1..], p);
      }
    }
  }
}
