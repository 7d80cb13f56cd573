/** Whole diffs, section by section: when marks and ranges agree, and what deleted files do to them. */
module DiffSections {
  import opened Wrappers
  import opened Text
  import opened DiffAnnotator
  import opened DiffAgreement

  // ---- Well-formed diffs ----

  /** A section of a diff: a changed file; one whose `+++` line the scanners do not know as a header - a deleted file,
      or a path that git quotes; or one with no content to show (a rename, a mode, a binary). */
  datatype Section =
    | Changed(preamble: seq<string>, path: string, hunks: seq<Hunk>)
    | Nameless(preamble: seq<string>, header: string, hunks: seq<Hunk>)
    | Bare(preamble: seq<string>)

  const DELETED := "+++ /dev/null"

  function RenderSection(f: Section): seq<string> {
    match f
    case Changed(preamble, path, hunks) => preamble + (["+++ b/" + path] + RenderHunks(hunks))
    case Nameless(preamble, header, hunks) => preamble + ([header] + RenderHunks(hunks))
    case Bare(preamble) => preamble
  }

  function Render(diff: seq<Section>): seq<string> {
    if diff == [] then [] else RenderSection(diff[0]) + Render(diff[1..])
  }

  function HunksOf(f: Section): seq<Hunk> {
    if f.Bare? then [] else f.hunks
  }

  predicate WellFormedSection(f: Section) {
    && (forall j :: 0 <= j < |f.preamble| ==> PlainLine(f.preamble[j]))
    && (forall j :: 0 <= j < |HunksOf(f)| ==> WellFormedHunk(HunksOf(f)[j]))
    && (f.Changed? ==> f.path != "")
    && (f.Nameless? ==> NamelessHeader(f.header))
  }

  /** A line that looks added but is no header to the scanners. */
  predicate NamelessHeader(header: string) {
    StartsWith(header, '+') && FileHeader(header).None?
  }

  predicate WellFormed(diff: seq<Section>) {
    forall i :: 0 <= i < |diff| ==> WellFormedSection(diff[i])
  }

  function Paths(diff: seq<Section>): seq<string> {
    if diff == [] then [] else (if diff[0].Changed? then [diff[0].path] else []) + Paths(diff[1..])
  }

  predicate DistinctPaths(diff: seq<Section>) {
    forall i, j :: 0 <= i < j < |Paths(diff)| ==> Paths(diff)[i] != Paths(diff)[j]
  }

  /** A hunk ends before a later one starts, and a line is left out between it and a later one that shows lines. */
  predicate Spaced(hunks: seq<Hunk>) {
    forall i, j :: 0 <= i < j < |hunks| ==>
      && hunks[i].newStart + CountOf(hunks[i]) <= hunks[j].newStart
      && (CountOf(hunks[j]) > 0 ==> hunks[i].newStart + CountOf(hunks[i]) < hunks[j].newStart)
  }

  predicate AllSpaced(diff: seq<Section>) {
    forall i :: 0 <= i < |diff| ==> Spaced(HunksOf(diff[i]))
  }

  /** The nameless files are deleted ones. */
  predicate NamelessAreDeleted(diff: seq<Section>) {
    forall i :: 0 <= i < |diff| && diff[i].Nameless? ==> ShowsNothing(diff[i].hunks)
  }

  predicate ShowsNothing(hunks: seq<Hunk>) {
    forall j :: 0 <= j < |hunks| ==> CountOf(hunks[j]) == 0
  }

  // ---- Stray marks ----

  /** Where the annotator stands after a section. */
  function SectionEnd(f: Section, st: Scan): Scan {
    match f
    case Changed(_, _, hunks) => HunksEnd(hunks, st.(inHunk := false))
    case Nameless(_, _, hunks) => HunksEnd(hunks, AfterNameless(st))
    case Bare(_) => st
  }

  function AfterNameless(st: Scan): Scan {
    if st.inHunk then st.(line := st.line + 1) else st
  }

  function FileOf(f: Section, current: Option<string>): Option<string> {
    if f.Changed? then Some(f.path) else current
  }

  /** Inside a hunk, a nameless header is numbered, as a line of the last changed file. */
  function HeaderStray(st: Scan, current: Option<string>): set<(string, int)> {
    if st.inHunk && current.Some? then {(current.value, st.line)} else {}
  }

  function SectionStrays(f: Section, st: Scan, current: Option<string>): set<(string, int)> {
    (if f.Nameless? then HeaderStray(st, current) else {}) + AllSurplus(HunksOf(f), FileOf(f, current))
  }

  /** The numbers given to nameless headers and to lines beyond those that hunks count. */
  function Strays(diff: seq<Section>, st: Scan, current: Option<string>): set<(string, int)> {
    if diff == [] then {}
    else SectionStrays(diff[0], st, current) + Strays(diff[1..], SectionEnd(diff[0], st), FileOf(diff[0], current))
  }

  /** The numbers of lines that read like marked ones from the start. */
  function DiffLookalikes(diff: seq<Section>, current: Option<string>): set<(string, int)> {
    if diff == [] then {}
    else
      var file := FileOf(diff[0], current);
      AllLookalikes(HunksOf(diff[0]), file) + DiffLookalikes(diff[1..], file)
  }

  predicate Counted(hunks: seq<Hunk>) {
    forall i :: 0 <= i < |hunks| ==> NewLines(hunks[i].body) == CountOf(hunks[i])
  }

  /** After the first changed file every hunk counts its numbered lines, and no nameless header comes while a hunk is
      open. */
  predicate Harmless(diff: seq<Section>, inFile: bool, inHunk: bool) {
    if diff == [] then true
    else
      match diff[0]
      case Changed(_, _, hunks) => Counted(hunks) && Harmless(diff[1..], true, hunks != [])
      case Nameless(_, _, hunks) =>
        && !(inFile && inHunk) && (inFile ==> Counted(hunks))
        && Harmless(diff[1..], inFile, inHunk || hunks != [])
      case Bare(_) => Harmless(diff[1..], inFile, inHunk)
  }

  lemma {:induction false} NoSurplus(hunks: seq<Hunk>, current: Option<string>)
    requires forall j :: 0 <= j < |hunks| ==> WellFormedHunk(hunks[j])
    ensures AllSurplus(hunks, current) == {} <==> current.None? || Counted(hunks)
  {
    hide NewLines, NoHeaderIn;
    if hunks != [] {
      var h, rest := hunks[0], hunks[1..];
      NoSurplus(rest, current);
      assert forall i :: 0 <= i < |rest| ==> rest[i] == hunks[i + 1];
      assert forall i :: 0 < i < |hunks| ==> hunks[i] == rest[i - 1];
      if current.Some? && NewLines(h.body) > CountOf(h) {
        assert (current.value, h.newStart + CountOf(h)) in Surplus(h, current);
      }
    }
  }

  lemma {:induction false} NoStrays(diff: seq<Section>, st: Scan, current: Option<string>)
    requires WellFormed(diff)
    ensures Strays(diff, st, current) == {} <==> Harmless(diff, current.Some?, st.inHunk)
  {
    hide WellFormedHunk, PlainLine, NamelessHeader, Counted, AllSurplus;
    if diff != [] {
      var f := diff[0];
      assert WellFormedSection(f);
      NoSurplus(HunksOf(f), FileOf(f, current));
      NoStrays(diff[1..], SectionEnd(f, st), FileOf(f, current));
      if st.inHunk && current.Some? {
        assert (current.value, st.line as int) in HeaderStray(st, current);
      }
      EmptyCounted();
    }
  }

  lemma EmptyCounted()
    ensures Counted([])
  {
  }

  /** When every hunk counts its lines and every changed file shows a hunk, as in every diff that git writes, the
      condition is that all nameless files come before all changed ones. */
  lemma {:induction false} HarmlessMeans(diff: seq<Section>, inFile: bool, inHunk: bool)
    requires forall i :: 0 <= i < |diff| ==> Counted(HunksOf(diff[i])) && (diff[i].Changed? ==> diff[i].hunks != [])
    requires inFile ==> inHunk
    ensures Harmless(diff, inFile, inHunk) <==>
      && (forall i, j :: 0 <= i < j < |diff| && diff[i].Changed? ==> !diff[j].Nameless?)
      && (inFile ==> forall j :: 0 <= j < |diff| ==> !diff[j].Nameless?)
  {
    hide Counted;
    if diff != [] {
      var rest := diff[1..];
      assert forall i :: 0 <= i < |rest| ==> rest[i] == diff[i + 1];
      assert forall i :: 0 < i < |diff| ==> diff[i] == rest[i - 1];
      assert Counted(HunksOf(diff[0]));
      HarmlessMeans(rest, inFile || diff[0].Changed?,
        if diff[0].Changed? then true else inHunk || HunksOf(diff[0]) != []);
    }
  }

  // ---- The scanners on a section ----

  lemma HeaderIsContent(header: string)
    requires NamelessHeader(header)
    ensures HunkHeader(header).None? && MarkerOf(header).None? && Numbered(header)
  {
  }

  lemma MarksOfOne(line: string, current: Option<string>)
    ensures Marks([line], current) == LineMark(line, CurrentFile(line, current))
  {
    hide LineMark, CurrentFile;
    assert [line][1..] == [];
  }

  lemma HeaderMarks(header: string, st: Scan, current: Option<string>)
    requires NamelessHeader(header)
    ensures ScansDiffer([header], st, current, HeaderStray(st, current))
    ensures FileAfter([header], current) == current && After([header], st) == AfterNameless(st)
    ensures RangesFrom([header], current) == []
  {
    HeaderIsContent(header);
    MarkerReadsBack(st.line, header);
    hide FileHeader, HunkHeader, MarkerOf;
    var out := Annotate([header], st);
    assert out == [AnnotateLine(header, st)] && FileHeader(out[0]).None?;
    var marks := Marks(out, current);
    MarksOfOne(out[0], current);
    assert st.inHunk ==> out[0] == Marker(st.line) + header;
    assert st.inHunk && current.Some? ==> marks[0] == Mark(current.value, st.line, out[0]);
    assert RangesFrom([header], current) == [];
  }

  /** A nameless header is numbered as content exactly inside an open hunk after a changed file. */
  lemma DeletedFileHeaderIsMarked(header: string, st: Scan, current: Option<string>)
    requires NamelessHeader(header)
    ensures ScansAgree([header], st, current) <==> !st.inHunk || current.None?
  {
    HeaderMarks(header, st, current);
    hide Marks, Annotate, NamelessHeader, Marked, RangesFrom;
    NoneCovered();
    if st.inHunk && current.Some? {
      assert (current.value, st.line as int) in HeaderStray(st, current);
    }
  }

  lemma NoneCovered()
    ensures forall f, n :: !Covered([], f, n)
  {
  }

  lemma DeletedIsNameless()
    ensures NamelessHeader(DELETED)
  {
    assert DELETED[4] == '/' && "+++ b/"[4] == 'b';
  }

  lemma ChangedHeader(path: string, st: Scan, current: Option<string>)
    requires path != ""
    ensures ScansDiffer(["+++ b/" + path], st, current, {})
    ensures FileAfter(["+++ b/" + path], current) == Some(path)
    ensures After(["+++ b/" + path], st) == st.(inHunk := false)
    ensures RangesFrom(["+++ b/" + path], current) == []
  {
    var line := "+++ b/" + path;
    assert line[6..] == path && line[0] == '+';
    assert FileHeader(line) == Some(path) && MarkerOf(line).None?;
    hide FileHeader, MarkerOf, HunkHeader;
    assert Annotate([line], st) == [line];
    MarksOfOne(line, current);
    assert RangesFrom([line], current) == [];
  }

  lemma HeadAndHunks(
      head: string, hunks: seq<Hunk>, st: Scan, current: Option<string>, x: set<(string, int)>, st': Scan,
      file: Option<string>)
    requires ScansDiffer([head], st, current, x)
    requires After([head], st) == st'
    requires FileAfter([head], current) == file
    requires forall j :: 0 <= j < |hunks| ==> WellFormedHunk(hunks[j])
    ensures ScansDiffer([head] + RenderHunks(hunks), st, current,
      x + (AllSurplus(hunks, file) + AllLookalikes(hunks, file)))
    ensures After([head] + RenderHunks(hunks), st) == HunksEnd(hunks, st')
    ensures FileAfter([head] + RenderHunks(hunks), current) == file
  {
    hide *;
    HunksMarks(hunks, st', file);
    ScansConcat([head], RenderHunks(hunks), st, current, x, AllSurplus(hunks, file) + AllLookalikes(hunks, file));
    AfterConcat([head], RenderHunks(hunks), st);
    FileAfterConcat([head], RenderHunks(hunks), current);
  }

  lemma AgreeIsDiffer(lines: seq<string>, st: Scan, current: Option<string>)
    requires ScansAgree(lines, st, current)
    ensures ScansDiffer(lines, st, current, {})
  {
  }

  lemma AfterPreamble(
      preamble: seq<string>, rest: seq<string>, st: Scan, current: Option<string>, x: set<(string, int)>)
    requires (forall j :: 0 <= j < |preamble| ==> PlainLine(preamble[j])) && ScansDiffer(rest, st, current, x)
    ensures ScansDiffer(preamble + rest, st, current, x)
    ensures After(preamble + rest, st) == After(rest, st)
    ensures FileAfter(preamble + rest, current) == FileAfter(rest, current)
  {
    hide *;
    PlainLinesAgree(preamble, st, current);
    AgreeIsDiffer(preamble, st, current);
    ScansConcat(preamble, rest, st, current, {}, x);
    assert {} + x == x;
    AfterConcat(preamble, rest, st);
    FileAfterConcat(preamble, rest, current);
  }

  /** On a section the scanners differ in its strays and lookalikes alone. */
  lemma SectionMarks(f: Section, st: Scan, current: Option<string>)
    requires WellFormedSection(f)
    ensures ScansDiffer(RenderSection(f), st, current,
      SectionStrays(f, st, current) + AllLookalikes(HunksOf(f), FileOf(f, current)))
    ensures After(RenderSection(f), st) == SectionEnd(f, st)
    ensures FileAfter(RenderSection(f), current) == FileOf(f, current)
  {
    hide PlainLine, WellFormedHunk, ScansAgree, ScansDiffer, After, FileAfter, RenderHunks, HunksEnd, AfterNameless,
      NamelessHeader, HeaderStray;
    match f {
      case Changed(preamble, path, hunks) =>
        var head, x := "+++ b/" + path, AllSurplus(hunks, Some(path)) + AllLookalikes(hunks, Some(path));
        assert HunksOf(f) == hunks;
        ChangedHeader(path, st, current);
        HeadAndHunks(head, hunks, st, current, {}, st.(inHunk := false), Some(path));
        assert {} + x == x && SectionStrays(f, st, current) == AllSurplus(hunks, Some(path));
        AfterPreamble(preamble, [head] + RenderHunks(hunks), st, current, x);
      case Nameless(preamble, header, hunks) =>
        var x, y, z := HeaderStray(st, current), AllSurplus(hunks, current), AllLookalikes(hunks, current);
        assert HunksOf(f) == hunks;
        HeaderMarks(header, st, current);
        HeadAndHunks(header, hunks, st, current, x, AfterNameless(st), current);
        assert x + (y + z) == (x + y) + z;
        AfterPreamble(preamble, [header] + RenderHunks(hunks), st, current, (x + y) + z);
      case Bare(preamble) =>
        PlainLinesAgree(preamble, st, current);
        AgreeIsDiffer(preamble, st, current);
        NothingStray(f, st, current);
    }
  }

  lemma NothingStray(f: Section, st: Scan, current: Option<string>)
    requires f.Bare?
    ensures SectionStrays(f, st, current) + AllLookalikes(HunksOf(f), current) == {}
  {
  }

  /** On a whole diff the scanners differ in the strays and lookalikes alone. */
  lemma {:induction false} DiffMarks(diff: seq<Section>, st: Scan, current: Option<string>)
    requires WellFormed(diff)
    ensures ScansDiffer(Render(diff), st, current, Strays(diff, st, current) + DiffLookalikes(diff, current))
  {
    hide ScansDiffer, WellFormedSection, RenderSection, SectionStrays, AllLookalikes, After, FileAfter;
    if diff == [] {
      NoLines(st, current);
    } else {
      var f := diff[0];
      var file, st' := FileOf(f, current), SectionEnd(f, st);
      SectionMarks(f, st, current);
      DiffMarks(diff[1..], st', file);
      var x, y := SectionStrays(f, st, current), AllLookalikes(HunksOf(f), file);
      var x', y' := Strays(diff[1..], st', file), DiffLookalikes(diff[1..], file);
      ScansConcat(RenderSection(f), Render(diff[1..]), st, current, x + y, x' + y');
      Regroup(x, y, x', y');
    }
  }

  // ---- Strays lie outside the ranges ----

  /** A hunk among these counts line `n`. */
  predicate InSome(hunks: seq<Hunk>, n: int) {
    exists i :: 0 <= i < |hunks| && hunks[i].newStart <= n < hunks[i].newStart + CountOf(hunks[i])
  }

  lemma {:induction false} HunksCover(hunks: seq<Hunk>, file: string, f: string, n: int)
    requires forall j :: 0 <= j < |hunks| ==> WellFormedHunk(hunks[j])
    ensures Covered(RangesFrom(RenderHunks(hunks), Some(file)), f, n) <==> f == file && InSome(hunks, n)
  {
    hide RenderHunk, NewLines, NoHeaderIn, RangesFrom, HunkLine, LineRange, FileAfter, After, Covered, CountOf;
    if hunks == [] {
      NoRanges(Some(file));
      NoneCovered();
    } else {
      var h, rest := hunks[0], hunks[1..];
      HunkScans(h, START, Some(file));
      HunkRange(h, Some(file));
      RangesConcat(RenderHunk(h), RenderHunks(rest), Some(file));
      CoveredConcat(RangesFrom(RenderHunk(h), Some(file)), RangesFrom(RenderHunks(rest), Some(file)), f, n);
      HunksCover(rest, file, f, n);
      RangeCovers(file, h.newStart, CountOf(h), f, n);
      SomeStep(hunks, n);
    }
  }

  lemma SomeStep(hunks: seq<Hunk>, n: int)
    requires hunks != []
    ensures InSome(hunks, n) <==>
      hunks[0].newStart <= n < hunks[0].newStart + CountOf(hunks[0]) || InSome(hunks[1..], n)
  {
    hide CountOf;
    var rest := hunks[1..];
    if i :| 0 <= i < |rest| && rest[i].newStart <= n < rest[i].newStart + CountOf(rest[i]) {
      assert hunks[i + 1] == rest[i];
    }
    if i :| 0 <= i < |hunks| && hunks[i].newStart <= n < hunks[i].newStart + CountOf(hunks[i]) {
      assert i > 0 ==> rest[i - 1] == hunks[i];
    }
  }

  lemma {:induction false} NowhereCovered(hunks: seq<Hunk>)
    requires forall j :: 0 <= j < |hunks| ==> WellFormedHunk(hunks[j])
    ensures RangesFrom(RenderHunks(hunks), None) == []
  {
    hide RenderHunk, NewLines, NoHeaderIn, RangesFrom, HunkLine, LineRange, FileAfter, After;
    if hunks == [] {
      NoRanges(None);
    } else {
      HunkScans(hunks[0], START, None);
      HunkRange(hunks[0], None);
      RangesConcat(RenderHunk(hunks[0]), RenderHunks(hunks[1..]), None);
      NowhereCovered(hunks[1..]);
    }
  }

  /** The ranges of a section are those of its hunks, all under the last path that was read as a header: a file whose
      path git quotes is reported under the file before it. */
  lemma SectionCovers(g: Section, current: Option<string>, f: string, n: int)
    requires WellFormedSection(g)
    ensures Covered(RangesFrom(RenderSection(g), current), f, n) <==>
      FileOf(g, current) == Some(f) && InSome(HunksOf(g), n)
  {
    hide RangesFrom, PlainLine, WellFormedHunk, RenderHunks, NamelessHeader, InSome, Covered;
    PlainRanges(g.preamble, current);
    NoneCovered();
    match g {
      case Changed(preamble, path, hunks) =>
        assert HunksOf(g) == hunks;
        ChangedHeader(path, START, current);
        RangesConcat(preamble, ["+++ b/" + path] + RenderHunks(hunks), current);
        RangesConcat(["+++ b/" + path], RenderHunks(hunks), current);
        HunksCover(hunks, path, f, n);
        var ranges := RangesFrom(RenderHunks(hunks), Some(path));
        assert [] + ([] + ranges) == ranges;
      case Nameless(preamble, header, hunks) =>
        assert HunksOf(g) == hunks;
        HeaderMarks(header, START, current);
        RangesConcat(preamble, [header] + RenderHunks(hunks), current);
        RangesConcat([header], RenderHunks(hunks), current);
        var ranges := RangesFrom(RenderHunks(hunks), current);
        assert [] + ([] + ranges) == ranges;
        if current.Some? {
          HunksCover(hunks, current.value, f, n);
        } else {
          NowhereCovered(hunks);
        }
      case Bare(preamble) =>
        NotInNone(n);
    }
  }

  lemma NotInNone(n: int)
    ensures !InSome([], n)
  {
  }

  lemma {:induction false} PlainRanges(lines: seq<string>, current: Option<string>)
    requires forall j :: 0 <= j < |lines| ==> PlainLine(lines[j])
    ensures RangesFrom(lines, current) == [] && FileAfter(lines, current) == current
  {
    PlainLinesAgree(lines, START, current);
    hide FileHeader, HunkHeader, MarkerOf, Numbered;
    if lines != [] {
      assert PlainLine(lines[0]);
      PlainRanges(lines[1..], current);
    }
  }

  lemma SectionSplit(g: Section, rest: seq<Section>, current: Option<string>, f: string, n: int)
    requires WellFormedSection(g)
    ensures Covered(RangesFrom(RenderSection(g) + Render(rest), current), f, n) <==>
      || (FileOf(g, current) == Some(f) && InSome(HunksOf(g), n))
      || Covered(RangesFrom(Render(rest), FileOf(g, current)), f, n)
  {
    hide *;
    SectionMarks(g, START, current);
    SectionCovers(g, current, f, n);
    RangesConcat(RenderSection(g), Render(rest), current);
    CoveredConcat(RangesFrom(RenderSection(g), current), RangesFrom(Render(rest), FileOf(g, current)), f, n);
  }

  /** When nameless files are deleted ones, ranges belong to changed files. */
  lemma {:induction false} RangesHavePaths(diff: seq<Section>, current: Option<string>, f: string, n: int)
    requires WellFormed(diff) && NamelessAreDeleted(diff) && Covered(RangesFrom(Render(diff), current), f, n)
    ensures f in Paths(diff)
  {
    hide WellFormedSection, RenderSection, RangesFrom, FileAfter, Covered, InSome, ShowsNothing;
    if diff == [] {
      NoRanges(current);
      NoneCovered();
    } else {
      var g, rest := diff[0], diff[1..];
      SectionSplit(g, rest, current, f, n);
      if Covered(RangesFrom(Render(rest), FileOf(g, current)), f, n) {
        RangesHavePaths(rest, FileOf(g, current), f, n);
      } else if !g.Changed? {
        ShowingNothing(g, n);
      }
    }
  }

  lemma ShowingNothing(g: Section, n: int)
    requires g.Changed? || (g.Nameless? ==> ShowsNothing(g.hunks))
    ensures !g.Changed? ==> !InSome(HunksOf(g), n)
  {
  }

  lemma DistinctTail(diff: seq<Section>)
    requires DistinctPaths(diff) && diff != []
    ensures DistinctPaths(diff[1..]) && (diff[0].Changed? ==> diff[0].path !in Paths(diff[1..]))
  {
    var paths, rest := Paths(diff), Paths(diff[1..]);
    if diff[0].Changed? {
      assert paths == [diff[0].path] + rest;
      assert forall i :: 0 <= i < |rest| ==> rest[i] == paths[i + 1] && paths[0] != paths[i + 1];
    } else {
      assert paths == rest;
    }
  }

  /** Hunks that number more lines than they count number one that none of them counts. */
  lemma SurplusIsOutside(hunks: seq<Hunk>, file: string) returns (k: int)
    requires (forall j :: 0 <= j < |hunks| ==> WellFormedHunk(hunks[j])) && Spaced(hunks) && !Counted(hunks)
    ensures (file, k) in AllSurplus(hunks, Some(file)) && !InSome(hunks, k)
  {
    hide NewLines, NoHeaderIn, Lookalikes;
    var i :| 0 <= i < |hunks| && NewLines(hunks[i].body) != CountOf(hunks[i]);
    k := hunks[i].newStart + CountOf(hunks[i]);
    assert WellFormedHunk(hunks[i]);
    assert (file, k) in Surplus(hunks[i], Some(file));
    SurplusOfOne(hunks, i, Some(file));
    forall j | 0 <= j < |hunks|
      ensures !(hunks[j].newStart <= k < hunks[j].newStart + CountOf(hunks[j]))
    {
      SpacedApart(hunks, i, j);
    }
  }

  lemma SpacedApart(hunks: seq<Hunk>, i: nat, j: nat)
    requires Spaced(hunks) && i < |hunks| && j < |hunks|
    ensures !(hunks[j].newStart <= hunks[i].newStart + CountOf(hunks[i]) < hunks[j].newStart + CountOf(hunks[j]))
  {
    assert j < i ==> hunks[j].newStart + CountOf(hunks[j]) <= hunks[i].newStart;
  }

  lemma {:induction false} SurplusOfOne(hunks: seq<Hunk>, i: nat, current: Option<string>)
    requires i < |hunks|
    ensures Surplus(hunks[i], current) <= AllSurplus(hunks, current)
  {
    hide Surplus;
    if i > 0 {
      SurplusOfOne(hunks[1..], i - 1, current);
    }
  }

  lemma {:induction false} SurplusIsOwn(hunks: seq<Hunk>, current: Option<string>)
    ensures forall x :: x in AllSurplus(hunks, current) ==> current == Some(x.0)
  {
    hide NewLines, CountOf;
    if hunks != [] {
      SurplusIsOwn(hunks[1..], current);
    }
  }

  /** No hunk counts the number at which counted hunks end. */
  lemma EndIsOutside(hunks: seq<Hunk>, st: Scan)
    requires Spaced(hunks) && Counted(hunks)
    ensures hunks == [] || !InSome(hunks, HunksEnd(hunks, st).line)
    ensures HunksEnd(hunks, st.(inHunk := false)).inHunk <==> hunks != []
  {
    hide NewLines;
    if hunks != [] {
      var last := |hunks| - 1;
      assert NewLines(hunks[last].body) == CountOf(hunks[last]);
      forall j | 0 <= j < |hunks|
        ensures hunks[j].newStart + CountOf(hunks[j]) <= HunksEnd(hunks, st).line
      {
        assert j < last ==> hunks[j].newStart + CountOf(hunks[j]) <= hunks[last].newStart;
      }
    }
  }

  /** The first stray is outside every range. */
  lemma {:induction false} StrayIsOutside(diff: seq<Section>, st: Scan, current: Option<string>)
    returns (x: (string, int))
    requires WellFormed(diff) && AllSpaced(diff) && NamelessAreDeleted(diff) && DistinctPaths(diff)
    requires (current.Some? ==> current.value !in Paths(diff)) && Strays(diff, st, current) != {}
    ensures x in Strays(diff, st, current) && !Covered(RangesFrom(Render(diff), current), x.0, x.1)
    ensures x.0 in Paths(diff) || (current == Some(x.0) && (st.inHunk ==> x.1 == st.line))
  {
    hide WellFormedHunk, PlainLine, NamelessHeader, RenderSection, RangesFrom, FileAfter, Spaced, ShowsNothing,
      Covered, RenderHunks, DistinctPaths, HunksEnd, AllSurplus, Counted, InSome;
    var g, rest := diff[0], diff[1..];
    DistinctTail(diff);
    assert WellFormedSection(g) && Spaced(HunksOf(g));
    NoSurplus(HunksOf(g), FileOf(g, current));
    SurplusIsOwn(HunksOf(g), FileOf(g, current));
    if !g.Changed? && SectionStrays(g, st, current) != {} {
      if g.Nameless? && st.inHunk && current.Some? {
        x := (current.value, st.line);
      } else {
        x :| x in AllSurplus(HunksOf(g), current);
        assert !st.inHunk by {
          NothingMore(g, st, current);
        }
      }
      assert x in SectionStrays(g, st, current);
      if Covered(RangesFrom(Render(diff), current), x.0, x.1) {
        RangesHavePaths(diff, current, x.0, x.1);
      }
    } else if g.Changed? && !Counted(g.hunks) {
      var k := SurplusIsOutside(g.hunks, g.path);
      x := (g.path, k);
      SectionSplit(g, rest, current, x.0, x.1);
      if Covered(RangesFrom(Render(rest), FileOf(g, current)), x.0, x.1) {
        RangesHavePaths(rest, FileOf(g, current), x.0, x.1);
      }
    } else {
      x := StrayIsOutside(rest, SectionEnd(g, st), FileOf(g, current));
      SectionSplit(g, rest, current, x.0, x.1);
      if g.Changed? {
        EndIsOutside(g.hunks, st.(inHunk := false));
        NotInNone(x.1);
      } else {
        ShowingNothing(g, x.1);
        NothingMore(g, st, current);
      }
    }
  }

  /** A nameless section without a stray header leaves no hunk open, unless it opens one where no file is. */
  lemma NothingMore(g: Section, st: Scan, current: Option<string>)
    requires !g.Changed?
    ensures g.Nameless? && st.inHunk && current.Some? ==> SectionStrays(g, st, current) != {}
    ensures AllSurplus(HunksOf(g), current) != {} ==> g.Nameless? && current.Some?
  {
    if g.Nameless? && st.inHunk && current.Some? {
      assert (current.value, st.line as int) in SectionStrays(g, st, current);
    }
    if current.None? {
      NoneSurplus(HunksOf(g));
    }
  }

  lemma {:induction false} NoneSurplus(hunks: seq<Hunk>)
    ensures AllSurplus(hunks, None) == {}
  {
    hide NewLines, CountOf;
    if hunks != [] {
      NoneSurplus(hunks[1..]);
    }
  }

  // ---- The main agreement ----

  /** On every text that is a well-formed diff, the annotated text carries `[Ln]` in a section of file `f` exactly when
      `n` lies in a range reported for `f`, or is a stray's or a lookalike's number there; and there are no strays
      exactly when the diff is harmless. */
  lemma MarkersMatchRanges(text: string, diff: seq<Section>, ranges: map<string, seq<Range>>, annotated: string)
    requires WellFormed(diff) && SplitLines(text) == Render(diff)
    requires Groups(ranges, RangesFrom(SplitLines(text), None))
    requires annotated == JoinLines(Annotate(SplitLines(text), START))
    ensures forall f, n :: (Marked(Marks(SplitLines(annotated), None), f, n) <==>
      InRanges(ranges, f, n) || (f, n) in Strays(diff, START, None) || (f, n) in DiffLookalikes(diff, None))
    ensures Strays(diff, START, None) == {} <==> Harmless(diff, false, false)
  {
    hide SplitLines, JoinLines, Annotate, Marks, RangesFrom, Render, WellFormed, Marked, Covered, Groups, InRanges,
      Strays, DiffLookalikes, Harmless;
    DiffMarks(diff, START, None);
    NoStrays(diff, START, None);
    AnnotatedTextMarks(text);
    forall f, n
      ensures Covered(RangesFrom(SplitLines(text), None), f, n) <==> InRanges(ranges, f, n)
    {
      GroupsCover(ranges, RangesFrom(SplitLines(text), None), f, n);
    }
  }

  lemma GroupsCover(ranges: map<string, seq<Range>>, pairs: seq<(string, Range)>, f: string, n: int)
    requires Groups(ranges, pairs)
    ensures Covered(pairs, f, n) <==> InRanges(ranges, f, n)
  {
    CoveredIsSelected(pairs, f, n);
  }

  /** Each path once, hunks with lines left out between them, and no nameless file but deleted ones. */
  predicate Regular(diff: seq<Section>) {
    DistinctPaths(diff) && AllSpaced(diff) && NamelessAreDeleted(diff)
  }

  /** Every lookalike's number is in a range of its file. */
  predicate AllCovered(diff: seq<Section>, ranges: map<string, seq<Range>>) {
    forall x :: x in DiffLookalikes(diff, None) ==> InRanges(ranges, x.0, x.1)
  }

  /** On regular diffs marks and ranges agree exactly when the diff is harmless and every lookalike's number is in a
      range. */
  lemma AgreeIffHarmless(text: string, diff: seq<Section>, ranges: map<string, seq<Range>>, annotated: string)
    requires WellFormed(diff) && Regular(diff) && SplitLines(text) == Render(diff)
    requires Groups(ranges, RangesFrom(SplitLines(text), None))
    requires annotated == JoinLines(Annotate(SplitLines(text), START))
    ensures (forall f, n :: Marked(Marks(SplitLines(annotated), None), f, n) <==> InRanges(ranges, f, n))
      <==> AllCovered(diff, ranges) && Harmless(diff, false, false)
  {
    hide *;
    RegularMeans(diff);
    MarkersMatchRanges(text, diff, ranges, annotated);
    var marks := Marks(SplitLines(annotated), None);
    if !Harmless(diff, false, false) {
      var x := StrayIsOutside(diff, START, None);
      GroupsCover(ranges, RangesFrom(Render(diff), None), x.0, x.1);
      assert Marked(marks, x.0, x.1) && !InRanges(ranges, x.0, x.1);
    } else if !AllCovered(diff, ranges) {
      var x := UncoveredLookalike(diff, ranges);
      assert (x.0, x.1) == x && Marked(marks, x.0, x.1);
    } else {
      forall f, n | Marked(marks, f, n)
        ensures InRanges(ranges, f, n)
      {
        CoveredLookalike(diff, ranges, f, n);
      }
    }
  }

  lemma UncoveredLookalike(diff: seq<Section>, ranges: map<string, seq<Range>>) returns (x: (string, int))
    requires !AllCovered(diff, ranges)
    ensures x in DiffLookalikes(diff, None) && !InRanges(ranges, x.0, x.1)
  {
    x :| x in DiffLookalikes(diff, None) && !InRanges(ranges, x.0, x.1);
  }

  lemma CoveredLookalike(diff: seq<Section>, ranges: map<string, seq<Range>>, f: string, n: int)
    requires AllCovered(diff, ranges)
    ensures (f, n) in DiffLookalikes(diff, None) ==> InRanges(ranges, f, n)
  {
    var x := (f, n);
    assert x in DiffLookalikes(diff, None) ==> InRanges(ranges, x.0, x.1);
  }

  lemma RegularMeans(diff: seq<Section>)
    requires Regular(diff)
    ensures DistinctPaths(diff) && AllSpaced(diff) && NamelessAreDeleted(diff)
  {
  }

  // ---- Texts of diffs ----

  /** A hunk as the scanners see it: boundaries within a line cut the line, and what follows the first piece of the
      header counts with the body. */
  function Cut(h: Hunk): Hunk {
    var pieces := PiecesOf(h.section);
    h.(section := pieces[0], body := pieces[1..] + Pieces(h.body))
  }

  function CutHunks(hunks: seq<Hunk>): seq<Hunk> {
    if hunks == [] then [] else [Cut(hunks[0])] + CutHunks(hunks[1..])
  }

  function CutSection(f: Section): Section {
    match f
    case Changed(preamble, path, hunks) => Changed(Pieces(preamble), path, CutHunks(hunks))
    case Nameless(preamble, header, hunks) => Nameless(Pieces(preamble), header, CutHunks(hunks))
    case Bare(preamble) => Bare(Pieces(preamble))
  }

  function CutDiff(diff: seq<Section>): seq<Section> {
    if diff == [] then [] else [CutSection(diff[0])] + CutDiff(diff[1..])
  }

  /** The text of a diff, whose lines may hold any characters: each line ended by a newline. */
  function DiffText(diff: seq<Section>): string {
    Ended(Render(diff))
  }

  /** No path or nameless header holds a line boundary; git quotes paths that do. */
  predicate OneLineNames(diff: seq<Section>) {
    forall i :: 0 <= i < |diff| ==>
      && (diff[i].Changed? ==> OneLine(diff[i].path))
      && (diff[i].Nameless? ==> OneLine(diff[i].header))
  }

  lemma OneLineConcat(a: string, b: string)
    requires OneLine(a) && OneLine(b)
    ensures OneLine(a + b)
  {
  }

  lemma DecIsOneLine(n: nat)
    ensures OneLine(Dec(n))
  {
    DecRoundTrip(n);
  }

  lemma CountIsOneLine(count: Option<nat>)
    ensures OneLine(CountText(count))
  {
    if count.Some? {
      DecIsOneLine(count.value);
    }
  }

  lemma Separators()
    ensures OneLine("@@ -") && OneLine(" +") && OneLine(" @@") && OneLine("+++ b/")
  {
  }

  /** A hunk's header line with nothing after it. */
  function Opening(h: Hunk): string {
    "@@ -" + Dec(h.oldStart) + CountText(h.oldCount) + " +" + Dec(h.newStart) + CountText(h.newCount) + " @@"
  }

  lemma HunkLineOpens(h: Hunk)
    ensures HunkLine(h) == Opening(h) + h.section
  {
    hide Dec, CountText;
    var a := "@@ -" + Dec(h.oldStart) + CountText(h.oldCount) + " +";
    assert (a + Dec(h.newStart) + CountText(h.newCount)) + (" @@" + h.section)
        == (a + Dec(h.newStart) + CountText(h.newCount)) + " @@" + h.section;
  }

  lemma OpeningIsOneLine(h: Hunk)
    ensures OneLine(Opening(h))
  {
    hide OneLine, Dec, CountText;
    DecIsOneLine(h.oldStart);
    DecIsOneLine(h.newStart);
    CountIsOneLine(h.oldCount);
    CountIsOneLine(h.newCount);
    Separators();
    OneLineConcat("@@ -", Dec(h.oldStart));
    OneLineConcat("@@ -" + Dec(h.oldStart), CountText(h.oldCount));
    var a := "@@ -" + Dec(h.oldStart) + CountText(h.oldCount);
    OneLineConcat(a, " +");
    OneLineConcat(a + " +", Dec(h.newStart));
    OneLineConcat(a + " +" + Dec(h.newStart), CountText(h.newCount));
    OneLineConcat(a + " +" + Dec(h.newStart) + CountText(h.newCount), " @@");
  }

  lemma HunkPieces(h: Hunk)
    ensures Pieces(RenderHunk(h)) == RenderHunk(Cut(h))
  {
    hide PiecesOf, HunkLine, Opening;
    HunkLineOpens(h);
    HunkLineOpens(Cut(h));
    OpeningIsOneLine(h);
    PrefixSplits(Opening(h), h.section);
    SameOpening(h);
    PiecesConcat([HunkLine(h)], h.body);
    OnlyLine(HunkLine(h));
  }

  lemma OnlyLine(line: string)
    ensures Pieces([line]) == PiecesOf(line)
  {
  }

  lemma SameOpening(h: Hunk)
    ensures Opening(Cut(h)) == Opening(h)
  {
  }

  lemma {:induction false} HunksPieces(hunks: seq<Hunk>)
    ensures Pieces(RenderHunks(hunks)) == RenderHunks(CutHunks(hunks))
  {
    hide RenderHunk, Cut;
    if hunks != [] {
      HunkPieces(hunks[0]);
      HunksPieces(hunks[1..]);
      PiecesConcat(RenderHunk(hunks[0]), RenderHunks(hunks[1..]));
      assert CutHunks(hunks)[1..] == CutHunks(hunks[1..]);
    }
  }

  lemma SectionPieces(f: Section)
    requires (f.Changed? ==> OneLine(f.path)) && (f.Nameless? ==> OneLine(f.header))
    ensures Pieces(RenderSection(f)) == RenderSection(CutSection(f))
  {
    hide OneLine, PiecesOf, Pieces, RenderHunks, CutHunks;
    match f {
      case Changed(preamble, path, hunks) =>
        Separators();
        OneLineConcat("+++ b/", path);
        HeadPieces("+++ b/" + path, hunks);
        PiecesConcat(preamble, ["+++ b/" + path] + RenderHunks(hunks));
      case Nameless(preamble, header, hunks) =>
        HeadPieces(header, hunks);
        PiecesConcat(preamble, [header] + RenderHunks(hunks));
      case Bare(preamble) =>
    }
  }

  lemma HeadPieces(head: string, hunks: seq<Hunk>)
    requires OneLine(head)
    ensures Pieces([head] + RenderHunks(hunks)) == [head] + RenderHunks(CutHunks(hunks))
  {
    hide *;
    OnePiece(head);
    OnlyLine(head);
    HunksPieces(hunks);
    PiecesConcat([head], RenderHunks(hunks));
  }

  lemma {:induction false} DiffPieces(diff: seq<Section>)
    requires OneLineNames(diff)
    ensures Pieces(Render(diff)) == Render(CutDiff(diff))
  {
    hide OneLine, RenderSection, CutSection;
    if diff != [] {
      SectionPieces(diff[0]);
      DiffPieces(diff[1..]);
      PiecesConcat(RenderSection(diff[0]), Render(diff[1..]));
      assert CutDiff(diff)[1..] == CutDiff(diff[1..]);
    }
  }

  /** The text of a diff splits into the lines of the cut diff. */
  lemma TextSplits(diff: seq<Section>)
    requires OneLineNames(diff)
    ensures SplitLines(DiffText(diff)) == Render(CutDiff(diff))
  {
    hide *;
    DiffPieces(diff);
    PiecesOfText(Render(diff));
    assert DiffText(diff) == Ended(Render(diff)) by {
      TextIsEnded(diff);
    }
  }

  lemma TextIsEnded(diff: seq<Section>)
    ensures DiffText(diff) == Ended(Render(diff))
  {
  }

  /** The agreement on the texts themselves, whatever characters their lines hold. */
  lemma DiffTextsAgreeIffHarmless(diff: seq<Section>, ranges: map<string, seq<Range>>, annotated: string)
    requires OneLineNames(diff) && WellFormed(CutDiff(diff)) && Regular(CutDiff(diff))
    requires Groups(ranges, RangesFrom(SplitLines(DiffText(diff)), None))
    requires annotated == JoinLines(Annotate(SplitLines(DiffText(diff)), START))
    ensures (forall f, n :: Marked(Marks(SplitLines(annotated), None), f, n) <==> InRanges(ranges, f, n))
      <==> AllCovered(CutDiff(diff), ranges) && Harmless(CutDiff(diff), false, false)
  {
    hide *;
    TextSplits(diff);
    AgreeIffHarmless(DiffText(diff), CutDiff(diff), ranges, annotated);
  }

  lemma FirstPieceKeepsStart(line: string)
    requires Numbered(line)
    ensures Numbered(PiecesOf(line)[0])
  {
    hide SplitLines;
    var n := FirstBreak(line);
    SplitStep(line + "\n", n);
    assert (line + "\n")[..n] == line[..n];
  }

  /** Cutting never makes fewer numbered lines; so a hunk that counts its lines stays well-formed, unless a piece reads
      as a header. */
  lemma {:induction false} CutKeepsNumbered(body: seq<string>)
    ensures NewLines(Pieces(body)) >= NewLines(body)
  {
    hide Numbered, PiecesOf;
    if body != [] {
      var first := PiecesOf(body[0]);
      CutKeepsNumbered(body[1..]);
      NewLinesConcat(first, Pieces(body[1..]));
      if Numbered(body[0]) {
        FirstPieceKeepsStart(body[0]);
      }
    }
  }

  lemma CutIsWellFormed(h: Hunk)
    requires CountOf(h) <= NewLines(h.body) && NoHeaderIn(Cut(h).body)
    ensures WellFormedHunk(Cut(h))
  {
    hide PiecesOf, NoHeaderIn, NewLines, Pieces;
    CutKeepsNumbered(h.body);
    NewLinesConcat(PiecesOf(h.section)[1..], Pieces(h.body));
  }

  // ---- A form feed within a line ----

  const FORM_FEED := [0xC as char]

  lemma FormFeedSplits(x: string, y: string)
    requires OneLine(x) && OneLine(y)
    ensures PiecesOf("+" + x + FORM_FEED + y) == ["+" + x, y]
  {
    hide SplitLines;
    var a := "+" + x;
    var t := a + FORM_FEED + y + "\n";
    forall k | 0 <= k < |a|
      ensures !IsBreak(t[k])
    {
      assert t[k] == a[k] == if k == 0 then '+' else x[k - 1];
    }
    SplitStep(t, |a|);
    assert t[..|a|] == a && t[|a| + 1..] == y + "\n";
    OnePiece(y);
  }

  /** A form feed within the only added line of a hunk: the scanners agree exactly when what follows it is not taken for
      an added or context line itself. */
  lemma FormFeedAgreesIff(h: Hunk, x: string, y: string, st: Scan, file: string)
    requires OneLine(x) && OneLine(y) && OneLine(h.section)
    requires CountOf(h) == 1 && h.body == ["+" + x + FORM_FEED + y]
    requires FileHeader("+" + x).None? && FileHeader(y).None? && HunkHeader(y).None? && MarkerOf(y).None?
    ensures ScansAgree(RenderHunk(Cut(h)), st, Some(file)) <==> !Numbered(y)
  {
    hide OneLine, FileHeader, HunkHeader, MarkerOf, ScansAgree, RenderHunk, PiecesOf, Fits;
    var line, body := "+" + x + FORM_FEED + y, ["+" + x, y];
    FormFeedSplits(x, y);
    OnePiece(h.section);
    OnlyLine(line);
    assert Cut(h).body == [] + body == body;
    PlusIsNoHeader("+" + x);
    BodyOfTwo("+" + x, y);
    HunkAgreesIffCounted(Cut(h), st, file);
  }

  lemma PlusIsNoHeader(line: string)
    requires StartsWith(line, '+')
    ensures HunkHeader(line).None? && MarkerOf(line).None?
  {
  }

  lemma BodyCons(line: string, rest: seq<string>)
    ensures NewLines([line] + rest) == (if Numbered(line) then 1 else 0) + NewLines(rest)
    ensures Lookalikes([line] + rest) ==
      (if !Numbered(line) && MarkerOf(line).Some? then {MarkerOf(line).value as int} else {}) + Lookalikes(rest)
  {
    hide MarkerOf, Numbered;
    assert ([line] + rest)[1..] == rest;
  }

  lemma BodyOfTwo(a: string, b: string)
    requires (Numbered(a) || MarkerOf(a).None?) && (Numbered(b) || MarkerOf(b).None?)
    ensures NewLines([a, b]) == (if Numbered(a) then 1 else 0) + (if Numbered(b) then 1 else 0)
    ensures Lookalikes([a, b]) == {}
  {
    hide MarkerOf, Numbered, NewLines, Lookalikes;
    BodyCons(a, [b]);
    BodyCons(b, []);
    NoBody();
    assert [a, b] == [a] + [b] && [b] == [b] + [];
  }

  lemma NoBody()
    ensures NewLines([]) == 0 && Lookalikes([]) == {}
  {
  }

  /** With `+b` after the form feed they disagree, with `b` they agree. */
  lemma FormFeedDisagrees(h: Hunk, st: Scan, file: string)
    requires OneLine(h.section) && CountOf(h) == 1
    ensures h.body == ["+" + "a" + FORM_FEED + "+b"] ==> !ScansAgree(RenderHunk(Cut(h)), st, Some(file))
    ensures h.body == ["+" + "a" + FORM_FEED + "b"] ==> ScansAgree(RenderHunk(Cut(h)), st, Some(file))
  {
    hide ScansAgree, RenderHunk, Cut;
    ShortLines();
    if h.body == ["+" + "a" + FORM_FEED + "+b"] {
      FormFeedAgreesIff(h, "a", "+b", st, file);
    }
    if h.body == ["+" + "a" + FORM_FEED + "b"] {
      FormFeedAgreesIff(h, "a", "b", st, file);
    }
  }

  lemma ShortLines()
    ensures OneLine("a") && OneLine("+b") && OneLine("b")
    ensures FileHeader("+" + "a").None? && FileHeader("+b").None? && FileHeader("b").None?
    ensures HunkHeader("+b").None? && HunkHeader("b").None? && MarkerOf("+b").None? && MarkerOf("b").None?
  {
  }

  // ---- A diff that fails ----

  function ChangedLines(): seq<string> {
    ["diff --git a/f b/f", "--- a/f", "+++ b/f", "@@ -1 +1 @@", "-x", "+y"]
  }

  function DeletedLines(): seq<string> {
    ["diff --git a/g b/g", "deleted file mode 100644", "--- a/g", "+++ /dev/null", "@@ -1 +0,0 @@", "-z"]
  }

  /** A file changed in its only line. */
  function ChangedFile(): Section {
    Changed(["diff --git a/f b/f", "--- a/f"], "f", [Hunk(1, None, 1, None, "", ["-x", "+y"])])
  }

  function DeletedFile(): Section {
    Nameless(["diff --git a/g b/g", "deleted file mode 100644", "--- a/g"], DELETED,
      [Hunk(1, None, 0, Some(0), "", ["-z"])])
  }

  lemma PlainStart(line: string)
    requires line != "" && line[0] !in {'+', ' ', '@', '['}
    ensures PlainLine(line)
  {
  }

  lemma SmallNumerals()
    ensures Dec(0) == "0" && Dec(1) == "1"
  {
  }

  lemma ChangedFileRenders()
    ensures WellFormedSection(ChangedFile()) && RenderSection(ChangedFile()) == ChangedLines()
    ensures Counted(ChangedFile().hunks) && AllLookalikes(ChangedFile().hunks, Some("f")) == {}
  {
    hide PlainLine, MarkerOf, HunkHeader;
    var hunks := ChangedFile().hunks;
    var h := hunks[0];
    SmallNumerals();
    PlainStart("diff --git a/f b/f");
    PlainStart("--- a/f");
    PlainStart("-x");
    PlusIsNoHeader("+y");
    PlainThenAdded("-x", "+y");
    assert RenderHunks(hunks[1..]) == [] && AllLookalikes(hunks[1..], Some("f")) == {};
    assert HunkLine(h) == "@@ -1 +1 @@" && "+++ b/" + "f" == "+++ b/f";
    assert RenderHunks(hunks) == ["@@ -1 +1 @@", "-x", "+y"];
    assert HunksOf(ChangedFile()) == hunks;
  }

  lemma PlainThenAdded(a: string, b: string)
    requires PlainLine(a) && StartsWith(b, '+') && FileHeader(b).None?
    ensures NoHeaderIn([a, b]) && NewLines([a, b]) == 1 && Lookalikes([a, b]) == {}
  {
    hide MarkerOf, HunkHeader, FileHeader, NewLines, Lookalikes;
    PlusIsNoHeader(b);
    BodyOfTwo(a, b);
  }

  lemma DeletedFileRenders()
    ensures WellFormedSection(DeletedFile()) && RenderSection(DeletedFile()) == DeletedLines()
    ensures ShowsNothing(DeletedFile().hunks) && Counted(DeletedFile().hunks)
    ensures forall current :: AllLookalikes(DeletedFile().hunks, current) == {}
  {
    hide PlainLine, MarkerOf, HunkHeader;
    var hunks := DeletedFile().hunks;
    var h := hunks[0];
    SmallNumerals();
    PlainStart("diff --git a/g b/g");
    PlainStart("deleted file mode 100644");
    PlainStart("--- a/g");
    PlainStart("-z");
    PlainBody("-z");
    DeletedIsNameless();
    assert RenderHunks(hunks[1..]) == [];
    forall current
      ensures AllLookalikes(hunks, current) == {}
    {
      assert AllLookalikes(hunks[1..], current) == {};
    }
    assert HunkLine(h) == "@@ -1 +0,0 @@";
    assert RenderHunks(hunks) == ["@@ -1 +0,0 @@", "-z"];
    assert HunksOf(DeletedFile()) == hunks;
  }

  lemma PlainBody(line: string)
    requires PlainLine(line)
    ensures NoHeaderIn([line]) && NewLines([line]) == 0 && Lookalikes([line]) == {}
  {
    hide MarkerOf, HunkHeader, FileHeader, Numbered, NewLines, Lookalikes;
    BodyCons(line, []);
    NoBody();
    assert [line] == [line] + [];
  }

  lemma {:induction false} OnePieces(lines: seq<string>)
    requires forall i :: 0 <= i < |lines| ==> OneLine(lines[i])
    ensures Pieces(lines) == lines
  {
    hide OneLine, PiecesOf;
    if lines != [] {
      OnePiece(lines[0]);
      OnePieces(lines[1..]);
    }
  }

  predicate Printable(s: string) {
    forall i :: 0 <= i < |s| ==> ' ' <= s[i] <= '~'
  }

  lemma PrintableIsOneLine(lines: seq<string>)
    requires forall i :: 0 <= i < |lines| ==> Printable(lines[i])
    ensures forall i :: 0 <= i < |lines| ==> OneLine(lines[i])
  {
  }

  lemma ChangedLinesArePrintable()
    ensures forall i :: 0 <= i < |ChangedLines()| ==> Printable(ChangedLines()[i])
  {
  }

  lemma DeletedLinesArePrintable()
    ensures forall i :: 0 <= i < |DeletedLines()| ==> Printable(DeletedLines()[i])
  {
  }

  /** The file changed, then the file deleted: `[L2]` stands in the section of `f`, whose only range is line 1. */
  lemma FailingText(ranges: map<string, seq<Range>>, annotated: string)
    requires Groups(ranges, RangesFrom(SplitLines(Ended(ChangedLines() + DeletedLines())), None))
    requires annotated == JoinLines(Annotate(SplitLines(Ended(ChangedLines() + DeletedLines())), START))
    ensures Marked(Marks(SplitLines(annotated), None), "f", 2) && !InRanges(ranges, "f", 2)
  {
    hide *;
    var diff := [ChangedFile(), DeletedFile()];
    var lines := ChangedLines() + DeletedLines();
    ChangedLinesArePrintable();
    DeletedLinesArePrintable();
    PrintableIsOneLine(lines);
    OnePieces(lines);
    PiecesOfText(lines);
    FailingDiff();
    MarkersMatchRanges(Ended(lines), diff, ranges, annotated);
    var x := StrayIsOutside(diff, START, None);
    GroupsCover(ranges, RangesFrom(Render(diff), None), x.0, x.1);
    assert x == ("f", 2);
  }

  lemma FailingDiff()
    ensures var diff := [ChangedFile(), DeletedFile()];
      && WellFormed(diff) && DistinctPaths(diff) && AllSpaced(diff) && NamelessAreDeleted(diff)
      && Render(diff) == ChangedLines() + DeletedLines() && Strays(diff, START, None) == {("f", 2)}
  {
    hide WellFormedSection, RenderSection, ChangedLines, DeletedLines, CountOf, AllLookalikes, NewLines, Counted,
      ShowsNothing, AllSurplus;
    var diff := [ChangedFile(), DeletedFile()];
    ChangedFileRenders();
    DeletedFileRenders();
    assert diff[1..] == [DeletedFile()] && diff[1..][1..] == [];
    WellFormedHunks(ChangedFile());
    WellFormedHunks(DeletedFile());
    NoSurplus(ChangedFile().hunks, Some("f"));
    NoSurplus(DeletedFile().hunks, Some("f"));
    ChangedEnds();
    assert Paths(diff) == ["f"];
  }

  lemma WellFormedHunks(f: Section)
    requires WellFormedSection(f) && !f.Bare?
    ensures forall j :: 0 <= j < |f.hunks| ==> WellFormedHunk(f.hunks[j])
  {
    hide WellFormedHunk;
    assert HunksOf(f) == f.hunks;
  }

  lemma ChangedEnds()
    ensures HunksEnd(ChangedFile().hunks, START) == Scan(2, true)
  {
    PlainStart("-x");
    PlainThenAdded("-x", "+y");
  }
}
