/** Retention of session logs: the oldest directories go, except those of protected campaigns, and the index follows. */
module Retention {
  import opened Wrappers
  import opened Sorting
  import opened Places

  /** What an object holds at a key: nothing, a string, a null, number or boolean, or an array or object, which cannot
      be looked up in a set. */
  datatype Field = Absent | Text(s: string) | Scalar | Container

  /** The `meta.json` of a session: missing or not to be opened, no JSON, an object, other JSON, or no UTF-8 at all. */
  datatype Meta = NoMeta | BadMeta | MetaObject(campaignId: Field) | MetaOther | MetaUndecodable

  datatype Dir = Dir(name: string, mtime: int, meta: Meta)

  datatype Content = Blank | Unparsable | Entry(dirName: Field) | NotAnObject

  /** A line of the index and what it parses to. */
  datatype IndexLine = IndexLine(text: string, content: Content)

  /** The index file: missing, not to be read as text, or its lines. */
  datatype Index = NoIndex | Unreadable | Lines(lines: seq<IndexLine>)

  /** Reading the campaign of a session raises, other than for a file that is missing or no JSON. */
  predicate OddMeta(meta: Meta) {
    meta.MetaOther? || meta.MetaUndecodable? || meta == MetaObject(Container)
  }

  predicate OddContent(content: Content) {
    content.NotAnObject? || content == Entry(Container)
  }

  function ByTime(): Dir -> int {
    (d: Dir) => d.mtime
  }

  predicate Protected(d: Dir, protectedIds: set<string>) {
    d.meta.MetaObject? && d.meta.campaignId.Text? && d.meta.campaignId.s in protectedIds
  }

  ghost predicate DistinctDirs(dirs: seq<Dir>) {
    forall i, j :: 0 <= i < j < |dirs| ==> dirs[i].name != dirs[j].name && dirs[i].mtime != dirs[j].mtime
  }

  /** How many directories are newer than `d`. */
  ghost function Newer(dirs: seq<Dir>, d: Dir): nat {
    |set e | e in dirs && e.mtime > d.mtime|
  }

  /** A directory survives among the newest `maxSessions`, or by protection. */
  ghost predicate Survives(dirs: seq<Dir>, d: Dir, protectedIds: set<string>, maxSessions: nat) {
    Newer(dirs, d) < maxSessions || Protected(d, protectedIds)
  }

  function Remove(dirs: seq<Dir>, name: string): (rest: seq<Dir>)
    ensures forall d :: d in rest <==> d in dirs && d.name != name
    ensures DistinctDirs(dirs) ==> DistinctDirs(rest)
  {
    if dirs == [] then []
    else if dirs[0].name == name then Remove(dirs[1..], name)
    else
      var rest := Remove(dirs[1..], name);
      assert forall d :: d in rest ==> d in dirs[1..];
      [dirs[0]] + rest
  }

  /** The line parses and names a survivor. */
  predicate Keeps(line: IndexLine, names: set<string>) {
    line.content.Entry? && line.content.dirName.Text? && line.content.dirName.s in names
  }

  function KeptLines(lines: seq<IndexLine>, names: set<string>): seq<IndexLine> {
    if lines == [] then []
    else
      var front, last := KeptLines(lines[..|lines| - 1], names), lines[|lines| - 1];
      if Keeps(last, names) then front + [last] else front
  }

  /** `lines'` are, in order, exactly the lines that parse to an entry naming one of the directories. */
  ghost predicate NamingLines(lines: seq<IndexLine>, dirs: seq<Dir>, lines': seq<IndexLine>) {
    exists places: seq<nat> :: NamingPlaces(lines, dirs, places, lines')
  }

  ghost predicate NamingPlaces(lines: seq<IndexLine>, dirs: seq<Dir>, places: seq<nat>, lines': seq<IndexLine>) {
    && (forall j, k :: 0 <= j < k < |places| ==> places[j] < places[k])
    && |lines'| == |places|
    && (forall k :: 0 <= k < |places| ==> places[k] < |lines| && lines'[k] == lines[places[k]])
    && (forall i: nat :: i < |lines| ==>
      (i in places <==> exists d :: d in dirs && lines[i].content == Entry(Text(d.name))))
  }

  predicate HasOddLine(index: Index) {
    || index.Unreadable?
    || (index.Lines? && exists i :: 0 <= i < |index.lines| && OddContent(index.lines[i].content))
  }

  ghost predicate HasOddMeta(dirs: seq<Dir>, protectedIds: set<string>, maxSessions: nat) {
    protectedIds != {} && exists d :: d in dirs && OddMeta(d.meta) && Newer(dirs, d) >= maxSessions
  }

  function Names(dirs: seq<Dir>): set<string> {
    set d | d in dirs :: d.name
  }

  class LogRoot {
    var dirs: seq<Dir>
    var index: Index

    constructor (dirs: seq<Dir>, index: Index)
      ensures this.dirs == dirs && this.index == index
    {
      this.dirs, this.index := dirs, index;
    }

    /** Unless it raises - see `HasOddMeta` and `HasOddLine` - a pruning run leaves exactly the
        surviving directories and, in order, exactly the index lines that name one. No survivor is ever deleted. */
    method EnforceRetention(protectedIds: set<string>, maxSessions: nat) returns (raised: bool)
      requires DistinctDirs(dirs)
      modifies this
      ensures |old(dirs)| <= maxSessions ==> !raised && dirs == old(dirs) && index == old(index)
      ensures |old(dirs)| > maxSessions ==>
        Pruned(old(dirs), old(index), protectedIds, maxSessions, dirs, index, raised)
    {
      var sorted := SortBy(dirs, ByTime());
      SortByCorrect(dirs, ByTime());
      if |sorted| <= maxSessions {
        return false;
      }
      SortedIsRanked(dirs, sorted);
      hide Newer, DistinctDirs, SortBy, SortedBy, Names, KeptLines, NamingLines;
      var survivingNames: set<string>;
      raised, survivingNames := DeleteExpired(sorted, |sorted| - maxSessions, protectedIds);
      CutIsRank(old(dirs), sorted, protectedIds, maxSessions, dirs, raised);
      if raised {
        return;
      }
      if index != NoIndex {
        raised := RewriteIndex(survivingNames);
        if !raised {
          KeptLinesAreNaming(old(index).lines, dirs);
        }
      }
    }

    /** The loop over the expired directories, the first `cut` of the sorted ones. */
    method DeleteExpired(
        sorted: seq<Dir>, cut: nat, protectedIds: set<string>) returns (raised: bool, survivingNames: set<string>)
      requires cut <= |sorted| && DistinctDirs(sorted) && DistinctDirs(dirs) && forall d :: d in dirs <==> d in sorted
      modifies `dirs
      ensures DistinctDirs(dirs) && (forall d :: d in dirs ==> d in sorted)
      ensures raised == (protectedIds != {} && exists j :: 0 <= j < cut && OddMeta(sorted[j].meta))
      ensures forall j :: 0 <= j < |sorted| && (j >= cut || Protected(sorted[j], protectedIds)) ==> sorted[j] in dirs
      ensures !raised ==>
        forall j :: 0 <= j < |sorted| && sorted[j] in dirs ==> j >= cut || Protected(sorted[j], protectedIds)
      ensures !raised ==> survivingNames == Names(dirs)
    {
      hide DistinctDirs;
      survivingNames := NamesUpTo(sorted, cut, 0, protectedIds);
      for i := 0 to cut
        invariant DistinctDirs(dirs) && forall d :: d in dirs ==> d in sorted
        invariant forall j ::
          0 <= j < |sorted| ==> (sorted[j] in dirs <==> j >= i || Protected(sorted[j], protectedIds))
        invariant survivingNames == NamesUpTo(sorted, cut, i, protectedIds)
        invariant protectedIds != {} ==> forall j :: 0 <= j < i ==> !OddMeta(sorted[j].meta)
      {
        var d := sorted[i];
        NamesStep(sorted, cut, i, protectedIds);
        if protectedIds != {} {
          if OddMeta(d.meta) {
            return true, survivingNames;
          }
          if Protected(d, protectedIds) {
            survivingNames := survivingNames + {d.name};
            continue;
          }
        }
        NameIsOwn(sorted, i);
        dirs := Remove(dirs, d.name);
      }
      SurvivingNamesAreNames(sorted, cut, protectedIds, dirs);
      raised := false;
    }

    /** The loop over the lines of the index. */
    method RewriteIndex(survivingNames: set<string>) returns (raised: bool)
      requires index != NoIndex
      modifies `index
      ensures raised == HasOddLine(old(index))
      ensures index == if raised then old(index) else Lines(KeptLines(old(index).lines, survivingNames))
    {
      if index.Unreadable? {
        return true;
      }
      var lines := index.lines;
      var keptLines: seq<IndexLine> := [];
      for i := 0 to |lines|
        invariant keptLines == KeptLines(lines[..i], survivingNames)
        invariant forall j :: 0 <= j < i ==> !OddContent(lines[j].content)
      {
        assert lines[..i + 1][..i] == lines[..i];
        match lines[i].content {
          case NotAnObject => return true;
          case Entry(Container) => return true;
          case Entry(Text(name)) =>
            if name in survivingNames {
              keptLines := keptLines + [lines[i]];
            }
          case _ =>
        }
      }
      assert lines[..|lines|] == lines;
      index := Lines(keptLines);
      raised := false;
    }
  }

  lemma NameIsOwn(sorted: seq<Dir>, i: nat)
    requires DistinctDirs(sorted) && i < |sorted|
    ensures forall j :: 0 <= j < |sorted| && j != i ==> sorted[j].name != sorted[i].name
  {
  }

  /** Names of the newest, and of the protected among the first `i`. */
  function NamesUpTo(sorted: seq<Dir>, cut: nat, i: nat, protectedIds: set<string>): set<string>
    requires i <= cut <= |sorted|
  {
    set j | 0 <= j < |sorted| && (j >= cut || (j < i && Protected(sorted[j], protectedIds))) :: sorted[j].name
  }

  lemma NamesStep(sorted: seq<Dir>, cut: nat, i: nat, protectedIds: set<string>)
    requires i < cut <= |sorted|
    ensures NamesUpTo(sorted, cut, i + 1, protectedIds)
         == NamesUpTo(sorted, cut, i, protectedIds) +
            if Protected(sorted[i], protectedIds) then {sorted[i].name} else {}
  {
  }

  /** What a pruning run does. */
  ghost predicate Pruned(
      dirs: seq<Dir>, index: Index, protectedIds: set<string>, maxSessions: nat,
      dirs': seq<Dir>, index': Index, raised: bool)
  {
    && (raised <==> HasOddMeta(dirs, protectedIds, maxSessions) || HasOddLine(index))
    && DistinctDirs(dirs')
    && (forall d :: d in dirs' ==> d in dirs)
    && (forall d :: d in dirs && Survives(dirs, d, protectedIds, maxSessions) ==> d in dirs')
    && (raised ==> index' == index)
    && (!raised ==> forall d :: d in dirs' ==> Survives(dirs, d, protectedIds, maxSessions))
    && (!raised && index.NoIndex? ==> index' == NoIndex)
    && (!raised && index.Lines? ==> index'.Lines? && NamingLines(index.lines, dirs', index'.lines))
  }

  /** In the sorted list each place tells how many directories are newer. */
  ghost predicate Ranked(dirs: seq<Dir>, sorted: seq<Dir>) {
    forall i :: 0 <= i < |sorted| ==> Newer(dirs, sorted[i]) == |sorted| - 1 - i
  }

  lemma {:induction false} NoRepeats(s: seq<Dir>, x: Dir)
    requires DistinctDirs(s)
    ensures multiset(s)[x] <= 1
  {
    if s != [] {
      NoRepeats(s[1..], x);
      assert s == [s[0]] + s[1..];
      assert s[0] !in s[1..];
    }
  }

  lemma RepeatsShow(s: seq<Dir>, i: nat, j: nat)
    requires i < j < |s| && s[i] == s[j]
    ensures multiset(s)[s[i]] >= 2
  {
    assert s == s[..j] + [s[j]] + s[j + 1..];
    assert s[..j][i] == s[i] && s[i] in multiset(s[..j]);
  }

  lemma {:induction false} SizeOfDistinct(s: seq<Dir>)
    requires forall i, j :: 0 <= i < j < |s| ==> s[i] != s[j]
    ensures |set d | d in s| == |s|
  {
    if s != [] {
      SizeOfDistinct(s[1..]);
      assert (set d | d in s) == (set d | d in s[1..]) + {s[0]};
    }
  }

  lemma SortedIsDistinct(dirs: seq<Dir>, sorted: seq<Dir>)
    requires DistinctDirs(dirs) && multiset(sorted) == multiset(dirs)
    ensures DistinctDirs(sorted) && (forall d :: d in sorted <==> d in dirs) && |sorted| == |dirs|
  {
    SameMembers(sorted, dirs);
    forall i, j | 0 <= i < j < |sorted|
      ensures sorted[i].name != sorted[j].name && sorted[i].mtime != sorted[j].mtime
    {
      NoRepeats(dirs, sorted[i]);
      if sorted[i] == sorted[j] {
        RepeatsShow(sorted, i, j);
      }
      assert sorted[i] in dirs && sorted[j] in dirs;
    }
  }

  lemma LaterIfNewer(sorted: seq<Dir>, k: nat, i: nat)
    requires SortedBy(sorted, ByTime()) && k < |sorted| && i < |sorted|
    ensures sorted[k].mtime > sorted[i].mtime ==> k > i
  {
    assert k < i ==> ByTime()(sorted[k]) <= ByTime()(sorted[i]);
  }

  lemma SortedIsRanked(dirs: seq<Dir>, sorted: seq<Dir>)
    requires DistinctDirs(dirs) && SortedBy(sorted, ByTime()) && multiset(sorted) == multiset(dirs)
    ensures Ranked(dirs, sorted) && DistinctDirs(sorted) && |sorted| == |dirs| && forall d :: d in sorted <==> d in dirs
  {
    SortedIsDistinct(dirs, sorted);
    forall i | 0 <= i < |sorted|
      ensures Newer(dirs, sorted[i]) == |sorted| - 1 - i
    {
      var later := sorted[i + 1..];
      forall e
        ensures e in later <==> e in dirs && e.mtime > sorted[i].mtime
      {
        if e in dirs && e.mtime > sorted[i].mtime {
          var k :| 0 <= k < |sorted| && sorted[k] == e;
          LaterIfNewer(sorted, k, i);
          assert later[k - i - 1] == e;
        }
        if e in later {
          var k :| 0 <= k < |later| && later[k] == e;
          assert ByTime()(sorted[i]) <= ByTime()(sorted[i + 1 + k]);
        }
      }
      assert (set e | e in dirs && e.mtime > sorted[i].mtime) == set e | e in later;
      SizeOfDistinct(later);
    }
  }

  /** Read with ranks instead of places, the deletions are those that retention promises. */
  lemma CutIsRank(
      dirs: seq<Dir>, sorted: seq<Dir>, protectedIds: set<string>, maxSessions: nat, dirs': seq<Dir>, raised: bool)
    requires Ranked(dirs, sorted) && (forall d :: d in sorted <==> d in dirs) && |sorted| > maxSessions
    requires forall d :: d in dirs' ==> d in sorted
    requires var cut := |sorted| - maxSessions;
      && raised == (protectedIds != {} && exists j :: 0 <= j < cut && OddMeta(sorted[j].meta))
      && (forall j :: 0 <= j < |sorted| && (j >= cut || Protected(sorted[j], protectedIds)) ==> sorted[j] in dirs')
      && (!raised ==>
        forall j :: 0 <= j < |sorted| && sorted[j] in dirs' ==> j >= cut || Protected(sorted[j], protectedIds))
    ensures raised == HasOddMeta(dirs, protectedIds, maxSessions)
    ensures forall d :: d in dirs && Survives(dirs, d, protectedIds, maxSessions) ==> d in dirs'
    ensures !raised ==> forall d :: d in dirs' ==> Survives(dirs, d, protectedIds, maxSessions)
  {
    hide Newer;
    forall d | d in dirs
      ensures exists j ::
        0 <= j < |sorted| && sorted[j] == d && (j >= |sorted| - maxSessions <==> Newer(dirs, d) < maxSessions)
    {
      var j :| 0 <= j < |sorted| && sorted[j] == d;
      assert Newer(dirs, sorted[j]) == |sorted| - 1 - j;
    }
    assert forall j :: 0 <= j < |sorted| ==> sorted[j] in dirs;
  }

  lemma SurvivingNamesAreNames(sorted: seq<Dir>, cut: nat, protectedIds: set<string>, dirs: seq<Dir>)
    requires cut <= |sorted| && forall d :: d in dirs ==> d in sorted
    requires forall j :: 0 <= j < |sorted| ==> (sorted[j] in dirs <==> j >= cut || Protected(sorted[j], protectedIds))
    ensures NamesUpTo(sorted, cut, cut, protectedIds) == Names(dirs)
  {
    forall name
      ensures name in NamesUpTo(sorted, cut, cut, protectedIds) <==> name in Names(dirs)
    {
      if d :| d in dirs && d.name == name {
        var j :| 0 <= j < |sorted| && sorted[j] == d;
      }
    }
  }

  /** What protects a directory: a `meta.json` with the id of a protected campaign. */
  lemma ProtectedMeans(d: Dir, protectedIds: set<string>)
    ensures Protected(d, protectedIds) <==> exists id :: id in protectedIds && d.meta == MetaObject(Text(id))
  {
    if Protected(d, protectedIds) {
      assert d.meta.campaignId.s in protectedIds;
    }
  }

  // ---- A second run ----

  lemma FewerNewer(dirs: seq<Dir>, dirs': seq<Dir>, d: Dir)
    requires forall e :: e in dirs' ==> e in dirs
    ensures Newer(dirs', d) <= Newer(dirs, d)
  {
    SubsetSize(set e | e in dirs' && e.mtime > d.mtime, set e | e in dirs && e.mtime > d.mtime);
  }

  lemma {:induction false} SubsetSize(a: set<Dir>, b: set<Dir>)
    requires a <= b
    ensures |a| <= |b|
  {
    if x :| x in a {
      SubsetSize(a - {x}, b - {x});
    }
  }

  lemma {:induction false} KeptLinesAreSelected(lines: seq<IndexLine>, names: set<string>)
    ensures Selects(lines, seq(|lines|, i requires 0 <= i < |lines| => Keeps(lines[i], names)), KeptLines(lines, names))
  {
    hide Selects;
    var keep := seq(|lines|, i requires 0 <= i < |lines| => Keeps(lines[i], names));
    if lines == [] {
      SelectsNothing<IndexLine>();
      assert keep == [];
    } else {
      var front, last := lines[..|lines| - 1], lines[|lines| - 1];
      KeptLinesAreSelected(front, names);
      var keep' := seq(|front|, i requires 0 <= i < |front| => Keeps(front[i], names));
      SelectsSnoc(front, keep', KeptLines(front, names), last, Keeps(last, names));
      assert lines == front + [last] && keep == keep' + [Keeps(last, names)];
    }
  }

  lemma KeptLinesAreNaming(lines: seq<IndexLine>, dirs: seq<Dir>)
    ensures NamingLines(lines, dirs, KeptLines(lines, Names(dirs)))
  {
    hide KeptLines;
    var lines', keep :=
      KeptLines(lines, Names(dirs)), seq(|lines|, i requires 0 <= i < |lines| => Keeps(lines[i], Names(dirs)));
    KeptLinesAreSelected(lines, Names(dirs));
    var places: seq<nat> :| IsSelection(lines, keep, places, lines');
    forall i: nat | i < |lines|
      ensures i in places <==> exists d :: d in dirs && lines[i].content == Entry(Text(d.name))
    {
      assert keep[i] <==> i in places;
    }
    assert NamingPlaces(lines, dirs, places, lines');
  }

  lemma {:induction false} KeptWhole(lines: seq<IndexLine>, names: set<string>)
    requires forall i :: 0 <= i < |lines| ==> Keeps(lines[i], names)
    ensures KeptLines(lines, names) == lines
  {
    if lines != [] {
      KeptWhole(lines[..|lines| - 1], names);
      assert lines == lines[..|lines| - 1] + [lines[|lines| - 1]];
    }
  }

  /** A second run with the same protected campaigns finds nothing to do: it cannot raise, every directory survives
      again, and the index stays as it is. */
  lemma SecondRunIsIdle(
      dirs: seq<Dir>, index: Index, protectedIds: set<string>, maxSessions: nat,
      dirs': seq<Dir>, index': Index)
    requires Pruned(dirs, index, protectedIds, maxSessions, dirs', index', false)
    ensures forall d :: d in dirs' ==> Survives(dirs', d, protectedIds, maxSessions)
    ensures !HasOddMeta(dirs', protectedIds, maxSessions) && !HasOddLine(index')
    ensures index'.Lines? ==> index' == Lines(KeptLines(index'.lines, Names(dirs')))
  {
    forall d | d in dirs'
      ensures Survives(dirs', d, protectedIds, maxSessions)
      ensures Newer(dirs', d) >= maxSessions ==> Protected(d, protectedIds)
    {
      FewerNewer(dirs, dirs', d);
    }
    if index'.Lines? {
      var places: seq<nat> :| NamingPlaces(index.lines, dirs', places, index'.lines);
      forall i | 0 <= i < |index'.lines|
        ensures Keeps(index'.lines[i], Names(dirs')) && !OddContent(index'.lines[i].content)
      {
        assert places[i] in places;
        var d :| d in dirs' && index.lines[places[i]].content == Entry(Text(d.name));
      }
      KeptWhole(index'.lines, Names(dirs'));
    }
  }
}
