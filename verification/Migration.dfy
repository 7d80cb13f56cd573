/** Version chaining of migration notes.

    A version is an integer rank: only the order of versions matters to the algorithm,
    and every finite set of versions embeds in the integers. */
module Migration {
  import opened Wrappers
  import opened Sorting

  datatype Note = Note(fromVersion: int, toVersion: int, path: string)

  /** A chain from `current`: each note starts at or below the version reached so far and
      goes strictly above it, and no note is taken once the installed version is reached. */
  ghost predicate IsChain(chain: seq<Note>, current: int, installed: int) {
    chain != [] ==>
      && chain[0].fromVersion <= current < chain[0].toVersion
      && current < installed
      && IsChain(chain[1..], chain[0].toVersion, installed)
  }

  ghost predicate DrawnFrom(chain: seq<Note>, notes: seq<Note>) {
    forall i :: 0 <= i < |chain| ==> chain[i] in notes
  }

  /** The version a chain ends at. */
  ghost function End(chain: seq<Note>, current: int): int {
    if chain == [] then current else chain[|chain| - 1].toVersion
  }

  function ByTarget(): Note -> int {
    (n: Note) => n.toVersion
  }

  // The scan over the sorted notes, as a function of what is left to scan.
  function Scan(sorted: seq<Note>, current: int, installed: int): seq<Note> {
    if sorted == [] then []
    else
      var n := sorted[0];
      if n.fromVersion <= current < n.toVersion then
        if n.toVersion >= installed then [n] else [n] + Scan(sorted[1..], n.toVersion, installed)
      else if current >= installed then []
      else Scan(sorted[1..], current, installed)
  }

  function Applicable(script: Option<int>, installed: int, notes: seq<Note>): seq<Note> {
    if script.None? || script.value >= installed then []
    else Scan(SortBy(notes, ByTarget()), script.value, installed)
  }

  method ApplicableMigrations(script: Option<int>, installed: int, notes: seq<Note>) returns (result: seq<Note>)
    ensures result == Applicable(script, installed, notes)
  {
    if script.None? {
      return [];
    }
    var current := script.value;
    if current >= installed {
      return [];
    }
    var allNotes := SortBy(notes, ByTarget());
    hide SortBy;
    ghost var whole := Scan(allNotes, current, installed);
    result := [];
    for i := 0 to |allNotes|
      invariant current < installed
      invariant result + Scan(allNotes[i..], current, installed) == whole
    {
      var note := allNotes[i];
      assert allNotes[i..][1..] == allNotes[i + 1..];
      assert result + [note] + Scan(allNotes[i + 1..], note.toVersion, installed)
          == result + ([note] + Scan(allNotes[i + 1..], note.toVersion, installed));
      if note.fromVersion <= current < note.toVersion {
        result := result + [note];
        current := note.toVersion;
      }
      if current >= installed {
        break;
      }
    }
  }

  /** Something applies exactly when the script is below the installed version and some note starts at or below it and
      goes above it. */
  lemma AppliesIff(script: Option<int>, installed: int, notes: seq<Note>)
    ensures Applicable(script, installed, notes) != [] <==>
      && script.Some? && script.value < installed
      && exists n :: n in notes && n.fromVersion <= script.value < n.toVersion
  {
    hide Scan, SortBy;
    if script.Some? && script.value < installed {
      var sorted, current := SortBy(notes, ByTarget()), script.value;
      var scan := Scan(sorted, current, installed);
      SortByCorrect(notes, ByTarget());
      ScanIsChain(sorted, current, installed);
      if n :| n in notes && n.fromVersion <= current < n.toVersion {
        assert DrawnFrom([n], sorted);
        ScanDominates(sorted, current, installed, [n]);
      }
      if scan != [] {
        assert scan[0] in sorted;
      }
    }
  }

  lemma {:induction false} TargetsRise(chain: seq<Note>, current: int, installed: int)
    requires IsChain(chain, current, installed)
    ensures forall i :: 0 <= i < |chain| ==> current < chain[i].toVersion
    ensures forall i, j :: 0 <= i < j < |chain| ==> chain[i].toVersion < chain[j].toVersion
  {
    if chain != [] {
      TargetsRise(chain[1..], chain[0].toVersion, installed);
    }
  }

  // A chain never uses a note whose target is already reached, so the scan may forget the note it has passed.
  lemma HeadIsLeast<T>(sorted: seq<T>, key: T -> int, x: T)
    requires SortedBy(sorted, key) && x in sorted
    ensures key(sorted[0]) <= key(x)
  {
  }

  lemma DropHead(chain: seq<Note>, sorted: seq<Note>, current: int, installed: int)
    requires sorted != [] && SortedBy(sorted, ByTarget())
    requires IsChain(chain, current, installed) && DrawnFrom(chain, sorted)
    requires sorted[0].toVersion <= current || sorted[0].fromVersion > current
    ensures DrawnFrom(chain, sorted[1..])
  {
    TargetsRise(chain, current, installed);
    forall i | 0 <= i < |chain|
      ensures chain[i] in sorted[1..]
    {
      if i > 0 && chain[i] == sorted[0] {
        HeadIsLeast(sorted, ByTarget(), chain[0]);
      }
    }
  }

  lemma {:induction false} ScanIsChain(sorted: seq<Note>, current: int, installed: int)
    requires current < installed
    ensures IsChain(Scan(sorted, current, installed), current, installed)
    ensures DrawnFrom(Scan(sorted, current, installed), sorted)
  {
    if sorted != [] {
      var n := sorted[0];
      if n.fromVersion <= current < n.toVersion {
        if n.toVersion < installed {
          ScanIsChain(sorted[1..], n.toVersion, installed);
          assert Scan(sorted, current, installed)[1..] == Scan(sorted[1..], n.toVersion, installed);
        }
      } else {
        ScanIsChain(sorted[1..], current, installed);
      }
    }
  }

  ghost predicate Dominates(s: seq<Note>, other: seq<Note>, current: int, installed: int) {
    && |other| <= |s|
    && (End(other, current) >= installed ==> End(s, current) >= installed)
    && (End(s, current) < installed ==> End(other, current) <= End(s, current))
  }

  /** Nothing outlasts the scan: any other chain is no longer, ends no higher below the installed version,
      and reaches it only if the scan does. */
  lemma {:induction false} ScanDominates(sorted: seq<Note>, current: int, installed: int, other: seq<Note>)
    requires SortedBy(sorted, ByTarget()) && current < installed
    requires IsChain(other, current, installed) && DrawnFrom(other, sorted)
    ensures Dominates(Scan(sorted, current, installed), other, current, installed)
  {
    if sorted != [] {
      var n, rest := sorted[0], sorted[1..];
      if n.fromVersion <= current < n.toVersion {
        if other != [] {
          HeadIsLeast(sorted, ByTarget(), other[0]);
        }
        if n.toVersion < installed {
          // Exchange: `other` either makes the same hop, or is still a chain from the lower stop.
          if other != [] && other[0].toVersion == n.toVersion {
            DropHead(other[1..], sorted, n.toVersion, installed);
            ScanDominates(rest, n.toVersion, installed, other[1..]);
          } else {
            DropHead(other, sorted, n.toVersion, installed);
            ScanDominates(rest, n.toVersion, installed, other);
          }
        } else {
          assert other != [] ==> IsChain(other[1..], other[0].toVersion, installed);
        }
      } else {
        DropHead(other, sorted, current, installed);
        ScanDominates(rest, current, installed, other);
      }
    }
  }

  /** No chain that stops on first reaching the installed version has more notes than the result. */
  lemma LongestChain(script: int, installed: int, notes: seq<Note>, other: seq<Note>)
    requires IsChain(other, script, installed) && DrawnFrom(other, notes)
    ensures |other| <= |Applicable(Some(script), installed, notes)|
  {
    if script < installed {
      SortByCorrect(notes, ByTarget());
      ScanDominates(SortBy(notes, ByTarget()), script, installed, other);
    }
  }

  /** The result is a chain of the given notes with strictly rising targets, at most one note per target. */
  lemma ResultIsChain(script: int, installed: int, notes: seq<Note>)
    ensures var r := Applicable(Some(script), installed, notes);
      && IsChain(r, script, installed) && DrawnFrom(r, notes)
      && forall i, j :: 0 <= i < j < |r| ==> r[i].toVersion < r[j].toVersion
  {
    if script < installed {
      SortByCorrect(notes, ByTarget());
      ScanIsChain(SortBy(notes, ByTarget()), script, installed);
    }
    TargetsRise(Applicable(Some(script), installed, notes), script, installed);
  }

  ghost predicate Reachable(v: int, script: int, installed: int, notes: seq<Note>) {
    exists c :: IsChain(c, script, installed) && DrawnFrom(c, notes) && End(c, script) == v
  }

  /** The result reaches the installed version iff some chain can; otherwise it ends at the highest version any chain
      reaches. */
  lemma ReachesIffPossible(script: int, installed: int, notes: seq<Note>)
    requires script < installed
    ensures var e := End(Applicable(Some(script), installed, notes), script);
      && (e >= installed <==> exists v :: v >= installed && Reachable(v, script, installed, notes))
      && Reachable(e, script, installed, notes)
      && (e < installed ==> forall v :: Reachable(v, script, installed, notes) ==> v <= e)
  {
    var r := Applicable(Some(script), installed, notes);
    ResultIsChain(script, installed, notes);
    assert Reachable(End(r, script), script, installed, notes);
    SortByCorrect(notes, ByTarget());
    forall v | Reachable(v, script, installed, notes)
      ensures v >= installed ==> End(r, script) >= installed
      ensures End(r, script) < installed ==> v <= End(r, script)
    {
      var c :| IsChain(c, script, installed) && DrawnFrom(c, notes) && End(c, script) == v;
      ScanDominates(SortBy(notes, ByTarget()), script, installed, c);
    }
  }
}
