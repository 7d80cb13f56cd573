/** Tool-call sequences: merging assistant records into turns, and the graph of what follows what. */
module ToolSequence {
  // ---- Merging records into turns ----

  /** A block of an assistant message; only a tool use with a non-empty name counts. */
  datatype Block = ToolUse(name: string) | OtherBlock

  /** A line of the log: an assistant record, one whose content cannot be iterated or whose request id cannot be
      hashed, or anything that is skipped. */
  datatype Line = Skipped | Broken | Assistant(requestId: string, timestamp: string, blocks: seq<Block>)

  datatype Turn = Turn(requestId: string, timestamp: string, tools: seq<string>)

  function Tools(blocks: seq<Block>): seq<string> {
    if blocks == [] then []
    else (if blocks[0].ToolUse? && blocks[0].name != "" then [blocks[0].name] else []) + Tools(blocks[1..])
  }

  function Cap(tools: seq<string>, cap: nat): seq<string> {
    if |tools| <= cap then tools else tools[..cap]
  }

  /** All tools of one request, over all its records in order. */
  function ToolsOf(lines: seq<Line>, id: string): seq<string> {
    if lines == [] then []
    else
      var front, last := lines[..|lines| - 1], lines[|lines| - 1];
      ToolsOf(front, id) + if IsFor(last, id) then Tools(last.blocks) else []
  }

  predicate IsFor(line: Line, id: string) {
    line.Assistant? && line.requestId == id
  }

  /** The first non-empty timestamp of one request, or "". */
  function TimestampOf(lines: seq<Line>, id: string): string {
    if lines == [] then ""
    else
      var earlier := TimestampOf(lines[..|lines| - 1], id);
      if earlier == "" && IsFor(lines[|lines| - 1], id) then lines[|lines| - 1].timestamp else earlier
  }

  /** Where a turn starts: at a record without an id, or the first record of its id. */
  predicate StartsTurn(lines: seq<Line>, i: nat)
    requires i < |lines|
  {
    lines[i].Assistant? && (lines[i].requestId == "" || forall j :: 0 <= j < i ==> !IsFor(lines[j], lines[i].requestId))
  }

  /** The indices at which turns start, in order. */
  function Starts(lines: seq<Line>, n: nat): seq<nat>
    requires n <= |lines|
  {
    if n == 0 then [] else Starts(lines, n - 1) + if StartsTurn(lines, n - 1) then [n - 1] else []
  }

  /** The turn that starts at `i`, gathered by grouping instead of merging. */
  function TurnAt(lines: seq<Line>, i: nat, cap: nat): Turn
    requires i < |lines| && lines[i].Assistant?
  {
    var id := lines[i].requestId;
    if id == "" then Turn("", lines[i].timestamp, Cap(Tools(lines[i].blocks), cap))
    else Turn(id, TimestampOf(lines, id), Cap(ToolsOf(lines, id), cap))
  }

  ghost predicate GroupsByFirst(lines: seq<Line>, cap: nat, turns: seq<Turn>) {
    var starts := Starts(lines, |lines|);
    && |turns| == |starts|
    && forall k :: 0 <= k < |starts| ==>
      starts[k] < |lines| && lines[starts[k]].Assistant? && turns[k] == TurnAt(lines, starts[k], cap)
  }

  // ---- What a turn holds ----

  lemma NoTools()
    ensures Tools([]) == []
  {
  }

  lemma ToolsOfOne(x: Block)
    ensures Tools([x]) == if x.ToolUse? && x.name != "" then [x.name] else []
  {
    NoTools();
    assert [x][1..] == [];
  }

  lemma ToolsCons(x: Block, rest: seq<Block>)
    ensures Tools([x] + rest) == Tools([x]) + Tools(rest)
  {
    ToolsOfOne(x);
    assert ([x] + rest)[1..] == rest;
  }

  /** The named tool uses of blocks one after the other. */
  lemma {:induction false} ToolsJoin(a: seq<Block>, b: seq<Block>)
    ensures Tools(a + b) == Tools(a) + Tools(b)
  {
    hide Tools;
    if a == [] {
      NoTools();
      assert a + b == b;
    } else {
      var rest := a[1..];
      ToolsJoin(rest, b);
      ToolsCons(a[0], rest);
      ToolsCons(a[0], rest + b);
      assert a == [a[0]] + rest && a + b == [a[0]] + (rest + b);
    }
  }

  /** The blocks of all records of one id, joined in the order of the log. */
  ghost function BlocksOf(lines: seq<Line>, id: string): seq<Block> {
    if lines == [] then []
    else (if IsFor(lines[0], id) then lines[0].blocks else []) + BlocksOf(lines[1..], id)
  }

  /** Merging two parts of a log joins their tools in order. */
  lemma {:induction false} ToolsOfJoin(a: seq<Line>, b: seq<Line>, id: string)
    ensures ToolsOf(a + b, id) == ToolsOf(a, id) + ToolsOf(b, id)
  {
    hide Tools;
    if b == [] {
      assert a + b == a;
    } else {
      var front := b[..|b| - 1];
      ToolsOfJoin(a, front, id);
      assert (a + b)[..|a + b| - 1] == a + front;
    }
  }

  /** A request's tools are the named tool uses of its records, front to back. */
  lemma {:induction false} ToolsOfIsForward(lines: seq<Line>, id: string)
    ensures ToolsOf(lines, id) == Tools(BlocksOf(lines, id))
  {
    hide Tools;
    if lines == [] {
      NoTools();
    } else {
      ToolsOfIsForward(lines[1..], id);
      ToolsOfJoin([lines[0]], lines[1..], id);
      assert lines == [lines[0]] + lines[1..];
      OneRecord(lines[0], id);
      ToolsJoin(if IsFor(lines[0], id) then lines[0].blocks else [], BlocksOf(lines[1..], id));
    }
  }

  lemma OneRecord(line: Line, id: string)
    ensures ToolsOf([line], id) == Tools(if IsFor(line, id) then line.blocks else [])
  {
    assert [line][..0] == [];
  }

  ghost predicate IsFirstStamp(lines: seq<Line>, id: string, i: nat)
    requires i < |lines|
  {
    && IsFor(lines[i], id) && lines[i].timestamp != ""
    && forall j :: 0 <= j < i && IsFor(lines[j], id) ==> lines[j].timestamp == ""
  }

  /** The timestamp of a request is that of its first record that has one. */
  lemma {:induction false} TimestampIsFirst(lines: seq<Line>, id: string)
    ensures TimestampOf(lines, id) == "" <==>
      forall i :: 0 <= i < |lines| && IsFor(lines[i], id) ==> lines[i].timestamp == ""
    ensures forall i :: 0 <= i < |lines| && IsFirstStamp(lines, id, i) ==> TimestampOf(lines, id) == lines[i].timestamp
  {
    if lines != [] {
      var front := lines[..|lines| - 1];
      TimestampIsFirst(front, id);
      assert forall i :: 0 <= i < |front| ==> front[i] == lines[i];
      assert forall i :: 0 <= i < |front| && IsFirstStamp(lines, id, i) ==> IsFirstStamp(front, id, i);
    }
  }

  /** The cap keeps the first tools. */
  lemma CapKeepsFirst(tools: seq<string>, cap: nat)
    ensures Cap(tools, cap) <= tools && |Cap(tools, cap)| == if |tools| < cap then |tools| else cap
  {
  }

  datatype Slot = ById(id: string) | NoId(key: nat)

  /** The pass over the records. */
  method MergeRecords(lines: seq<Line>, cap: nat)
    returns (
      raised: bool, pending: map<string, (string, seq<string>)>, insertionOrder: seq<Slot>, noIdTurns: map<nat, Turn>,
      noIdCounter: nat)
    ensures raised <==> HasBroken(lines)
    ensures !raised ==> PendingFits(lines, |lines|, pending)
    ensures !raised ==> SlotsFit(lines, cap, |lines|, insertionOrder, pending.Keys, noIdTurns, noIdCounter)
  {
    raised, pending, insertionOrder, noIdTurns, noIdCounter := false, map[], [], map[], 0;
    hide Starts, StartsTurn, Tools, PendingFits, SlotsFit, GroupsByFirst, TurnAt, Cap, ToolsOf, TimestampOf, Seen;
    NothingYet(lines, cap);
    for i := 0 to |lines|
      invariant PendingFits(lines, i, pending)
      invariant SlotsFit(lines, cap, i, insertionOrder, pending.Keys, noIdTurns, noIdCounter)
      invariant !raised && forall j :: 0 <= j < i ==> !lines[j].Broken?
    {
      var line := lines[i];
      if line == Broken {
        raised := true;
        return;
      }
      if line == Skipped {
        SkipStep(lines, cap, i, pending, insertionOrder, noIdTurns, noIdCounter);
        continue;
      }
      var tools := Tools(line.blocks);
      if line.requestId != "" {
        var id := line.requestId;
        if id in pending {
          MergeStep(lines, cap, i, pending, insertionOrder, noIdTurns, noIdCounter);
          var (ts, existing) := pending[id];
          pending := pending[id := (if ts != "" then ts else line.timestamp, existing + tools)];
        } else {
          NewIdStep(lines, cap, i, pending, insertionOrder, noIdTurns, noIdCounter);
          pending := pending[id := (line.timestamp, tools)];
          insertionOrder := insertionOrder + [ById(id)];
        }
      } else {
        NoIdStep(lines, cap, i, pending, insertionOrder, noIdTurns, noIdCounter);
        noIdTurns := noIdTurns[noIdCounter := Turn("", line.timestamp, Cap(tools, cap))];
        insertionOrder := insertionOrder + [NoId(noIdCounter)];
        noIdCounter := noIdCounter + 1;
      }
    }
  }

  predicate HasBroken(lines: seq<Line>) {
    exists i :: 0 <= i < |lines| && lines[i].Broken?
  }

  /** The turns in insertion order of their slots; a broken record raises before the first turn is yielded. */
  method IterMergedAssistantTurns(lines: seq<Line>, cap: nat) returns (raised: bool, turns: seq<Turn>)
    ensures raised <==> HasBroken(lines)
    ensures if raised then turns == [] else GroupsByFirst(lines, cap, turns)
  {
    hide PendingFits, SlotsFit, GroupsByFirst, Cap;
    var pending, insertionOrder, noIdTurns, noIdCounter;
    raised, pending, insertionOrder, noIdTurns, noIdCounter := MergeRecords(lines, cap);
    turns := [];
    if raised {
      return;
    }
    for k := 0 to |insertionOrder|
      invariant |turns| == k
      invariant forall j :: 0 <= j < k ==> IsSlotTurn(insertionOrder[j], cap, pending, noIdTurns, turns[j])
    {
      SlotIsFilled(lines, cap, insertionOrder, pending, noIdTurns, noIdCounter, k);
      match insertionOrder[k] {
        case ById(id) =>
          var (ts, tools) := pending[id];
          turns := turns + [Turn(id, ts, Cap(tools, cap))];
        case NoId(key) =>
          turns := turns + [noIdTurns[key]];
      }
    }
    TurnsAreGroups(lines, cap, pending, insertionOrder, noIdTurns, noIdCounter, turns);
  }

  predicate Seen(lines: seq<Line>, i: nat, id: string)
    requires i <= |lines|
  {
    exists j :: 0 <= j < i && IsFor(lines[j], id)
  }

  /** What the first `i` records leave pending: per id seen, its first timestamp and all its tools. */
  ghost predicate PendingFits(lines: seq<Line>, i: nat, pending: map<string, (string, seq<string>)>)
    requires i <= |lines|
  {
    && (forall id :: id in pending <==> id != "" && Seen(lines, i, id))
    && forall id :: id in pending ==> pending[id] == (TimestampOf(lines[..i], id), ToolsOf(lines[..i], id))
  }

  /** The slots stand for the turns started so far, in order. */
  ghost predicate SlotsFit(
      lines: seq<Line>, cap: nat, i: nat, slots: seq<Slot>, ids: set<string>, noIdTurns: map<nat, Turn>, counter: nat)
    requires i <= |lines|
  {
    var starts := Starts(lines, i);
    && |slots| == |starts|
    && (forall key :: key in noIdTurns ==> key < counter)
    && forall k :: 0 <= k < |starts| ==>
      && starts[k] < i && lines[starts[k]].Assistant?
      && if lines[starts[k]].requestId != "" then slots[k] == ById(lines[starts[k]].requestId) && slots[k].id in ids
         else slots[k].NoId? && slots[k].key in noIdTurns && noIdTurns[slots[k].key] == TurnAt(lines, starts[k], cap)
  }

  ghost predicate IsSlotTurn(
      slot: Slot, cap: nat, pending: map<string, (string, seq<string>)>, noIdTurns: map<nat, Turn>, turn: Turn) {
    match slot
    case ById(id) => id in pending && turn == Turn(id, pending[id].0, Cap(pending[id].1, cap))
    case NoId(key) => key in noIdTurns && turn == noIdTurns[key]
  }

  lemma NothingYet(lines: seq<Line>, cap: nat)
    ensures PendingFits(lines, 0, map[]) && SlotsFit(lines, cap, 0, [], {}, map[], 0)
  {
  }

  lemma LastLine(lines: seq<Line>, i: nat, id: string)
    requires i < |lines|
    ensures ToolsOf(lines[..i + 1], id) ==
      ToolsOf(lines[..i], id) + if IsFor(lines[i], id) then Tools(lines[i].blocks) else []
    ensures TimestampOf(lines[..i + 1], id) ==
      if TimestampOf(lines[..i], id) == "" && IsFor(lines[i], id) then lines[i].timestamp
      else TimestampOf(lines[..i], id)
    ensures Seen(lines, i + 1, id) <==> Seen(lines, i, id) || IsFor(lines[i], id)
  {
    hide Tools;
    assert lines[..i + 1][..i] == lines[..i];
  }

  /** A record that merges into nothing leaves the pending requests as they are. */
  lemma PendingKept(lines: seq<Line>, i: nat, pending: map<string, (string, seq<string>)>)
    requires i < |lines| && PendingFits(lines, i, pending) && (lines[i].Assistant? ==> lines[i].requestId == "")
    ensures PendingFits(lines, i + 1, pending)
  {
    hide Tools, ToolsOf, TimestampOf, Seen;
    forall id | id != ""
      ensures ToolsOf(lines[..i + 1], id) == ToolsOf(lines[..i], id) &&
        TimestampOf(lines[..i + 1], id) == TimestampOf(lines[..i], id)
      ensures Seen(lines, i + 1, id) == Seen(lines, i, id)
    {
      LastLine(lines, i, id);
    }
  }

  /** A record of an id updates that id's entry, making one if there is none. */
  lemma PendingUpdated(
      lines: seq<Line>, i: nat, pending: map<string, (string, seq<string>)>, entry: (string, seq<string>))
    requires i < |lines| && PendingFits(lines, i, pending) && lines[i].Assistant? && lines[i].requestId != ""
    requires entry == (TimestampOf(lines[..i + 1], lines[i].requestId), ToolsOf(lines[..i + 1], lines[i].requestId))
    ensures PendingFits(lines, i + 1, pending[lines[i].requestId := entry])
  {
    hide Tools, ToolsOf, TimestampOf, Seen;
    var id := lines[i].requestId;
    LastLine(lines, i, id);
    forall other | other != "" && other != id
      ensures ToolsOf(lines[..i + 1], other) == ToolsOf(lines[..i], other)
      ensures TimestampOf(lines[..i + 1], other) == TimestampOf(lines[..i], other)
      ensures Seen(lines, i + 1, other) == Seen(lines, i, other)
    {
      LastLine(lines, i, other);
    }
  }

  /** A record that starts no turn leaves the slots as they are. */
  lemma SlotsKept(
      lines: seq<Line>, cap: nat, i: nat, slots: seq<Slot>, ids: set<string>, noIdTurns: map<nat, Turn>, counter: nat)
    requires i < |lines| && SlotsFit(lines, cap, i, slots, ids, noIdTurns, counter) && !StartsTurn(lines, i)
    ensures SlotsFit(lines, cap, i + 1, slots, ids, noIdTurns, counter)
  {
    hide TurnAt, StartsTurn;
  }

  lemma SkipStep(
      lines: seq<Line>, cap: nat, i: nat, pending: map<string, (string, seq<string>)>, slots: seq<Slot>,
      noIdTurns: map<nat, Turn>, counter: nat)
    requires i < |lines| && PendingFits(lines, i, pending) &&
      SlotsFit(lines, cap, i, slots, pending.Keys, noIdTurns, counter)
    requires lines[i] == Skipped
    ensures PendingFits(lines, i + 1, pending) && SlotsFit(lines, cap, i + 1, slots, pending.Keys, noIdTurns, counter)
  {
    hide PendingFits, SlotsFit;
    PendingKept(lines, i, pending);
    SlotsKept(lines, cap, i, slots, pending.Keys, noIdTurns, counter);
  }

  lemma MergeStep(
      lines: seq<Line>, cap: nat, i: nat, pending: map<string, (string, seq<string>)>, slots: seq<Slot>,
      noIdTurns: map<nat, Turn>, counter: nat)
    requires i < |lines| && PendingFits(lines, i, pending) &&
      SlotsFit(lines, cap, i, slots, pending.Keys, noIdTurns, counter)
    requires lines[i].Assistant? && lines[i].requestId != "" && lines[i].requestId in pending
    ensures var id, line := lines[i].requestId, lines[i];
      var (ts, existing) := pending[id];
      var pending' := pending[id := (if ts != "" then ts else line.timestamp, existing + Tools(line.blocks))];
      && PendingFits(lines, i + 1, pending')
      && SlotsFit(lines, cap, i + 1, slots, pending'.Keys, noIdTurns, counter)
  {
    assert Seen(lines, i, lines[i].requestId);
    assert !StartsTurn(lines, i);
    MergePending(lines, i, pending);
    hide PendingFits, SlotsFit, Tools;
    SlotsKept(lines, cap, i, slots, pending.Keys, noIdTurns, counter);
    var (ts, existing) := pending[lines[i].requestId];
    var entry := (if ts != "" then ts else lines[i].timestamp, existing + Tools(lines[i].blocks));
    assert pending[lines[i].requestId := entry].Keys == pending.Keys;
  }

  lemma MergePending(lines: seq<Line>, i: nat, pending: map<string, (string, seq<string>)>)
    requires i < |lines| && PendingFits(lines, i, pending)
    requires lines[i].Assistant? && lines[i].requestId != "" && lines[i].requestId in pending
    ensures var id, line := lines[i].requestId, lines[i];
      var (ts, existing) := pending[id];
      PendingFits(lines, i + 1, pending[id := (if ts != "" then ts else line.timestamp, existing + Tools(line.blocks))])
  {
    hide Tools, ToolsOf, TimestampOf, StartsTurn, Seen;
    LastLine(lines, i, lines[i].requestId);
    var (ts, existing) := pending[lines[i].requestId];
    PendingUpdated(lines, i, pending, (if ts != "" then ts else lines[i].timestamp, existing + Tools(lines[i].blocks)));
  }

  lemma NewIdStep(
      lines: seq<Line>, cap: nat, i: nat, pending: map<string, (string, seq<string>)>, slots: seq<Slot>,
      noIdTurns: map<nat, Turn>, counter: nat)
    requires i < |lines| && PendingFits(lines, i, pending) &&
      SlotsFit(lines, cap, i, slots, pending.Keys, noIdTurns, counter)
    requires lines[i].Assistant? && lines[i].requestId != "" && lines[i].requestId !in pending
    ensures var id := lines[i].requestId;
      var pending' := pending[id := (lines[i].timestamp, Tools(lines[i].blocks))];
      && PendingFits(lines, i + 1, pending')
      && SlotsFit(lines, cap, i + 1, slots + [ById(id)], pending'.Keys, noIdTurns, counter)
  {
    hide Tools, ToolsOf, TimestampOf, TurnAt;
    var id := lines[i].requestId;
    assert !Seen(lines, i, id);
    NothingFor(lines, i, id);
    LastLine(lines, i, id);
    assert [] + Tools(lines[i].blocks) == Tools(lines[i].blocks);
    PendingUpdated(lines, i, pending, (lines[i].timestamp, Tools(lines[i].blocks)));
    assert StartsTurn(lines, i);
    assert Starts(lines, i + 1) == Starts(lines, i) + [i];
  }

  lemma NoIdStep(
      lines: seq<Line>, cap: nat, i: nat, pending: map<string, (string, seq<string>)>, slots: seq<Slot>,
      noIdTurns: map<nat, Turn>, counter: nat)
    requires i < |lines| && PendingFits(lines, i, pending) &&
      SlotsFit(lines, cap, i, slots, pending.Keys, noIdTurns, counter)
    requires lines[i].Assistant? && lines[i].requestId == ""
    ensures PendingFits(lines, i + 1, pending)
    ensures SlotsFit(lines, cap, i + 1, slots + [NoId(counter)], pending.Keys,
      noIdTurns[counter := Turn("", lines[i].timestamp, Cap(Tools(lines[i].blocks), cap))], counter + 1)
  {
    hide PendingFits, Tools, ToolsOf, TimestampOf;
    PendingKept(lines, i, pending);
    assert StartsTurn(lines, i);
    assert Starts(lines, i + 1) == Starts(lines, i) + [i];
  }

  lemma SlotIsFilled(
      lines: seq<Line>, cap: nat, slots: seq<Slot>, pending: map<string, (string, seq<string>)>,
      noIdTurns: map<nat, Turn>, counter: nat, k: nat)
    requires SlotsFit(lines, cap, |lines|, slots, pending.Keys, noIdTurns, counter) && k < |slots|
    ensures match slots[k] case ById(id) => id in pending case NoId(key) => key in noIdTurns
  {
    hide TurnAt;
    var start := Starts(lines, |lines|)[k];
    assert start < |lines|;
  }

  lemma TurnsAreGroups(
      lines: seq<Line>, cap: nat, pending: map<string, (string, seq<string>)>, slots: seq<Slot>,
      noIdTurns: map<nat, Turn>, counter: nat,
      turns: seq<Turn>)
    requires PendingFits(lines, |lines|, pending) &&
      SlotsFit(lines, cap, |lines|, slots, pending.Keys, noIdTurns, counter)
    requires |turns| == |slots| &&
      forall k :: 0 <= k < |turns| ==> IsSlotTurn(slots[k], cap, pending, noIdTurns, turns[k])
    ensures GroupsByFirst(lines, cap, turns)
  {
    hide Tools, ToolsOf, TimestampOf, Starts, Seen;
    assert lines[..|lines|] == lines;
  }

  lemma {:induction false} NothingFor(lines: seq<Line>, i: nat, id: string)
    requires i <= |lines| && forall j :: 0 <= j < i ==> !IsFor(lines[j], id)
    ensures ToolsOf(lines[..i], id) == [] && TimestampOf(lines[..i], id) == ""
  {
    if i > 0 {
      NothingFor(lines, i - 1, id);
      assert lines[..i][..i - 1] == lines[..i - 1];
    }
  }

  lemma {:induction false} StartsAreStarts(lines: seq<Line>, n: nat)
    requires n <= |lines|
    ensures var starts := Starts(lines, n);
      && (forall k :: 0 <= k < |starts| ==> starts[k] < n && StartsTurn(lines, starts[k]))
      && (forall j, k :: 0 <= j < k < |starts| ==> starts[j] < starts[k])
      && (forall i :: 0 <= i < n && StartsTurn(lines, i) ==> i in starts)
  {
    hide StartsTurn;
    if n > 0 {
      StartsAreStarts(lines, n - 1);
    }
  }

  /** Every record belongs to a turn that starts no later. */
  lemma {:induction false} EveryRecordHasATurn(lines: seq<Line>, i: nat)
    requires i < |lines| && lines[i].Assistant?
    ensures exists s :: 0 <= s <= i && StartsTurn(lines, s) && lines[s].requestId == lines[i].requestId
  {
    if !StartsTurn(lines, i) {
      var j :| 0 <= j < i && IsFor(lines[j], lines[i].requestId);
      EveryRecordHasATurn(lines, j);
    }
  }

  /** Every request id of the log heads exactly one turn, and no turn is made up. */
  lemma OneTurnPerRequest(lines: seq<Line>, cap: nat, turns: seq<Turn>, id: string)
    requires GroupsByFirst(lines, cap, turns) && id != ""
    ensures Seen(lines, |lines|, id) <==> exists k :: 0 <= k < |turns| && turns[k].requestId == id
    ensures forall j, k :: 0 <= j < k < |turns| && turns[j].requestId == id ==> turns[k].requestId != id
  {
    var starts := Starts(lines, |lines|);
    StartsAreStarts(lines, |lines|);
    hide Starts, ToolsOf, TimestampOf, Tools;
    assert forall k :: 0 <= k < |turns| ==> turns[k].requestId == lines[starts[k]].requestId;
    if i :| 0 <= i < |lines| && IsFor(lines[i], id) {
      EveryRecordHasATurn(lines, i);
      var s :| 0 <= s <= i && StartsTurn(lines, s) && lines[s].requestId == id;
      var k :| 0 <= k < |starts| && starts[k] == s;
      assert turns[k].requestId == id;
    }
    if k :| 0 <= k < |turns| && turns[k].requestId == id {
      assert IsFor(lines[starts[k]], id);
    }
    forall j, k | 0 <= j < k < |turns| && turns[j].requestId == id
      ensures turns[k].requestId != id
    {
      assert StartsTurn(lines, starts[k]) && IsFor(lines[starts[j]], id);
    }
  }
}
