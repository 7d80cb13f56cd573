/** The campaign state file: dispatch records, the status machine, and the operations that rewrite the file. */
module FleetState {
  import opened Wrappers

  datatype Status = PENDING | RUNNING | SUCCESS | FAILURE | INTERRUPTED | RESUMABLE | SKIPPED | REFUSED | RELEASED

  function AllowedFrom(s: Status): set<Status> {
    match s
    case PENDING => {RUNNING, SUCCESS, FAILURE, SKIPPED, REFUSED, RELEASED}
    case RUNNING => {SUCCESS, FAILURE, INTERRUPTED, RESUMABLE}
    case RESUMABLE => {RUNNING, SUCCESS, FAILURE, INTERRUPTED}
    case FAILURE => {PENDING}
    case _ => {}
  }

  predicate Allowed(from: Status, to: Status) {
    to in AllowedFrom(from)
  }

  datatype Record = Record(
    name: string, status: Status, dispatchId: string, campaignId: string, callerSessionId: string,
    sessionId: string, sessionLogDir: string, pid: int, startTicks: int, bootId: string, reason: string,
    killReason: string, infraExitCategory: string, tokenUsage: map<string, int>, startedAt: int, endedAt: int,
    sidecarPath: Option<string>)

  datatype Campaign = Campaign(
    schemaVersion: int, campaignId: string, campaignName: string, manifestPath: string, startedAt: int,
    dispatches: seq<Record>, captured: map<string, string>)

  /** `None`: the file is missing or does not parse. */
  type Content = Option<Campaign>

  /** How an operation ends: normally, or with the exception it lets escape. */
  datatype Outcome = Done | StateNotFound | UnknownDispatch | InvalidTransition | WriteFailed

  // ---- Records ----

  function FirstNamed(ds: seq<Record>, name: string): (r: Option<nat>)
    ensures r.Some? ==>
      r.value < |ds| && ds[r.value].name == name && forall j :: 0 <= j < r.value ==> ds[j].name != name
    ensures r.None? ==> forall j :: 0 <= j < |ds| ==> ds[j].name != name
  {
    if ds == [] then None
    else if ds[0].name == name then Some(0)
    else
      match FirstNamed(ds[1..], name)
      case None => None
      case Some(i) => Some(i + 1)
  }

  lemma FirstNamedIs(ds: seq<Record>, name: string, i: nat)
    requires i < |ds| && ds[i].name == name && forall j :: 0 <= j < i ==> ds[j].name != name
    ensures FirstNamed(ds, name) == Some(i)
  {
    var r := FirstNamed(ds, name);
    assert r.Some? && r.value <= i;
  }

  lemma NoneNamed(ds: seq<Record>, name: string)
    requires forall j :: 0 <= j < |ds| ==> ds[j].name != name
    ensures FirstNamed(ds, name) == None
  {
  }

  function NewRecord(name: string): Record {
    Record(name, PENDING, "", "", "", "", "", 0, 0, "", "", "", "", map[], 0, 0, None)
  }

  function Started(
      d: Record, dispatchId: string, pid: int, ticks: int, bootId: string, sidecar: Option<string>, now: int): Record {
    d.(status := RUNNING, dispatchId := dispatchId, pid := pid, startTicks := ticks, bootId := bootId,
       startedAt := now, sidecarPath := sidecar)
  }

  function Interrupted(d: Record, reason: string, now: int): Record {
    d.(status := INTERRUPTED, reason := reason, endedAt := now)
  }

  function Resumable(d: Record, sidecar: string, now: int): Record {
    d.(status := RESUMABLE, sidecarPath := Some(sidecar), endedAt := now)
  }

  function Cleared(d: Record): Record {
    d.(status := PENDING, reason := "", dispatchId := "", sessionId := "", sessionLogDir := "", pid := 0,
       startTicks := 0,
       bootId := "", tokenUsage := map[], startedAt := 0, endedAt := 0, sidecarPath := None)
  }

  // ---- The operations as functions of the stored content ----

  /** Rewrites the first record of a name, if its status may become that of the new record. */
  function Rewrite(f: Content, name: string, edit: Record -> Record, ok: bool): (Content, Outcome) {
    if f.None? then (f, StateNotFound)
    else
      match FirstNamed(f.value.dispatches, name)
      case None => (f, UnknownDispatch)
      case Some(i) =>
        var ds := f.value.dispatches;
        if !Allowed(ds[i].status, edit(ds[i]).status) then (f, InvalidTransition)
        else if !ok then (f, WriteFailed)
        else (Some(f.value.(dispatches := ds[i := edit(ds[i])])), Done)
  }

  function Append(f: Content, record: Record, ok: bool): (Content, Outcome) {
    if f.Some? && FirstNamed(f.value.dispatches, record.name).None? then
      if ok then (Some(f.value.(dispatches := f.value.dispatches + [record])), Done) else (f, WriteFailed)
    else Rewrite(f, record.name, _ => record, ok)
  }

  /** The first record with the name that has failed. */
  function FirstFailed(ds: seq<Record>, name: string): (r: Option<nat>)
    ensures r.Some? ==> r.value < |ds| && ds[r.value].name == name && ds[r.value].status == FAILURE
    ensures r.Some? ==> forall j :: 0 <= j < r.value ==> !(ds[j].name == name && ds[j].status == FAILURE)
    ensures r.None? ==> forall j :: 0 <= j < |ds| ==> !(ds[j].name == name && ds[j].status == FAILURE)
  {
    if ds == [] then None
    else if ds[0].name == name && ds[0].status == FAILURE then Some(0)
    else
      match FirstFailed(ds[1..], name)
      case None => None
      case Some(i) => Some(i + 1)
  }

  datatype ResetResult = Reset | NotReset | ResetWriteFailed

  function ResetFailed(f: Content, name: string, ok: bool): (Content, ResetResult) {
    if f.None? then (f, NotReset)
    else
      match FirstFailed(f.value.dispatches, name)
      case None => (f, NotReset)
      case Some(i) =>
        if !ok then (f, ResetWriteFailed)
        else (Some(f.value.(dispatches := f.value.dispatches[i := Cleared(f.value.dispatches[i])])), Reset)
  }

  datatype GateResult =
    | Recorded(status: Status)
    | NoCampaign
    | GateUnknown
    | AlreadyRecorded(status: Status)
    | GateWriteFailed

  function Verdict(approved: bool): Status {
    if approved then SUCCESS else FAILURE
  }

  function GateRecord(name: string, approved: bool, now: int): Record {
    NewRecord(name).(status := Verdict(approved), reason := if approved then "gate_approved" else "gate_rejected",
      startedAt := now, endedAt := now)
  }

  function RecordGate(f: Content, name: string, approved: bool, now: int, ok: bool): (Content, GateResult) {
    if f.None? then (f, NoCampaign)
    else
      match FirstNamed(f.value.dispatches, name)
      case None => (f, GateUnknown)
      case Some(i) =>
        var ds := f.value.dispatches;
        if ds[i].status != PENDING then (f, AlreadyRecorded(ds[i].status))
        else if !ok then (f, GateWriteFailed)
        else (Some(f.value.(dispatches := ds[i := GateRecord(name, approved, now)])), Recorded(Verdict(approved)))
  }

  function WriteCaptured(f: Content, captures: map<string, string>, ok: bool): (Content, Outcome) {
    if f.None? then (f, Done)
    else if !ok then (f, WriteFailed)
    else (Some(f.value.(captured := f.value.captured + captures)), Done)
  }

  // ---- The state file ----

  /** The file behind a path. A write replaces the whole content or, when `ok` is false, raises and changes nothing. */
  class StateFile {
    var content: Content

    constructor (campaignId: string, campaignName: string, manifestPath: string, now: int, dispatches: seq<Record>)
      ensures content == Some(Campaign(4, campaignId, campaignName, manifestPath, now, dispatches, map[]))
    {
      content := Some(Campaign(4, campaignId, campaignName, manifestPath, now, dispatches, map[]));
    }

    method ReadState() returns (c: Content)
      ensures c == content
    {
      c := content;
    }

    method WriteState(c: Campaign, ok: bool) returns (written: bool)
      modifies this
      ensures written == ok && content == if ok then Some(c) else old(content)
    {
      if ok {
        content := Some(c);
      }
      written := ok;
    }

    /** The loop that `mark_dispatch_running`, `_interrupted` and `_resumable` share. */
    method RewriteDispatch(name: string, edit: Record -> Record, ok: bool) returns (r: Outcome)
      modifies this
      ensures (content, r) == Rewrite(old(content), name, edit, ok)
    {
      var state := ReadState();
      if state.None? {
        return StateNotFound;
      }
      var ds := state.value.dispatches;
      for i := 0 to |ds|
        invariant content == old(content)
        invariant forall j :: 0 <= j < i ==> ds[j].name != name
      {
        if ds[i].name == name {
          FirstNamedIs(ds, name, i);
          if !Allowed(ds[i].status, edit(ds[i]).status) {
            return InvalidTransition;
          }
          var written := WriteState(state.value.(dispatches := ds[i := edit(ds[i])]), ok);
          return if written then Done else WriteFailed;
        }
      }
      NoneNamed(ds, name);
      return UnknownDispatch;
    }

    method MarkDispatchRunning(
        name: string, dispatchId: string, pid: int, ticks: int, bootId: string, sidecar: Option<string>, now: int,
        ok: bool)
      returns (r: Outcome)
      modifies this
      ensures (content, r) ==
        Rewrite(old(content), name, d => Started(d, dispatchId, pid, ticks, bootId, sidecar, now), ok)
    {
      r := RewriteDispatch(name, d => Started(d, dispatchId, pid, ticks, bootId, sidecar, now), ok);
    }

    method MarkDispatchInterrupted(name: string, reason: string, now: int, ok: bool) returns (r: Outcome)
      modifies this
      ensures (content, r) == Rewrite(old(content), name, d => Interrupted(d, reason, now), ok)
    {
      r := RewriteDispatch(name, d => Interrupted(d, reason, now), ok);
    }

    method MarkDispatchResumable(name: string, sidecar: string, now: int, ok: bool) returns (r: Outcome)
      modifies this
      ensures (content, r) == Rewrite(old(content), name, d => Resumable(d, sidecar, now), ok)
    {
      r := RewriteDispatch(name, d => Resumable(d, sidecar, now), ok);
    }

    method AppendDispatchRecord(record: Record, ok: bool) returns (r: Outcome)
      modifies this
      ensures (content, r) == Append(old(content), record, ok)
    {
      var state := ReadState();
      if state.None? {
        return StateNotFound;
      }
      var ds := state.value.dispatches;
      for i := 0 to |ds|
        invariant content == old(content)
        invariant forall j :: 0 <= j < i ==> ds[j].name != record.name
      {
        if ds[i].name == record.name {
          FirstNamedIs(ds, record.name, i);
          if !Allowed(ds[i].status, record.status) {
            return InvalidTransition;
          }
          var written := WriteState(state.value.(dispatches := ds[i := record]), ok);
          return if written then Done else WriteFailed;
        }
      }
      NoneNamed(ds, record.name);
      var written := WriteState(state.value.(dispatches := ds + [record]), ok);
      return if written then Done else WriteFailed;
    }

    method ResetFailedDispatch(name: string, ok: bool) returns (r: ResetResult)
      modifies this
      ensures (content, r) == ResetFailed(old(content), name, ok)
    {
      var state := ReadState();
      if state.None? {
        return NotReset;
      }
      var ds := state.value.dispatches;
      for i := 0 to |ds|
        invariant content == old(content)
        invariant forall j :: 0 <= j < i ==> !(ds[j].name == name && ds[j].status == FAILURE)
      {
        if ds[i].name == name && ds[i].status == FAILURE {
          assert FirstFailed(ds, name) == Some(i);
          var written := WriteState(state.value.(dispatches := ds[i := Cleared(ds[i])]), ok);
          return if written then Reset else ResetWriteFailed;
        }
      }
      assert FirstFailed(ds, name) == None;
      return NotReset;
    }

    method RecordGateOutcome(name: string, approved: bool, now: int, ok: bool) returns (r: GateResult)
      modifies this
      ensures (content, r) == RecordGate(old(content), name, approved, now, ok)
    {
      var state := ReadState();
      if state.None? {
        return NoCampaign;
      }
      var ds := state.value.dispatches;
      var found := FirstNamed(ds, name);
      if found.None? {
        return GateUnknown;
      }
      if ds[found.value].status != PENDING {
        return AlreadyRecorded(ds[found.value].status);
      }
      var record := GateRecord(name, approved, now);
      for i := 0 to |ds|
        invariant content == old(content) && i <= found.value
      {
        if ds[i].name == record.name {
          FirstNamedIs(ds, name, i);
          assert Allowed(ds[i].status, record.status);
          var written := WriteState(state.value.(dispatches := ds[i := record]), ok);
          return if written then Recorded(record.status) else GateWriteFailed;
        }
      }
    }

    method WriteCapturedValues(captures: map<string, string>, ok: bool) returns (r: Outcome)
      modifies this
      ensures (content, r) == WriteCaptured(old(content), captures, ok)
    {
      var state := ReadState();
      if state.None? {
        return Done;
      }
      var written := WriteState(state.value.(captured := state.value.captured + captures), ok);
      return if written then Done else WriteFailed;
    }
  }

  // ---- What every operation keeps ----

  ghost predicate DistinctNames(ds: seq<Record>) {
    forall i, j :: 0 <= i < j < |ds| ==> ds[i].name != ds[j].name
  }

  ghost predicate MovesTo(before: Record, after: Record) {
    after.name == before.name && (after.status == before.status || Allowed(before.status, after.status))
  }

  /** Each record keeps its name and place and its status stays or makes an allowed move; records are only added at the
      end. */
  ghost predicate Moves(before: seq<Record>, after: seq<Record>) {
    |before| <= |after| && forall i :: 0 <= i < |before| ==> MovesTo(before[i], after[i])
  }

  ghost predicate Steps(f: Content, g: Content) {
    && (f.None? ==> g.None?)
    && (f.Some? ==> g.Some? && Moves(f.value.dispatches, g.value.dispatches))
    && (f.Some? && DistinctNames(f.value.dispatches) ==> DistinctNames(g.value.dispatches))
  }
}
