/** Gates among the other calls on a state file: one verdict between reopenings, and verdicts that unlocked calls
    lose. */
module FleetGates {
  import opened Wrappers
  import opened FleetState
  import opened FleetResume
  import opened FleetSteps

  // ---- Statuses across calls ----

  function StatusOf(f: Content, name: string): Option<Status> {
    if f.None? then None
    else
      match FirstNamed(f.value.dispatches, name)
      case None => None
      case Some(i) => Some(f.value.dispatches[i].status)
  }

  predicate GateSucceeds(f: Content, call: Call, name: string) {
    call.GateCall? && call.name == name && Alone(f, call).1.gate.Recorded?
  }

  /** The calls that may take a failed dispatch back to pending: a reset of it that succeeds, a resume that writes back
      with failures reset, or a record put in its place. */
  predicate Reopens(f: Content, call: Call, name: string) {
    match call
    case ResetCall(_, other, _) => other == name && Alone(f, call).1.reset.Reset?
    case ResumeCall(_, _, _, _, _) => f.Some? && WritesBack(f.value.dispatches, call)
    case AppendCall(record, ok) => record.name == name && record.status == PENDING && ok
    case _ => false
  }

  lemma NameKept(ds: seq<Record>, i: nat, d: Record, name: string)
    requires i < |ds| && d.name == ds[i].name
    ensures FirstNamed(ds[i := d], name) == FirstNamed(ds, name)
  {
    match FirstNamed(ds, name) {
      case None => NoneNamed(ds[i := d], name);
      case Some(k) => FirstNamedIs(ds[i := d], name, k);
    }
  }

  predicate HasVerdict(f: Content, name: string) {
    StatusOf(f, name) in {Some(SUCCESS), Some(FAILURE)}
  }

  lemma RewriteKeepsVerdict(f: Content, other: string, edit: Record -> Record, ok: bool, name: string)
    requires HasVerdict(f, name)
    requires forall d: Record :: edit(d).name == d.name && edit(d).status in {RUNNING, INTERRUPTED, RESUMABLE}
    ensures StatusOf(Rewrite(f, other, edit, ok).0, name) == StatusOf(f, name)
  {
    var ds := f.value.dispatches;
    var i := FirstNamed(ds, other);
    if i.Some? {
      NameKept(ds, i.value, edit(ds[i.value]), name);
    }
  }

  lemma RecoverKeepsVerdict(f: Content, d: Record, env: Env, name: string)
    requires HasVerdict(f, name)
    ensures StatusOf(Recover(f, d, env).0, name) == StatusOf(f, name)
  {
    hide Rewrite, StatusOf, IsAbandonKillReason;
    RewriteKeepsVerdict(f, d.name, x => Interrupted(x, STALE_REASON, env.now), env.firstWrite(d.name), name);
    var path := SidecarOf(d);
    if path.Some? {
      var (g, r) := Rewrite(f, d.name, x => Resumable(x, path.value, env.now), env.firstWrite(d.name));
      RewriteKeepsVerdict(f, d.name, x => Resumable(x, path.value, env.now), env.firstWrite(d.name), name);
      RewriteKeepsVerdict(g, d.name, x => Interrupted(x, STALE_REASON, env.now), env.secondWrite(d.name), name);
    }
  }

  lemma {:induction false} RecoveriesKeepVerdict(ds: seq<Record>, env: Env, n: nat, k: nat, f: Content, name: string)
    requires n <= |ds| && k <= |Recoveries(ds, env, n)| && HasVerdict(f, name)
    ensures StatusOf(Fold(Recoveries(ds, env, n), k, f), name) == StatusOf(f, name)
  {
    hide StatusOf, Recover, Stale, Recoveries;
    if k > 0 {
      RecoveriesAre(ds, env, n);
      RecoveriesKeepVerdict(ds, env, n, k - 1, f, name);
      RecoverKeepsVerdict(Fold(Recoveries(ds, env, n), k - 1, f), ds[k - 1], env, name);
    }
  }

  /** A resume leaves a verdict as it is, but a rejection that it resets. */
  lemma ResumeKeepsVerdict(f: Content, call: Call, name: string)
    requires call.ResumeCall? && HasVerdict(f, name)
    ensures StatusOf(Alone(f, call).0, name) ==
      if WritesBack(f.value.dispatches, call) && StatusOf(f, name) == Some(FAILURE) then Some(PENDING)
      else StatusOf(f, name)
  {
    var ds := f.value.dispatches;
    var n := Visited(ds, call.env);
    var steps := Recoveries(ds, call.env, n);
    if WritesBack(ds, call) {
      var i := FirstNamed(ds, name).value;
      FinalKeepsNames(ds, call.env);
      FirstNamedIs(Final(ds, call.env, false), name, i);
      hide Final, Recoveries, WritesBack;
      assert Alone(f, call).0 == Some(f.value.(dispatches := Final(ds, call.env, false)));
    } else {
      hide StatusOf, Recoveries, WritesBack;
      assert Batch(f, call) == steps;
      RecoveriesKeepVerdict(ds, call.env, n, |steps|, f, name);
    }
  }

  lemma FinalKeepsNames(ds: seq<Record>, env: Env)
    ensures var final := Final(ds, env, false);
      && |final| == |ds|
      && (forall i :: 0 <= i < |ds| ==> final[i].name == ds[i].name)
      && (forall i :: 0 <= i < |ds| && ds[i].status == SUCCESS ==> final[i].status == SUCCESS)
      && (forall i :: 0 <= i < |ds| && ds[i].status == FAILURE ==> final[i].status == PENDING)
  {
    hide RecoveryOf;
  }

  lemma GateKeepsVerdict(f: Content, call: Call, name: string)
    requires call.GateCall? && HasVerdict(f, name)
    ensures StatusOf(Alone(f, call).0, name) == StatusOf(f, name)
  {
    var ds := f.value.dispatches;
    var i := FirstNamed(ds, call.name);
    if i.Some? {
      NameKept(ds, i.value, GateRecord(call.name, call.approved, call.now), name);
    }
  }

  lemma ResetKeepsVerdict(f: Content, call: Call, name: string)
    requires call.ResetCall? && HasVerdict(f, name)
    requires !Reopens(f, call, name) || StatusOf(f, name) == Some(SUCCESS)
    ensures StatusOf(Alone(f, call).0, name) == StatusOf(f, name)
  {
    var ds := f.value.dispatches;
    var i := FirstFailed(ds, call.name);
    if i.Some? {
      NameKept(ds, i.value, Cleared(ds[i.value]), name);
    }
  }

  lemma AppendKeepsVerdict(f: Content, call: Call, name: string)
    requires call.AppendCall? && HasVerdict(f, name)
    requires !Reopens(f, call, name) || StatusOf(f, name) == Some(SUCCESS)
    ensures StatusOf(Alone(f, call).0, name) == StatusOf(f, name)
  {
    var ds := f.value.dispatches;
    match FirstNamed(ds, call.record.name) {
      case Some(i) => NameKept(ds, i, call.record, name);
      case None => FirstNamedIs(ds + [call.record], name, FirstNamed(ds, name).value);
    }
  }

  /** A call changes a verdict only by reopening a rejection. */
  lemma OnlyReopeningChanges(f: Content, call: Call, name: string)
    requires HasVerdict(f, name) && (!Reopens(f, call, name) || StatusOf(f, name) == Some(SUCCESS))
    ensures StatusOf(Alone(f, call).0, name) == StatusOf(f, name)
  {
    hide Fold, Batch, WritesBack, HasVerdict, StatusOf, Rewrite, RecordGate, ResetFailed, Append;
    match call {
      case GateCall(_, _, _, _, _) => GateKeepsVerdict(f, call, name);
      case ResetCall(_, _, _) => ResetKeepsVerdict(f, call, name);
      case ResumeCall(_, _, _, _, _) =>
        VerdictIsSome(f, name);
        ResumeKeepsVerdict(f, call, name);
      case MarkCall(other, mark, now, ok) => RewriteKeepsVerdict(f, other, d => Marked(d, mark, now), ok, name);
      case AppendCall(_, _) => AppendKeepsVerdict(f, call, name);
    }
  }

  lemma VerdictIsSome(f: Content, name: string)
    requires HasVerdict(f, name)
    ensures f.Some?
  {
  }

  lemma VerdictStored(f: Content, call: Call, name: string)
    requires GateSucceeds(f, call, name)
    ensures StatusOf(Alone(f, call).0, name) == Some(Verdict(call.approved))
  {
    var ds := f.value.dispatches;
    NameKept(ds, FirstNamed(ds, name).value, GateRecord(name, call.approved, call.now), name);
  }

  /** After a successful gate its verdict is the stored status until the dispatch is reopened. */
  lemma {:induction false} VerdictStays(calls: seq<Call>, f: Content, order: seq<nat>, name: string, i: nat, j: nat)
    requires forall k :: 0 <= k < |order| ==> order[k] < |calls|
    requires i < j <= |order| && GateSucceeds(Serial(calls, f, order, i), calls[order[i]], name)
    requires forall k :: i < k < j ==> !Reopens(Serial(calls, f, order, k), calls[order[k]], name)
    ensures StatusOf(Serial(calls, f, order, j), name) == Some(Verdict(calls[order[i]].approved))
  {
    hide Alone, StatusOf, GateSucceeds, Reopens, Serial;
    SerialLast(calls, f, order, j - 1);
    if j == i + 1 {
      VerdictStored(Serial(calls, f, order, i), calls[order[i]], name);
    } else {
      VerdictStays(calls, f, order, name, i, j - 1);
      OnlyReopeningChanges(Serial(calls, f, order, j - 1), calls[order[j - 1]], name);
    }
  }

  lemma GateNeedsPending(f: Content, call: Call, name: string)
    requires GateSucceeds(f, call, name)
    ensures StatusOf(f, name) == Some(PENDING)
  {
  }

  /** Between two successful gates on one dispatch it is reopened. */
  lemma OneGateBetweenResets(calls: seq<Call>, f: Content, order: seq<nat>, name: string, i: nat, j: nat)
    requires forall k :: 0 <= k < |order| ==> order[k] < |calls|
    requires i < j < |order|
    requires GateSucceeds(Serial(calls, f, order, i), calls[order[i]], name)
    requires GateSucceeds(Serial(calls, f, order, j), calls[order[j]], name)
    ensures exists k :: i < k < j && Reopens(Serial(calls, f, order, k), calls[order[k]], name)
  {
    hide Serial, Alone, Reopens;
    if !exists k :: i < k < j && Reopens(Serial(calls, f, order, k), calls[order[k]], name) {
      VerdictStays(calls, f, order, name, i, j);
      GateNeedsPending(Serial(calls, f, order, j), calls[order[j]], name);
      assert false;
    }
  }

  /** An approved gate is final: whatever runs later, the stored status stays SUCCESS. */
  lemma {:induction false} ApprovalIsFinal(calls: seq<Call>, f: Content, order: seq<nat>, name: string, i: nat, j: nat)
    requires forall k :: 0 <= k < |order| ==> order[k] < |calls|
    requires i < j <= |order| && GateSucceeds(Serial(calls, f, order, i), calls[order[i]], name)
    requires calls[order[i]].approved
    ensures StatusOf(Serial(calls, f, order, j), name) == Some(SUCCESS)
  {
    hide Alone, StatusOf, GateSucceeds, Serial, Reopens;
    SerialLast(calls, f, order, j - 1);
    if j == i + 1 {
      VerdictStored(Serial(calls, f, order, i), calls[order[i]], name);
    } else {
      ApprovalIsFinal(calls, f, order, name, i, j - 1);
      OnlyReopeningChanges(Serial(calls, f, order, j - 1), calls[order[j - 1]], name);
    }
  }

  // ---- Writes on content that has changed meanwhile ----

  function WrittenName(call: Call): string
    requires !call.ResumeCall?
  {
    if call.AppendCall? then call.record.name else call.name
  }

  function NewStatus(call: Call): Status
    requires !call.ResumeCall?
  {
    match call
    case GateCall(_, _, approved, _, _) => Verdict(approved)
    case ResetCall(_, _, _) => PENDING
    case MarkCall(_, mark, _, _) =>
      if mark.ToRunning? then RUNNING else if mark.ToInterrupted? then INTERRUPTED else RESUMABLE
    case AppendCall(record, _) => record.status
  }

  lemma AfterWrite(f: Content, call: Call, name: string)
    requires !call.ResumeCall? && WouldWrite(f, call) && StatusOf(f, name).Some?
    requires call.ResetCall? ==> DistinctNames(f.value.dispatches)
    ensures StatusOf(Alone(f, call).0, name) ==
      if name == WrittenName(call) then Some(NewStatus(call)) else StatusOf(f, name)
  {
    var ds := f.value.dispatches;
    match call {
      case GateCall(_, other, approved, now, ok) =>
        NameKept(ds, FirstNamed(ds, other).value, GateRecord(other, approved, now), name);
      case ResetCall(_, other, ok) =>
        var i := FirstFailed(ds, other).value;
        FirstNamedIs(ds, other, i);
        NameKept(ds, i, Cleared(ds[i]), name);
      case MarkCall(other, mark, now, ok) =>
        var i := FirstNamed(ds, other).value;
        NameKept(ds, i, Marked(ds[i], mark, now), name);
      case AppendCall(record, ok) =>
        match FirstNamed(ds, record.name) {
          case Some(i) => NameKept(ds, i, record, name);
          case None => FirstNamedIs(ds + [record], name, FirstNamed(ds, name).value);
        }
    }
  }

  /** A call that finishes on content it has not read - a mark over a gate, or a gate over a mark - puts every status
      back to what it read, but for the one it sets itself; exactly when the guards on what it read let it write. */
  lemma StaleWrite(calls: seq<Call>, s: System, c: nat, t: System, name: string)
    requires |s.phases| == |calls| && c < |calls| && Step(calls, s, c, t) && s.phases[c].HasRead?
    requires var read := s.phases[c].snapshot;
      StatusOf(read, name).Some? && (calls[c].ResetCall? ==> DistinctNames(read.value.dispatches))
    ensures var read := s.phases[c].snapshot;
      StatusOf(t.content, name) ==
        if !WouldWrite(read, calls[c]) then StatusOf(s.content, name)
        else if name == WrittenName(calls[c]) then Some(NewStatus(calls[c]))
        else StatusOf(read, name)
  {
    hide Alone, StatusOf, WouldWrite;
    if WouldWrite(s.phases[c].snapshot, calls[c]) {
      AfterWrite(s.phases[c].snapshot, calls[c], name);
    }
  }

  /** So a verdict recorded since a call read the dispatch as pending survives its finish, exactly when its guards do
      not let it write, or it sets just that status itself. */
  lemma VerdictSurvivesIff(calls: seq<Call>, s: System, c: nat, t: System, name: string)
    requires |s.phases| == |calls| && c < |calls| && Step(calls, s, c, t) && s.phases[c].HasRead?
    requires !calls[c].ResetCall? && StatusOf(s.phases[c].snapshot, name) == Some(PENDING) &&
      HasVerdict(s.content, name)
    ensures StatusOf(t.content, name) == StatusOf(s.content, name) <==>
      || !WouldWrite(s.phases[c].snapshot, calls[c])
      || (WrittenName(calls[c]) == name && Some(NewStatus(calls[c])) == StatusOf(s.content, name))
  {
    hide StatusOf, WouldWrite;
    StaleWrite(calls, s, c, t, name);
  }

  /** The last write of a resume that resets failures stores what it holds, whatever was written since it read the
      file. */
  lemma ResumeWritesOver(calls: seq<Call>, s: System, c: nat, t: System)
    requires |s.phases| == |calls| && c < |calls| && Step(calls, s, c, t) && s.phases[c].Working?
    requires var read, done := s.phases[c].read, s.phases[c].done;
      && read.Some? && calls[c].ResumeCall? && WritesBack(read.value.dispatches, calls[c])
      && done + 1 == |Batch(read, calls[c])|
    ensures var read := s.phases[c].read;
      t.content == Some(read.value.(dispatches := Final(read.value.dispatches, calls[c].env, false)))
  {
    hide Final, Batch, WritesBack;
    LastOfBatch(s.phases[c].read, calls[c], s.content);
  }

  lemma LastOfBatch(f: Content, call: Call, g: Content)
    requires f.Some? && call.ResumeCall? && WritesBack(f.value.dispatches, call)
    ensures var batch := Batch(f, call);
      batch != [] && batch[|batch| - 1](g) == Some(f.value.(dispatches := Final(f.value.dispatches, call.env, false)))
  {
    hide Final, Recoveries, WritesBack;
  }

  // ---- A gate that is lost ----

  /** A dispatch that is about to run, and a gate. */
  function TwoPending(): Content {
    Some(Campaign(4, "c", "", "", 0, [NewRecord("a"), NewRecord("g")], map[]))
  }

  /** One process marks the dispatch as running while another approves the gate. */
  function MarkAndGate(): seq<Call> {
    [MarkCall("a", ToRunning("id", 7, 0, "", None), 10, true), GateCall(0, "g", true, 20, true)]
  }

  function Phases(mark: Phase, gate: Phase): seq<Phase> {
    [mark, gate]
  }

  /** The mark reads, the gate runs from its first lock to its return, and the mark writes. */
  function LosingSchedule(): seq<System> {
    var f := TwoPending();
    var approved := Alone(f, MarkAndGate()[1]).0;
    var marked := Alone(f, MarkAndGate()[0]).0;
    var r := Gated(Recorded(SUCCESS));
    [ System(f, Phases(Idle, Idle), map[], None, []),
      System(f, Phases(HasRead(f), Idle), map[], None, []),
      System(f, Phases(HasRead(f), HasProcessLock), map[0 := 1], None, []),
      System(f, Phases(HasRead(f), HasFileLock), map[0 := 1], Some(1), []),
      System(f, Phases(HasRead(f), HasRead(f)), map[0 := 1], Some(1), []),
      System(approved, Phases(HasRead(f), Finishing(r, true)), map[0 := 1], Some(1), [1]),
      System(approved, Phases(HasRead(f), Finishing(r, false)), map[0 := 1], None, [1]),
      System(approved, Phases(HasRead(f), Returned(r)), map[], None, [1]),
      System(marked, Phases(Returned(Ended(Done)), Returned(r)), map[], None, [1, 0]) ]
  }

  lemma MarkAndGateWrite()
    ensures var f, calls := TwoPending(), MarkAndGate();
      && WouldWrite(f, calls[0]) && WouldWrite(f, calls[1])
      && Alone(f, calls[0]).1 == Ended(Done) && Alone(f, calls[1]).1 == Gated(Recorded(SUCCESS))
      && StatusOf(Alone(f, calls[0]).0, "g") == Some(PENDING) && StatusOf(Alone(f, calls[1]).0, "g") == Some(SUCCESS)
  {
    var ds := TwoPending().value.dispatches;
    FirstNamedIs(ds, "a", 0);
    FirstNamedIs(ds, "g", 1);
    AfterWrite(TwoPending(), MarkAndGate()[0], "g");
    AfterWrite(TwoPending(), MarkAndGate()[1], "g");
  }

  /** The gate's caller is told that the approval is recorded, and the file says that it is pending. */
  lemma GateIsLost()
    ensures var calls, trace := MarkAndGate(), LosingSchedule();
      && IsSchedule(calls, trace) && trace[0] == Initial(TwoPending(), calls)
      && trace[8].phases[1] == Returned(Gated(Recorded(SUCCESS))) && StatusOf(trace[8].content, "g") == Some(PENDING)
  {
    hide Alone, WouldWrite, StatusOf, TwoPending;
    MarkAndGateWrite();
    var calls, trace := MarkAndGate(), LosingSchedule();
    assert trace[0].phases == Initial(TwoPending(), calls).phases;
    MarkMoves();
    GateMoves();
  }

  lemma MarkMoves()
    ensures var calls, trace := MarkAndGate(), LosingSchedule();
      Step(calls, trace[0], 0, trace[1]) && Step(calls, trace[7], 0, trace[8])
  {
    hide Alone, WouldWrite, TwoPending, Batch, StatusOf;
    MarkAndGateWrite();
    assert Phases(Idle, Idle)[0 := HasRead(TwoPending())] == Phases(HasRead(TwoPending()), Idle);
    var r := Returned(Gated(Recorded(SUCCESS)));
    assert Phases(HasRead(TwoPending()), r)[0 := Returned(Ended(Done))] == Phases(Returned(Ended(Done)), r);
  }

  lemma GateMoves()
    ensures var calls, trace := MarkAndGate(), LosingSchedule();
      forall k :: 1 <= k < 7 ==> Step(calls, trace[k], 1, trace[k + 1])
  {
    hide Alone, WouldWrite, TwoPending, Batch, StatusOf;
    MarkAndGateWrite();
    var calls, trace := MarkAndGate(), LosingSchedule();
    assert forall k :: 1 <= k < 7 ==> trace[k].phases[1 := trace[k + 1].phases[1]] == trace[k + 1].phases;
    assert map[0 := 1] - {0} == map[];
  }
}
