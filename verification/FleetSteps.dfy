/** Calls on one state file, interleaved step by step.

    Gates, resets and resumes take the lock of their process, then the lock of the file; marking and appending take
    none. Any other call may run between any two steps. */
module FleetSteps {
  import opened Wrappers
  import opened FleetState
  import opened FleetResume

  datatype Mark =
    | ToRunning(dispatchId: string, pid: int, ticks: int, bootId: string, sidecar: Option<string>)
    | ToInterrupted(reason: string)
    | ToResumable(path: string)

  function Marked(d: Record, mark: Mark, now: int): Record {
    match mark
    case ToRunning(id, pid, ticks, boot, sidecar) => Started(d, id, pid, ticks, boot, sidecar, now)
    case ToInterrupted(reason) => Interrupted(d, reason, now)
    case ToResumable(path) => Resumable(d, path, now)
  }

  datatype Call =
    | GateCall(process: nat, name: string, approved: bool, now: int, ok: bool)
    | ResetCall(process: nat, name: string, ok: bool)
    | ResumeCall(process: nat, continueOnFailure: bool, resetOnRetry: bool, env: Env, resetWrite: bool)
    | MarkCall(name: string, mark: Mark, now: int, ok: bool)
    | AppendCall(record: Record, ok: bool)

  /** The call takes the locks. */
  predicate Locked(call: Call) {
    call.GateCall? || call.ResetCall? || call.ResumeCall?
  }

  /** What a call returns; a resume decides from the content it read. */
  datatype Result =
    | Gated(gate: GateResult)
    | WasReset(reset: ResetResult)
    | WasResumed(read: Content)
    | Ended(outcome: Outcome)

  // ---- A resume, write by write ----

  function RecoverStep(d: Record, env: Env): Content -> Content {
    f => if Stale(d, env) then Recover(f, d, env).0 else f
  }

  /** The recoveries of the first `n` records read. */
  function Recoveries(ds: seq<Record>, env: Env, n: nat): seq<Content -> Content>
    requires n <= |ds|
  {
    if n == 0 then [] else Recoveries(ds, env, n - 1) + [RecoverStep(ds[n - 1], env)]
  }

  /** How many records recovery visits: all, or those up to the first sidecar on which it raises. */
  function Visited(ds: seq<Record>, env: Env): (n: nat)
    ensures n <= |ds|
  {
    if ds == [] then 0
    else if Stale(ds[0], env) && RecoveryOf(ds[0], env) == Raises then 1
    else 1 + Visited(ds[1..], env)
  }

  lemma {:induction false} VisitsAll(ds: seq<Record>, env: Env)
    ensures !Raised(ds, env) ==> Visited(ds, env) == |ds|
  {
    hide RecoveryOf;
    if ds != [] && !Raised(ds, env) {
      var rest := ds[1..];
      assert forall i :: 0 <= i < |rest| ==> rest[i] == ds[i + 1];
      assert !(Stale(ds[0], env) && RecoveryOf(ds[0], env) == Raises);
      VisitsAll(rest, env);
    }
  }

  /** The resume writes back the records it holds. */
  predicate WritesBack(ds: seq<Record>, call: Call)
    requires call.ResumeCall?
  {
    && !Raised(ds, call.env) && Resets(ds, call.continueOnFailure, call.resetOnRetry, call.env)
    && call.resetWrite
  }

  /** The writes of a resume that has read `f`, each on what is then stored. */
  function Batch(f: Content, call: Call): seq<Content -> Content>
    requires call.ResumeCall?
  {
    if f.None? then []
    else
      var ds := f.value.dispatches;
      Recoveries(ds, call.env, Visited(ds, call.env))
      + if WritesBack(ds, call) then [_ => Some(f.value.(dispatches := Final(ds, call.env, false)))] else []
  }

  function Fold(steps: seq<Content -> Content>, n: nat, f: Content): Content
    requires n <= |steps|
  {
    if n == 0 then f else steps[n - 1](Fold(steps, n - 1, f))
  }

  /** The call run alone. */
  function Alone(f: Content, call: Call): (Content, Result) {
    match call
    case GateCall(_, name, approved, now, ok) =>
      var (g, r) := RecordGate(f, name, approved, now, ok);
      (g, Gated(r))
    case ResetCall(_, name, ok) =>
      var (g, r) := ResetFailed(f, name, ok);
      (g, WasReset(r))
    case ResumeCall(_, _, _, _, _) => (Fold(Batch(f, call), |Batch(f, call)|, f), WasResumed(f))
    case MarkCall(name, mark, now, ok) =>
      var (g, r) := Rewrite(f, name, d => Marked(d, mark, now), ok);
      (g, Ended(r))
    case AppendCall(record, ok) =>
      var (g, r) := Append(f, record, ok);
      (g, Ended(r))
  }

  /** What a call other than a resume needs to write: the guards on its way to the write, and that the write
      succeeds. */
  predicate WouldWrite(f: Content, call: Call)
    requires !call.ResumeCall?
  {
    f.Some? &&
    var ds := f.value.dispatches;
    match call
    case GateCall(_, name, _, _, ok) =>
      && ok && FirstNamed(ds, name).Some?
      && ds[FirstNamed(ds, name).value].status == PENDING
    case ResetCall(_, name, ok) => ok && FirstFailed(ds, name).Some?
    case MarkCall(name, mark, now, ok) =>
      && ok && FirstNamed(ds, name).Some?
      && var d := ds[FirstNamed(ds, name).value]; Allowed(d.status, Marked(d, mark, now).status)
    case AppendCall(record, ok) =>
      && ok
      && (FirstNamed(ds, record.name).Some? ==> Allowed(ds[FirstNamed(ds, record.name).value].status, record.status))
  }

  lemma OnlyWritesChange(f: Content, call: Call)
    requires !call.ResumeCall? && !WouldWrite(f, call)
    ensures Alone(f, call).0 == f
  {
  }

  // ---- Steps ----

  datatype Phase =
    | Idle
    | HasProcessLock
    | HasFileLock
    | HasRead(snapshot: Content)
    | Working(read: Content, done: nat)
    | Finishing(result: Result, holdsFileLock: bool)
    | Returned(result: Result)

  /** `order` lists the calls whose effect has taken place. */
  datatype System = System(
    content: Content, phases: seq<Phase>, processLocks: map<nat, nat>, fileLock: Option<nat>, order: seq<nat>)

  function Initial(f: Content, calls: seq<Call>): System {
    System(f, seq(|calls|, _ => Idle), map[], None, [])
  }

  /** What is stored when a call other than a resume, having read `snapshot`, finishes. */
  function Finished(s: System, snapshot: Content, call: Call): Content
    requires !call.ResumeCall?
  {
    if WouldWrite(snapshot, call) then Alone(snapshot, call).0 else s.content
  }

  /** One step of call `c`. */
  ghost predicate Step(calls: seq<Call>, s: System, c: nat, t: System)
    requires |s.phases| == |calls| && c < |calls|
  {
    var call := calls[c];
    match s.phases[c]
    case Idle =>
      if Locked(call) then
        && call.process !in s.processLocks
        && t == s.(phases := s.phases[c := HasProcessLock], processLocks := s.processLocks[call.process := c])
      else t == s.(phases := s.phases[c := HasRead(s.content)])
    case HasProcessLock =>
      if call.ResetCall? && s.content.None? then
        t == s.(phases := s.phases[c := Finishing(WasReset(NotReset), false)], order := s.order + [c])
      else s.fileLock.None? && t == s.(phases := s.phases[c := HasFileLock], fileLock := Some(c))
    case HasFileLock =>
      t == s.(phases := s.phases[c := if call.ResumeCall? then Working(s.content, 0) else HasRead(s.content)])
    case HasRead(snapshot) =>
      && !call.ResumeCall?
      && var r := Alone(snapshot, call).1;
      t == s.(content := Finished(s, snapshot, call),
              phases := s.phases[c := if Locked(call) then Finishing(r, true) else Returned(r)],
              order := s.order + [c])
    case Working(read, done) =>
      && call.ResumeCall?
      && if done < |Batch(read, call)| then
        t == s.(content := Batch(read, call)[done](s.content), phases := s.phases[c := Working(read, done + 1)])
      else t == s.(phases := s.phases[c := Finishing(WasResumed(read), true)], order := s.order + [c])
    case Finishing(r, true) => t == s.(phases := s.phases[c := Finishing(r, false)], fileLock := None)
    case Finishing(r, false) =>
      && Locked(call)
      && t == s.(phases := s.phases[c := Returned(r)], processLocks := s.processLocks - {call.process})
    case Returned(_) => false
  }

  ghost predicate SomeStep(calls: seq<Call>, s: System, t: System)
    requires |s.phases| == |calls|
  {
    exists c: nat :: c < |calls| && Step(calls, s, c, t)
  }

  /** A schedule: any interleaving of steps of the calls. */
  ghost predicate IsSchedule(calls: seq<Call>, trace: seq<System>) {
    && trace != []
    && (forall k :: 0 <= k < |trace| ==> |trace[k].phases| == |calls|)
    && forall k :: 0 < k < |trace| ==> SomeStep(calls, trace[k - 1], trace[k])
  }

  // ---- Serial runs ----

  /** The contents after the first `n` calls of an order, run one after the other. */
  function Serial(calls: seq<Call>, f: Content, order: seq<nat>, n: nat): Content
    requires n <= |order|
  {
    if n == 0 then f
    else if order[n - 1] >= |calls| then Serial(calls, f, order, n - 1)
    else Alone(Serial(calls, f, order, n - 1), calls[order[n - 1]]).0
  }

  predicate TookPlace(p: Phase) {
    p.Finishing? || p.Returned?
  }

  /** The call holds the lock of its process, or of the file. */
  predicate InProcess(p: Phase, call: Call) {
    Locked(call) && !p.Idle? && !p.Returned?
  }

  predicate InFile(p: Phase, call: Call) {
    Locked(call) && (p.HasFileLock? || p.HasRead? || p.Working? || (p.Finishing? && p.holdsFileLock))
  }

  /** The locks are held by the calls that are between taking and releasing them, and by no other. */
  ghost predicate LockInv(calls: seq<Call>, s: System)
    requires |s.phases| == |calls|
  {
    && (forall c: nat :: c < |calls| ==> (InFile(s.phases[c], calls[c]) <==> s.fileLock == Some(c)))
    && (forall c: nat :: c < |calls| ==> (InProcess(s.phases[c], calls[c]) <==> OwnsProcess(calls, s, c)))
    && (forall c: nat :: c < |calls| ==> PhaseFits(s.phases[c], calls[c]))
    && (s.fileLock.Some? ==> s.fileLock.value < |calls|)
    && (forall p :: p in s.processLocks ==> HoldsProcess(calls, s.processLocks[p], p))
  }

  predicate HoldsProcess(calls: seq<Call>, c: nat, process: nat) {
    c < |calls| && Locked(calls[c]) && calls[c].process == process
  }

  predicate OwnsProcess(calls: seq<Call>, s: System, c: nat)
    requires c < |calls|
  {
    Locked(calls[c]) && calls[c].process in s.processLocks && s.processLocks[calls[c].process] == c
  }

  predicate PhaseFits(p: Phase, call: Call) {
    && (p.Working? ==> call.ResumeCall? && p.done <= |Batch(p.read, call)|)
    && (p.HasRead? ==> !call.ResumeCall?)
    && (p.HasProcessLock? || p.HasFileLock? || p.Finishing? ==> Locked(call))
  }

  /** The order lists calls that took place, once each. */
  ghost predicate OrderInv(s: System) {
    && (forall k :: 0 <= k < |s.order| ==> s.order[k] < |s.phases| && TookPlace(s.phases[s.order[k]]))
    && (forall j, k :: 0 <= j < k < |s.order| ==> s.order[j] != s.order[k])
  }

  /** Every call that took place is listed. */
  ghost predicate Listed(s: System) {
    forall c :: 0 <= c < |s.phases| && TookPlace(s.phases[c]) ==> c in s.order
  }

  ghost predicate AtWork(calls: seq<Call>, s: System, c: nat)
    requires |s.phases| == |calls| && c < |calls|
  {
    s.phases[c].Working? && PhaseFits(s.phases[c], calls[c])
  }

  /** The content is that of the serial run, or a resume is at work on it. */
  ghost predicate ContentInv(calls: seq<Call>, f: Content, s: System)
    requires |s.phases| == |calls|
  {
    var base := Serial(calls, f, s.order, |s.order|);
    && ((forall c: nat :: c < |calls| ==> !AtWork(calls, s, c)) ==> s.content == base)
    && (forall c: nat :: c < |calls| && AtWork(calls, s, c) ==>
      s.phases[c].read == base && s.content == Fold(Batch(base, calls[c]), s.phases[c].done, base))
  }

  /** Every call that took place returns what it returns in the serial run. */
  ghost predicate ResultInv(calls: seq<Call>, f: Content, s: System)
    requires |s.phases| == |calls| && OrderInv(s)
  {
    forall k :: 0 <= k < |s.order| ==>
      s.phases[s.order[k]].result == Alone(Serial(calls, f, s.order, k), calls[s.order[k]]).1
  }

  ghost predicate Inv(calls: seq<Call>, f: Content, s: System) {
    && |s.phases| == |calls| && LockInv(calls, s) && OrderInv(s) && Listed(s)
    && ContentInv(calls, f, s) && ResultInv(calls, f, s)
  }

  /** A call that finishes finds what it read still there, and no resume at work on it. */
  ghost predicate FreshStep(calls: seq<Call>, s: System, c: nat)
    requires |s.phases| == |calls| && c < |calls|
  {
    s.phases[c].HasRead? ==>
      s.phases[c].snapshot == s.content && forall d: nat :: d < |calls| ==> !AtWork(calls, s, d)
  }

  lemma {:induction false} SerialPrefix(calls: seq<Call>, f: Content, order: seq<nat>, more: seq<nat>, n: nat)
    requires n <= |order|
    ensures Serial(calls, f, order + more, n) == Serial(calls, f, order, n)
  {
    hide Alone;
    if n > 0 {
      SerialPrefix(calls, f, order, more, n - 1);
    }
  }

  lemma SerialLast(calls: seq<Call>, f: Content, order: seq<nat>, n: nat)
    requires n < |order| && order[n] < |calls|
    ensures Serial(calls, f, order, n + 1) == Alone(Serial(calls, f, order, n), calls[order[n]]).0
  {
    hide Alone;
  }

  // ---- What a step keeps ----

  /** One call moved on, the others stayed. */
  ghost predicate Moved(s: System, c: nat, t: System) {
    c < |s.phases| == |t.phases| && forall d :: 0 <= d < |s.phases| && d != c ==> t.phases[d] == s.phases[d]
  }

  lemma StepMoves(calls: seq<Call>, s: System, c: nat, t: System)
    requires |s.phases| == |calls| && c < |calls| && Step(calls, s, c, t)
    ensures Moved(s, c, t)
  {
    hide Alone, Batch, Finished, WouldWrite;
  }

  lemma StepKeepsLocks(calls: seq<Call>, s: System, c: nat, t: System)
    requires |s.phases| == |calls| && LockInv(calls, s) && c < |calls| && Step(calls, s, c, t)
    ensures |t.phases| == |calls| && LockInv(calls, t)
  {
    hide Alone, Batch, Finished, WouldWrite;
    StepMoves(calls, s, c, t);
    assert InFile(s.phases[c], calls[c]) <==> s.fileLock == Some(c);
    assert InProcess(s.phases[c], calls[c]) <==> OwnsProcess(calls, s, c);
    assert PhaseFits(s.phases[c], calls[c]);
    forall d: nat | d < |calls|
      ensures InFile(t.phases[d], calls[d]) <==> t.fileLock == Some(d)
      ensures InProcess(t.phases[d], calls[d]) <==> OwnsProcess(calls, t, d)
      ensures PhaseFits(t.phases[d], calls[d])
    {
      assert InFile(s.phases[d], calls[d]) <==> s.fileLock == Some(d);
      assert InProcess(s.phases[d], calls[d]) <==> OwnsProcess(calls, s, d);
      assert PhaseFits(s.phases[d], calls[d]);
    }
    forall p | p in t.processLocks
      ensures HoldsProcess(calls, t.processLocks[p], p)
    {
      assert p in s.processLocks ==> HoldsProcess(calls, s.processLocks[p], p);
    }
  }

  lemma OneAtWork(calls: seq<Call>, s: System, c: nat, d: nat)
    requires |s.phases| == |calls| && LockInv(calls, s) && c < |calls| && d < |calls|
    requires InFile(s.phases[c], calls[c]) && AtWork(calls, s, d)
    ensures c == d
  {
    hide Batch;
    assert PhaseFits(s.phases[d], calls[d]) && InFile(s.phases[d], calls[d]);
    assert s.fileLock == Some(d) && s.fileLock == Some(c);
  }

  lemma StepGrowsOrder(calls: seq<Call>, s: System, c: nat, t: System)
    requires |s.phases| == |calls| && c < |calls| && Step(calls, s, c, t)
    ensures Moved(s, c, t)
    ensures t.order == s.order + if TookPlace(t.phases[c]) && !TookPlace(s.phases[c]) then [c] else []
    ensures TookPlace(s.phases[c]) ==> TookPlace(t.phases[c]) && t.phases[c].result == s.phases[c].result
  {
    hide Alone, Batch, Finished, WouldWrite, LockInv, Locked;
    StepMoves(calls, s, c, t);
  }

  /** The order grows by calls as they take place. */
  lemma StepKeepsOrder(calls: seq<Call>, s: System, c: nat, t: System)
    requires |s.phases| == |calls| && OrderInv(s) && Listed(s) && c < |calls| && Step(calls, s, c, t)
    ensures OrderInv(t) && Listed(t)
    ensures t.order == s.order + if TookPlace(t.phases[c]) && !TookPlace(s.phases[c]) then [c] else []
    ensures TookPlace(s.phases[c]) ==> TookPlace(t.phases[c]) && t.phases[c].result == s.phases[c].result
  {
    hide Step, TookPlace;
    StepGrowsOrder(calls, s, c, t);
    forall d | 0 <= d < |t.phases| && TookPlace(t.phases[d])
      ensures d in t.order
    {
      if d == c && !TookPlace(s.phases[c]) {
        assert t.order[|s.order|] == c;
      } else {
        assert d in s.order;
      }
    }
    forall k | 0 <= k < |t.order|
      ensures t.order[k] < |t.phases| && TookPlace(t.phases[t.order[k]])
    {
      assert k < |s.order| ==> t.order[k] == s.order[k];
    }
  }

  lemma RecoverKeepsSome(f: Content, d: Record, env: Env)
    requires f.Some?
    ensures Recover(f, d, env).0.Some?
  {
  }

  lemma {:induction false} RecoveriesKeepSome(ds: seq<Record>, env: Env, n: nat, k: nat, f: Content)
    requires f.Some? && n <= |ds|
    ensures |Recoveries(ds, env, n)| == n
    ensures k <= n ==> Fold(Recoveries(ds, env, n), k, f).Some?
  {
    hide Recover, Stale;
    if n > 0 {
      RecoveriesKeepSome(ds, env, n - 1, if k < n then k else n - 1, f);
      if k < n {
        FoldPrefix(Recoveries(ds, env, n - 1), [RecoverStep(ds[n - 1], env)], k, f);
      } else {
        FoldPrefix(Recoveries(ds, env, n - 1), [RecoverStep(ds[n - 1], env)], n - 1, f);
        if k == n {
          RecoverKeepsSome(Fold(Recoveries(ds, env, n), n - 1, f), ds[n - 1], env);
        }
      }
    }
  }

  lemma {:induction false} FoldPrefix(a: seq<Content -> Content>, b: seq<Content -> Content>, k: nat, f: Content)
    requires k <= |a|
    ensures Fold(a + b, k, f) == Fold(a, k, f)
  {
    if k > 0 {
      FoldPrefix(a, b, k - 1, f);
    }
  }

  /** A resume never makes a missing file, nor loses one. */
  lemma WorkKeepsSome(f: Content, call: Call, k: nat)
    requires call.ResumeCall? && k <= |Batch(f, call)|
    ensures Fold(Batch(f, call), k, f).Some? <==> f.Some?
  {
    if f.Some? {
      hide Recoveries, Recover, WritesBack, Final;
      var ds := f.value.dispatches;
      var n := Visited(ds, call.env);
      RecoveriesKeepSome(ds, call.env, n, if k <= n then k else n, f);
      FoldPrefix(Recoveries(ds, call.env, n), Batch(f, call)[n..], if k <= n then k else n, f);
      assert Batch(f, call) == Recoveries(ds, call.env, n) + Batch(f, call)[n..];
    }
  }

  /** What a step does to the content, seen from the serial run. */
  ghost predicate StepFits(calls: seq<Call>, f: Content, s: System, c: nat, t: System)
    requires |s.phases| == |calls| == |t.phases| && c < |calls|
  {
    var base := Serial(calls, f, s.order, |s.order|);
    && ContentInv(calls, f, t)
    && (TookPlace(t.phases[c]) && !TookPlace(s.phases[c]) ==> t.phases[c].result == Alone(base, calls[c]).1)
  }

  lemma SerialOfNext(calls: seq<Call>, f: Content, s: System, c: nat, t: System)
    requires c < |calls| && t.order == s.order + [c]
    ensures var base := Serial(calls, f, s.order, |s.order|);
      Serial(calls, f, t.order, |t.order|) == Alone(base, calls[c]).0
  {
    hide Alone, Serial;
    SerialPrefix(calls, f, s.order, [c], |s.order|);
    SerialLast(calls, f, t.order, |s.order|);
  }

  /** A step that changes neither content nor order, and does not begin or end any work. */
  lemma QuietStep(calls: seq<Call>, f: Content, s: System, c: nat, t: System)
    requires |s.phases| == |calls| && c < |calls| && ContentInv(calls, f, s) && Moved(s, c, t)
    requires t.content == s.content && t.order == s.order && !s.phases[c].Working? && !t.phases[c].Working?
    ensures ContentInv(calls, f, t)
  {
    hide Serial, Batch, Fold, PhaseFits;
    forall d: nat | d < |calls|
      ensures AtWork(calls, t, d) <==> AtWork(calls, s, d)
      ensures AtWork(calls, t, d) ==> t.phases[d] == s.phases[d]
    {
      assert d != c ==> t.phases[d] == s.phases[d];
    }
  }

  lemma FinishFits(calls: seq<Call>, f: Content, s: System, c: nat, t: System)
    requires Inv(calls, f, s) && c < |calls| && Step(calls, s, c, t) && FreshStep(calls, s, c) && s.phases[c].HasRead?
    requires Moved(s, c, t)
    ensures StepFits(calls, f, s, c, t)
  {
    hide Alone, Serial, Batch, Fold, LockInv, OrderInv, Listed, ResultInv, WouldWrite, PhaseFits;
    SerialOfNext(calls, f, s, c, t);
    if !WouldWrite(s.phases[c].snapshot, calls[c]) {
      OnlyWritesChange(s.phases[c].snapshot, calls[c]);
    }
    forall d: nat | d < |calls|
      ensures !AtWork(calls, t, d)
    {
      assert !AtWork(calls, s, d);
      assert d != c ==> t.phases[d] == s.phases[d];
    }
  }

  /** A reset that finds no file takes place before a resume at work, which found none either. */
  lemma NoFileFits(calls: seq<Call>, f: Content, s: System, c: nat, t: System)
    requires Inv(calls, f, s) && c < |calls| && Step(calls, s, c, t) && Moved(s, c, t)
    requires s.phases[c].HasProcessLock? && calls[c].ResetCall? && s.content.None?
    ensures StepFits(calls, f, s, c, t)
  {
    hide Serial, Batch, Fold, LockInv, OrderInv, Listed, ResultInv, PhaseFits;
    var base := Serial(calls, f, s.order, |s.order|);
    SerialOfNext(calls, f, s, c, t);
    if d: nat :| d < |calls| && AtWork(calls, s, d) {
      AtWorkBounds(calls, s, d);
      WorkKeepsSome(base, calls[d], s.phases[d].done);
    }
    assert base == None;
    forall d: nat | d < |calls|
      ensures AtWork(calls, t, d) <==> AtWork(calls, s, d)
      ensures AtWork(calls, t, d) ==> t.phases[d] == s.phases[d]
    {
      assert d != c ==> t.phases[d] == s.phases[d];
    }
  }

  lemma AtWorkBounds(calls: seq<Call>, s: System, d: nat)
    requires |s.phases| == |calls| && d < |calls| && AtWork(calls, s, d)
    ensures calls[d].ResumeCall? && s.phases[d].done <= |Batch(s.phases[d].read, calls[d])|
  {
  }

  lemma NobodyElse(calls: seq<Call>, s: System, c: nat)
    requires |s.phases| == |calls| && LockInv(calls, s) && c < |calls| && InFile(s.phases[c], calls[c])
    ensures forall d: nat :: d < |calls| && d != c ==> !AtWork(calls, s, d)
  {
    forall d: nat | d < |calls| && d != c
      ensures !AtWork(calls, s, d)
    {
      if AtWork(calls, s, d) {
        OneAtWork(calls, s, c, d);
      }
    }
  }

  lemma BeginFits(calls: seq<Call>, f: Content, s: System, c: nat, t: System)
    requires Inv(calls, f, s) && c < |calls| && Step(calls, s, c, t) && Moved(s, c, t)
    requires s.phases[c].HasFileLock? && calls[c].ResumeCall?
    ensures StepFits(calls, f, s, c, t)
  {
    hide Alone, Serial, Batch, OrderInv, Listed, ResultInv, LockInv;
    NobodyElse(calls, s, c);
    assert !AtWork(calls, s, c);
    forall d: nat | d < |calls| && d != c
      ensures !AtWork(calls, t, d)
    {
      assert t.phases[d] == s.phases[d] && !AtWork(calls, s, d);
    }
  }

  lemma WorkGoesOn(calls: seq<Call>, f: Content, s: System, c: nat, t: System)
    requires Inv(calls, f, s) && c < |calls| && Step(calls, s, c, t) && Moved(s, c, t) && s.phases[c].Working?
    requires s.phases[c].done < |Batch(s.phases[c].read, calls[c])|
    ensures StepFits(calls, f, s, c, t)
  {
    hide Serial, Batch, OrderInv, Listed, ResultInv, LockInv, Alone;
    FitsAtWork(calls, s, c);
    NobodyElse(calls, s, c);
    forall d: nat | d < |calls| && d != c
      ensures !AtWork(calls, t, d)
    {
      assert t.phases[d] == s.phases[d] && !AtWork(calls, s, d);
    }
    assert AtWork(calls, t, c);
  }

  lemma FitsAtWork(calls: seq<Call>, s: System, c: nat)
    requires |s.phases| == |calls| && LockInv(calls, s) && c < |calls| && s.phases[c].Working?
    ensures AtWork(calls, s, c) && InFile(s.phases[c], calls[c])
  {
    hide Batch;
    assert PhaseFits(s.phases[c], calls[c]);
  }

  lemma WorkEnds(calls: seq<Call>, f: Content, s: System, c: nat, t: System)
    requires Inv(calls, f, s) && c < |calls| && Step(calls, s, c, t) && Moved(s, c, t) && s.phases[c].Working?
    requires s.phases[c].done >= |Batch(s.phases[c].read, calls[c])|
    ensures StepFits(calls, f, s, c, t)
  {
    hide Serial, Batch, OrderInv, Listed, ResultInv, LockInv, Fold;
    FitsAtWork(calls, s, c);
    NobodyElse(calls, s, c);
    AtWorkBounds(calls, s, c);
    SerialOfNext(calls, f, s, c, t);
    forall d: nat | d < |calls|
      ensures !AtWork(calls, t, d)
    {
      assert d != c ==> t.phases[d] == s.phases[d] && !AtWork(calls, s, d);
    }
  }

  lemma ResumeAtWork(calls: seq<Call>, s: System, c: nat)
    requires |s.phases| == |calls| && LockInv(calls, s) && c < |calls|
    ensures s.phases[c].Working? ==> calls[c].ResumeCall?
  {
    hide Batch;
    assert PhaseFits(s.phases[c], calls[c]);
  }

  lemma StepKeepsContent(calls: seq<Call>, f: Content, s: System, c: nat, t: System)
    requires Inv(calls, f, s) && c < |calls| && Step(calls, s, c, t) && FreshStep(calls, s, c)
    ensures |t.phases| == |calls| && StepFits(calls, f, s, c, t)
  {
    ResumeAtWork(calls, s, c);
    hide Alone, Serial, Batch, Fold, LockInv, OrderInv, Listed, ResultInv, ContentInv, FreshStep, WouldWrite, Finished;
    StepMoves(calls, s, c, t);
    match s.phases[c] {
      case HasRead(_) => FinishFits(calls, f, s, c, t);
      case Working(read, done) =>
        if done < |Batch(read, calls[c])| {
          WorkGoesOn(calls, f, s, c, t);
        } else {
          WorkEnds(calls, f, s, c, t);
        }
      case HasFileLock =>
        if calls[c].ResumeCall? {
          BeginFits(calls, f, s, c, t);
        } else {
          QuietStep(calls, f, s, c, t);
        }
      case HasProcessLock =>
        if calls[c].ResetCall? && s.content.None? {
          NoFileFits(calls, f, s, c, t);
        } else {
          QuietStep(calls, f, s, c, t);
        }
      case _ => QuietStep(calls, f, s, c, t);
    }
  }

  lemma ResultsKept(calls: seq<Call>, f: Content, s: System, c: nat, t: System)
    requires |s.phases| == |calls| == |t.phases| && c < |calls| && OrderInv(s) && OrderInv(t) && ResultInv(calls, f, s)
    requires Moved(s, c, t)
    requires t.order == s.order + if TookPlace(t.phases[c]) && !TookPlace(s.phases[c]) then [c] else []
    requires TookPlace(s.phases[c]) ==> TookPlace(t.phases[c]) && t.phases[c].result == s.phases[c].result
    requires StepFits(calls, f, s, c, t)
    ensures ResultInv(calls, f, t)
  {
    hide Alone, Serial, ContentInv;
    var more := t.order[|s.order|..];
    assert t.order == s.order + more;
    forall k | 0 <= k < |t.order|
      ensures t.phases[t.order[k]].result == Alone(Serial(calls, f, t.order, k), calls[t.order[k]]).1
    {
      SerialPrefix(calls, f, s.order, more, if k < |s.order| then k else |s.order|);
      if k < |s.order| {
        assert t.order[k] == s.order[k];
        assert s.phases[s.order[k]].result == Alone(Serial(calls, f, s.order, k), calls[s.order[k]]).1;
      }
    }
  }

  /** Every step of every call that finds what it read still there keeps the invariants. */
  lemma StepKeepsInv(calls: seq<Call>, f: Content, s: System, c: nat, t: System)
    requires Inv(calls, f, s) && c < |calls| && Step(calls, s, c, t) && FreshStep(calls, s, c)
    ensures Inv(calls, f, t)
  {
    hide Step, LockInv, OrderInv, Listed, ResultInv, ContentInv, FreshStep;
    StepMoves(calls, s, c, t);
    StepKeepsLocks(calls, s, c, t);
    StepKeepsOrder(calls, s, c, t);
    StepKeepsContent(calls, f, s, c, t);
    ResultsKept(calls, f, s, c, t);
  }

  // ---- Schedules ----

  ghost predicate FreshSomeStep(calls: seq<Call>, s: System, t: System)
    requires |s.phases| == |calls|
  {
    exists c: nat :: c < |calls| && Step(calls, s, c, t) && FreshStep(calls, s, c)
  }

  /** Every call that finishes finds what it read still there. */
  ghost predicate Undisturbed(calls: seq<Call>, trace: seq<System>) {
    && (forall k :: 0 <= k < |trace| ==> |trace[k].phases| == |calls|)
    && forall k :: 0 < k < |trace| ==> FreshSomeStep(calls, trace[k - 1], trace[k])
  }

  lemma InitialInv(calls: seq<Call>, f: Content)
    ensures Inv(calls, f, Initial(f, calls))
  {
    hide Alone, Batch;
  }

  lemma {:induction false} ScheduleKeepsInv(calls: seq<Call>, f: Content, trace: seq<System>, n: nat)
    requires IsSchedule(calls, trace) && Undisturbed(calls, trace) && trace[0] == Initial(f, calls) && n < |trace|
    ensures Inv(calls, f, trace[n])
  {
    hide Inv, Step, FreshStep;
    if n == 0 {
      InitialInv(calls, f);
    } else {
      ScheduleKeepsInv(calls, f, trace, n - 1);
      assert FreshSomeStep(calls, trace[n - 1], trace[n]);
      var c: nat :| c < |calls| && Step(calls, trace[n - 1], c, trace[n]) && FreshStep(calls, trace[n - 1], c);
      StepKeepsInv(calls, f, trace[n - 1], c, trace[n]);
    }
  }

  // When all calls take the locks, no schedule is disturbed.

  ghost predicate AllLocked(calls: seq<Call>) {
    forall c :: 0 <= c < |calls| ==> Locked(calls[c])
  }

  ghost predicate SnapshotsHold(s: System) {
    forall c :: 0 <= c < |s.phases| && s.phases[c].HasRead? ==> s.phases[c].snapshot == s.content
  }

  lemma LockedStepIsFresh(calls: seq<Call>, s: System, c: nat)
    requires |s.phases| == |calls| && c < |calls| && AllLocked(calls) && LockInv(calls, s) && SnapshotsHold(s)
    ensures FreshStep(calls, s, c)
  {
    hide Batch;
    if s.phases[c].HasRead? {
      assert InFile(s.phases[c], calls[c]);
      NobodyElse(calls, s, c);
    }
  }

  lemma LockedStepKeepsSnapshots(calls: seq<Call>, s: System, c: nat, t: System)
    requires |s.phases| == |calls| && c < |calls| && AllLocked(calls) && LockInv(calls, s) && SnapshotsHold(s)
    requires Step(calls, s, c, t)
    ensures SnapshotsHold(t)
  {
    hide Alone, Batch, WouldWrite, Finished;
    StepMoves(calls, s, c, t);
    forall d: nat | d < |t.phases| && t.phases[d].HasRead?
      ensures t.phases[d].snapshot == t.content
    {
      if d != c {
        assert InFile(s.phases[d], calls[d]) && s.fileLock == Some(d);
        assert InFile(s.phases[c], calls[c]) ==> s.fileLock == Some(c);
      }
    }
  }

  lemma {:induction false} LockedSchedule(calls: seq<Call>, f: Content, trace: seq<System>, n: nat)
    requires IsSchedule(calls, trace) && AllLocked(calls) && trace[0] == Initial(f, calls) && n < |trace|
    ensures LockInv(calls, trace[n]) && SnapshotsHold(trace[n])
    ensures forall k :: 0 < k <= n ==> FreshSomeStep(calls, trace[k - 1], trace[k])
  {
    hide Step, FreshStep, LockInv, SnapshotsHold, AllLocked;
    if n == 0 {
      InitialInv(calls, f);
      InitialSnapshots(calls, f);
    } else {
      LockedSchedule(calls, f, trace, n - 1);
      assert SomeStep(calls, trace[n - 1], trace[n]);
      var c: nat :| c < |calls| && Step(calls, trace[n - 1], c, trace[n]);
      LockedStepIsFresh(calls, trace[n - 1], c);
      LockedStepKeepsSnapshots(calls, trace[n - 1], c, trace[n]);
      StepKeepsLocks(calls, trace[n - 1], c, trace[n]);
    }
  }

  lemma InitialSnapshots(calls: seq<Call>, f: Content)
    ensures SnapshotsHold(Initial(f, calls))
  {
  }

  /** Gates, resets and resumes never disturb each other. */
  lemma LocksProtect(calls: seq<Call>, f: Content, trace: seq<System>)
    requires IsSchedule(calls, trace) && AllLocked(calls) && trace[0] == Initial(f, calls)
    ensures Undisturbed(calls, trace)
  {
    hide FreshSomeStep;
    LockedSchedule(calls, f, trace, |trace| - 1);
  }

  /** A returned call got the result that it gets in its place of the serial run. */
  ghost predicate ReturnsInSerial(calls: seq<Call>, f: Content, s: System, c: nat)
    requires c < |calls| && c < |s.phases| && s.phases[c].Returned?
  {
    exists k: nat ::
      k < |s.order| && s.order[k] == c && s.phases[c].result == Alone(Serial(calls, f, s.order, k), calls[c]).1
  }

  /** Every interleaving of gates, resets and resumes, and every one in which each call finds what it read still there,
      equals a serial run: the content is what the calls, each run alone in that order, leave behind - unless a resume
      is at work on it - and every call that returned got the result it gets there; no call takes place twice. */
  lemma InterleavingIsSerial(calls: seq<Call>, f: Content, trace: seq<System>)
    requires IsSchedule(calls, trace) && trace[0] == Initial(f, calls)
    requires AllLocked(calls) || Undisturbed(calls, trace)
    ensures var s := trace[|trace| - 1];
      && (forall k :: 0 <= k < |s.order| ==> s.order[k] < |calls|)
      && (forall j, k :: 0 <= j < k < |s.order| ==> s.order[j] != s.order[k])
      && ((forall c :: 0 <= c < |calls| ==> !s.phases[c].Working?) ==>
        s.content == Serial(calls, f, s.order, |s.order|))
      && (forall c: nat :: c < |calls| && s.phases[c].Returned? ==> ReturnsInSerial(calls, f, s, c))
  {
    hide Alone, Serial, Batch, Undisturbed, IsSchedule;
    if AllLocked(calls) {
      LocksProtect(calls, f, trace);
    }
    Sizes(calls, trace);
    ScheduleKeepsInv(calls, f, trace, |trace| - 1);
    var s := trace[|trace| - 1];
    forall c: nat | c < |calls| && s.phases[c].Returned?
      ensures ReturnsInSerial(calls, f, s, c)
    {
      assert TookPlace(s.phases[c]);
      var k :| 0 <= k < |s.order| && s.order[k] == c;
    }
  }

  lemma Sizes(calls: seq<Call>, trace: seq<System>)
    requires IsSchedule(calls, trace)
    ensures trace != [] && forall k :: 0 <= k < |trace| ==> |trace[k].phases| == |calls|
  {
  }

  // ---- Real time ----

  lemma {:induction false} OrderGrows(calls: seq<Call>, trace: seq<System>, k: nat, n: nat)
    requires IsSchedule(calls, trace) && k <= n < |trace|
    ensures trace[k].order <= trace[n].order
  {
    hide Alone, Batch, Finished, WouldWrite;
    if k < n {
      OrderGrows(calls, trace, k, n - 1);
      assert SomeStep(calls, trace[n - 1], trace[n]);
      var c: nat :| c < |calls| && Step(calls, trace[n - 1], c, trace[n]);
    }
  }

  /** The serial order respects real time: a call that took effect before another began comes before it. */
  lemma SerialOrderIsRealTime(calls: seq<Call>, f: Content, trace: seq<System>, k: nat, c: nat, d: nat)
    requires IsSchedule(calls, trace) && trace[0] == Initial(f, calls) && k < |trace| && c < |calls| && d < |calls|
    requires AllLocked(calls) || Undisturbed(calls, trace)
    requires TookPlace(trace[k].phases[c]) && trace[k].phases[d] == Idle
    ensures var order := trace[|trace| - 1].order;
      exists i :: 0 <= i < |order| && order[i] == c && forall j :: 0 <= j <= i ==> order[j] != d
  {
    hide Alone, Serial, Batch, ResultInv, ContentInv, LockInv, Undisturbed, IsSchedule;
    if AllLocked(calls) {
      LocksProtect(calls, f, trace);
    }
    Sizes(calls, trace);
    ScheduleKeepsInv(calls, f, trace, k);
    OrderGrows(calls, trace, k, |trace| - 1);
    var i :| 0 <= i < |trace[k].order| && trace[k].order[i] == c;
    assert trace[|trace| - 1].order[i] == c;
  }

  // ---- The resume of the step system is the resume of the program ----

  lemma {:induction false} RecoveriesStore(c: Campaign, env: Env, n: nat, k: nat)
    requires DistinctNames(c.dispatches) && k <= n <= |c.dispatches|
    ensures |Recoveries(c.dispatches, env, n)| == n
    ensures Fold(Recoveries(c.dispatches, env, n), k, Some(c)) ==
      Some(c.(dispatches := StoredUpTo(c.dispatches, env, k)))
  {
    hide Recover, Stale, StoredUpTo, DistinctNames, RecoverStep, Recoveries;
    var ds := c.dispatches;
    RecoveriesAre(ds, env, n);
    if k == 0 {
      NoneStored(ds, env);
    } else {
      RecoveriesStore(c, env, n, k - 1);
      RecoverStepStores(c, env, k - 1);
    }
  }

  lemma NoneStored(ds: seq<Record>, env: Env)
    ensures StoredUpTo(ds, env, 0) == ds
  {
    hide Stored;
  }

  lemma RecoverStepStores(c: Campaign, env: Env, i: nat)
    requires DistinctNames(c.dispatches) && i < |c.dispatches|
    ensures RecoverStep(c.dispatches[i], env)(Some(c.(dispatches := StoredUpTo(c.dispatches, env, i)))) ==
      Some(c.(dispatches := StoredUpTo(c.dispatches, env, i + 1)))
  {
    hide Recover, Stale, StoredUpTo, DistinctNames;
    var ds := c.dispatches;
    var before := c.(dispatches := StoredUpTo(ds, env, i));
    if Stale(ds[i], env) {
      RecoverOne(before, ds, env, i);
      RaisesStoresNothing(ds, env, i);
    } else {
      FreshStaysStored(ds, env, i);
    }
  }

  lemma {:induction false} RecoveriesAre(ds: seq<Record>, env: Env, n: nat)
    requires n <= |ds|
    ensures |Recoveries(ds, env, n)| == n
    ensures forall i :: 0 <= i < n ==> Recoveries(ds, env, n)[i] == RecoverStep(ds[i], env)
  {
    hide RecoverStep;
    if n > 0 {
      RecoveriesAre(ds, env, n - 1);
    }
  }

  lemma RaisesStoresNothing(ds: seq<Record>, env: Env, i: nat)
    requires i < |ds|
    ensures RecoveryOf(ds[i], env) == Raises ==> StoredUpTo(ds, env, i + 1) == StoredUpTo(ds, env, i)
  {
  }

  lemma FreshStaysStored(ds: seq<Record>, env: Env, i: nat)
    requires i < |ds| && !Stale(ds[i], env)
    ensures StoredUpTo(ds, env, i + 1) == StoredUpTo(ds, env, i)
  {
  }

  /** With distinct names, the writes of a resume that does not raise on a sidecar leave what `ResumeCampaign`
      leaves. */
  lemma ResumeCallIsResume(c: Campaign, call: Call, c': Campaign, r: ResumeResult)
    requires call.ResumeCall? && DistinctNames(c.dispatches) && !Raised(c.dispatches, call.env)
    requires Resumed(c, call.continueOnFailure, call.resetOnRetry, call.env, call.resetWrite, c', r)
    ensures Alone(Some(c), call).0 == Some(c')
  {
    hide Recoveries, DistinctNames, Decides, StoredUpTo, Final, HeldAll;
    var ds, n := c.dispatches, |c.dispatches|;
    VisitsAll(ds, call.env);
    RecoveriesStore(c, call.env, n, n);
    var steps, rest := Recoveries(ds, call.env, n), Batch(Some(c), call)[n..];
    assert Batch(Some(c), call) == steps + rest;
    FoldPrefix(steps, rest, n, Some(c));
  }

  // ---- No deadlock ----

  /** How far a call is from returning. */
  function Stage(p: Phase): nat {
    match p
    case Idle => 6
    case HasProcessLock => 5
    case HasFileLock => 4
    case HasRead(_) => 3
    case Working(_, _) => 3
    case Finishing(_, true) => 2
    case Finishing(_, false) => 1
    case Returned(_) => 0
  }

  function WorkLeft(p: Phase, call: Call): nat {
    if p.Working? && PhaseFits(p, call) then |Batch(p.read, call)| - p.done else 0
  }

  /** Nobody else holds a lock that the call still has to take. */
  ghost predicate Unhindered(calls: seq<Call>, s: System, c: nat)
    requires c < |calls| == |s.phases|
  {
    && (s.phases[c].HasProcessLock? || s.phases[c].Idle? ==> s.fileLock.None?)
    && (s.phases[c].Idle? && Locked(calls[c]) ==> calls[c].process !in s.processLocks)
  }

  lemma UnhinderedMoves(calls: seq<Call>, s: System, c: nat) returns (t: System)
    requires |s.phases| == |calls| && LockInv(calls, s) && c < |calls| && Unhindered(calls, s, c)
    requires !s.phases[c].Returned?
    ensures Step(calls, s, c, t)
  {
    hide Alone, Batch, Finished;
    var call := calls[c];
    assert PhaseFits(s.phases[c], call);
    assert InFile(s.phases[c], call) <==> s.fileLock == Some(c);
    match s.phases[c] {
      case Idle =>
        t := if Locked(call) then
          s.(phases := s.phases[c := HasProcessLock], processLocks := s.processLocks[call.process := c])
        else s.(phases := s.phases[c := HasRead(s.content)]);
      case HasProcessLock =>
        t := if call.ResetCall? && s.content.None? then
          s.(phases := s.phases[c := Finishing(WasReset(NotReset), false)], order := s.order + [c])
        else s.(phases := s.phases[c := HasFileLock], fileLock := Some(c));
      case HasFileLock =>
        t := s.(phases := s.phases[c := if call.ResumeCall? then Working(s.content, 0) else HasRead(s.content)]);
      case HasRead(snapshot) =>
        var r := Alone(snapshot, call).1;
        t := s.(content := Finished(s, snapshot, call),
          phases := s.phases[c := if Locked(call) then Finishing(r, true) else Returned(r)], order := s.order + [c]);
      case Working(read, done) =>
        t := if done < |Batch(read, call)| then
          s.(content := Batch(read, call)[done](s.content), phases := s.phases[c := Working(read, done + 1)])
        else s.(phases := s.phases[c := Finishing(WasResumed(read), true)], order := s.order + [c]);
      case Finishing(r, holds) =>
        t := if holds then s.(phases := s.phases[c := Finishing(r, false)], fileLock := None)
        else s.(phases := s.phases[c := Returned(r)], processLocks := s.processLocks - {call.process});
    }
  }

  lemma StepAdvances(calls: seq<Call>, s: System, c: nat, t: System)
    requires |s.phases| == |calls| && LockInv(calls, s) && c < |calls| && Step(calls, s, c, t)
    ensures |t.phases| == |calls|
    ensures Stage(t.phases[c]) <= Stage(s.phases[c])
    ensures Stage(t.phases[c]) == Stage(s.phases[c]) ==>
      WorkLeft(t.phases[c], calls[c]) < WorkLeft(s.phases[c], calls[c])
    ensures Unhindered(calls, s, c) ==> Unhindered(calls, t, c)
  {
    hide Alone, Batch, Finished;
    assert PhaseFits(s.phases[c], calls[c]);
    assert InFile(s.phases[c], calls[c]) <==> s.fileLock == Some(c);
  }

  /** An unhindered call can run until it returns. */
  lemma {:induction false} RunsToEnd(calls: seq<Call>, s: System, c: nat) returns (trace: seq<System>)
    requires |s.phases| == |calls| && LockInv(calls, s) && c < |calls| && Unhindered(calls, s, c)
    ensures IsSchedule(calls, trace) && trace[0] == s && LockInv(calls, trace[|trace| - 1])
    ensures var t := trace[|trace| - 1]; t.phases[c].Returned? && Moved(s, c, t)
    decreases Stage(s.phases[c]), WorkLeft(s.phases[c], calls[c])
  {
    hide LockInv, Step, Unhindered, Stage, WorkLeft, PhaseFits;
    if s.phases[c].Returned? {
      trace := [s];
    } else {
      var t := UnhinderedMoves(calls, s, c);
      StepMoves(calls, s, c, t);
      StepKeepsLocks(calls, s, c, t);
      StepAdvances(calls, s, c, t);
      var more := RunsToEnd(calls, t, c);
      trace := [s] + more;
      assert SomeStep(calls, s, t);
      Chained(calls, s, more);
    }
  }

  lemma Chained(calls: seq<Call>, s: System, more: seq<System>)
    requires IsSchedule(calls, more) && |s.phases| == |calls| && SomeStep(calls, s, more[0])
    ensures IsSchedule(calls, [s] + more)
  {
    hide SomeStep;
    var trace := [s] + more;
    forall k | 0 < k < |trace|
      ensures SomeStep(calls, trace[k - 1], trace[k])
    {
      if k > 1 {
        assert SomeStep(calls, more[k - 2], more[k - 1]);
      }
    }
  }

  lemma {:induction false} Joined(calls: seq<Call>, a: seq<System>, b: seq<System>)
    requires IsSchedule(calls, a) && IsSchedule(calls, b) && a[|a| - 1] == b[0]
    ensures IsSchedule(calls, a + b[1..])
  {
    hide SomeStep;
    var trace := a + b[1..];
    forall k | 0 < k < |trace|
      ensures SomeStep(calls, trace[k - 1], trace[k])
    {
      if k < |a| {
        assert SomeStep(calls, a[k - 1], a[k]);
      } else {
        assert SomeStep(calls, b[k - |a|], b[k - |a| + 1]);
      }
    }
  }

  function Running(s: System): set<nat> {
    set c: nat | c < |s.phases| && !s.phases[c].Returned?
  }

  /** Some running call is unhindered: the holder of the file's lock, else a holder of a process's, else any. */
  lemma SomeoneIsUnhindered(calls: seq<Call>, s: System) returns (c: nat)
    requires |s.phases| == |calls| && LockInv(calls, s) && Running(s) != {}
    ensures c in Running(s) && Unhindered(calls, s, c)
  {
    hide Batch;
    if s.fileLock.Some? {
      c := s.fileLock.value;
      assert InFile(s.phases[c], calls[c]);
    } else if p :| p in s.processLocks {
      c := s.processLocks[p];
      assert HoldsProcess(calls, c, p) && OwnsProcess(calls, s, c);
      assert InProcess(s.phases[c], calls[c]);
    } else {
      c :| c in Running(s);
    }
  }

  /** Whatever has happened so far, every schedule can be completed: the two lock levels never deadlock. */
  lemma {:induction false} EveryScheduleCompletes(calls: seq<Call>, s: System) returns (trace: seq<System>)
    requires |s.phases| == |calls| && LockInv(calls, s)
    ensures IsSchedule(calls, trace) && trace[0] == s && Running(trace[|trace| - 1]) == {}
    decreases |Running(s)|
  {
    hide LockInv, SomeStep, Unhindered;
    if Running(s) == {} {
      trace := [s];
    } else {
      var c := SomeoneIsUnhindered(calls, s);
      var first := RunsToEnd(calls, s, c);
      var t := first[|first| - 1];
      assert Running(t) == Running(s) - {c};
      var more := EveryScheduleCompletes(calls, t);
      Joined(calls, first, more);
      trace := first + more[1..];
    }
  }

  /** The locks are in order after every step of every schedule, disturbed or not. */
  lemma {:induction false} ScheduleKeepsLocks(calls: seq<Call>, f: Content, trace: seq<System>, n: nat)
    requires IsSchedule(calls, trace) && trace[0] == Initial(f, calls) && n < |trace|
    ensures LockInv(calls, trace[n])
  {
    hide LockInv, Step;
    if n == 0 {
      InitialInv(calls, f);
    } else {
      ScheduleKeepsLocks(calls, f, trace, n - 1);
      assert SomeStep(calls, trace[n - 1], trace[n]);
      var c: nat :| c < |calls| && Step(calls, trace[n - 1], c, trace[n]);
      StepKeepsLocks(calls, trace[n - 1], c, trace[n]);
    }
  }
}
