/** Crash recovery of running dispatches, and the decision what a resumed campaign runs next. */
module FleetResume {
  import opened Wrappers
  import opened Text
  import opened FleetState
  import opened Places

  /** What the sidecar file of a dispatch turns out to be: absent, unreadable, readable with or without a usable
      entry, or one on which reading raises, since it is not UTF-8 or holds a JSON line that is no object. */
  datatype Sidecar = Absent | Vanished | Readable(blank: bool, hasEntry: bool) | Malformed

  /** The outside world during one resume: which sessions live, what sidecars hold, and which of the at most two
      recovery writes of a dispatch succeed. */
  datatype Env = Env(alive: Record -> bool, sidecar: string -> Sidecar, firstWrite: string -> bool,
    secondWrite: string -> bool, now: int)

  datatype Recovery = Recovered(status: Status) | Lost | Raises

  const STALE_REASON := "stale_running_on_resume"
  const HALTED := "fleet_halted_on_failure"
  const ABANDON_KILL_REASONS := {"stale", "thinking_stall", "path_contamination", "clone_contamination"}

  predicate IsAbandonKillReason(killReason: string, infraExitCategory: string) {
    killReason in ABANDON_KILL_REASONS || (killReason == "resume" && infraExitCategory == "context_exhausted")
  }

  /** The sidecar path, unless it is missing or empty. */
  function SidecarOf(d: Record): Option<string> {
    if d.sidecarPath == Some("") then None else d.sidecarPath
  }

  // ---- crash_recover_dispatch ----

  function MarkInterrupted(f: Content, d: Record, ok: bool, now: int): (Content, Recovery) {
    var (g, r) := Rewrite(f, d.name, x => Interrupted(x, STALE_REASON, now), ok);
    (g, if r == Done then Recovered(INTERRUPTED) else Lost)
  }

  function Recover(f: Content, d: Record, env: Env): (Content, Recovery) {
    var path := SidecarOf(d);
    match if path.None? then Absent else env.sidecar(path.value)
    case Malformed => (f, Raises)
    case Readable(blank, hasEntry) =>
      if !blank && !hasEntry then MarkInterrupted(f, d, env.firstWrite(d.name), env.now)
      else if IsAbandonKillReason(d.killReason, d.infraExitCategory) then
        MarkInterrupted(f, d, env.firstWrite(d.name), env.now)
      else
        var (g, r) := Rewrite(f, d.name, x => Resumable(x, path.value, env.now), env.firstWrite(d.name));
        if r == Done then (g, Recovered(RESUMABLE)) else MarkInterrupted(g, d, env.secondWrite(d.name), env.now)
    case _ => MarkInterrupted(f, d, env.firstWrite(d.name), env.now)
  }

  method CrashRecoverDispatch(file: StateFile, d: Record, env: Env) returns (r: Recovery)
    modifies file
    ensures (file.content, r) == Recover(old(file.content), d, env)
  {
    var path := SidecarOf(d);
    if path.Some? && env.sidecar(path.value) != Absent {
      var sidecar := env.sidecar(path.value);
      if sidecar == Malformed {
        return Raises;
      }
      if sidecar.Readable? && (sidecar.blank || sidecar.hasEntry) {
        if IsAbandonKillReason(d.killReason, d.infraExitCategory) {
          var marked := file.MarkDispatchInterrupted(d.name, STALE_REASON, env.now, env.firstWrite(d.name));
          return if marked == Done then Recovered(INTERRUPTED) else Lost;
        }
        var marked := file.MarkDispatchResumable(d.name, path.value, env.now, env.firstWrite(d.name));
        if marked == Done {
          return Recovered(RESUMABLE);
        }
        marked := file.MarkDispatchInterrupted(d.name, STALE_REASON, env.now, env.secondWrite(d.name));
        return if marked == Done then Recovered(INTERRUPTED) else Lost;
      }
    }
    var marked := file.MarkDispatchInterrupted(d.name, STALE_REASON, env.now, env.firstWrite(d.name));
    return if marked == Done then Recovered(INTERRUPTED) else Lost;
  }

  // ---- Recovery, record by record ----

  predicate Stale(d: Record, env: Env) {
    d.status == RUNNING && !env.alive(d)
  }

  /** How recovery of a stored running record ends: which writes decide it. */
  function RecoveryOf(d: Record, env: Env): Recovery {
    var path := SidecarOf(d);
    var sidecar := if path.None? then Absent else env.sidecar(path.value);
    if sidecar == Malformed then Raises
    else if sidecar.Readable? && (sidecar.blank || sidecar.hasEntry)
      && !IsAbandonKillReason(d.killReason, d.infraExitCategory) && env.firstWrite(d.name) then Recovered(RESUMABLE)
    else if sidecar.Readable? && (sidecar.blank || sidecar.hasEntry)
      && !IsAbandonKillReason(d.killReason, d.infraExitCategory) then
      if env.secondWrite(d.name) then Recovered(INTERRUPTED) else Lost
    else if env.firstWrite(d.name) then Recovered(INTERRUPTED)
    else Lost
  }

  /** A record as recovery leaves it in the file. */
  function Stored(d: Record, env: Env): Record {
    if !Stale(d, env) then d
    else
      match RecoveryOf(d, env)
      case Recovered(RESUMABLE) => Resumable(d, SidecarOf(d).value, env.now)
      case Recovered(_) => Interrupted(d, STALE_REASON, env.now)
      case _ => d
  }

  /** The same record as the resuming process holds it. */
  function Held(d: Record, env: Env): Record {
    if Stale(d, env) && RecoveryOf(d, env).Recovered? then
      d.(status := RecoveryOf(d, env).status, reason := STALE_REASON)
    else d
  }

  /** The first `n` records recovered. */
  function StoredUpTo(ds: seq<Record>, env: Env, n: nat): seq<Record> {
    seq(|ds|, i requires 0 <= i < |ds| => if i < n then Stored(ds[i], env) else ds[i])
  }

  function HeldAll(ds: seq<Record>, env: Env): seq<Record> {
    seq(|ds|, i requires 0 <= i < |ds| => Held(ds[i], env))
  }

  lemma RecoverOne(c: Campaign, ds: seq<Record>, env: Env, i: nat)
    requires DistinctNames(ds) && i < |ds| && c.dispatches == StoredUpTo(ds, env, i) && Stale(ds[i], env)
    ensures var (g, r) := Recover(Some(c), ds[i], env);
      && r == RecoveryOf(ds[i], env)
      && g == Some(c.(dispatches := if r == Raises then c.dispatches else StoredUpTo(ds, env, i + 1)))
  {
    hide IsAbandonKillReason, FirstNamed;
    FirstNamedIs(c.dispatches, ds[i].name, i);
    assert c.dispatches[i] == ds[i];
    var after := StoredUpTo(ds, env, i + 1);
    assert after == c.dispatches[i := Stored(ds[i], env)];
    assert Stored(ds[i], env) == ds[i] ==> after == c.dispatches;
  }

  // ---- The decision ----

  function StatusText(s: Status): string {
    match s
    case PENDING => "pending" case RUNNING => "running" case SUCCESS => "success" case FAILURE => "failure"
    case INTERRUPTED => "interrupted" case RESUMABLE => "resumable" case SKIPPED => "skipped"
    case REFUSED => "refused" case RELEASED => "released"
  }

  predicate Visible(s: Status) {
    s in {SUCCESS, SKIPPED, FAILURE, INTERRUPTED, REFUSED, RELEASED, RUNNING}
  }

  function BlockLine(d: Record): string {
    "- " + d.name + ": " + StatusText(d.status)
  }

  /** One line for each settled or running dispatch, in order. */
  function BlockLines(ds: seq<Record>): seq<string> {
    if ds == [] then []
    else (if Visible(ds[0].status) then [BlockLine(ds[0])] else []) + BlockLines(ds[1..])
  }

  predicate Open(s: Status) {
    s == PENDING || s == RESUMABLE
  }

  datatype ResumeResult =
    | NoState
    | ResumeRaised
    | Decision(next: string, block: string, isResumable: bool, sessionId: string, killReason: string)

  predicate IsFirstOpen(ds: seq<Record>, i: nat) {
    i < |ds| && Open(ds[i].status) && forall j :: 0 <= j < i ==> !Open(ds[j].status)
  }

  predicate Picks(d: Record, next: string, isResumable: bool, sessionId: string, killReason: string) {
    && next == d.name && isResumable == (d.status == RESUMABLE)
    && sessionId == (if isResumable then d.sessionId else "")
    && killReason == (if isResumable then d.killReason else "")
  }

  /** The result names the first open dispatch in list order, or none if there is none, and lists the others. */
  ghost predicate Decides(ds: seq<Record>, r: ResumeResult) {
    && r.Decision? && r.block == JoinLines(BlockLines(ds))
    && ((forall j :: 0 <= j < |ds| ==> !Open(ds[j].status)) ==> r == Decision("", r.block, false, "", ""))
    && forall i: nat :: IsFirstOpen(ds, i) ==> Picks(ds[i], r.next, r.isResumable, r.sessionId, r.killReason)
  }

  lemma {:induction false} BlockLinesSnoc(ds: seq<Record>, d: Record)
    ensures BlockLines(ds + [d]) == BlockLines(ds) + if Visible(d.status) then [BlockLine(d)] else []
  {
    if ds == [] {
      assert ds + [d] == [d];
    } else {
      BlockLinesSnoc(ds[1..], d);
      assert (ds + [d])[1..] == ds[1..] + [d];
    }
  }

  predicate Named(ds: seq<Record>) {
    forall i :: 0 <= i < |ds| ==> ds[i].name != ""
  }

  /** The loop over the records a decision is made from. */
  method Decide(ds: seq<Record>) returns (r: ResumeResult)
    requires Named(ds)
    ensures Decides(ds, r)
  {
    var lines: seq<string> := [];
    var nextName, isResumable, sessionId, killReason := "", false, "", "";
    for i := 0 to |ds|
      invariant lines == BlockLines(ds[..i])
      invariant nextName == "" ==>
        !isResumable && sessionId == "" && killReason == "" && forall j :: 0 <= j < i ==> !Open(ds[j].status)
      invariant nextName != "" ==>
        exists j :: 0 <= j < i && IsFirstOpen(ds, j) && Picks(ds[j], nextName, isResumable, sessionId, killReason)
    {
      var d := ds[i];
      BlockLinesSnoc(ds[..i], d);
      assert ds[..i + 1] == ds[..i] + [d];
      if Visible(d.status) {
        lines := lines + [BlockLine(d)];
      } else if d.status == RESUMABLE && nextName == "" {
        assert IsFirstOpen(ds, i);
        nextName, isResumable, sessionId, killReason := d.name, true, d.sessionId, d.killReason;
      } else if d.status !in {INTERRUPTED, RUNNING, REFUSED, RELEASED, FAILURE, RESUMABLE} && nextName == "" {
        assert IsFirstOpen(ds, i);
        nextName := d.name;
      }
    }
    assert ds[..|ds|] == ds;
    r := Decision(nextName, JoinLines(lines), isResumable, sessionId, killReason);
  }

  // ---- resume_campaign_from_state ----

  predicate Raised(ds: seq<Record>, env: Env) {
    exists i :: 0 <= i < |ds| && Stale(ds[i], env) && RecoveryOf(ds[i], env) == Raises
  }

  predicate AnyFailed(ds: seq<Record>) {
    exists i :: 0 <= i < |ds| && ds[i].status == FAILURE
  }

  function ClearFailed(d: Record): Record {
    if d.status == FAILURE then Cleared(d) else d
  }

  /** The records the decision is made from. */
  function Final(ds: seq<Record>, env: Env, continueOnFailure: bool): seq<Record> {
    Retried(HeldAll(ds, env), continueOnFailure)
  }

  function Retried(held: seq<Record>, continueOnFailure: bool): seq<Record> {
    if continueOnFailure then held else seq(|held|, i requires 0 <= i < |held| => ClearFailed(held[i]))
  }

  method ResumeCampaign(file: StateFile, continueOnFailure: bool, resetOnRetry: bool, env: Env, resetWrite: bool)
    returns (r: ResumeResult)
    requires file.content.Some? ==> DistinctNames(file.content.value.dispatches) && Named(file.content.value.dispatches)
    modifies file
    ensures old(file.content).None? ==> r == NoState && file.content.None?
    ensures old(file.content).Some? ==> file.content.Some?
    ensures old(file.content).Some? ==>
      Resumed(old(file.content).value, continueOnFailure, resetOnRetry, env, resetWrite, file.content.value, r)
  {
    var state := file.ReadState();
    if state.None? {
      return NoState;
    }
    hide *;
    var c := state.value;
    var ds, raised := RecoverStale(file, c, env);
    if raised {
      WhenRaised(c, continueOnFailure, resetOnRetry, env, resetWrite, file.content.value);
      return ResumeRaised;
    }
    ghost var recovered := file.content.value;
    var halted, didReset;
    ds, halted, didReset := ResetFailures(ds, continueOnFailure, resetOnRetry);
    if halted {
      WhenHalted(c, continueOnFailure, resetOnRetry, env, resetWrite, recovered);
      return Decision("", HALTED, false, "", "");
    }
    FinalNamed(c.dispatches, env, continueOnFailure, ds);
    if didReset {
      var written := file.WriteState(c.(dispatches := ds), resetWrite);
      if !written {
        WhenReset(c, continueOnFailure, resetOnRetry, env, resetWrite, recovered, ds, ResumeRaised);
        return ResumeRaised;
      }
    }
    r := Decide(ds);
    if didReset {
      WhenReset(c, continueOnFailure, resetOnRetry, env, resetWrite, recovered, ds, r);
    } else {
      WhenKept(c, continueOnFailure, resetOnRetry, env, resetWrite, recovered, ds, r);
    }
  }

  // The four ways a resume ends.

  ghost predicate RecoveredTo(c: Campaign, env: Env, c': Campaign) {
    c' == c.(dispatches := StoredUpTo(c.dispatches, env, |c.dispatches|)) && !Raised(c.dispatches, env)
  }

  lemma WhenRaised(c: Campaign, continueOnFailure: bool, resetOnRetry: bool, env: Env, ok: bool, c': Campaign)
    requires Raised(c.dispatches, env) && c' == c.(dispatches := c'.dispatches)
    requires exists n :: 0 <= n <= |c.dispatches| && c'.dispatches == StoredUpTo(c.dispatches, env, n)
    ensures Resumed(c, continueOnFailure, resetOnRetry, env, ok, c', ResumeRaised)
  {
  }

  lemma WhenHalted(c: Campaign, continueOnFailure: bool, resetOnRetry: bool, env: Env, ok: bool, c': Campaign)
    requires RecoveredTo(c, env, c') && !continueOnFailure && !resetOnRetry && AnyFailed(HeldAll(c.dispatches, env))
    ensures Resumed(c, continueOnFailure, resetOnRetry, env, ok, c', Decision("", HALTED, false, "", ""))
  {
  }

  lemma WhenReset(
      c: Campaign, continueOnFailure: bool, resetOnRetry: bool, env: Env, ok: bool, c': Campaign, ds: seq<Record>,
      r: ResumeResult)
    requires RecoveredTo(c, env, c') && !continueOnFailure && resetOnRetry && AnyFailed(HeldAll(c.dispatches, env))
    requires ds == Final(c.dispatches, env, continueOnFailure)
    requires if ok then Decides(ds, r) else r == ResumeRaised
    ensures Resumed(c, continueOnFailure, resetOnRetry, env, ok, if ok then c.(dispatches := ds) else c', r)
  {
    hide Decides, Raised;
  }

  lemma WhenKept(
      c: Campaign, continueOnFailure: bool, resetOnRetry: bool, env: Env, ok: bool, c': Campaign, ds: seq<Record>,
      r: ResumeResult)
    requires RecoveredTo(c, env, c') && (continueOnFailure || !AnyFailed(HeldAll(c.dispatches, env)))
    requires ds == Final(c.dispatches, env, continueOnFailure) && Decides(ds, r)
    ensures Resumed(c, continueOnFailure, resetOnRetry, env, ok, c', r)
  {
    hide Decides, Raised;
    assert ds == HeldAll(c.dispatches, env);
  }

  /** The loop over running dispatches: recovers the stale ones in the file and in the records held. */
  method RecoverStale(file: StateFile, c: Campaign, env: Env) returns (ds: seq<Record>, raised: bool)
    requires file.content == Some(c) && DistinctNames(c.dispatches)
    modifies file
    ensures raised == Raised(c.dispatches, env) && file.content.Some?
    ensures file.content.value == c.(dispatches := file.content.value.dispatches)
    ensures raised ==>
      exists n :: 0 <= n <= |c.dispatches| && file.content.value.dispatches == StoredUpTo(c.dispatches, env, n)
    ensures !raised ==> RecoveredTo(c, env, file.content.value) && ds == HeldAll(c.dispatches, env)
  {
    ghost var before := c.dispatches;
    ds := c.dispatches;
    assert StoredUpTo(before, env, 0) == before;
    for i := 0 to |ds|
      invariant |ds| == |before| && file.content == Some(c.(dispatches := StoredUpTo(before, env, i)))
      invariant forall j :: 0 <= j < |ds| ==> ds[j] == if j < i then Held(before[j], env) else before[j]
      invariant forall j :: 0 <= j < i ==> !(Stale(before[j], env) && RecoveryOf(before[j], env) == Raises)
    {
      var d := ds[i];
      if d.status == RUNNING && !env.alive(d) {
        RecoverOne(file.content.value, before, env, i);
        var recovery := CrashRecoverDispatch(file, d, env);
        if recovery == Raises {
          FirstRaise(before, env, i);
          return ds, true;
        }
        if recovery.Recovered? {
          ds := ds[i := d.(status := recovery.status, reason := STALE_REASON)];
        }
      } else {
        assert StoredUpTo(before, env, i + 1) == StoredUpTo(before, env, i);
      }
    }
    assert ds == HeldAll(before, env);
    raised := false;
  }

  /** The loop over failed dispatches: halts on one, or clears them all. */
  method ResetFailures(held: seq<Record>, continueOnFailure: bool, resetOnRetry: bool)
    returns (ds: seq<Record>, halted: bool, didReset: bool)
    ensures halted == (!continueOnFailure && !resetOnRetry && AnyFailed(held))
    ensures !halted ==> didReset == (!continueOnFailure && resetOnRetry && AnyFailed(held))
    ensures !halted ==> ds == Retried(held, continueOnFailure)
  {
    ds, halted, didReset := held, false, false;
    for i := 0 to |ds|
      invariant |ds| == |held|
      invariant didReset == (!continueOnFailure && exists j :: 0 <= j < i && held[j].status == FAILURE)
      invariant didReset ==> resetOnRetry
      invariant forall j ::
        0 <= j < |ds| ==> ds[j] == if j < i && !continueOnFailure then ClearFailed(held[j]) else held[j]
    {
      if ds[i].status == FAILURE && !continueOnFailure {
        if resetOnRetry {
          ds := ds[i := Cleared(ds[i])];
          didReset := true;
        } else {
          return ds, true, false;
        }
      }
    }
  }

  lemma FinalNamed(ds: seq<Record>, env: Env, continueOnFailure: bool, final: seq<Record>)
    requires Named(ds) && final == Retried(HeldAll(ds, env), continueOnFailure)
    ensures Named(final) && final == Final(ds, env, continueOnFailure)
  {
  }

  lemma FirstRaise(ds: seq<Record>, env: Env, i: nat)
    requires i < |ds| && Stale(ds[i], env) && RecoveryOf(ds[i], env) == Raises
    ensures Raised(ds, env)
  {
  }

  predicate Halts(ds: seq<Record>, continueOnFailure: bool, resetOnRetry: bool, env: Env) {
    !continueOnFailure && !resetOnRetry && AnyFailed(HeldAll(ds, env))
  }

  predicate Resets(ds: seq<Record>, continueOnFailure: bool, resetOnRetry: bool, env: Env) {
    !continueOnFailure && resetOnRetry && AnyFailed(HeldAll(ds, env))
  }

  /** What one resume does: the stored records and the result, case by case. */
  ghost predicate ResumeOutcome(
      ds: seq<Record>, continueOnFailure: bool, resetOnRetry: bool, env: Env, resetWrite: bool, after: seq<Record>,
      r: ResumeResult)
  {
    if Raised(ds, env) then
      r == ResumeRaised && exists n :: 0 <= n <= |ds| && after == StoredUpTo(ds, env, n)
    else if Halts(ds, continueOnFailure, resetOnRetry, env) then
      r == Decision("", HALTED, false, "", "") && after == StoredUpTo(ds, env, |ds|)
    else if Resets(ds, continueOnFailure, resetOnRetry, env) then
      if resetWrite then after == Final(ds, env, false) && Decides(after, r)
      else r == ResumeRaised && after == StoredUpTo(ds, env, |ds|)
    else
      after == StoredUpTo(ds, env, |ds|) && Decides(HeldAll(ds, env), r)
  }

  ghost predicate Resumed(
      c: Campaign, continueOnFailure: bool, resetOnRetry: bool, env: Env, resetWrite: bool, c': Campaign,
      r: ResumeResult)
  {
    && c' == c.(dispatches := c'.dispatches)
    && ResumeOutcome(c.dispatches, continueOnFailure, resetOnRetry, env, resetWrite, c'.dispatches, r)
  }

  // ---- What the outcome means ----

  /** Recovery tries to make the dispatch resumable, and may try a second write if the first fails. */
  predicate TriesResumable(d: Record, env: Env) {
    && SidecarOf(d).Some? && env.sidecar(SidecarOf(d).value).Readable?
    && (env.sidecar(SidecarOf(d).value).blank || env.sidecar(SidecarOf(d).value).hasEntry)
    && !IsAbandonKillReason(d.killReason, d.infraExitCategory)
  }

  /** The recovery writes that were tried all failed. */
  predicate WritesFailed(d: Record, env: Env) {
    !env.firstWrite(d.name) && (TriesResumable(d, env) ==> !env.secondWrite(d.name))
  }

  lemma LostIffWritesFailed(d: Record, env: Env)
    requires RecoveryOf(d, env) != Raises
    ensures RecoveryOf(d, env) == Lost <==> WritesFailed(d, env)
  {
  }

  /** Two lists that the decision cannot tell apart. */
  ghost predicate SameView(a: seq<Record>, b: seq<Record>) {
    && |a| == |b|
    && forall i :: 0 <= i < |a| ==>
      a[i].name == b[i].name && a[i].status == b[i].status && a[i].sessionId == b[i].sessionId &&
        a[i].killReason == b[i].killReason
  }

  lemma {:induction false} SameBlock(a: seq<Record>, b: seq<Record>)
    requires SameView(a, b)
    ensures BlockLines(a) == BlockLines(b)
  {
    if a != [] {
      SameBlock(a[1..], b[1..]);
    }
  }

  lemma SameDecision(a: seq<Record>, b: seq<Record>, r: ResumeResult)
    requires SameView(a, b) && Decides(a, r)
    ensures Decides(b, r)
  {
    SameBlock(a, b);
    forall i: nat | IsFirstOpen(b, i)
      ensures Picks(b[i], r.next, r.isResumable, r.sessionId, r.killReason)
    {
      assert IsFirstOpen(a, i);
    }
  }

  /** The resume decision. When it does not halt, the result is decided by the statuses now in the file: the first open
      dispatch in list order is next (none iff there is none) and the block lists the others in order; nothing failed is
      left unless failures are tolerated. When it halts, the file still holds the statuses the halt was decided on. In
      both cases a dispatch still running is alive or its recovery writes failed, and names keep their places. */
  lemma ResumeMeaning(
      ds: seq<Record>, continueOnFailure: bool, resetOnRetry: bool, env: Env, resetWrite: bool, after: seq<Record>,
      r: ResumeResult)
    requires ResumeOutcome(ds, continueOnFailure, resetOnRetry, env, resetWrite, after, r) && r.Decision?
    ensures |after| == |ds| && forall i :: 0 <= i < |ds| ==> after[i].name == ds[i].name
    ensures forall i :: 0 <= i < |ds| && after[i].status == RUNNING ==>
      ds[i].status == RUNNING && (env.alive(ds[i]) || WritesFailed(ds[i], env))
    ensures Halts(ds, continueOnFailure, resetOnRetry, env) ==>
      r == Decision("", HALTED, false, "", "") && AnyFailed(after) && SameView(HeldAll(ds, env), after)
    ensures !Halts(ds, continueOnFailure, resetOnRetry, env) ==>
      Decides(after, r) && (AnyFailed(after) ==> continueOnFailure)
  {
    hide RecoveryOf, WritesFailed, Decides;
    var held := HeldAll(ds, env);
    forall i | 0 <= i < |ds| && after[i].status == RUNNING
      ensures ds[i].status == RUNNING && (env.alive(ds[i]) || WritesFailed(ds[i], env))
    {
      if Stale(ds[i], env) {
        LostIffWritesFailed(ds[i], env);
        RecoveredIsSettled(ds[i], env);
      }
    }
    if !Resets(ds, continueOnFailure, resetOnRetry, env) {
      forall i | 0 <= i < |ds|
        ensures held[i].status == after[i].status
      {
        RecoveredIsSettled(ds[i], env);
      }
      assert SameView(held, after);
      assert forall i :: 0 <= i < |after| ==> after[i].status == held[i].status;
      if !Halts(ds, continueOnFailure, resetOnRetry, env) {
        SameDecision(held, after, r);
      }
    }
  }

  lemma RecoveredIsSettled(d: Record, env: Env)
    ensures RecoveryOf(d, env).Recovered? ==> RecoveryOf(d, env).status in {INTERRUPTED, RESUMABLE}
  {
  }

  /** A reset rewrites the file from the records held since before recovery, so the end time that recovery stored for a
      stale dispatch is lost again; without a reset it stays. */
  lemma ResetForgetsEndTimes(
      ds: seq<Record>, continueOnFailure: bool, resetOnRetry: bool, env: Env, after: seq<Record>, r: ResumeResult,
      i: nat)
    requires ResumeOutcome(ds, continueOnFailure, resetOnRetry, env, true, after, r) && r.Decision?
    requires i < |ds| && Stale(ds[i], env) && RecoveryOf(ds[i], env).Recovered?
    ensures after[i].endedAt == if Resets(ds, continueOnFailure, resetOnRetry, env) then ds[i].endedAt else env.now
  {
  }

  /** A campaign with one dispatch left running by a process that is gone, and one that failed. */
  function StaleAndFailed(): seq<Record> {
    [NewRecord("a").(status := RUNNING, startedAt := 10),
      NewRecord("b").(status := FAILURE, startedAt := 20, endedAt := 30)]
  }

  /** Nothing is alive, there is no sidecar, every write succeeds, and it is now 50. */
  function Quiet(): Env {
    Env(_ => false, _ => Absent, _ => true, _ => true, 50)
  }

  /** Recovery stores that `a` ended at 50; the reset of `b` then writes back that it never ended. */
  lemma EndTimeIsLost()
    ensures var ds, env := StaleAndFailed(), Quiet();
      var after := Final(ds, env, false);
      var r := Decision("b", "- a: interrupted", false, "", "");
      && ResumeOutcome(ds, false, true, env, true, after, r)
      && StoredUpTo(ds, env, |ds|)[0].endedAt == 50 && after[0].endedAt == 0
      && after[0].status == INTERRUPTED && after[1].status == PENDING
  {
    hide Decides;
    var ds, env := StaleAndFailed(), Quiet();
    var after := Final(ds, env, false);
    var r := Decision("b", "- a: interrupted", false, "", "");
    assert HeldAll(ds, env)[1].status == FAILURE;
    assert Held(ds[0], env).status == INTERRUPTED && after[0].status == INTERRUPTED && after[1].status == PENDING;
    DecideTwo(after[0], after[1], r);
    assert after == [after[0], after[1]];
  }

  lemma DecideTwo(a: Record, b: Record, r: ResumeResult)
    requires a.name == "a" && a.status == INTERRUPTED && b.name == "b" && b.status == PENDING
    requires r == Decision("b", "- a: interrupted", false, "", "")
    ensures Decides([a, b], r)
  {
    var ds := [a, b];
    var rest := ds[1..];
    assert rest == [b] && rest[1..] == [];
    assert BlockLines(rest) == [] + BlockLines(rest[1..]) == [];
    assert BlockLines(ds) == [BlockLine(a)] + BlockLines(rest);
    assert "- " + "a" + ": " + "interrupted" == "- a: interrupted";
    assert Open(ds[1].status);
  }

  /** A dispatch that failed, was reset, and runs again. */
  function Rerun(d: Record, id: string, pid: int, ticks: int, boot: string, sidecar: Option<string>, now: int): Record {
    Started(Cleared(d), id, pid, ticks, boot, sidecar, now)
  }

  /** A reset leaves the kill reason and exit category of the first attempt. So the rerun, when its process is gone, is
      recovered as if it had never failed, exactly when these are no reason to abandon it, or recovery does not try to
      make it resumable anyway, or both writes fail. */
  lemma RerunRecoversIff(
      d: Record, id: string, pid: int, ticks: int, boot: string, sidecar: Option<string>, now: int, env: Env)
    ensures var rerun := Rerun(d, id, pid, ticks, boot, sidecar, now);
      var anew := Started(NewRecord(d.name), id, pid, ticks, boot, sidecar, now);
      RecoveryOf(rerun, env) == RecoveryOf(anew, env) <==>
        || !IsAbandonKillReason(d.killReason, d.infraExitCategory) || !TriesResumable(anew, env)
        || (!env.firstWrite(d.name) && !env.secondWrite(d.name))
  {
  }

  /** Killed as stale, reset, and run again with a sidecar that has an entry: interrupted, where a fresh one is
      resumable. */
  lemma RerunIsAbandoned()
    ensures var d := NewRecord("a").(status := FAILURE, killReason := "stale");
      var env := Env(_ => false, _ => Readable(false, true), _ => true, _ => true, 50);
      && RecoveryOf(Rerun(d, "id", 7, 0, "", Some("s.jsonl"), 40), env) == Recovered(INTERRUPTED)
      && RecoveryOf(Started(NewRecord("a"), "id", 7, 0, "", Some("s.jsonl"), 40), env) == Recovered(RESUMABLE)
  {
  }

  /** One resume moves statuses only as the table allows. */
  lemma ResumeSteps(
      c: Campaign, continueOnFailure: bool, resetOnRetry: bool, env: Env, resetWrite: bool, c': Campaign,
      r: ResumeResult)
    requires Resumed(c, continueOnFailure, resetOnRetry, env, resetWrite, c', r)
    ensures |c'.dispatches| == |c.dispatches| && Steps(Some(c), Some(c'))
  {
    hide Decides, RecoveryOf;
    forall i | 0 <= i < |c.dispatches|
      ensures MovesTo(c.dispatches[i], c'.dispatches[i])
    {
      RecoveredIsSettled(c.dispatches[i], env);
    }
  }

  // ---- Recovery and the block, spelled out ----

  /** How recovery of a stale dispatch ends, by its sidecar, its kill metadata and the writes. */
  lemma RecoveryMeaning(d: Record, env: Env)
    ensures var usable := d.sidecarPath.Some? && d.sidecarPath.value != ""
        && env.sidecar(d.sidecarPath.value) in {Readable(true, true), Readable(true, false), Readable(false, true)};
      var abandoned := d.killReason in {"stale", "thinking_stall", "path_contamination", "clone_contamination"}
        || (d.killReason == "resume" && d.infraExitCategory == "context_exhausted");
      && (RecoveryOf(d, env) == Raises <==>
        d.sidecarPath.Some? && d.sidecarPath.value != "" && env.sidecar(d.sidecarPath.value) == Malformed)
      && (RecoveryOf(d, env) == Recovered(RESUMABLE) <==> usable && !abandoned && env.firstWrite(d.name))
      && (RecoveryOf(d, env) == Recovered(INTERRUPTED) <==>
        && RecoveryOf(d, env) != Raises
        && (if usable && !abandoned then !env.firstWrite(d.name) && env.secondWrite(d.name)
          else env.firstWrite(d.name)))
      && RecoveryOf(d, env) in {Raises, Lost, Recovered(RESUMABLE), Recovered(INTERRUPTED)}
  {
  }

  /** What a stale dispatch is stored as. */
  lemma StoredMeaning(d: Record, env: Env)
    ensures var stored := Stored(d, env);
      if d.status != RUNNING || env.alive(d) then stored == d
      else if RecoveryOf(d, env) == Recovered(RESUMABLE) then
        stored == d.(status := RESUMABLE, sidecarPath := d.sidecarPath, endedAt := env.now)
      else if RecoveryOf(d, env) == Recovered(INTERRUPTED) then
        stored == d.(status := INTERRUPTED, reason := "stale_running_on_resume", endedAt := env.now)
      else stored == d
  {
    RecoveryMeaning(d, env);
  }

  /** The texts of the statuses, those that the block lists, and those that a dispatch can be taken up in. */
  lemma StatusTexts()
    ensures StatusText(PENDING) == "pending" && StatusText(RUNNING) == "running" && StatusText(SUCCESS) == "success"
    ensures StatusText(FAILURE) == "failure" && StatusText(INTERRUPTED) == "interrupted"
    ensures StatusText(RESUMABLE) == "resumable" && StatusText(SKIPPED) == "skipped"
    ensures StatusText(REFUSED) == "refused" && StatusText(RELEASED) == "released"
    ensures forall s :: Visible(s) <==> s != PENDING && s != RESUMABLE
    ensures forall s :: Open(s) <==> !Visible(s)
  {
    forall s
      ensures Visible(s) <==> s != PENDING && s != RESUMABLE
    {
      match s {
        case PENDING =>
        case _ =>
      }
    }
  }

  /** The block has one line, with name and status, for each dispatch that is neither pending nor resumable, in
      order. */
  lemma {:induction false} BlockMeaning(ds: seq<Record>) returns (listed: seq<Record>)
    ensures Selects(ds, seq(|ds|, i requires 0 <= i < |ds| => ds[i].status != PENDING && ds[i].status != RESUMABLE),
      listed)
    ensures |BlockLines(ds)| == |listed|
    ensures forall k :: 0 <= k < |listed| ==>
      BlockLines(ds)[k] == "- " + listed[k].name + ": " + StatusText(listed[k].status)
  {
    hide Selects, StatusText;
    var keep := seq(|ds|, i requires 0 <= i < |ds| => ds[i].status != PENDING && ds[i].status != RESUMABLE);
    if ds == [] {
      SelectsNothing<Record>();
      assert keep == [];
      listed := [];
    } else {
      var d, rest := ds[0], ds[1..];
      var tail := BlockMeaning(rest);
      var keep' := seq(|rest|, i requires 0 <= i < |rest| => rest[i].status != PENDING && rest[i].status != RESUMABLE);
      var kept := d.status != PENDING && d.status != RESUMABLE;
      StatusTexts();
      SelectsCons(rest, keep', tail, d, kept);
      assert ds == [d] + rest && keep == [kept] + keep';
      listed := if kept then [d] + tail else tail;
    }
  }
}
