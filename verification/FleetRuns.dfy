/** Runs of the state operations, one after the other. */
module FleetRuns {
  import opened Wrappers
  import opened FleetState
  import opened FleetResume

  /** One call with everything the outside world decides about it. */
  datatype Op =
    | MarkRunning(name: string, dispatchId: string, pid: int, ticks: int, bootId: string, sidecar: Option<string>,
      now: int, ok: bool)
    | MarkInterrupted(name: string, reason: string, now: int, ok: bool)
    | MarkResumable(name: string, path: string, now: int, ok: bool)
    | AppendRecord(record: Record, ok: bool)
    | Reset(name: string, ok: bool)
    | Gate(name: string, approved: bool, now: int, ok: bool)
    | Capture(captures: map<string, string>, ok: bool)
    | Resume(continueOnFailure: bool, resetOnRetry: bool, env: Env, resetWrite: bool)

  /** Content `g` is what the call makes of content `f`. */
  ghost predicate Performs(f: Content, op: Op, g: Content) {
    match op
    case MarkRunning(name, id, pid, ticks, boot, sidecar, now, ok) =>
      g == Rewrite(f, name, d => Started(d, id, pid, ticks, boot, sidecar, now), ok).0
    case MarkInterrupted(name, reason, now, ok) => g == Rewrite(f, name, d => Interrupted(d, reason, now), ok).0
    case MarkResumable(name, path, now, ok) => g == Rewrite(f, name, d => Resumable(d, path, now), ok).0
    case AppendRecord(record, ok) => g == Append(f, record, ok).0
    case Reset(name, ok) => g == ResetFailed(f, name, ok).0
    case Gate(name, approved, now, ok) => g == RecordGate(f, name, approved, now, ok).0
    case Capture(captures, ok) => g == WriteCaptured(f, captures, ok).0
    case Resume(cont, reset, env, ok) =>
      if f.None? then g.None?
      else g.Some? && exists r :: Resumed(f.value, cont, reset, env, ok, g.value, r)
  }

  lemma ReplaceSteps(c: Campaign, i: nat, d: Record)
    requires i < |c.dispatches| && MovesTo(c.dispatches[i], d)
    ensures Steps(Some(c), Some(c.(dispatches := c.dispatches[i := d])))
  {
  }

  lemma RewriteSteps(f: Content, name: string, edit: Record -> Record, ok: bool)
    requires forall d: Record :: edit(d).name == name || edit(d).name == d.name
    ensures Steps(f, Rewrite(f, name, edit, ok).0)
  {
    if f.Some? && FirstNamed(f.value.dispatches, name).Some? {
      var i := FirstNamed(f.value.dispatches, name).value;
      var d := f.value.dispatches[i];
      if Allowed(d.status, edit(d).status) {
        ReplaceSteps(f.value, i, edit(d));
      }
    }
  }

  lemma AppendSteps(f: Content, record: Record, ok: bool)
    ensures Steps(f, Append(f, record, ok).0)
  {
    if !(f.Some? && FirstNamed(f.value.dispatches, record.name).None?) {
      RewriteSteps(f, record.name, _ => record, ok);
    }
  }

  /** Every call keeps names in place and moves statuses only as the table allows. */
  lemma OpSteps(f: Content, op: Op, g: Content)
    requires Performs(f, op, g)
    ensures Steps(f, g)
  {
    hide Rewrite, Append;
    match op {
      case MarkRunning(name, id, pid, ticks, boot, sidecar, now, ok) =>
        RewriteSteps(f, name, d => Started(d, id, pid, ticks, boot, sidecar, now), ok);
      case MarkInterrupted(name, reason, now, ok) => RewriteSteps(f, name, d => Interrupted(d, reason, now), ok);
      case MarkResumable(name, path, now, ok) => RewriteSteps(f, name, d => Resumable(d, path, now), ok);
      case AppendRecord(record, ok) => AppendSteps(f, record, ok);
      case Resume(continueOnFailure, resetOnRetry, env, ok) =>
        if f.Some? {
          var r :| Resumed(f.value, continueOnFailure, resetOnRetry, env, ok, g.value, r);
          ResumeSteps(f.value, continueOnFailure, resetOnRetry, env, ok, g.value, r);
        }
      case _ =>
    }
  }

  /** A run: the successive contents of the file, each made from the one before by some call. */
  ghost predicate IsRun(files: seq<Content>, ops: seq<Op>) {
    |files| == |ops| + 1 && forall k :: 0 <= k < |ops| ==> Performs(files[k], ops[k], files[k + 1])
  }

  /** A chain of allowed moves from one status to another. */
  ghost predicate Leads(from: Status, to: Status, path: seq<Status>) {
    && path != [] && path[0] == from && path[|path| - 1] == to
    && forall k :: 0 < k < |path| ==> Allowed(path[k - 1], path[k])
  }

  ghost predicate Reaches(from: Status, to: Status) {
    exists path :: Leads(from, to, path)
  }

  lemma ReachesExtends(a: Status, b: Status, c: Status)
    requires Reaches(a, b) && (b == c || Allowed(b, c))
    ensures Reaches(a, c)
  {
    if b != c {
      var path :| Leads(a, b, path);
      assert Leads(a, c, path + [c]);
    }
  }

  lemma NoWayOut(from: Status, to: Status)
    requires Reaches(from, to) && AllowedFrom(from) == {}
    ensures to == from
  {
    var path :| Leads(from, to, path);
    assert |path| > 1 ==> Allowed(path[0], path[1]);
  }

  /** Names and places are kept, and every status follows a path of the table. */
  ghost predicate Follows(f: Content, g: Content) {
    && f.Some? && g.Some? && |f.value.dispatches| <= |g.value.dispatches|
    && (forall i :: 0 <= i < |f.value.dispatches| ==>
      && g.value.dispatches[i].name == f.value.dispatches[i].name
      && Reaches(f.value.dispatches[i].status, g.value.dispatches[i].status))
    && (DistinctNames(f.value.dispatches) ==> DistinctNames(g.value.dispatches))
  }

  lemma FollowsItself(f: Content)
    requires f.Some?
    ensures Follows(f, f)
  {
    hide DistinctNames;
    forall i | 0 <= i < |f.value.dispatches|
      ensures Reaches(f.value.dispatches[i].status, f.value.dispatches[i].status)
    {
      var status := f.value.dispatches[i].status;
      assert Leads(status, status, [status]);
    }
  }

  lemma FollowsStep(f: Content, g: Content, h: Content)
    requires Follows(f, g) && Steps(g, h)
    ensures Follows(f, h)
  {
    hide DistinctNames, Reaches;
    forall i | 0 <= i < |f.value.dispatches|
      ensures h.value.dispatches[i].name == f.value.dispatches[i].name
      ensures Reaches(f.value.dispatches[i].status, h.value.dispatches[i].status)
    {
      var before, now := g.value.dispatches[i], h.value.dispatches[i];
      assert MovesTo(before, now);
      ReachesExtends(f.value.dispatches[i].status, before.status, now.status);
    }
  }

  /** Over every run each dispatch keeps its name and place, and its status moves only along the table. */
  lemma {:induction false} RunFollowsTable(files: seq<Content>, ops: seq<Op>, n: nat)
    requires IsRun(files, ops) && n <= |ops| && files[0].Some?
    ensures Follows(files[0], files[n])
  {
    hide Performs, Steps, Follows;
    if n == 0 {
      FollowsItself(files[0]);
    } else {
      RunFollowsTable(files, ops, n - 1);
      assert Performs(files[n - 1], ops[n - 1], files[n - 1 + 1]);
      OpSteps(files[n - 1], ops[n - 1], files[n]);
      FollowsStep(files[0], files[n - 1], files[n]);
    }
  }

  /** So a dispatch that is settled stays as it is settled. */
  lemma SettledForever(files: seq<Content>, ops: seq<Op>, m: nat, n: nat, i: nat)
    requires IsRun(files, ops) && m <= n <= |ops| && files[m].Some? && i < |files[m].value.dispatches|
    requires files[m].value.dispatches[i].status in {SUCCESS, INTERRUPTED, SKIPPED, REFUSED, RELEASED}
    ensures files[n].Some? && i < |files[n].value.dispatches|
    ensures files[n].value.dispatches[i].status == files[m].value.dispatches[i].status
  {
    var tail, rest := files[m..], ops[m..];
    assert IsRun(tail, rest) by {
      forall k | 0 <= k < |rest|
        ensures Performs(tail[k], rest[k], tail[k + 1])
      {
        assert Performs(files[m + k], ops[m + k], files[m + k + 1]);
      }
    }
    RunFollowsTable(tail, rest, n - m);
    assert tail[n - m] == files[n];
    NoWayOut(files[m].value.dispatches[i].status, files[n].value.dispatches[i].status);
  }
}
