/** What each operation makes of the stored campaign: which record, field by field, and that nothing else changes. */
module FleetRecords {
  import opened Wrappers
  import opened FleetState

  /** Record `i` is replaced; every other record and every other field of the campaign stays. */
  ghost predicate Replaced(c: Campaign, i: nat, d: Record, c': Campaign) {
    && i < |c.dispatches| == |c'.dispatches| && c'.dispatches[i] == d
    && (forall j :: 0 <= j < |c.dispatches| && j != i ==> c'.dispatches[j] == c.dispatches[j])
    && c'.schemaVersion == c.schemaVersion && c'.campaignId == c.campaignId && c'.campaignName == c.campaignName
    && c'.manifestPath == c.manifestPath && c'.startedAt == c.startedAt && c'.captured == c.captured
  }

  ghost predicate IsFirst(c: Campaign, name: string, i: nat) {
    && i < |c.dispatches| && c.dispatches[i].name == name
    && forall j :: 0 <= j < i ==> c.dispatches[j].name != name
  }

  ghost predicate IsNew(c: Campaign, name: string) {
    forall j :: 0 <= j < |c.dispatches| ==> c.dispatches[j].name != name
  }

  /** The moves that a status may make. */
  lemma TransitionTable(a: Status, b: Status)
    ensures Allowed(a, b) <==> (a, b) in {
      (PENDING, RUNNING), (PENDING, SUCCESS), (PENDING, FAILURE), (PENDING, SKIPPED), (PENDING, REFUSED),
      (PENDING, RELEASED), (RUNNING, SUCCESS), (RUNNING, FAILURE), (RUNNING, INTERRUPTED), (RUNNING, RESUMABLE),
      (RESUMABLE, RUNNING), (RESUMABLE, SUCCESS), (RESUMABLE, FAILURE), (RESUMABLE, INTERRUPTED), (FAILURE, PENDING)}
  {
  }

  /** The first record of the name, if there is one, may move to the status of the new one. */
  ghost predicate MayReplace(c: Campaign, record: Record) {
    forall i: nat :: IsFirst(c, record.name, i) ==> Allowed(c.dispatches[i].status, record.status)
  }

  /** Appending: done iff the file parses, the write succeeds, and the name is new or its first record may move to the
      new status. Then that record is stored whole, in the old one's place or at the end. */
  lemma AppendMeaning(f: Content, record: Record, ok: bool)
    ensures var (g, r) := Append(f, record, ok);
      && (r == Done <==> f.Some? && ok && MayReplace(f.value, record))
      && (r != Done ==> g == f)
      && (r == Done && IsNew(f.value, record.name) ==>
        g == Some(f.value.(dispatches := f.value.dispatches + [record])))
      && (r == Done ==> g.Some? && forall i: nat :: IsFirst(f.value, record.name, i) ==>
        Replaced(f.value, i, record, g.value))
      && (r == StateNotFound <==> f.None?) && r != UnknownDispatch
  {
    if f.Some? {
      match FirstNamed(f.value.dispatches, record.name) {
        case Some(k) =>
          assert IsFirst(f.value, record.name, k);
          assert forall i: nat :: IsFirst(f.value, record.name, i) ==> i == k;
        case None =>
          assert forall i: nat :: !IsFirst(f.value, record.name, i);
      }
    }
  }

  /** A rewrite of the first record of a name, of whatever kind. */
  lemma RewriteMeaning(f: Content, name: string, edit: Record -> Record, ok: bool)
    ensures var (g, r) := Rewrite(f, name, edit, ok);
      && (r == Done <==> f.Some? && ok && exists i: nat ::
        IsFirst(f.value, name, i) && Allowed(f.value.dispatches[i].status, edit(f.value.dispatches[i]).status))
      && (r != Done ==> g == f)
      && (r == Done ==> g.Some? && forall i: nat :: IsFirst(f.value, name, i) ==>
        Replaced(f.value, i, edit(f.value.dispatches[i]), g.value))
      && (r == StateNotFound <==> f.None?)
      && (r == UnknownDispatch <==> f.Some? && IsNew(f.value, name))
  {
    if f.Some? {
      match FirstNamed(f.value.dispatches, name) {
        case Some(k) =>
          assert IsFirst(f.value, name, k);
          assert forall i: nat :: IsFirst(f.value, name, i) ==> i == k;
        case None =>
          assert forall i: nat :: !IsFirst(f.value, name, i);
      }
    }
  }

  /** Marking as running, spelled out on the contents before and after. */
  lemma MarkRunningMeaning(
      f: Content, name: string, id: string, pid: int, ticks: int, boot: string, sidecar: Option<string>, now: int,
      ok: bool)
    ensures var (g, r) := Rewrite(f, name, d => Started(d, id, pid, ticks, boot, sidecar, now), ok);
      && (r == Done <==> f.Some? && ok && exists i: nat ::
        IsFirst(f.value, name, i) && f.value.dispatches[i].status in {PENDING, RESUMABLE})
      && (r != Done ==> g == f)
      && (r == Done ==> g.Some? && forall i: nat :: IsFirst(f.value, name, i) ==>
        var d := f.value.dispatches[i];
        Replaced(f.value, i, Record(name, RUNNING, id, d.campaignId, d.callerSessionId, d.sessionId, d.sessionLogDir,
            pid, ticks, boot, d.reason, d.killReason, d.infraExitCategory, d.tokenUsage, now, d.endedAt, sidecar),
          g.value))
  {
    hide Rewrite, Replaced;
    RewriteMeaning(f, name, d => Started(d, id, pid, ticks, boot, sidecar, now), ok);
  }

  /** Marking as interrupted. */
  lemma MarkInterruptedMeaning(f: Content, name: string, reason: string, now: int, ok: bool)
    ensures var (g, r) := Rewrite(f, name, d => Interrupted(d, reason, now), ok);
      && (r == Done <==> f.Some? && ok && exists i: nat ::
        IsFirst(f.value, name, i) && f.value.dispatches[i].status in {RUNNING, RESUMABLE})
      && (r != Done ==> g == f)
      && (r == Done ==> g.Some? && forall i: nat :: IsFirst(f.value, name, i) ==>
        var d := f.value.dispatches[i];
        Replaced(f.value, i, Record(name, INTERRUPTED, d.dispatchId, d.campaignId, d.callerSessionId, d.sessionId,
          d.sessionLogDir, d.pid, d.startTicks, d.bootId, reason, d.killReason, d.infraExitCategory, d.tokenUsage,
          d.startedAt, now, d.sidecarPath), g.value))
  {
    hide Rewrite, Replaced;
    RewriteMeaning(f, name, d => Interrupted(d, reason, now), ok);
  }

  /** Marking as resumable. */
  lemma MarkResumableMeaning(f: Content, name: string, path: string, now: int, ok: bool)
    ensures var (g, r) := Rewrite(f, name, d => Resumable(d, path, now), ok);
      && (r == Done <==> f.Some? && ok && exists i: nat ::
        IsFirst(f.value, name, i) && f.value.dispatches[i].status == RUNNING)
      && (r != Done ==> g == f)
      && (r == Done ==> g.Some? && forall i: nat :: IsFirst(f.value, name, i) ==>
        var d := f.value.dispatches[i];
        Replaced(f.value, i, Record(name, RESUMABLE, d.dispatchId, d.campaignId, d.callerSessionId, d.sessionId,
          d.sessionLogDir, d.pid, d.startTicks, d.bootId, d.reason, d.killReason, d.infraExitCategory, d.tokenUsage,
          d.startedAt, now, Some(path)), g.value))
  {
    hide Rewrite, Replaced;
    RewriteMeaning(f, name, d => Resumable(d, path, now), ok);
  }

  ghost predicate IsFirstFailed(c: Campaign, name: string, i: nat) {
    && i < |c.dispatches| && c.dispatches[i].name == name && c.dispatches[i].status == FAILURE
    && forall j :: 0 <= j < i ==> !(c.dispatches[j].name == name && c.dispatches[j].status == FAILURE)
  }

  /** Resetting: the first failed record of the name becomes pending and forgets its session, process, times, usage and
      sidecar; its campaign, caller, kill reason and exit category stay. */
  lemma ResetMeaning(f: Content, name: string, ok: bool)
    ensures var (g, r) := ResetFailed(f, name, ok);
      && (r == NotReset <==> f.None? || forall i: nat :: !IsFirstFailed(f.value, name, i))
      && (r == Reset <==> ok && f.Some? && exists i: nat :: IsFirstFailed(f.value, name, i))
      && (r != Reset ==> g == f)
      && (r == Reset ==> g.Some? && forall i: nat :: IsFirstFailed(f.value, name, i) ==>
        var d := f.value.dispatches[i];
        Replaced(f.value, i, Record(name, PENDING, "", d.campaignId, d.callerSessionId, "", "", 0, 0, "", "",
          d.killReason, d.infraExitCategory, map[], 0, 0, None), g.value))
  {
    if f.Some? {
      match FirstFailed(f.value.dispatches, name) {
        case Some(k) =>
          assert IsFirstFailed(f.value, name, k);
          assert forall i: nat :: IsFirstFailed(f.value, name, i) ==> i == k;
        case None =>
          assert forall i: nat :: !IsFirstFailed(f.value, name, i);
      }
    }
  }

  /** A gate: recorded iff the first record of the name is pending and the write succeeds; then a bare record with the
      verdict stands in its place. */
  lemma GateMeaning(f: Content, name: string, approved: bool, now: int, ok: bool)
    ensures var (g, r) := RecordGate(f, name, approved, now, ok);
      && (r.Recorded? <==> f.Some? && ok && exists i: nat ::
        IsFirst(f.value, name, i) && f.value.dispatches[i].status == PENDING)
      && (r.Recorded? ==> r.status == (if approved then SUCCESS else FAILURE))
      && (r == NoCampaign <==> f.None?) && (r == GateUnknown <==> f.Some? && IsNew(f.value, name))
      && (r.AlreadyRecorded? <==> f.Some? && exists i: nat ::
        IsFirst(f.value, name, i) && f.value.dispatches[i].status != PENDING)
      && (r.AlreadyRecorded? ==>
        forall i: nat :: IsFirst(f.value, name, i) ==> r.status == f.value.dispatches[i].status)
      && (!r.Recorded? ==> g == f)
      && (r.Recorded? ==> g.Some? && forall i: nat :: IsFirst(f.value, name, i) ==>
        Replaced(f.value, i, Record(name, r.status, "", "", "", "", "", 0, 0, "",
          if approved then "gate_approved" else "gate_rejected", "", "", map[], now, now, None), g.value))
  {
    if f.Some? {
      match FirstNamed(f.value.dispatches, name) {
        case Some(k) =>
          assert IsFirst(f.value, name, k);
          assert forall i: nat :: IsFirst(f.value, name, i) ==> i == k;
        case None =>
          assert forall i: nat :: !IsFirst(f.value, name, i);
      }
    }
  }

  /** Captured values: later ones override earlier ones, and nothing else changes. */
  lemma CaptureMeaning(f: Content, captures: map<string, string>, ok: bool, key: string)
    ensures var (g, r) := WriteCaptured(f, captures, ok);
      && (r == Done <==> f.None? || ok) && (f.None? || !ok ==> g == f)
      && (f.Some? && ok ==> g.Some? && g.value == f.value.(captured := g.value.captured))
      && (f.Some? && ok && key in captures ==> key in g.value.captured && g.value.captured[key] == captures[key])
      && (f.Some? && ok && key !in captures ==>
        (key in g.value.captured <==> key in f.value.captured)
        && (key in f.value.captured ==> g.value.captured[key] == f.value.captured[key]))
  {
  }
}
