# A verified model of autoskillit's stateful and text-processing core

This project models, in Dafny, the parts of `autoskillit` whose correctness spans several functions or a whole run, and
proves what they promise for all inputs. `dafny verify dfyconfig.toml` checks everything.

Loops and objects of the program are methods and classes here, proved against specification functions or relations; the
lemmas then show what those specifications mean. For each main operation some lemma states the outcome on its
inputs alone, without the specification function: places in a list, fields of a record, parts of a text.

| files | what they model |
|---|---|
| `DiffAnnotator`, `DiffAgreement`, `DiffSections`, `DiffRegions` | the three scanners of a unified diff, well-formed diffs as a generator of changed, nameless and bare sections, and when the scanners agree on line numbers |
| `Migration`, `Sorting` | greedy chaining of migration notes, with the exchange argument that makes it optimal; Python's stable sort |
| `FleetState`, `FleetRecords`, `FleetResume`, `FleetRuns`, `FleetSteps`, `FleetGates` | the campaign state file as an object with all-or-nothing writes, what each operation stores field by field, crash recovery and the resume decision, sequential runs, locked and unlocked calls interleaved step by step, and what becomes of gates among them |
| `Text`, `Json`, `Sentinel`, `Summary` | lines and numerals, JSON printing and parsing down to characters, the sentinel regular expression, and the campaign summary between its sentinels |
| `ToolSequence`, `ToolGraph` | merging of streamed records by request id; the directly-follows graph of tool calls |
| `HookRegistry`, `Hooks`, `HooksInOrder` | ownership of hook commands, eviction, synchronisation, the manifest, and the drift count |
| `ConfigLayers` | deep merge of configuration layers |
| `EtagCache` | conditional requests against plain GETs (RFC 9110, sections 13.1.2 and 15.4.5), down to the encoding of cache keys |
| `Quota` | the binding rate-limit window, the sleep, and the cached check |
| `Retention` | pruning of session logs and of their index |
| `Places`, `Wrappers` | parts of a sequence kept in order, told by a rising list of places; options |

## What the model shows about the code

Most promises hold as stated. These hold only under a condition, which the model states exactly:

- **Summary ids.** A summary comes back from its own text exactly when its schema version is 1 and its id is non-empty and
  `---` does not occur in `id + "---"` at any position from 1 up to the id's last character. A newline in the id and a
  leading `---` are harmless; a trailing `-` or an inner `---` is not (`Summary.SummaryRoundTrip`, `Summary.UnsafeIds`).
- **Deleted files in a diff.** A `+++` line that is no `+++ b/` header - of a deleted file, or with a path that git quotes -
  is numbered as content exactly inside an open hunk after a changed file (`DiffSections.DeletedFileHeaderIsMarked`). On
  every well-formed diff the marks are the reported ranges, such stray numbers, the numbers of lines beyond those a hunk
  counts, and those of lookalikes, lines that are not numbered but read `[Ln]` already (`DiffSections.MarkersMatchRanges`).
  With each path once, lines left out between hunks, and no nameless files but deleted ones, marks and ranges agree exactly
  when no nameless file comes while a hunk is open after a changed file, every hunk from the first changed file on counts the
  lines that are numbered in it, and every lookalike's number is in a range (`DiffSections.AgreeIffHarmless`); when all hunks do and every changed
  file shows one, the first two say that all nameless files come before all changed ones (`DiffSections.HarmlessMeans`). `DiffSections.FailingText` gives a diff of twelve lines that
  fails. The hunks of a file with a quoted path are reported under the file before it (`DiffSections.SectionCovers`).
- **Line boundaries in a diff.** The scanners split at every boundary that `str.splitlines` knows. The agreement above is
  proved for diffs whose lines hold any characters, seen in the pieces they split into
  (`DiffSections.DiffTextsAgreeIffHarmless`): for a hunk without headers or lookalikes among its pieces it holds exactly when
  as many of them start with `+` or a space as its header counts (`DiffAgreement.HunkAgreesIffCounted`). So a form feed in an added line does harm exactly when what
  follows it, if no header or lookalike, starts with `+` or a space (`DiffSections.FormFeedAgreesIff`): `+a\f+b` fails, `+a\fb` does not
  (`DiffSections.FormFeedDisagrees`).
- **Findings without a region.** When no range is reported, the filter keeps every finding. So all kept findings have regions
  exactly when some range is reported (`DiffRegions.AllKeptHaveRegions`), which is when some hunk from the first changed
  file on counts a line (`DiffRegions.NothingReported`); for a single finding a stray number in its window does as well
  (`DiffRegions.KeptFindingsHaveRegions`). On a diff that only deletes a file every finding is kept and none has a region
  (`DiffRegions.DeletionOnly`). That a finding is kept iff its line is marked needs a reported range and agreement
  (`DiffRegions.KeptIffMarked`).
- **Resume with reset.** A resume that resets failed dispatches rewrites the file from records read before recovery, so the
  end times that recovery has just stored are lost again (`FleetResume.ResetForgetsEndTimes`,
  and `FleetResume.EndTimeIsLost` for a concrete campaign).
- **Reruns.** A reset leaves the kill reason and exit category of the failed attempt, and so does marking as running. So a
  rerun whose process is gone is recovered as if it had never failed, exactly when these are no reason to abandon it, or
  recovery would not try to make it resumable anyway, or both writes fail (`FleetResume.RerunRecoversIff`);
  `FleetResume.RerunIsAbandoned` is an input where it is not.
- **Lost gates.** Marking and appending take no lock. A call that finishes on content it has not read puts every status back
  to what it read, but for the one it sets, exactly when the guards on what it read let it write (`FleetGates.StaleWrite`,
  `FleetGates.VerdictSurvivesIff`). `FleetGates.GateIsLost` is a schedule of one mark and one gate in which an approval is
  reported as recorded and then lost; a gate that finishes over a mark loses the mark alike, and so does a resume that resets
  failures (`FleetGates.ResumeWritesOver`). A schedule in which each call finds what it read still there is serial.
- **Layers.** Layers may be grouped either way exactly when no mapping of a later layer, following a plain value, lets an
  earlier mapping's keys reappear (`ConfigLayers.Associative`, `ConfigLayers.GroupingMatters`). The program always folds
  from the left, so it is not affected.
- **Hook entries.** `SessionStart` entries carry no matcher, so "one entry per event type and matcher" holds exactly when at
  most one matcher of the registry starts sessions (`Hooks.OneOwnEntry`). Drift is zero after an install exactly when all
  script names end in `.py`, have something before it, and hold no white space (`Hooks.NoDriftAfterInstall`); every name in
  the present registry does.
- **Quota.** After the second fetch the blocking flag is not consulted again, so the guard can order a long sleep although
  nothing is exhausted any more; `Quota.SleepsUnblocked` says exactly when. With a buffer of less than a second the sleep
  can end before the reset (`Quota.SleepBounds`).
- **JSON of an unexpected shape.** Retention raises, where it means to skip, exactly on: the `meta.json` of an expired
  directory that is not UTF-8, parses to no object, or holds an array or object as its campaign id, if any campaign is
  protected; an index that cannot be read as text; and an index line that parses to no object or holds an array or object as
  its directory name. Crash recovery raises on a sidecar that is not UTF-8 or has a line that parses to no object,
  the filter of findings on a line that is no number when its file has a range, and merging of turns on records whose
  content cannot be iterated or whose request id cannot be hashed. The models raise there too; Python's own limits on digits and
  nesting are not modelled.

## Model

| member | source | states |
|---|---|---|
| Migration.ApplicableMigrations | src/autoskillit/migration/loader.py:70-108 | the sort and the greedy loop return the scan of the notes in target order; nothing when the script has no version or is up to date |
| Migration.LongestChain | src/autoskillit/migration/loader.py:95-108 | among all chains of the notes that stop on first reaching the installed version, none has more notes than the result (exchange argument) |
| Migration.ReachesIffPossible | src/autoskillit/migration/loader.py:87-108 | the result reaches the installed version iff some chain can; otherwise it ends at the highest version any chain reaches |
| Migration.ResultIsChain | src/autoskillit/migration/loader.py:95-108 | the result is a chain of given notes with strictly rising targets |
| Migration.ScanDominates | src/autoskillit/migration/loader.py:97-107 | the invariant of the exchange: from any version on, the greedy scan is as long, ends as high and reaches as much as any rival chain |
| Migration.AppliesIff | src/autoskillit/migration/loader.py:87-108 | something applies iff the script has a version below the installed one and some note starts at or below it and goes above it |
| Sorting.SortByCorrect | src/autoskillit/migration/loader.py:95 | the sort orders, permutes and is stable |
| DiffAnnotator.ParseHunkRanges | src/autoskillit/execution/diff_annotator.py:93-118 | each file's list holds, in order, the new-side ranges of its hunks with a non-zero count; files without a range have no key |
| DiffAnnotator.AnnotateDiff | src/autoskillit/execution/diff_annotator.py:121-156 | the loop over line number and hunk flag writes the annotation of every line |
| DiffAgreement.NumberedLine | src/autoskillit/execution/diff_annotator.py:121-156 | a line with `+` or a space in an open hunk gets before it the start of the hunk plus the number of such lines since its header, and nothing else changes in it |
| DiffAgreement.OtherLine | src/autoskillit/execution/diff_annotator.py:121-156 | every other line stays as it is: headers, removed lines, and all lines outside hunks |
| DiffAnnotator.FilterFindings | src/autoskillit/execution/diff_annotator.py:159-191 | raises iff some range was reported and a finding without a comparable line names a file with one; otherwise the two lists are the findings kept - all of them when no range was reported, else those inside a range - and the others, in order; `all_unpostable` iff there were findings and none was kept |
| DiffAnnotator.ExtractCodeRegion | src/autoskillit/execution/diff_annotator.py:197-230 | the scan of annotated text returns the lines of the file's section whose marker lies in the window |
| DiffAgreement.HunkLineParses | src/autoskillit/execution/diff_annotator.py:14-15 | every rendered hunk header, counts omitted or not, is read back with its start and count and is no file header |
| DiffAgreement.HunkAgreesIffCounted | src/autoskillit/execution/diff_annotator.py:93-156 | inside a file section the scanners agree on a hunk, whatever lines follow its header, iff the lines it counts are those it numbers or that read like marked ones; without the latter, iff its header counts its numbered lines |
| DiffSections.MarkersMatchRanges | src/autoskillit/execution/diff_annotator.py:93-156 | on every well-formed diff, pure deletions, deleted files and quoted paths included, `[Ln]` stands in a section of a file exactly when n lies in a range reported for it or is the number of a stray or of a line that already reads like a marked one; there are no strays iff the diff is harmless |
| DiffSections.AgreeIffHarmless | src/autoskillit/execution/diff_annotator.py:93-156 | on regular diffs marks and ranges agree iff no nameless file comes while a hunk is open, every hunk after the first changed file counts its numbered lines, and every line that already reads like a marked one has its number in a range |
| DiffSections.DiffTextsAgreeIffHarmless | src/autoskillit/execution/diff_annotator.py:93-156 | the same on the text of a diff whose lines hold any characters, each ended by a newline; only paths and nameless headers hold no line boundary |
| DiffSections.HarmlessMeans | src/autoskillit/execution/diff_annotator.py:144-152 | when every hunk counts its lines and every changed file shows one, the condition is that all nameless files come before all changed ones |
| DiffSections.DiffMarks | src/autoskillit/execution/diff_annotator.py:93-156 | from any state of the scan, over all sections, the two scanners differ in the strays and lookalikes alone |
| DiffSections.StrayIsOutside | src/autoskillit/execution/diff_annotator.py:93-156 | a diff with strays has one outside every range of its file |
| DiffSections.TextSplits | src/autoskillit/execution/diff_annotator.py:102 | the text of a diff splits into the lines of the cut diff: every line boundary cuts, and what follows the first piece of a hunk's header counts with its body |
| DiffSections.CutIsWellFormed | src/autoskillit/execution/diff_annotator.py:102 | cutting makes no fewer numbered lines, so a hunk that counts its lines stays well-formed unless a piece reads as a header |
| DiffSections.FormFeedAgreesIff | src/autoskillit/execution/diff_annotator.py:93-156 | with a form feed in the only added line of a hunk the scanners agree iff what follows it starts with neither `+` nor a space |
| DiffSections.FormFeedDisagrees | src/autoskillit/execution/diff_annotator.py:93-156 | they disagree with `+b` after the form feed, and agree with `b` |
| DiffSections.SectionCovers | src/autoskillit/execution/diff_annotator.py:93-118 | the ranges of a section are those of its hunks, under the last path read as a header |
| DiffSections.FailingText | src/autoskillit/execution/diff_annotator.py:144-152 | a whole diff, line by line, whose annotated text has `[L2]` where the only range is line 1 |
| DiffAgreement.AnnotatedTextMarks | src/autoskillit/execution/diff_annotator.py:121-156 | splitting the joined annotated text again gives the same marks: no marker is lost or made at line boundaries |
| DiffRegions.ExtractIsMarked | src/autoskillit/execution/diff_annotator.py:197-230 | on any lines that open a file's section at most once, extraction is that file's marked lines in the window |
| DiffRegions.RegionIsMarked | src/autoskillit/execution/diff_annotator.py:197-230 | with each file once, a region is exactly its file's marked lines in the window, and empty iff the window holds no mark |
| DiffRegions.KeptFindingsHaveRegions | src/autoskillit/execution/diff_annotator.py:159-230 | the region of a kept finding is not empty iff some range was reported or a stray or lookalike number of its file lies in its window |
| DiffRegions.AllKeptHaveRegions | src/autoskillit/execution/diff_annotator.py:159-230 | every kept finding has a region iff some range was reported |
| DiffRegions.KeptIffMarked | src/autoskillit/execution/diff_annotator.py:121-191 | on regular diffs findings are kept iff their lines are marked, iff some range was reported and marks and ranges agree |
| DiffRegions.NothingReported | src/autoskillit/execution/diff_annotator.py:93-118 | no range is reported iff no hunk from the first changed file on counts a line |
| DiffRegions.DeletionOnly | src/autoskillit/execution/diff_annotator.py:159-230 | on the diff that deletes one file every finding is kept and none has a region |
| DiffRegions.FilterSplits | src/autoskillit/execution/diff_annotator.py:159-191 | kept and rejected findings weave back into the input: none lost, none added, order kept |
| DiffSections.DeletedFileHeaderIsMarked | src/autoskillit/execution/diff_annotator.py:144-152 | the scanners agree on a nameless file's header iff no hunk is open or no changed file has been seen |
| FleetState.StateFile.constructor | src/autoskillit/fleet/state.py:71-89 | the initial state: schema 4, the given records, no captures |
| FleetState.StateFile.MarkDispatchRunning | src/autoskillit/fleet/state.py:178-205 | the first record of the name becomes running with its process identity, if the table allows it and the write succeeds; otherwise the file is unchanged and the error named |
| FleetState.StateFile.MarkDispatchInterrupted | src/autoskillit/fleet/state.py:208-227 | likewise for interrupted, with reason and end time |
| FleetState.StateFile.MarkDispatchResumable | src/autoskillit/fleet/state.py:230-249 | likewise for resumable, with the sidecar path |
| FleetState.StateFile.AppendDispatchRecord | src/autoskillit/fleet/state.py:252-271 | puts the record in the place of the first one of its name if the table allows it, else at the end if the name is new; what is stored is stated by `FleetRecords.AppendMeaning` |
| FleetState.StateFile.ResetFailedDispatch | src/autoskillit/fleet/state.py:92-136 | clears the first failed record of the name back to pending; false and unchanged when there is none |
| FleetState.StateFile.RecordGateOutcome | src/autoskillit/fleet/state_gates.py:18-85 | a pending dispatch becomes success or failure by the verdict; a settled one is reported with its status and left alone |
| FleetState.StateFile.WriteCapturedValues | src/autoskillit/fleet/state.py:311-322 | later captures override earlier ones, nothing else changes |
| FleetRecords.TransitionTable | src/autoskillit/fleet/state_types.py:150-183 | every allowed change of status, listed |
| FleetRecords.AppendMeaning | src/autoskillit/fleet/state.py:252-271 | done iff the file parses, the write succeeds, and the name is new or its first record may move to the new status; then that record is stored whole in the old place or at the end, all other records and fields as before; otherwise nothing changes |
| FleetRecords.MarkRunningMeaning | src/autoskillit/fleet/state.py:178-205 | done iff the first record of the name is pending or resumable and the write succeeds; then every field of the stored record is given; otherwise nothing changes |
| FleetRecords.MarkInterruptedMeaning | src/autoskillit/fleet/state.py:208-227 | the same for interrupted, from running or resumable |
| FleetRecords.MarkResumableMeaning | src/autoskillit/fleet/state.py:230-249 | the same for resumable, from running |
| FleetRecords.ResetMeaning | src/autoskillit/fleet/state.py:92-136 | the first failed record of the name, and no other, loses its attempt; the fields kept and cleared are given |
| FleetRecords.GateMeaning | src/autoskillit/fleet/state_gates.py:52-85 | a verdict is stored iff the first record of the name is pending and the write succeeds; a settled one is reported with its status |
| FleetRecords.CaptureMeaning | src/autoskillit/fleet/state.py:311-322 | key by key: the new capture, else the old one; the records stay |
| FleetResume.CrashRecoverDispatch | src/autoskillit/fleet/state_recovery.py:57-106 | resumable only with a readable sidecar that is blank or has an entry and no abandon reason; interrupted otherwise, also when the first write fails |
| FleetResume.RecoverOne | src/autoskillit/fleet/state_recovery.py:57-106 | recovering one stale record changes that record alone, as the closed form of the decision says |
| FleetResume.RecoveryMeaning | src/autoskillit/fleet/state_recovery.py:45-106 | when recovery raises, makes resumable, interrupts or loses a record, on its sidecar, kill reason, exit category and the two writes |
| FleetResume.StoredMeaning | src/autoskillit/fleet/state_recovery.py:57-106 | what is stored of each record after recovery, field by field |
| FleetResume.ResumeCampaign | src/autoskillit/fleet/state_recovery.py:109-207 | the stored records and the decision after recovery, halt or reset, including failing writes and raising sidecars |
| FleetResume.ResumeMeaning | src/autoskillit/fleet/state_recovery.py:109-207 | unless it halts, the next dispatch is the first in stored order that is pending or resumable, none iff there is none, and the block lists the visible ones in order; the stored statuses are those decided on, also when it halts; one still running is alive or its writes failed |
| FleetResume.BlockMeaning | src/autoskillit/fleet/state_recovery.py:173-199 | one line with name and status for each dispatch that is neither pending nor resumable, in stored order |
| FleetResume.StatusTexts | src/autoskillit/fleet/state_recovery.py:171-199 | the text of every status, those listed and those that can be taken up |
| FleetResume.LostIffWritesFailed | src/autoskillit/fleet/state_recovery.py:57-106 | recovery loses a dispatch exactly when every write it tried failed |
| FleetResume.ResetForgetsEndTimes | src/autoskillit/fleet/state_recovery.py:149-170 | recovery's end time survives exactly when no reset follows |
| FleetResume.EndTimeIsLost | src/autoskillit/fleet/state_recovery.py:149-170 | a campaign of two dispatches and an environment in which the stored end time is lost |
| FleetResume.RerunRecoversIff | src/autoskillit/fleet/state.py:92-105 | recovery after reset and rerun equals that of a new record iff the old kill metadata is no reason to abandon, or the resumable path is not tried, or both writes fail |
| FleetResume.RerunIsAbandoned | src/autoskillit/fleet/state_recovery.py:72-83 | a rerun interrupted for the reason of its first attempt, where a new record is resumable |
| FleetResume.ResumeSteps | src/autoskillit/fleet/state_recovery.py:109-207 | one resume moves statuses only along the table and keeps names in place |
| FleetRuns.OpSteps | src/autoskillit/fleet/state_types.py:150-191 | every state operation keeps names distinct and in place and moves statuses only along the table |
| FleetRuns.RunFollowsTable | src/autoskillit/fleet/state_types.py:150-191 | over every run of operations each dispatch's status follows a path of the table |
| FleetRuns.SettledForever | src/autoskillit/fleet/state_types.py:150-183 | success, interrupted, skipped, refused and released never change again in any run |
| FleetSteps.ResumeCallIsResume | src/autoskillit/fleet/state_recovery.py:136-170 | the writes of an interleaved resume, one after the other, leave what the resume method leaves |
| FleetSteps.StepKeepsInv | src/autoskillit/fleet/state_gates.py:32-85 | every step of every call that finds what it read still there keeps the lock, order, content and result invariants |
| FleetSteps.LocksProtect | src/autoskillit/fleet/state_gates.py:32-85 | gates, resets and resumes always find what they read still there |
| FleetSteps.InterleavingIsSerial | src/autoskillit/fleet/state_gates.py:32-85 | every interleaving of gates, resets and resumes, and every one with marks and appends in which no call is overtaken, equals some serial order: same content, same result for every call that returned |
| FleetSteps.SerialOrderIsRealTime | src/autoskillit/fleet/state_gates.py:32-85 | a call that took effect before another began comes first in the serial order |
| FleetSteps.EveryScheduleCompletes | src/autoskillit/fleet/state_gates.py:32-34 | from any state with its locks in order every call can still return: the two lock levels never deadlock |
| FleetSteps.ScheduleKeepsLocks | src/autoskillit/fleet/state_gates.py:32-34 | every state of every schedule has its locks in order |
| FleetGates.OnlyReopeningChanges | src/autoskillit/fleet/state_types.py:150-183 | any call changes a recorded verdict only by reopening a rejection |
| FleetGates.VerdictStays | src/autoskillit/fleet/state_gates.py:52-85 | after a successful gate its verdict is the stored status until a call reopens the dispatch |
| FleetGates.OneGateBetweenResets | src/autoskillit/fleet/state_gates.py:52-85 | between two successful gates on a dispatch it is reopened |
| FleetGates.ApprovalIsFinal | src/autoskillit/fleet/state.py:119-136 | in a serial run an approved gate stays success whatever runs later |
| FleetGates.StaleWrite | src/autoskillit/fleet/state.py:178-271 | a step that finishes on content it has not read puts every status back to what it read, but for the one it sets, iff its guards let it write (for a reset: with distinct names) |
| FleetGates.VerdictSurvivesIff | src/autoskillit/fleet/state.py:178-271 | a verdict recorded since the call's read survives iff the guards stop the write or the write sets just that status |
| FleetGates.ResumeWritesOver | src/autoskillit/fleet/state_recovery.py:149-170 | the last write of a resume that resets failures stores what it holds, whatever was written since its read |
| FleetGates.GateIsLost | src/autoskillit/fleet/state.py:178-205 | a schedule of nine states in which an approval reported as recorded is pending again |
| Json.DumpsLoads | src/autoskillit/fleet/summary.py:233-271 | parsing the indented, ASCII-escaped text of any JSON value gives the value back |
| Json.StringRoundTrip | src/autoskillit/fleet/summary.py:233-271 | every string survives escaping and scanning, surrogate pairs included |
| Json.PrintIndented | src/autoskillit/fleet/summary.py:233-271 | every line of printed JSON after the first starts with an indent or a closing bracket, so no line can be a sentinel |
| Json.OneWithPlaces | src/autoskillit/fleet/summary.py:142 | a version written as 1 with any number of zeros after the point equals 1 |
| Sentinel.BlockFound | src/autoskillit/fleet/summary.py:94-99 | the lazy regular expression stops at the first possible cut of the id, whatever the body |
| Sentinel.SafeBlockFound | src/autoskillit/fleet/summary.py:94-99 | a safe id is matched whole and the body ends at the first closing sentinel |
| Sentinel.SearchMeans | src/autoskillit/fleet/summary.py:94-99 | on any text: the search fails iff the pattern fits at no places; otherwise it takes the fit that starts first, then has the shortest opening id, body and closing id |
| Summary.AggregateErrors | src/autoskillit/fleet/summary.py:127-159 | no aggregate error iff no key begins with `total_`; exactly those keys are reported |
| Summary.ValidateCampaignSummary | src/autoskillit/fleet/summary.py:127-159 | raises exactly on data or entries of the wrong shape; otherwise no errors iff version (1, true, or a literal that rounds to 1.0), keys and entries are as the schema demands; the errors are exactly the faults: aggregate keys, missing keys, the version, and per entry its status and token keys |
| Summary.ParseCampaignSummary | src/autoskillit/fleet/summary.py:162-230 | the stages in order: missing sentinels, id mismatch, bad JSON, invalid data, bad field; what each text gives is stated by `Summary.ParseMeaning` |
| Summary.ParseMeaning | src/autoskillit/fleet/summary.py:162-230 | on any text: missing sentinels iff the pattern fits nowhere; otherwise, at the match: a mismatch iff the opening or the closing id is not exactly the given one, a decoding error iff the ids are and the body is no JSON, an exception or invalid data iff the body has such a shape, and only else the data of the body |
| Summary.NoMarker | src/autoskillit/fleet/summary.py:162-170 | a text without an opening sentinel gives missing sentinels |
| Summary.ForeignIdRejected | src/autoskillit/fleet/summary.py:171-178 | a serialized summary, between such texts as above, is a mismatch under every other id, and under its own if that is not safe |
| Summary.TopLevelFields | src/autoskillit/fleet/summary.py:233-271 | each field of a summary stands under its key |
| Summary.EntryFields | src/autoskillit/fleet/summary.py:233-271 | each field of an entry and of its token usage stands under its key, the status as its text |
| Summary.ErrorFields | src/autoskillit/fleet/summary.py:233-271 | each field of an error record stands under its key |
| Summary.DataRoundTrip | src/autoskillit/fleet/summary.py:127-271 | the data read from a summary's own JSON is the summary iff it declares version 1 |
| Summary.BodyHasNoClose | src/autoskillit/fleet/summary.py:94-99 | a body laid out by the printer holds no closing sentinel |
| Summary.SummaryRoundTrip | src/autoskillit/fleet/summary.py:94-271 | a serialized summary, after any text without an opening sentinel and before any text, parses back to itself iff its id is safe and its version is 1 |
| Summary.UnsafeIds | src/autoskillit/fleet/summary.py:94-99 | concrete ids on both sides of the condition |
| ToolSequence.IterMergedAssistantTurns | src/autoskillit/core/tool_sequence_analysis.py:57-116 | raises iff some record's content or request id is unusable; otherwise one turn per request id at its first record, id-less records in between; tools are the concatenation over all records of the id cut to the cap, the timestamp the first non-empty one |
| ToolSequence.OneTurnPerRequest | src/autoskillit/core/tool_sequence_analysis.py:69-116 | every id of the log heads exactly one turn and no turn is made up |
| ToolSequence.EveryRecordHasATurn | src/autoskillit/core/tool_sequence_analysis.py:69-116 | every record belongs to a turn that starts no later |
| ToolSequence.ToolsOfIsForward | src/autoskillit/core/tool_sequence_analysis.py:84-98 | the tools of an id are the named tool uses of its records, joined front to back |
| ToolSequence.TimestampIsFirst | src/autoskillit/core/tool_sequence_analysis.py:93-98 | the timestamp of an id is that of its first record that has one |
| ToolSequence.CapKeepsFirst | src/autoskillit/core/tool_sequence_analysis.py:100-113 | the cap keeps the first tools, as many as it allows |
| ToolGraph.BuildDfg | src/autoskillit/core/tool_sequence_analysis.py:156-196 | the nested loops count exactly the adjacent pairs, the windows of 2 to 5, the turns and, for each pair, the gap list; what is counted is stated by `ToolGraph.GraphByPlace` |
| ToolGraph.GraphByPlace | src/autoskillit/core/tool_sequence_analysis.py:156-178 | a pair is counted at each place inside a turn where its tools are neighbours, and at each turn that begins with the second tool where the turn with tools before it ends in the first; a run of 2 to 5 tools at each place of a turn where it stands |
| ToolGraph.TurnsInOrder | src/autoskillit/core/tool_sequence_analysis.py:167-171 | two turns of one tool each: the pair in their order once, the other never |
| ToolGraph.BuildDfgByRecipe | src/autoskillit/core/tool_sequence_analysis.py:199-204 | one graph per recipe that occurs, of that recipe's sessions |
| ToolGraph.ComputeAnalysis | src/autoskillit/core/tool_sequence_analysis.py:207-215 | the global graph and the recipe graphs of the same sessions |
| ToolGraph.GlobalIsSumOfRecipes | src/autoskillit/core/tool_sequence_analysis.py:156-215 | pair and n-gram counts and turn totals of the recipe graphs add up to the global ones, gap lists as multisets |
| ToolGraph.GapsMeaning | src/autoskillit/core/tool_sequence_analysis.py:179-194 | every gap is positive and the distance to the latest earlier turn with the first tool |
| ToolGraph.GapsPerOccurrence | src/autoskillit/core/tool_sequence_analysis.py:179-194 | a distance is listed exactly once for each occurrence of the second tool that stands at that distance from the latest earlier turn with the first |
| ToolGraph.GapsCounted | src/autoskillit/core/tool_sequence_analysis.py:179-194 | there are as many gaps as occurrences of the second tool after a different first one, and no distance is left out |
| ToolGraph.BigramTotal | src/autoskillit/core/tool_sequence_analysis.py:156-178 | all pairs together are the sum over sessions of max(0, tools - 1) |
| HookRegistry.ExtractScripts | src/autoskillit/hook_registry.py:348-373 | the nested loops collect exactly the scripts that our commands run, in whatever order the set of script names is iterated |
| HookRegistry.CountDrift | src/autoskillit/hook_registry.py:384-394 | missing and orphaned are the two set differences |
| HookRegistry.BuiltIsOwn | src/autoskillit/hook_registry.py:254-263 | every built command is recognised as ours, whatever the hooks directory |
| HookRegistry.BuiltRunsScript | src/autoskillit/hook_registry.py:254-263 | the text of a built command, its type and its timeout |
| HookRegistry.ScriptsAreOwn | src/autoskillit/hook_registry.py:337-345 | commands that end with a registered or retired script, or name one after a slash, are ours, by path or by last component |
| HookRegistry.TidyIsReadBack | src/autoskillit/hook_registry.py:254-373 | a script name survives being cut to its stem, put on a command line and split off again |
| Hooks.SettingsFile.Evict | src/autoskillit/cli/_hooks.py:27-48 | every event type keeps its place with its cleaned list; a document without hooks is unchanged |
| Hooks.SettingsFile.Sync | src/autoskillit/cli/_hooks.py:51-87 | refuses in a worktree and changes nothing; otherwise appends one entry per (event type, matcher) and sets the hash |
| Hooks.GroupRegistry | src/autoskillit/cli/_hooks.py:73-82 | keys in first-seen order; each entry holds the commands of all its definitions in order |
| Hooks.CleanCorrect | src/autoskillit/cli/_hooks.py:36-47 | cleaning is idempotent, keeps other tools' hooks with their entries in order, and leaves none of ours |
| Hooks.InstallTwice | src/autoskillit/cli/_hooks.py:27-87 | evict then sync is idempotent on every document |
| Hooks.InstallMeaning | src/autoskillit/cli/_hooks.py:27-87 | under every event type other tools' hooks stay as they were, and ours are exactly one entry per key of the registry with its commands in order |
| Hooks.InstalledFrame | src/autoskillit/cli/_hooks.py:51-87 | event types keep their order, new ones go to the end, and no other key of the document changes |
| HooksInOrder.CleanByPlace | src/autoskillit/cli/_hooks.py:36-47 | exactly the entries with a hook that is not ours stay, in order, with their other keys and exactly those hooks in order |
| HooksInOrder.InstalledByPlace | src/autoskillit/cli/_hooks.py:27-87 | after an install each event type holds the former, and then the entries of the registry |
| HooksInOrder.KeysByPlace | src/autoskillit/cli/_hooks.py:73-82 | the keys are those of the definitions that are first with their event type and matcher, in order |
| HooksInOrder.EntriesByPlace | src/autoskillit/cli/_hooks.py:73-85 | the entries of an event type are one per key of it, in the order of the keys, session starts without matcher |
| HooksInOrder.HooksForJoin | src/autoskillit/cli/_hooks.py:73-82 | the commands of an entry are those of its definitions one after the other |
| HooksInOrder.HooksForOne | src/autoskillit/cli/_hooks.py:74-78 | a definition gives one command per script, in order, if it has the key, and none otherwise |
| HooksInOrder.FilledByPlace | src/autoskillit/cli/_hooks.py:73-85 | our entries that hold commands are those of keys with a script, in order |
| HooksInOrder.EventsByPlace | src/autoskillit/cli/_hooks.py:83-85 | old event types stay in front, new ones follow in the order of their first key |
| Hooks.OneOwnEntry | src/autoskillit/cli/_hooks.py:73-85 | no two entries of ours share event type and written matcher, iff at most one matcher starts sessions |
| Hooks.NoDriftAfterInstall | src/autoskillit/hook_registry.py:337-394 | after an install nothing is missing and nothing orphaned, iff all script names end in `.py`, have something before it, and hold no white space |
| Hooks.ManifestIsFreshInstall | src/autoskillit/hook_registry.py:266-288 | the generated manifest equals what an install writes into an empty document |
| Hooks.GenerateHooksJson | src/autoskillit/hook_registry.py:266-288 | the manifest's loop lists the same entries by event type |
| ConfigLayers.ApplyLayer | src/autoskillit/config/_config_loader.py:88-102 | the loop and its recursion compute the deep merge, in any order of keys |
| ConfigLayers.MergeLayers | src/autoskillit/config/_config_loader.py:105-113 | layers are folded in order |
| ConfigLayers.FoldMeaning | src/autoskillit/config/_config_loader.py:88-113 | at each key: the fold of the mappings after the last plain value, else that value; no key lost, none added |
| ConfigLayers.ApplyTwice | src/autoskillit/config/_config_loader.py:88-102 | re-applying a layer changes nothing |
| ConfigLayers.Associative | src/autoskillit/config/_config_loader.py:88-149 | grouping layers either way agrees iff nothing masked in between resurfaces |
| ConfigLayers.SameShapeAssociative | src/autoskillit/config/_config_loader.py:88-149 | in particular when the layers agree on which paths are mappings |
| ConfigLayers.GroupingMatters | src/autoskillit/config/_config_loader.py:88-102 | a concrete triple of layers where grouping matters |
| EtagCache.CiWatcher.GetWithEtag | src/autoskillit/execution/ci.py:118-155 | one request: the new cache and the result, for every answer of the server |
| EtagCache.KeyNamesResource | src/autoskillit/execution/ci.py:130-136 | two requests share a cache key only if URL and parameters are the same |
| EtagCache.ResourceFixesKey | src/autoskillit/execution/ci.py:130-134 | the same URL and parameters give the same key, in whatever order the parameters are listed |
| EtagCache.FetchIsTransparent | src/autoskillit/execution/ci.py:118-155 | one request to an honest server keeps the cache faithful and returns the current body or the server's error |
| EtagCache.CachingIsTransparent | src/autoskillit/execution/ci.py:108-155 | so does every request of every sequence from an empty cache |
| EtagCache.CacheHoldsLatest | src/autoskillit/execution/ci.py:118-155 | over every run and whatever the server answers, the cache holds for a key the tag and body of the last answer to it that had a non-empty tag, and nothing if there was none |
| EtagCache.ResultsAreAnswers | src/autoskillit/execution/ci.py:135-155 | each result is the answer to a request sent with the stored tag, a 304 standing for the stored body |
| Quota.BindingMeaning | src/autoskillit/execution/quota.py:119-172 | blocks iff some enabled window is at or over its class threshold; then the binding is such a window with the latest known reset, else the most used enabled one, else the default |
| Quota.ExhaustedMeaning | src/autoskillit/execution/quota.py:96-116 | which switch and threshold a window falls under: the long ones iff a pattern occurs in its name, letters of either case alike |
| Quota.OrderDoesNotMatter | src/autoskillit/execution/quota.py:152-163 | the order of windows changes neither the verdict nor the reset of a blocking one |
| Quota.SleepBounds | src/autoskillit/execution/quota.py:448-450 | the sleep is never negative, falls short of reset plus buffer by less than a second, passes it only if it is zero, and never ends before the reset iff the buffer is at least a second |
| Quota.SleepOutlastsAll | src/autoskillit/execution/quota.py:119-172 | with such a buffer the sleep ends at or after the known reset of every exhausted window |
| Quota.QuotaGuard.ReadCache | src/autoskillit/execution/quota.py:188-219 | a snapshot counts while it is no older than the limit |
| Quota.QuotaGuard.FetchAndStore | src/autoskillit/execution/quota.py:222-248 | the fetched binding is returned, and cached if the write succeeds |
| Quota.QuotaGuard.CheckAndSleepIfNeeded | src/autoskillit/execution/quota.py:348-500 | fails open; sleeps iff the first status blocks and the re-fetch did not fail; how long; how many fetches; and behind every sleep stands a recent snapshot with an exhausted window; when it sleeps is stated by `Quota.AnswersMeaning` |
| Quota.AnswersMeaning | src/autoskillit/execution/quota.py:348-500 | on the cache and the fetches: it sleeps iff the snapshot it starts from blocks and the reset is unknown or the second fetch succeeds; reports an error iff a fetch that was needed failed; and the sleep reaches every known reset of a window exhausted in the second fetch, or is the buffer, at least a minute, when the reset is unknown |
| Quota.SleepsUnblocked | src/autoskillit/execution/quota.py:425-466 | the sleep rests on a status that does not block, iff the first reset was known and the second fetch finds nothing exhausted |
| Quota.SleepsUnblockedExample | src/autoskillit/execution/quota.py:425-466 | five hours of sleep at 10% use |
| Retention.LogRoot.EnforceRetention | src/autoskillit/execution/session_log.py:495-559 | at most `max_sessions` directories: nothing happens; otherwise the survivors are the newest ones and the protected ones, index lines survive in order iff they parse and name a survivor, and the run raises exactly on the metadata and lines listed above; no survivor is deleted in either case; the surviving lines are told by a rising list of their places |
| Retention.KeptLinesAreNaming | src/autoskillit/execution/session_log.py:547-559 | the lines kept stand, in order, at exactly the places whose line parses to an entry with the text name of a survivor |
| Retention.CutIsRank | src/autoskillit/execution/session_log.py:495-540 | being outside the expired prefix of the sorted list is being newer than all but `max_sessions` - 1 others |
| Retention.SecondRunIsIdle | src/autoskillit/execution/session_log.py:495-559 | a second run with the same protected set cannot raise, deletes nothing and leaves the index alone |

## Left out

- Prompts, menus, tables, Mermaid and DOT rendering, gap statistics: text for people.
- HTTP, git, subprocesses, `/proc`, clocks and locks' internals: what they answer is a parameter of the operations. A write happens or raises; liveness of a session, sidecar contents and failing writes are oracles.
- Processes that die while holding a lock. Interleaved step by step are gates, resets, resumes, marks and appends; writing captured values is not.
- JSON and YAML decoding, except for campaign summaries: state files, logs, index lines, settings and layers are given as datatypes. The legacy `l2_`/`l3_` keys of a dispatch record, `has_failed_dispatch` and the scan over other campaigns are not modelled.
- Json.DumpsLoads: floating-point numbers are kept as their literals, so `NaN` comparisons, floats of very large integers and numeric strings converted to numbers are not captured (only comparison with 1 evaluates a literal); nor are Python's limits on digits and recursion, or lone surrogate escapes, which the model rejects.
- Summary.ValidateCampaignSummary: messages are kinds of errors, not texts.
- DiffAnnotator.ParseHunkRanges: `\d` means ASCII digits.
- DiffAnnotator.FilterFindings: the file of a finding is a string or missing, and its line a whole number, missing, or a value that cannot be compared.
- DiffSections.DiffTextsAgreeIffHarmless: body lines, or pieces of them, that read as a `+++ b/` or `@@` header, and paths printed raw that hold a line boundary. Lines between sections are read as neither headers nor numbered lines.
- DiffSections.AgreeIffHarmless: with quoted paths that show lines, the strays are listed (`MarkersMatchRanges`), but not when they fall into the ranges booked under the file before.
- Versions are integers; reading and caching the migration files is not modelled.
- FleetState.StateFile.MarkDispatchRunning: timestamps and token usage are plain values, and the sidecar path is not normalised.
- ToolGraph.BuildDfg: the order of keys in the gap dictionary, session ids and timestamps are not modelled.
- ConfigLayers.ApplyLayer: layers are values, so updates in place are captured only where no mapping object is reached by two paths. A YAML alias makes such a mapping, and merging below one of its keys then changes the other as well. The order of keys, validation of keys and environment overrides are not captured either.
- Hooks.SettingsFile.Evict: settings whose `hooks`, entries or commands have the wrong JSON type make the program raise before it writes; such documents are not represented. Paths inside script names have no trailing slash.
- The table of hook definitions itself, its hash, the worktree test and the sweep over all settings scopes: the registry is a parameter, so the results hold for every registry.
- EtagCache.CiWatcher.GetWithEtag: weak validators and HTTP details beyond the cache key; text is given by its UTF-8 bytes, base URLs hold no `?`, and the server does not depend on the order of parameters.
- Quota.QuotaGuard.CheckAndSleepIfNeeded: credentials, HTTP and the parsing of windows; a fetch succeeds with windows or fails. Utilizations are reals, and seconds are exact, as `total_seconds` is for spans below 270 years. Lower-casing is that of ASCII.
- Retention.LogRoot.EnforceRetention: deletions succeed, and directory names and modification times are distinct.
