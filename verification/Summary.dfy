/** The campaign summary block: its schema, its printer and its parser.

    The parser checks no field types, so a field it passes through unchecked holds any JSON value. */
module Summary {
  import opened Wrappers
  import opened Text
  import opened Json
  import opened Sentinel

  datatype Status = SUCCESS | FAILURE | SKIPPED

  type ErrorCode = s: string | s in ERROR_CODES witness "fleet_parallel_refused"

  const ERROR_CODES: set<string> := {
    "fleet_parallel_refused", "fleet_unknown_ingredient", "fleet_missing_ingredient", "fleet_campaign_halted",
    "fleet_recipe_not_found", "fleet_invalid_recipe_kind", "fleet_hard_refusal_headless", "fleet_feature_disabled",
    "fleet_manifest_missing", "fleet_manifest_corrupted", "fleet_lock_not_initialized", "fleet_l3_timeout",
    "fleet_l3_no_result_block", "fleet_l3_parse_failed", "fleet_l3_startup_or_crash", "fleet_budget_exceeded",
    "fleet_quota_exhausted", "fleet_cleanup_failed", "fleet_gate_unknown_dispatch", "fleet_gate_already_recorded",
    "fleet_gate_no_campaign" }

  datatype TokenUsage = TokenUsage(input: Json, output: Json, cacheRead: Json, cacheCreation: Json)

  datatype PerDispatchEntry = PerDispatchEntry(
    name: Json, status: Status, elapsedSeconds: string, tokenUsage: TokenUsage, dispatchedSessionId: Json,
    dispatchId: Json)

  datatype ErrorRecord = ErrorRecord(dispatchName: Json, code: ErrorCode, message: Json, dispatchedSessionId: Json)

  datatype CampaignSummary = CampaignSummary(
    schemaVersion: Json, campaignId: Json, campaignName: Json, dispatchCount: Json, completedCount: Json,
    failureCount: Json, skippedCount: Json, perDispatch: seq<PerDispatchEntry>, errorRecords: seq<ErrorRecord>)

  datatype FailureKind =
    | SENTINEL_MISSING
    | CAMPAIGN_ID_MISMATCH
    | JSON_DECODE_ERROR
    | SCHEMA_VALIDATION_ERROR
    | FIELD_ERROR

  /** What the parser returns, or that it lets an exception escape. */
  datatype Outcome = Parsed(summary: CampaignSummary) | Failed(kind: FailureKind) | Raised

  type Members = seq<(string, Json)>

  // ---- Python dictionaries and values ----

  /** `d.get(key)`: a repeated key keeps its last value. */
  function Get(members: Members, key: string): Option<Json> {
    if members == [] then None
    else if members[|members| - 1].0 == key then Some(members[|members| - 1].1)
    else Get(members[..|members| - 1], key)
  }

  function GetOr(members: Members, key: string, default: Json): Json {
    match Get(members, key) case None => default case Some(v) => v
  }

  function Index(v: Json, key: string): Option<Json> {
    if v.Obj? then Get(v.members, key) else None
  }

  predicate Truthy(v: Json) {
    match v
    case Null => false
    case Bool(b) => b
    case Int(n) => n != 0
    case Float(f) => exists i :: 0 <= i < |f| && !(f[i] == '-' || f[i] == '0' || f[i] == '.') && !ExponentPart(f, i)
    case Str(s) => s != ""
    case Arr(items) => items != []
    case Obj(members) => members != []
  }

  predicate ExponentPart(f: string, i: nat)
    requires i < |f|
  {
    exists j :: 0 <= j <= i && (f[j] == 'e' || f[j] == 'E')
  }

  /** What a `for` loop over the value visits; `None` where it raises. */
  function Iterate(v: Json): Option<seq<Json>> {
    match v
    case Arr(items) => Some(items)
    case Obj(members) => Some(seq(|members|, i requires 0 <= i < |members| => Str(members[i].0)))
    case Str(s) => Some(seq(|s|, i requires 0 <= i < |s| => Str([s[i]])))
    case _ => None
  }

  /** `float(v)` on JSON scalars; `None` where it raises. */
  function ToFloat(v: Json): Option<string> {
    match v
    case Float(f) => Some(f)
    case Int(n) => Some(PrintInt(n) + ".0")
    case Bool(b) => Some(if b then "1.0" else "0.0")
    case _ => None
  }

  function StatusText(s: Status): string {
    match s case SUCCESS => "success" case FAILURE => "failure" case SKIPPED => "skipped"
  }

  function StatusOf(v: Json): Option<Status> {
    if v == Str("success") then Some(SUCCESS)
    else if v == Str("failure") then Some(FAILURE)
    else if v == Str("skipped") then Some(SKIPPED)
    else None
  }

  function CodeOf(v: Json): Option<ErrorCode> {
    if v.Str? && v.s in ERROR_CODES then Some(v.s) else None
  }

  // ---- Serialization ----

  function Zip(keys: seq<string>, values: seq<Json>): Members
    requires |keys| == |values|
  {
    seq(|keys|, i requires 0 <= i < |keys| => (keys[i], values[i]))
  }

  const TOKEN_KEYS := ["input", "output", "cache_read", "cache_creation"]
  const ENTRY_KEYS := ["name", "status", "elapsed_seconds", "token_usage", "dispatched_session_id", "dispatch_id"]
  const ERROR_KEYS := ["dispatch_name", "code", "message", "dispatched_session_id"]
  const TOP_KEYS := ["schema_version", "campaign_id", "campaign_name", "dispatch_count", "completed_count",
    "failure_count", "skipped_count", "per_dispatch", "error_records"]

  function TokensJson(u: TokenUsage): Json {
    Obj(Zip(TOKEN_KEYS, [u.input, u.output, u.cacheRead, u.cacheCreation]))
  }

  function EntryJson(e: PerDispatchEntry): Json {
    Obj(Zip(ENTRY_KEYS, [e.name, Str(StatusText(e.status)), Float(e.elapsedSeconds), TokensJson(e.tokenUsage),
      e.dispatchedSessionId, e.dispatchId]))
  }

  function ErrorJson(r: ErrorRecord): Json {
    Obj(Zip(ERROR_KEYS, [r.dispatchName, Str(r.code), r.message, r.dispatchedSessionId]))
  }

  function EntriesJson(s: CampaignSummary): seq<Json> {
    seq(|s.perDispatch|, i requires 0 <= i < |s.perDispatch| => EntryJson(s.perDispatch[i]))
  }

  function ErrorsJson(s: CampaignSummary): seq<Json> {
    seq(|s.errorRecords|, i requires 0 <= i < |s.errorRecords| => ErrorJson(s.errorRecords[i]))
  }

  function SummaryJson(s: CampaignSummary): Json {
    Obj(Zip(TOP_KEYS, [s.schemaVersion, s.campaignId, s.campaignName, s.dispatchCount, s.completedCount,
      s.failureCount, s.skippedCount,
      Arr(EntriesJson(s)), Arr(ErrorsJson(s))]))
  }

  function SerializeCampaignSummary(s: CampaignSummary): string
    requires s.campaignId.Str?
  {
    Wrap(s.campaignId.s, Dumps(SummaryJson(s)))
  }

  // ---- Validation ----

  datatype Error =
    | ForbiddenField(key: string)
    | MissingFields(keys: set<string>)
    | BadSchemaVersion(version: Option<Json>)
    | BadStatus(index: nat)
    | BadTokenKeys(index: nat)

  const FORBIDDEN_KEYS := ["total_input_tokens", "total_output_tokens", "total_cache_read_tokens",
    "total_cache_creation_tokens", "total_duration", "total_elapsed_seconds"]

  function KeySet(members: Members): set<string> {
    set i | 0 <= i < |members| :: members[i].0
  }

  function ToSet(s: seq<string>): set<string> {
    set x | x in s
  }

  /** `v == 1` in Python. */
  predicate IsOne(v: Option<Json>) {
    v == Some(Int(1)) || v == Some(Bool(true)) || (v.Some? && v.value.Float? && EqualsOne(v.value.literal))
  }

  predicate TokenKeysFit(entry: Members) {
    match Get(entry, "token_usage")
    case Some(Obj(tokens)) => KeySet(tokens) == ToSet(TOKEN_KEYS)
    case _ => true
  }

  predicate EntryFits(entry: Json) {
    entry.Obj? && StatusOf(GetOr(entry.members, "status", Null)).Some? && TokenKeysFit(entry.members)
  }

  /** The schema: no aggregate field, every required field, version 1, and well-formed entries. */
  predicate SchemaValid(data: Members, entries: seq<Json>) {
    && (forall k :: k in KeySet(data) ==> !("total_" <= k))
    && ToSet(TOP_KEYS) <= KeySet(data)
    && IsOne(Get(data, "schema_version"))
    && forall i :: 0 <= i < |entries| ==> EntryFits(entries[i])
  }

  /** The entries that validation visits; `None` where the loop raises. */
  function EntriesOf(data: Members): Option<seq<Json>> {
    Iterate(GetOr(data, "per_dispatch", Arr([])))
  }

  predicate ValidationRaises(data: Json) {
    || !data.Obj?
    || EntriesOf(data.members).None?
    || exists i :: 0 <= i < |EntriesOf(data.members).value| && !EntriesOf(data.members).value[i].Obj?
  }

  /** What is wrong with the data, fault by fault. */
  predicate IsFault(data: Members, entries: seq<Json>, e: Error)
    requires forall i :: 0 <= i < |entries| ==> entries[i].Obj?
  {
    match e
    case ForbiddenField(key) => key in KeySet(data) && "total_" <= key
    case MissingFields(keys) => keys == ToSet(TOP_KEYS) - KeySet(data) && keys != {}
    case BadSchemaVersion(version) => version == Get(data, "schema_version") && !IsOne(version)
    case BadStatus(i) => i < |entries| && StatusOf(GetOr(entries[i].members, "status", Null)).None?
    case BadTokenKeys(i) => i < |entries| && !TokenKeysFit(entries[i].members)
  }

  predicate IsAggregate(data: Members, e: Error) {
    e.ForbiddenField? && e.key in KeySet(data) && "total_" <= e.key
  }

  /** The two loops over forbidden aggregate keys. */
  method AggregateErrors(members: Members) returns (errors: seq<Error>)
    ensures errors == [] <==> forall k :: k in KeySet(members) ==> !("total_" <= k)
    ensures forall e :: e in errors <==> IsAggregate(members, e)
  {
    errors := [];
    ghost var aggregate := exists k :: k in KeySet(members) && "total_" <= k;
    for i := 0 to |FORBIDDEN_KEYS|
      invariant errors != [] ==> aggregate
      invariant forall e :: e in errors ==> IsAggregate(members, e)
    {
      ForbiddenKeysAreTotals(i);
      if FORBIDDEN_KEYS[i] in KeySet(members) {
        errors := errors + [ForbiddenField(FORBIDDEN_KEYS[i])];
      }
    }
    NoTopKeyIsATotal();
    for i := 0 to |members|
      invariant errors != [] ==> aggregate
      invariant forall e :: e in errors ==> IsAggregate(members, e)
      invariant forall j :: 0 <= j < i && "total_" <= members[j].0 ==> ForbiddenField(members[j].0) in errors
    {
      if "total_" <= members[i].0 && members[i].0 !in TOP_KEYS {
        assert members[i].0 in KeySet(members);
        errors := errors + [ForbiddenField(members[i].0)];
      }
    }
    forall k | k in KeySet(members) && "total_" <= k
      ensures ForbiddenField(k) in errors
    {
      var i :| 0 <= i < |members| && members[i].0 == k;
    }
  }

  /** `None` when validation raises: on data or an entry that is no mapping, or entries that cannot be iterated. */
  method ValidateCampaignSummary(data: Json) returns (r: Option<seq<Error>>)
    ensures r.None? <==> ValidationRaises(data)
    ensures r.Some? ==> (r.value == [] <==> SchemaValid(data.members, EntriesOf(data.members).value))
    ensures r.Some? ==> forall e :: e in r.value <==> IsFault(data.members, EntriesOf(data.members).value, e)
  {
    hide KeySet, ToSet, Get, IsOne, StatusOf, TokenKeysFit;
    if !data.Obj? {
      return None;
    }
    var members := data.members;
    var errors := AggregateErrors(members);
    ghost var totals := errors;
    var missing := ToSet(TOP_KEYS) - KeySet(members);
    assert forall k :: k in ToSet(TOP_KEYS) && k !in KeySet(members) ==> k in missing;
    assert missing == {} <==> ToSet(TOP_KEYS) <= KeySet(members);
    if missing != {} {
      errors := errors + [MissingFields(missing)];
    }
    if !IsOne(Get(members, "schema_version")) {
      errors := errors + [BadSchemaVersion(Get(members, "schema_version"))];
    }
    ghost var topLevel := errors;
    var entries := EntriesOf(members);
    if entries.None? {
      return None;
    }
    for i := 0 to |entries.value|
      invariant totals <= topLevel <= errors
      invariant forall j :: 0 <= j < i ==> entries.value[j].Obj?
      invariant errors == [] <==> topLevel == [] && forall j :: 0 <= j < i ==> EntryFits(entries.value[j])
      invariant forall e :: e in errors <==> IsFault(members, entries.value[..i], e)
    {
      var entry := entries.value[i];
      if !entry.Obj? {
        return None;
      }
      if StatusOf(GetOr(entry.members, "status", Null)).None? {
        errors := errors + [BadStatus(i)];
      }
      if !TokenKeysFit(entry.members) {
        errors := errors + [BadTokenKeys(i)];
      }
    }
    return Some(errors);
  }

  lemma ForbiddenKeysAreTotals(i: nat)
    requires i < |FORBIDDEN_KEYS|
    ensures "total_" <= FORBIDDEN_KEYS[i]
  {
  }

  lemma NoTopKeyIsATotal()
    ensures forall k :: k in TOP_KEYS ==> !("total_" <= k)
  {
    forall k | k in TOP_KEYS
      ensures k[..1] != "t"
    {
      var i :| 0 <= i < |TOP_KEYS| && TOP_KEYS[i] == k;
      assert TOP_KEYS[i][0] != 't';
    }
    assert forall k: string :: "total_" <= k ==> k[0] == 't';
  }

  // ---- Parsing ----

  /** `e.get("dispatched_session_id") or e.get("l3_session_id") or e.get("l2_session_id", "")` */
  function SessionId(members: Members): Json {
    if Truthy(GetOr(members, "dispatched_session_id", Null)) then GetOr(members, "dispatched_session_id", Null)
    else if Truthy(GetOr(members, "l3_session_id", Null)) then GetOr(members, "l3_session_id", Null)
    else GetOr(members, "l2_session_id", Str(""))
  }

  // Field extraction; `None` where a KeyError, TypeError or ValueError is raised.

  function ReadTokens(v: Json): Option<TokenUsage> {
    var input :- Index(v, "input");
    var output :- Index(v, "output");
    var cacheRead :- Index(v, "cache_read");
    var cacheCreation :- Index(v, "cache_creation");
    Some(TokenUsage(input, output, cacheRead, cacheCreation))
  }

  function ReadEntry(v: Json): Option<PerDispatchEntry> {
    var name :- Index(v, "name");
    var status :- Index(v, "status");
    var st :- StatusOf(status);
    var elapsed :- Index(v, "elapsed_seconds");
    var seconds :- ToFloat(elapsed);
    var usage :- Index(v, "token_usage");
    var tokens :- ReadTokens(usage);
    Some(PerDispatchEntry(name, st, seconds, tokens, SessionId(v.members), GetOr(v.members, "dispatch_id", Str(""))))
  }

  function ReadError(v: Json): Option<ErrorRecord> {
    var name :- Index(v, "dispatch_name");
    var code :- Index(v, "code");
    var c :- CodeOf(code);
    var message :- Index(v, "message");
    Some(ErrorRecord(name, c, message, SessionId(v.members)))
  }

  function ReadAll<T>(items: seq<Json>, read: Json -> Option<T>): Option<seq<T>> {
    if items == [] then Some([])
    else
      var head :- read(items[0]);
      var tail :- ReadAll(items[1..], read);
      Some([head] + tail)
  }

  function ReadSummary(data: Json): Option<CampaignSummary> {
    var dispatches :- Index(data, "per_dispatch");
    var entries :- Iterate(dispatches);
    var perDispatch :- ReadAll(entries, ReadEntry);
    var errors :- Index(data, "error_records");
    var records :- Iterate(errors);
    var errorRecords :- ReadAll(records, ReadError);
    var schemaVersion :- Index(data, "schema_version");
    var campaignId :- Index(data, "campaign_id");
    var campaignName :- Index(data, "campaign_name");
    var dispatchCount :- Index(data, "dispatch_count");
    var completedCount :- Index(data, "completed_count");
    var failureCount :- Index(data, "failure_count");
    var skippedCount :- Index(data, "skipped_count");
    Some(CampaignSummary(schemaVersion, campaignId, campaignName, dispatchCount, completedCount, failureCount,
      skippedCount, perDispatch, errorRecords))
  }

  function Parse(text: string, campaignId: string): Outcome {
    match Search(text)
    case None => Failed(SENTINEL_MISSING)
    case Some(m) =>
      if m.cid != campaignId || m.cidEnd != campaignId then Failed(CAMPAIGN_ID_MISMATCH)
      else
        match Loads(m.body)
        case None => Failed(JSON_DECODE_ERROR)
        case Some(data) => FromData(data)
  }

  function FromData(data: Json): Outcome {
    if ValidationRaises(data) then Raised
    else if !SchemaValid(data.members, EntriesOf(data.members).value) then Failed(SCHEMA_VALIDATION_ERROR)
    else
      match ReadSummary(data)
      case None => Failed(FIELD_ERROR)
      case Some(s) => Parsed(s)
  }

  method ParseCampaignSummary(text: string, campaignId: string) returns (r: Outcome)
    ensures r == Parse(text, campaignId)
  {
    var found := Search(text);
    if found.None? {
      return Failed(SENTINEL_MISSING);
    }
    if found.value.cid != campaignId || found.value.cidEnd != campaignId {
      return Failed(CAMPAIGN_ID_MISMATCH);
    }
    var data := Loads(found.value.body);
    if data.None? {
      return Failed(JSON_DECODE_ERROR);
    }
    var errors := ValidateCampaignSummary(data.value);
    if errors.None? {
      return Raised;
    }
    if errors.value != [] {
      return Failed(SCHEMA_VALIDATION_ERROR);
    }
    var summary := ReadSummary(data.value);
    return if summary.None? then Failed(FIELD_ERROR) else Parsed(summary.value);
  }

  // ---- Round trip: the data ----

  ghost predicate Distinct(keys: seq<string>) {
    forall i, j :: 0 <= i < j < |keys| ==> keys[i] != keys[j]
  }

  lemma {:induction false} GetZip(keys: seq<string>, values: seq<Json>, i: nat)
    requires |keys| == |values| && i < |keys| && Distinct(keys)
    ensures Get(Zip(keys, values), keys[i]) == Some(values[i])
  {
    var n := |keys| - 1;
    if i < n {
      GetZip(keys[..n], values[..n], i);
      assert Zip(keys, values)[..n] == Zip(keys[..n], values[..n]);
    }
  }

  lemma {:induction false} GetMissing(keys: seq<string>, values: seq<Json>, key: string)
    requires |keys| == |values| && key !in keys
    ensures Get(Zip(keys, values), key) == None
  {
    if keys != [] {
      var n := |keys| - 1;
      GetMissing(keys[..n], values[..n], key);
      assert Zip(keys, values)[..n] == Zip(keys[..n], values[..n]);
    }
  }

  lemma KeySetZip(keys: seq<string>, values: seq<Json>)
    requires |keys| == |values|
    ensures KeySet(Zip(keys, values)) == ToSet(keys)
  {
    var z := Zip(keys, values);
    forall k
      ensures k in KeySet(z) <==> k in ToSet(keys)
    {
      if k in ToSet(keys) {
        var i :| 0 <= i < |keys| && keys[i] == k;
        assert z[i].0 == k;
      }
    }
  }

  lemma KeysAreDistinct()
    ensures Distinct(TOKEN_KEYS) && Distinct(ENTRY_KEYS) && Distinct(ERROR_KEYS) && Distinct(TOP_KEYS)
    ensures forall k :: k in ENTRY_KEYS || k in ERROR_KEYS ==> k != "l3_session_id" && k != "l2_session_id"
  {
    assert TOP_KEYS[2][0] == 'c' && TOP_KEYS[5][0] == 'f' && TOP_KEYS[6][0] == 's' && TOP_KEYS[8][0] == 'e';
    assert TOP_KEYS[0][0] == 's' && TOP_KEYS[3][0] == 'd';
    assert ERROR_KEYS[0][0] == 'd' && "l3_session_id"[0] == 'l' && "l2_session_id"[0] == 'l';
  }

  /** The fields the printer and parser treat by type hold their declared types. */
  ghost predicate Typed(s: CampaignSummary) {
    && s.campaignId.Str?
    && (forall i :: 0 <= i < |s.perDispatch| ==> s.perDispatch[i].dispatchedSessionId.Str?)
    && (forall i :: 0 <= i < |s.errorRecords| ==> s.errorRecords[i].dispatchedSessionId.Str?)
    && WellFormed(SummaryJson(s))
  }

  lemma TokensRoundTrip(u: TokenUsage)
    ensures ReadTokens(TokensJson(u)) == Some(u) && KeySet(TokensJson(u).members) == ToSet(TOKEN_KEYS)
  {
    hide Get, Zip, KeySet, ToSet;
    KeysAreDistinct();
    var v := [u.input, u.output, u.cacheRead, u.cacheCreation];
    KeySetZip(TOKEN_KEYS, v);
    GetZip(TOKEN_KEYS, v, 0);
    GetZip(TOKEN_KEYS, v, 1);
    GetZip(TOKEN_KEYS, v, 2);
    GetZip(TOKEN_KEYS, v, 3);
  }

  lemma EntryRoundTrip(e: PerDispatchEntry)
    requires e.dispatchedSessionId.Str?
    ensures ReadEntry(EntryJson(e)) == Some(e) && EntryFits(EntryJson(e))
  {
    hide Get, Zip, KeySet, ToSet;
    KeysAreDistinct();
    TokensRoundTrip(e.tokenUsage);
    var v := [e.name, Str(StatusText(e.status)), Float(e.elapsedSeconds), TokensJson(e.tokenUsage),
      e.dispatchedSessionId, e.dispatchId];
    GetZip(ENTRY_KEYS, v, 0);
    GetZip(ENTRY_KEYS, v, 1);
    GetZip(ENTRY_KEYS, v, 2);
    GetZip(ENTRY_KEYS, v, 3);
    GetZip(ENTRY_KEYS, v, 4);
    GetZip(ENTRY_KEYS, v, 5);
    GetMissing(ENTRY_KEYS, v, "l3_session_id");
    GetMissing(ENTRY_KEYS, v, "l2_session_id");
  }

  lemma ErrorRoundTrip(r: ErrorRecord)
    requires r.dispatchedSessionId.Str?
    ensures ReadError(ErrorJson(r)) == Some(r)
  {
    hide Get, Zip;
    KeysAreDistinct();
    var v := [r.dispatchName, Str(r.code), r.message, r.dispatchedSessionId];
    GetZip(ERROR_KEYS, v, 0);
    GetZip(ERROR_KEYS, v, 1);
    GetZip(ERROR_KEYS, v, 2);
    GetZip(ERROR_KEYS, v, 3);
    GetMissing(ERROR_KEYS, v, "l3_session_id");
    GetMissing(ERROR_KEYS, v, "l2_session_id");
  }

  lemma {:induction false} ReadAllIs<T>(items: seq<Json>, read: Json -> Option<T>, values: seq<T>)
    requires |items| == |values| && forall i :: 0 <= i < |items| ==> read(items[i]) == Some(values[i])
    ensures ReadAll(items, read) == Some(values)
  {
    if items != [] {
      ReadAllIs(items[1..], read, values[1..]);
      assert values == [values[0]] + values[1..];
    }
  }

  lemma TopLevelFields(s: CampaignSummary)
    ensures var j := SummaryJson(s);
      && j.Obj?
      && Index(j, "schema_version") == Some(s.schemaVersion) && Index(j, "campaign_id") == Some(s.campaignId)
      && Index(j, "campaign_name") == Some(s.campaignName) && Index(j, "dispatch_count") == Some(s.dispatchCount)
      && Index(j, "completed_count") == Some(s.completedCount) && Index(j, "failure_count") == Some(s.failureCount)
      && Index(j, "skipped_count") == Some(s.skippedCount)
      && Index(j, "per_dispatch") == Some(Arr(EntriesJson(s))) && Index(j, "error_records") == Some(Arr(ErrorsJson(s)))
      && KeySet(j.members) == ToSet(TOP_KEYS)
  {
    hide Get, Zip, KeySet, ToSet;
    KeysAreDistinct();
    var v := [s.schemaVersion, s.campaignId, s.campaignName, s.dispatchCount, s.completedCount, s.failureCount,
      s.skippedCount, Arr(EntriesJson(s)), Arr(ErrorsJson(s))];
    KeySetZip(TOP_KEYS, v);
    GetZip(TOP_KEYS, v, 0);
    GetZip(TOP_KEYS, v, 1);
    GetZip(TOP_KEYS, v, 2);
    GetZip(TOP_KEYS, v, 3);
    GetZip(TOP_KEYS, v, 4);
    GetZip(TOP_KEYS, v, 5);
    GetZip(TOP_KEYS, v, 6);
    GetZip(TOP_KEYS, v, 7);
    GetZip(TOP_KEYS, v, 8);
  }

  lemma EntryFields(e: PerDispatchEntry)
    ensures var j, u := EntryJson(e), TokensJson(e.tokenUsage);
      && Index(j, "name") == Some(e.name) && Index(j, "elapsed_seconds") == Some(Float(e.elapsedSeconds))
      && Index(j, "status") == Some(Str(
        match e.status case SUCCESS => "success" case FAILURE => "failure" case SKIPPED => "skipped"))
      && Index(j, "token_usage") == Some(u) && Index(j, "dispatch_id") == Some(e.dispatchId)
      && Index(j, "dispatched_session_id") == Some(e.dispatchedSessionId)
      && Index(u, "input") == Some(e.tokenUsage.input) && Index(u, "output") == Some(e.tokenUsage.output)
      && Index(u, "cache_read") == Some(e.tokenUsage.cacheRead)
      && Index(u, "cache_creation") == Some(e.tokenUsage.cacheCreation)
  {
    hide Get, Zip, KeySet, ToSet;
    KeysAreDistinct();
    var u := [e.tokenUsage.input, e.tokenUsage.output, e.tokenUsage.cacheRead, e.tokenUsage.cacheCreation];
    var v := [e.name, Str(StatusText(e.status)), Float(e.elapsedSeconds), TokensJson(e.tokenUsage),
      e.dispatchedSessionId, e.dispatchId];
    forall i: nat | i < |u|
      ensures Get(Zip(TOKEN_KEYS, u), TOKEN_KEYS[i]) == Some(u[i])
    {
      GetZip(TOKEN_KEYS, u, i);
    }
    forall i: nat | i < |v|
      ensures Get(Zip(ENTRY_KEYS, v), ENTRY_KEYS[i]) == Some(v[i])
    {
      GetZip(ENTRY_KEYS, v, i);
    }
    assert TOKEN_KEYS[0] == "input" && TOKEN_KEYS[1] == "output" && TOKEN_KEYS[2] == "cache_read";
    assert ENTRY_KEYS[0] == "name" && ENTRY_KEYS[1] == "status" && ENTRY_KEYS[2] == "elapsed_seconds";
    assert ENTRY_KEYS[3] == "token_usage" && ENTRY_KEYS[4] == "dispatched_session_id";
    assert TOKEN_KEYS[3] == "cache_creation" && ENTRY_KEYS[5] == "dispatch_id";
  }

  lemma ErrorFields(r: ErrorRecord)
    ensures var j := ErrorJson(r);
      && Index(j, "dispatch_name") == Some(r.dispatchName) && Index(j, "code") == Some(Str(r.code))
      && Index(j, "message") == Some(r.message) && Index(j, "dispatched_session_id") == Some(r.dispatchedSessionId)
  {
    hide Get, Zip;
    KeysAreDistinct();
    var v := [r.dispatchName, Str(r.code), r.message, r.dispatchedSessionId];
    forall i: nat | i < |v|
      ensures Get(Zip(ERROR_KEYS, v), ERROR_KEYS[i]) == Some(v[i])
    {
      GetZip(ERROR_KEYS, v, i);
    }
    assert ERROR_KEYS[0] == "dispatch_name" && ERROR_KEYS[1] == "code" && ERROR_KEYS[2] == "message";
    assert ERROR_KEYS[3] == "dispatched_session_id";
  }

  /** The data read back from a summary's own JSON is the summary, exactly when it declares version 1. */
  lemma DataRoundTrip(s: CampaignSummary)
    requires Typed(s)
    ensures FromData(SummaryJson(s)) ==
      if IsOne(Some(s.schemaVersion)) then Parsed(s) else Failed(SCHEMA_VALIDATION_ERROR)
  {
    hide Get, KeySet, ToSet, EntryJson, ErrorJson, ReadEntry, ReadError, SummaryJson;
    var j := SummaryJson(s);
    TopLevelFields(s);
    NoTopKeyIsATotal();
    assert forall k :: k in ToSet(TOP_KEYS) ==> k in TOP_KEYS by {
      MembersOfSet(TOP_KEYS);
    }
    forall i | 0 <= i < |s.perDispatch|
      ensures ReadEntry(EntriesJson(s)[i]) == Some(s.perDispatch[i]) && EntryFits(EntriesJson(s)[i])
    {
      EntryRoundTrip(s.perDispatch[i]);
    }
    forall i | 0 <= i < |s.errorRecords|
      ensures ReadError(ErrorsJson(s)[i]) == Some(s.errorRecords[i])
    {
      ErrorRoundTrip(s.errorRecords[i]);
    }
    ReadAllIs(EntriesJson(s), ReadEntry, s.perDispatch);
    ReadAllIs(ErrorsJson(s), ReadError, s.errorRecords);
  }

  lemma MembersOfSet(keys: seq<string>)
    ensures forall k :: k in ToSet(keys) ==> k in keys
  {
  }

  // ---- Round trip: the text ----

  lemma BodyHasNoClose(t: string, b: nat, body: string, k: nat)
    requires b + |body| == k && At(t, body + CLOSE, b) && LinesIndented(body)
    ensures forall j :: b <= j < k ==> !At(t, CLOSE, j)
  {
    AtMeans(t, body + CLOSE, b);
    forall j | b <= j < k
      ensures !At(t, CLOSE, j)
    {
      AtMeans(t, CLOSE, j);
      var u := t[b..b + |body + CLOSE|];
      assert u[j - b] == t[j] == body[j - b];
      if body[j - b] == '\n' {
        assert u[j - b + 1] == t[j + 1] == body[j - b + 1];
        assert t[j..j + |CLOSE|][1] == t[j + 1];
      } else {
        assert t[j..j + |CLOSE|][0] == t[j];
      }
    }
  }

  lemma SplitAt(t: string, head: string, u: string, tail: string)
    requires t == head + u + tail
    ensures At(t, u, |head|)
  {
    AtGlue(head, u, tail);
  }

  lemma WrappedOpens(pre: string, cid: string, body: string, post: string)
    requires !Contains(pre, OPEN)
    ensures var t := pre + Wrap(cid, body) + post;
      && At(t, OPEN, |pre|) && At(t, cid + DASHES, |pre| + |OPEN|)
      && forall j :: 0 <= j < |pre| ==> !At(t, OPEN, j)
  {
    var t := pre + Wrap(cid, body) + post;
    var tail := "\n" + body + CLOSE + cid + DASHES + post;
    var rest := cid + DASHES + tail;
    assert t == pre + OPEN + rest;
    SplitAt(t, pre, OPEN, rest);
    assert t == (pre + OPEN) + (cid + DASHES) + tail;
    SplitAt(t, pre + OPEN, cid + DASHES, tail);
    forall j | 0 <= j < |pre|
      ensures !At(t, OPEN, j)
    {
      NoEarlierOpen(pre, rest, j);
    }
  }

  lemma WrappedCloses(pre: string, cid: string, body: string, post: string)
    ensures var t := pre + Wrap(cid, body) + post;
      var b := LineEnd(|pre|, cid) + 1;
      && t[b - 1] == '\n' && At(t, body + CLOSE, b) && t[b..b + |body|] == body
      && At(t, CLOSE, b + |body|) && At(t, cid + DASHES, b + |body| + |CLOSE|)
  {
    hide At;
    var t := pre + Wrap(cid, body) + post;
    var head := pre + OPEN + cid + DASHES + "\n";
    RegroupWrapped(pre, OPEN, cid, DASHES, "\n", body, CLOSE, post);
    FourParts(t, head, body, CLOSE, cid + DASHES, post);
    assert t[..|head|] == head && head[|head| - 1] == '\n';
  }

  lemma RegroupWrapped(
      pre: string, open: string, cid: string, dashes: string, newline: string, body: string, close: string,
      post: string)
    ensures var head := pre + open + cid + dashes + newline;
      && pre + (open + cid + dashes + newline + body + close + cid + dashes) + post
        == head + body + close + (cid + dashes) + post
      && (head + body + close + (cid + dashes) + post)[..|head|] == head
  {
  }

  lemma FourParts(t: string, head: string, body: string, close: string, tail: string, post: string)
    requires t == head + body + close + tail + post
    ensures At(t, body + close, |head|) && t[|head|..|head| + |body|] == body
    ensures At(t, close, |head| + |body|) && At(t, tail, |head| + |body| + |close|)
  {
    hide At;
    assert t == head + (body + close) + (tail + post);
    SplitAt(t, head, body + close, tail + post);
    assert t == (head + body) + close + (tail + post);
    SplitAt(t, head + body, close, tail + post);
    SplitAt(t, head + body + close, tail, post);
  }

  lemma WrappedIsBlock(pre: string, cid: string, body: string, post: string)
    requires cid != "" && !Contains(pre, OPEN)
    ensures var t := pre + Wrap(cid, body) + post;
      var b := LineEnd(|pre|, cid) + 1;
      && IsBlock(t, |pre|, cid, b + |body|) && At(t, body + CLOSE, b) && t[b..b + |body|] == body
  {
    WrappedOpens(pre, cid, body, post);
    WrappedCloses(pre, cid, body, post);
    hide At, Wrap;
    AtMeans(pre + Wrap(cid, body) + post, CLOSE, LineEnd(|pre|, cid) + 1 + |body|);
  }

  /** Parsing a serialized summary with its own id, between any text without an opening marker and any text at all,
      gives it back exactly when its id is safe and its version is 1. */
  lemma SummaryRoundTrip(pre: string, s: CampaignSummary, post: string)
    requires Typed(s) && !Contains(pre, OPEN)
    ensures Parse(pre + SerializeCampaignSummary(s) + post, s.campaignId.s) == Parsed(s)
      <==> SafeId(s.campaignId.s) && IsOne(Some(s.schemaVersion))
  {
    hide Search, Loads, FromData, SummaryJson, Wrap, IsBlock, At;
    var cid, body := s.campaignId.s, Dumps(SummaryJson(s));
    var t := pre + SerializeCampaignSummary(s) + post;
    if cid != "" {
      var b := LineEnd(|pre|, cid) + 1;
      WrappedIsBlock(pre, cid, body, post);
      BlockFound(t, |pre|, cid, b + |body|);
      if SafeId(cid) {
        PrintIndented(SummaryJson(s), 0);
        BodyHasNoClose(t, b, body, b + |body|);
        SafeBlockFound(t, |pre|, cid, b + |body|);
        DumpsLoads(SummaryJson(s));
        DataRoundTrip(s);
      } else {
        assert CidStop(cid) < |cid|;
      }
    }
  }

  /** A serialized summary is rejected under every id but its own, and under its own if that is not safe. */
  lemma ForeignIdRejected(pre: string, s: CampaignSummary, post: string, id: string)
    requires Typed(s) && !Contains(pre, OPEN) && s.campaignId.s != ""
    requires if SafeId(s.campaignId.s) then id != s.campaignId.s else id == s.campaignId.s
    ensures Parse(pre + SerializeCampaignSummary(s) + post, id) == Failed(CAMPAIGN_ID_MISMATCH)
  {
    hide Search, Loads, FromData, SummaryJson, Wrap, IsBlock, At;
    var cid, body := s.campaignId.s, Dumps(SummaryJson(s));
    var b := LineEnd(|pre|, cid) + 1;
    WrappedIsBlock(pre, cid, body, post);
    BlockFound(pre + SerializeCampaignSummary(s) + post, |pre|, cid, b + |body|);
    if SafeId(cid) {
      assert CidStop(cid) == |cid|;
    }
  }

  /** What every text gives, read off its first match: `x` says where the two ids and the body stand. */
  lemma ParseMeaning(text: string, id: string) returns (x: Spots)
    ensures Parse(text, id) == Failed(SENTINEL_MISSING) <==> forall y :: !Fits(text, y)
    ensures Parse(text, id) != Failed(SENTINEL_MISSING) ==>
      && IsFound(text, x) && x.end <= |text| && x.cidEnd <= |text| && x.close <= |text|
      && x.open + |OPEN| < x.cidEnd && x.newline < x.close && x.close + |CLOSE| < x.end
      && var named := text[x.open + |OPEN|..x.cidEnd] == id && text[x.close + |CLOSE|..x.end] == id;
        var data := Loads(text[x.newline + 1..x.close]);
        && (Parse(text, id) == Failed(CAMPAIGN_ID_MISMATCH) <==> !named)
        && (Parse(text, id) == Failed(JSON_DECODE_ERROR) <==> named && data.None?)
        && (Parse(text, id) == Raised <==> named && data.Some? && ValidationRaises(data.value))
        && (Parse(text, id) == Failed(SCHEMA_VALIDATION_ERROR) <==>
          && named && data.Some? && !ValidationRaises(data.value)
          && !SchemaValid(data.value.members, EntriesOf(data.value.members).value))
        && (named && data.Some? ==> Parse(text, id) == FromData(data.value))
  {
    hide Search, Loads, Fits, ValidationRaises, SchemaValid, ReadSummary;
    x := SearchMeans(text);
    if Search(text).Some? {
      FitsBounds(text, x);
    }
  }

  /** A text without an opening marker has no sentinels. */
  lemma NoMarker(text: string, id: string)
    requires !Contains(text, OPEN)
    ensures Parse(text, id) == Failed(SENTINEL_MISSING)
  {
    hide Search, Loads, FromData;
    var _ := ParseMeaning(text, id);
  }

  /** An id with three dashes inside, or one at its end, does not survive. */
  lemma UnsafeIds()
    ensures !SafeId("") && !SafeId("a-") && !SafeId("a---b") && SafeId("---a") && SafeId("a\nb")
  {
    assert At("a-" + DASHES, DASHES, 1);
    assert At("a---b" + DASHES, DASHES, 1);
    forall p | 1 <= p < 4
      ensures !At("---a" + DASHES, DASHES, p)
    {
      AtMeans("---a" + DASHES, DASHES, p);
      assert ("---a" + DASHES)[p..p + 3][3 - p] == 'a';
    }
    forall p | 1 <= p < 3
      ensures !At("a\nb" + DASHES, DASHES, p)
    {
      AtMeans("a\nb" + DASHES, DASHES, p);
      assert ("a\nb" + DASHES)[p..p + 3][2 - p] == 'b';
    }
  }
}
