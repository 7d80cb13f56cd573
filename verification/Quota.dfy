/** The quota guard: which rate-limit window binds, how long to sleep, and when a cached answer is believed.

    Times are microseconds since the smallest date the program can name. */
module Quota {
  import opened Wrappers
  import opened Text

  const SECOND := 1_000_000

  datatype Window = Window(name: string, utilization: real, resetsAt: Option<nat>)

  datatype Policy = Policy(
    shortThreshold: real, longThreshold: real, longPatterns: seq<string>, shortEnabled: bool, longEnabled: bool)

  datatype Status = Status(
    utilization: real, resetsAt: Option<nat>, windowName: string, shouldBlock: bool, effectiveThreshold: real)

  // ---- Windows and thresholds ----

  function LowerChar(c: char): char {
    if 'A' <= c <= 'Z' then (c as int + 32) as char else c
  }

  function Lower(s: string): string {
    seq(|s|, i requires 0 <= i < |s| => LowerChar(s[i]))
  }

  predicate IsLong(name: string, p: Policy) {
    exists i :: 0 <= i < |p.longPatterns| && Contains(Lower(name), Lower(p.longPatterns[i]))
  }

  function Threshold(name: string, p: Policy): real {
    if IsLong(name, p) then p.longThreshold else p.shortThreshold
  }

  predicate Enabled(w: Window, p: Policy) {
    if IsLong(w.name, p) then p.longEnabled else p.shortEnabled
  }

  predicate Exhausted(w: Window, p: Policy) {
    Enabled(w, p) && w.utilization >= Threshold(w.name, p)
  }

  /** The pattern occurs in the name at `k`, the case of letters aside. */
  ghost predicate OccursAt(name: string, pattern: string, k: nat) {
    && k + |pattern| <= |name|
    && forall j :: 0 <= j < |pattern| ==> SameLetter(name[k + j], pattern[j])
  }

  predicate SameLetter(a: char, b: char) {
    || a == b
    || ('A' <= a <= 'Z' && b as int == a as int + 32)
    || ('A' <= b <= 'Z' && a as int == b as int + 32)
  }

  lemma SameLower(a: char, b: char)
    ensures LowerChar(a) == LowerChar(b) <==> SameLetter(a, b)
  {
  }

  /** A window is exhausted when its class is enabled and it has reached the threshold of its class; it is long exactly
      when one of the patterns occurs in its name. */
  lemma ExhaustedMeaning(w: Window, p: Policy)
    ensures var long := exists i: nat, k: nat :: i < |p.longPatterns| && OccursAt(w.name, p.longPatterns[i], k);
      && (Enabled(w, p) <==> if long then p.longEnabled else p.shortEnabled)
      && Threshold(w.name, p) == (if long then p.longThreshold else p.shortThreshold)
      && (Exhausted(w, p) <==>
        if long then p.longEnabled && w.utilization >= p.longThreshold
        else p.shortEnabled && w.utilization >= p.shortThreshold)
  {
    forall i: nat | i < |p.longPatterns|
      ensures Contains(Lower(w.name), Lower(p.longPatterns[i])) <==>
        exists k: nat :: OccursAt(w.name, p.longPatterns[i], k)
    {
      ContainsIgnoringCase(w.name, p.longPatterns[i]);
    }
    if i: nat, k: nat :| i < |p.longPatterns| && OccursAt(w.name, p.longPatterns[i], k) {
      assert Contains(Lower(w.name), Lower(p.longPatterns[i]));
    }
  }

  lemma ContainsIgnoringCase(name: string, pattern: string)
    ensures Contains(Lower(name), Lower(pattern)) <==> exists k: nat :: OccursAt(name, pattern, k)
  {
    forall k: nat
      ensures At(Lower(name), Lower(pattern), k) <==> OccursAt(name, pattern, k)
    {
      OccursIsAt(name, pattern, k);
    }
    if k: nat :| OccursAt(name, pattern, k) {
      assert At(Lower(name), Lower(pattern), k);
    }
  }

  lemma OccursIsAt(name: string, pattern: string, k: nat)
    ensures At(Lower(name), Lower(pattern), k) <==> OccursAt(name, pattern, k)
  {
    hide LowerChar, SameLetter;
    if k + |pattern| <= |name| {
      forall j | 0 <= j < |pattern|
        ensures Lower(name)[k..][j] == Lower(pattern)[j] <==> SameLetter(name[k + j], pattern[j])
      {
        SameLower(name[k + j], pattern[j]);
      }
      if OccursAt(name, pattern, k) {
        assert Lower(name)[k..][..|pattern|] == Lower(pattern);
      }
    }
  }

  // ---- The binding window ----

  function Filter(windows: seq<Window>, keep: Window -> bool): (kept: seq<Window>)
    ensures forall w :: w in kept <==> w in windows && keep(w)
  {
    if windows == [] then []
    else
      var front, last := Filter(windows[..|windows| - 1], keep), windows[|windows| - 1];
      if keep(last) then front + [last] else front
  }

  /** The place of the first of the largest among the first `n`. */
  function MaxAt(windows: seq<Window>, key: Window -> real, n: nat): (i: nat)
    requires 0 < n <= |windows|
    ensures i < n
    ensures forall j :: 0 <= j < n ==> key(windows[j]) <= key(windows[i])
    ensures forall j :: 0 <= j < i ==> key(windows[j]) < key(windows[i])
  {
    if n == 1 then 0
    else
      var i := MaxAt(windows, key, n - 1);
      if key(windows[n - 1]) > key(windows[i]) then n - 1 else i
  }

  /** Python's `max(..., key=...)`. */
  function FirstMax(windows: seq<Window>, key: Window -> real): (m: Window)
    requires windows != []
    ensures m in windows && forall w :: w in windows ==> key(w) <= key(m)
  {
    windows[MaxAt(windows, key, |windows|)]
  }

  function ByReset(): Window -> real {
    (w: Window) => if w.resetsAt.Some? then w.resetsAt.value as real else 0.0
  }

  function ByUse(): Window -> real {
    (w: Window) => w.utilization
  }

  function InClass(p: Policy): Window -> bool {
    (w: Window) => Enabled(w, p)
  }

  function AtThreshold(p: Policy): Window -> bool {
    (w: Window) => w.utilization >= Threshold(w.name, p)
  }

  const NO_WINDOW := Status(0.0, None, "unknown", false, 100.0)

  function StatusOf(w: Window, p: Policy): Status {
    var effective := Threshold(w.name, p);
    Status(w.utilization, w.resetsAt, w.name, w.utilization >= effective, effective)
  }

  function ComputeBinding(windows: seq<Window>, p: Policy): Status {
    var enabled := Filter(windows, InClass(p));
    if enabled == [] then NO_WINDOW
    else
      var exhausted := Filter(enabled, AtThreshold(p));
      StatusOf(if exhausted != [] then FirstMax(exhausted, ByReset()) else FirstMax(enabled, ByUse()), p)
  }

  ghost predicate AnyExhausted(windows: seq<Window>, p: Policy) {
    exists w :: w in windows && Exhausted(w, p)
  }

  /** An exhausted window, with the latest of the known resets. */
  ghost predicate IsLatest(windows: seq<Window>, p: Policy, b: Status) {
    && (exists w :: w in windows && Exhausted(w, p) && b == StatusOf(w, p))
    && (forall w :: w in windows && Exhausted(w, p) && w.resetsAt.Some? && w.resetsAt.value > 0
          ==> b.resetsAt.Some? && b.resetsAt.value >= w.resetsAt.value)
  }

  /** The binding blocks exactly when some enabled window is at or over the threshold of its own class. Then it is such
      a window and resets no earlier than any other of them; otherwise it is the enabled window used most. */
  lemma BindingMeaning(windows: seq<Window>, p: Policy)
    ensures var b := ComputeBinding(windows, p);
      && (b.shouldBlock <==> AnyExhausted(windows, p))
      && (b.shouldBlock ==> IsLatest(windows, p, b))
      && (!b.shouldBlock ==>
        if exists w :: w in windows && Enabled(w, p)
        then (exists w :: w in windows && Enabled(w, p) && b == StatusOf(w, p))
          && (forall w :: w in windows && Enabled(w, p) ==> w.utilization <= b.utilization)
        else b == NO_WINDOW)
  {
    var enabled := Filter(windows, InClass(p));
    var exhausted := Filter(enabled, AtThreshold(p));
    assert forall w :: w in exhausted <==> w in windows && Exhausted(w, p);
    if enabled == [] {
      assert forall w :: w in windows ==> w !in enabled;
    } else if exhausted != [] {
      var m := FirstMax(exhausted, ByReset());
      assert m in exhausted;
      forall w | w in windows && Exhausted(w, p) && w.resetsAt.Some? && w.resetsAt.value > 0
        ensures m.resetsAt.Some? && m.resetsAt.value >= w.resetsAt.value
      {
        assert w in exhausted;
        assert ByReset()(w) <= ByReset()(m);
      }
    } else {
      var m := FirstMax(enabled, ByUse());
      assert m in enabled && m !in exhausted;
      assert enabled[0] in enabled;
    }
  }

  lemma BlocksWhenExhausted(windows: seq<Window>, p: Policy)
    ensures ComputeBinding(windows, p).shouldBlock <==> AnyExhausted(windows, p)
  {
    BindingMeaning(windows, p);
  }

  lemma OnlyWindow(w: Window, p: Policy)
    requires Enabled(w, p)
    ensures ComputeBinding([w], p) == StatusOf(w, p)
  {
    hide IsLong;
    assert w in [w];
    BindingMeaning([w], p);
    assert forall w' :: w' in [w] ==> w' == w;
  }

  /** Listing the windows in another order changes neither the verdict nor the reset of a blocking one. */
  lemma OrderDoesNotMatter(windows: seq<Window>, windows': seq<Window>, p: Policy)
    requires forall w :: w in windows <==> w in windows'
    ensures var b, b' := ComputeBinding(windows, p), ComputeBinding(windows', p);
      b.shouldBlock == b'.shouldBlock &&
        (b.shouldBlock && b.resetsAt.Some? && b.resetsAt.value > 0 ==> b'.resetsAt == b.resetsAt)
  {
    hide ComputeBinding, Exhausted, Enabled, Threshold;
    BindingMeaning(windows, p);
    BindingMeaning(windows', p);
  }

  // ---- Sleeping ----

  /** `int(x / y)`, which truncates toward zero. */
  function Truncated(x: int, y: int): int
    requires y > 0
  {
    if x >= 0 then x / y else -(-x / y)
  }

  function SleepSeconds(resetsAt: nat, buffer: int, now: int): int {
    var seconds := Truncated(resetsAt + buffer * SECOND - now, SECOND);
    if seconds > 0 then seconds else 0
  }

  /** The sleep is the longest in whole seconds that ends no later than the buffer allows, or none; and it never ends
      before the reset, whatever the time is, exactly when the buffer is at least a second. */
  lemma SleepBounds(resetsAt: nat, buffer: int)
    ensures forall now :: (SleepSeconds(resetsAt, buffer, now) > 0
      ==> now + SleepSeconds(resetsAt, buffer, now) * SECOND <= resetsAt + buffer * SECOND)
    ensures forall now :: SleepSeconds(resetsAt, buffer, now) >= 0
    ensures forall now ::
      now + SleepSeconds(resetsAt, buffer, now) * SECOND > resetsAt + buffer * SECOND - SECOND
    ensures (forall now :: now + SleepSeconds(resetsAt, buffer, now) * SECOND >= resetsAt) <==> buffer >= 1
  {
    if buffer < 1 {
      var now := resetsAt - 1;
      assert SleepSeconds(resetsAt, buffer, now) == 0;
    }
  }

  /** After the sleep every exhausted window has been reset, so far as its reset was known. */
  lemma SleepOutlastsAll(windows: seq<Window>, p: Policy, buffer: int, now: int)
    requires AnyExhausted(windows, p) && ComputeBinding(windows, p).resetsAt.Some? && buffer >= 1
    ensures var wakes := now + SleepSeconds(ComputeBinding(windows, p).resetsAt.value, buffer, now) * SECOND;
      forall w :: w in windows && Exhausted(w, p) && w.resetsAt.Some? ==> wakes >= w.resetsAt.value
  {
    BindingMeaning(windows, p);
    SleepBounds(ComputeBinding(windows, p).resetsAt.value, buffer);
  }

  // ---- The guard and its cache ----

  /** The cache file: missing, unusable, or a snapshot's time and binding. */
  datatype Cache = Missing | Unusable | Snapshot(fetchedAt: int, binding: Status)

  datatype Fetch = Failed | Fetched(windows: seq<Window>, at: int)

  /** What one check meets outside: the time of reading, up to two fetches and whether their results could be stored,
      and the time when the sleep is computed. */
  datatype Env = Env(now: int, first: Fetch, firstStored: bool, second: Fetch, secondStored: bool, later: int)

  datatype Config = Config(enabled: bool, policy: Policy, buffer: int, maxAge: int)

  datatype Verdict = Verdict(shouldSleep: bool, sleepSeconds: int, status: Option<Status>, unknownReset: bool,
    error: bool)

  const QUIET := Verdict(false, 0, None, false, false)

  /** A snapshot that was fetched, and the policy in force then. */
  datatype Event = Event(at: int, windows: seq<Window>, policy: Policy)

  predicate Fresh(cache: Cache, maxAge: int, now: int) {
    cache.Snapshot? && now - cache.fetchedAt <= maxAge * SECOND
  }

  /** The status a check starts from: a fresh cached one, else a fetched one. */
  function FirstStatus(cache: Cache, c: Config, env: Env): Option<Status> {
    if Fresh(cache, c.maxAge, env.now) then Some(cache.binding)
    else if env.first.Fetched? then Some(ComputeBinding(env.first.windows, c.policy))
    else None
  }

  /** The status it ends with: a blocking one with a known reset is fetched again. */
  function LastStatus(cache: Cache, c: Config, env: Env): Option<Status> {
    var first := FirstStatus(cache, c, env);
    if first.None? || !first.value.shouldBlock || first.value.resetsAt.None? then first
    else if env.second.Fetched? then Some(ComputeBinding(env.second.windows, c.policy))
    else None
  }

  function SleepFor(s: Status, c: Config, env: Env): int {
    if s.resetsAt.Some? then SleepSeconds(s.resetsAt.value, c.buffer, env.later)
    else if c.buffer > 60 then c.buffer
    else 60
  }

  /** Each successful fetch is cached, if its write succeeds. */
  function CacheAfter(cache: Cache, c: Config, env: Env): Cache {
    var first := FirstStatus(cache, c, env);
    if first.Some? && first.value.shouldBlock && first.value.resetsAt.Some? && env.second.Fetched? &&
      env.secondStored then
      Snapshot(env.second.at, ComputeBinding(env.second.windows, c.policy))
    else if !Fresh(cache, c.maxAge, env.now) && env.first.Fetched? && env.firstStored then
      Snapshot(env.first.at, ComputeBinding(env.first.windows, c.policy))
    else cache
  }

  class QuotaGuard {
    var cache: Cache
    var fetches: nat
    ghost var history: seq<Event>

    constructor ()
      ensures Valid() && cache == Missing && fetches == 0 && history == []
    {
      cache, fetches, history := Missing, 0, [];
    }

    /** What the cache holds was once the binding of a fetched snapshot. */
    ghost predicate Valid()
      reads this
    {
      cache.Snapshot? ==>
        exists e :: e in history && e.at == cache.fetchedAt && cache.binding == ComputeBinding(e.windows, e.policy)
    }

    /** A cached status that blocks comes from a snapshot with an exhausted window. */
    lemma CachedWasExhausted()
      requires Valid()
      ensures cache.Snapshot? && cache.binding.shouldBlock ==>
        exists e :: e in history && e.at == cache.fetchedAt && AnyExhausted(e.windows, e.policy)
    {
      hide ComputeBinding, AnyExhausted;
      if cache.Snapshot? {
        var e :| e in history && e.at == cache.fetchedAt && cache.binding == ComputeBinding(e.windows, e.policy);
        BlocksWhenExhausted(e.windows, e.policy);
      }
    }

    method ReadCache(maxAge: int, now: int) returns (status: Option<Status>)
      ensures status == if Fresh(cache, maxAge, now) then Some(cache.binding) else None
    {
      if !cache.Snapshot? {
        return None;
      }
      var age := now - cache.fetchedAt;
      if age > maxAge * SECOND {
        return None;
      }
      status := Some(cache.binding);
    }

    /** Fetches and tries to store the result; a failed write is only logged. */
    method FetchAndStore(policy: Policy, fetch: Fetch, stored: bool) returns (status: Option<Status>)
      requires Valid()
      modifies this
      ensures Valid() && fetches == old(fetches) + 1
      ensures fetch.Failed? ==> status == None && cache == old(cache) && history == old(history)
      ensures fetch.Fetched? ==>
        && status == Some(ComputeBinding(fetch.windows, policy))
        && history == old(history) + [Event(fetch.at, fetch.windows, policy)]
        && cache == if stored then Snapshot(fetch.at, status.value) else old(cache)
    {
      fetches := fetches + 1;
      if fetch.Failed? {
        return None;
      }
      var event := Event(fetch.at, fetch.windows, policy);
      var binding := ComputeBinding(fetch.windows, policy);
      history := history + [event];
      assert event in history && forall e :: e in old(history) ==> e in history;
      if stored {
        cache := Snapshot(fetch.at, binding);
      }
      status := Some(binding);
    }

    /** The guard fails open, sleeps only when the status it starts from blocks, and asks the network only when it
        must. When it does sleep, some snapshot, fetched now or not too old, had an enabled window at or over its
        threshold. */
    method CheckAndSleepIfNeeded(c: Config, env: Env) returns (v: Verdict)
      requires Valid()
      modifies this
      ensures Valid()
      ensures !c.enabled ==> v == QUIET && cache == old(cache) && fetches == old(fetches) && history == old(history)
      ensures c.enabled ==>
        var first := FirstStatus(old(cache), c, env);
        && Answers(old(cache), c, env, v)
        && cache == CacheAfter(old(cache), c, env)
        && fetches == old(fetches)
          + (if Fresh(old(cache), c.maxAge, env.now) then 0 else 1)
          + (if first.Some? && first.value.shouldBlock && first.value.resetsAt.Some? then 1 else 0)
      ensures old(history) <= history
      ensures v.shouldSleep && Fresh(old(cache), c.maxAge, env.now) ==>
        exists e :: e in old(history) && e.at >= env.now - c.maxAge * SECOND && AnyExhausted(e.windows, e.policy)
      ensures v.shouldSleep && !Fresh(old(cache), c.maxAge, env.now) ==>
        env.first.Fetched? && AnyExhausted(env.first.windows, c.policy)
    {
      hide ComputeBinding, AnyExhausted, FirstMax, Filter, Truncated, Valid;
      if !c.enabled {
        return QUIET;
      }
      if env.first.Fetched? {
        BlocksWhenExhausted(env.first.windows, c.policy);
      }
      CachedWasExhausted();
      var status := ReadCache(c.maxAge, env.now);
      if status.None? {
        status := FetchAndStore(c.policy, env.first, env.firstStored);
        if status.None? {
          return QUIET.(error := true);
        }
      }
      if !status.value.shouldBlock {
        return Verdict(false, 0, status, false, false);
      }
      if status.value.resetsAt.None? {
        var fallback := if c.buffer > 60 then c.buffer else 60;
        return Verdict(true, fallback, status, true, false);
      }
      status := FetchAndStore(c.policy, env.second, env.secondStored);
      if status.None? {
        return QUIET.(error := true);
      }
      if status.value.resetsAt.None? {
        var fallback := if c.buffer > 60 then c.buffer else 60;
        return Verdict(true, fallback, status, true, false);
      }
      var wakeAt := status.value.resetsAt.value + c.buffer * SECOND;
      var seconds := Truncated(wakeAt - env.later, SECOND);
      v := Verdict(true, if seconds > 0 then seconds else 0, status, false, false);
    }
  }

  /** What the guard's verdict is by the two functions above. */
  ghost predicate Answers(cache: Cache, c: Config, env: Env, v: Verdict) {
    var first, last := FirstStatus(cache, c, env), LastStatus(cache, c, env);
    && v.status == last && (v.error <==> last.None?)
    && (v.shouldSleep <==> last.Some? && first.value.shouldBlock)
    && v.sleepSeconds == (if v.shouldSleep then SleepFor(last.value, c, env) else 0)
    && (v.unknownReset <==> v.shouldSleep && last.value.resetsAt.None?)
  }

  /** The snapshot that a check starts from: the cached one while it is fresh, else the fetched one. */
  ghost predicate StartsFromCache(cache: Cache, c: Config, env: Env) {
    cache.Snapshot? && env.now - cache.fetchedAt <= c.maxAge * 1_000_000
  }

  ghost predicate StartBlocks(cache: Cache, c: Config, env: Env) {
    if StartsFromCache(cache, c, env) then cache.binding.shouldBlock
    else env.first.Fetched? && exists w :: w in env.first.windows && Exhausted(w, c.policy)
  }

  ghost predicate StartResetKnown(cache: Cache, c: Config, env: Env) {
    if StartsFromCache(cache, c, env) then cache.binding.resetsAt.Some?
    else env.first.Fetched? && ComputeBinding(env.first.windows, c.policy).resetsAt.Some?
  }

  /** When the guard sleeps and for how long. It sleeps exactly when the snapshot it starts from blocks and, if the
      reset is known, the second fetch succeeds; it reports an error exactly when a fetch that was needed failed. With
      a known reset after the second fetch and a buffer of a second or more, the sleep reaches every known reset of a
      window exhausted then; with an unknown one it is the buffer, but at least a minute. */
  lemma AnswersMeaning(cache: Cache, c: Config, env: Env, v: Verdict)
    requires Answers(cache, c, env, v)
    ensures v.shouldSleep <==>
      StartBlocks(cache, c, env) && (!StartResetKnown(cache, c, env) || env.second.Fetched?)
    ensures v.status ==
      if v.error then None
      else if StartBlocks(cache, c, env) && StartResetKnown(cache, c, env) then
        Some(ComputeBinding(env.second.windows, c.policy))
      else if StartsFromCache(cache, c, env) then Some(cache.binding)
      else Some(ComputeBinding(env.first.windows, c.policy))
    ensures v.error <==>
      || (!StartsFromCache(cache, c, env) && env.first.Failed?)
      || (StartBlocks(cache, c, env) && StartResetKnown(cache, c, env) && env.second.Failed?)
    ensures !v.shouldSleep ==> v.sleepSeconds == 0
    ensures v.shouldSleep && !StartResetKnown(cache, c, env) ==>
      v.unknownReset && v.sleepSeconds == if c.buffer > 60 then c.buffer else 60
    ensures v.shouldSleep && StartResetKnown(cache, c, env) ==>
      var reset := ComputeBinding(env.second.windows, c.policy).resetsAt;
      && (v.unknownReset <==> reset.None?)
      && (reset.None? ==> v.sleepSeconds == if c.buffer > 60 then c.buffer else 60)
      && (reset.Some? && c.buffer >= 1 ==> forall w ::
        w in env.second.windows && Exhausted(w, c.policy) && w.resetsAt.Some? ==>
          env.later + v.sleepSeconds * 1_000_000 >= w.resetsAt.value)
      && (reset.Some? && v.sleepSeconds > 0 ==>
        env.later + v.sleepSeconds * 1_000_000 <= reset.value + c.buffer * 1_000_000)
      && (reset.Some? ==> env.later + v.sleepSeconds * 1_000_000 > reset.value + c.buffer * 1_000_000 - 1_000_000)
  {
    hide ComputeBinding, SleepSeconds, Exhausted;
    if env.first.Fetched? {
      BlocksWhenExhausted(env.first.windows, c.policy);
    }
    if env.second.Fetched? {
      BlocksWhenExhausted(env.second.windows, c.policy);
      var reset := ComputeBinding(env.second.windows, c.policy).resetsAt;
      if reset.Some? {
        SleepBounds(reset.value, c.buffer);
        if c.buffer >= 1 && AnyExhausted(env.second.windows, c.policy) {
          SleepOutlastsAll(env.second.windows, c.policy, c.buffer, env.later);
        }
      }
    }
  }

  /** The second fetch is not asked whether it still blocks: a check that starts from a blocking status ends with one
      that does not exactly when the reset was known and no window of the second fetch is exhausted. It sleeps all the
      same. */
  lemma SleepsUnblocked(cache: Cache, c: Config, env: Env)
    requires var first := FirstStatus(cache, c, env); first.Some? && first.value.shouldBlock
    ensures var first, last := FirstStatus(cache, c, env), LastStatus(cache, c, env);
      (last.Some? && !last.value.shouldBlock)
      <==> first.value.resetsAt.Some? && env.second.Fetched? && !AnyExhausted(env.second.windows, c.policy)
  {
    if env.second.Fetched? {
      BindingMeaning(env.second.windows, c.policy);
    }
  }

  /** The first of January 2025. */
  const NEW_YEAR := 63_871_286_400 * SECOND

  /** A window that is reset between the two fetches: 10% used, and five hours of sleep. */
  lemma SleepsUnblockedExample()
    ensures var c := Config(true, Policy(85.0, 98.0, [], true, true), 60, 300);
      var full := Window("five_hour", 90.0, Some(NEW_YEAR + SECOND));
      var empty := Window("five_hour", 10.0, Some(NEW_YEAR + 18_000 * SECOND));
      var env := Env(NEW_YEAR, Fetched([full], NEW_YEAR), true, Fetched([empty], NEW_YEAR), true, NEW_YEAR);
      var first, last := FirstStatus(Missing, c, env), LastStatus(Missing, c, env);
      && first.Some? && first.value.shouldBlock && last.Some? && !last.value.shouldBlock
      && SleepFor(last.value, c, env) == 18_060
  {
    hide ComputeBinding;
    var p := Policy(85.0, 98.0, [], true, true);
    OnlyWindow(Window("five_hour", 90.0, Some(NEW_YEAR + SECOND)), p);
    OnlyWindow(Window("five_hour", 10.0, Some(NEW_YEAR + 18_000 * SECOND)), p);
  }
}
