/** The hook registry: which commands are ours, how they are built, and how many scripts a settings file misses or has
    too many. */
module HookRegistry {
  import opened Wrappers
  import opened Text

  datatype HookDef = HookDef(matcher: string, eventType: string, scripts: seq<string>, timeout: Option<nat>)

  /** The definitions, the script names once used, the hash, and the order in which a set of the present script names
      happens to be iterated. */
  datatype Registry = Registry(defs: seq<HookDef>, retired: set<string>, hash: string, listing: seq<string>)

  /** A hook of a settings file; `other` holds the JSON texts of the remaining keys. */
  datatype Hook = Hook(command: Option<string>, other: map<string, string>)

  datatype Entry = Entry(matcher: Option<string>, hooks: Option<seq<Hook>>, other: map<string, string>)

  /** The `hooks` object: event types in their order, and a list of entries for each. */
  datatype Events = Events(order: seq<string>, at: map<string, seq<Entry>>) {
    ghost predicate Valid() {
      && (forall e :: e in order <==> e in at)
      && forall i, j :: 0 <= i < j < |order| ==> order[i] != order[j]
    }

    function Of(e: string): seq<Entry> {
      if e in at then at[e] else []
    }
  }

  const NO_EVENTS := Events([], map[])

  function HooksOf(entry: Entry): seq<Hook> {
    if entry.hooks.Some? then entry.hooks.value else []
  }

  function CommandOf(h: Hook): string {
    if h.command.Some? then h.command.value else ""
  }

  // ---- Ownership ----

  function AllScripts(defs: seq<HookDef>): seq<string> {
    if defs == [] then [] else defs[0].scripts + AllScripts(defs[1..])
  }

  /** The last component of a path that does not end in a slash. */
  function BaseName(path: string): string {
    if path == "" || path[|path| - 1] == '/' then ""
    else BaseName(path[..|path| - 1]) + [path[|path| - 1]]
  }

  predicate EndsWith(s: string, suffix: string) {
    |s| >= |suffix| && s[|s| - |suffix|..] == suffix
  }

  predicate Names(command: string, script: string) {
    EndsWith(command, script) || Contains(command, "/" + script)
  }

  predicate IsOwnHook(command: string, reg: Registry) {
    || Contains(command, "autoskillit")
    || Contains(command, "_dispatch.py")
    || (exists s :: s in AllScripts(reg.defs) && (Names(command, s) || Names(command, BaseName(s))))
    || (exists s :: s in reg.retired && (Names(command, s) || Names(command, BaseName(s))))
  }

  predicate IsOwn(h: Hook, reg: Registry) {
    IsOwnHook(CommandOf(h), reg)
  }

  // ---- Commands ----

  /** `script.removesuffix(".py")` */
  function Stem(script: string): string {
    if EndsWith(script, ".py") then script[..|script| - 3] else script
  }

  function Command(hooksDir: string, script: string): string {
    "python3 " + (hooksDir + "/_dispatch.py") + (" " + Stem(script))
  }

  function BuildHook(hooksDir: string, script: string, timeout: Option<nat>): Hook {
    Hook(Some(Command(hooksDir, script)),
         map["type" := "\"command\""] + if timeout.Some? then map["timeout" := Dec(timeout.value)] else map[])
  }

  // ---- Words ----

  /** The characters of `str.isspace`. */
  predicate IsSpace(c: char) {
    var n := c as int;
    || n == 0x20 || 0x9 <= n <= 0xD || 0x1C <= n <= 0x1F || n == 0x85 || n == 0xA0 || n == 0x1680
    || 0x2000 <= n <= 0x200A || n == 0x2028 || n == 0x2029 || n == 0x202F || n == 0x205F || n == 0x3000
  }

  predicate NoSpace(s: string) {
    forall i :: 0 <= i < |s| ==> !IsSpace(s[i])
  }

  function WordEnd(s: string, i: nat): (j: nat)
    requires i <= |s|
    ensures i <= j <= |s| && (j < |s| ==> IsSpace(s[j]))
    ensures forall k :: i <= k < j ==> !IsSpace(s[k])
    decreases |s| - i
  {
    if i < |s| && !IsSpace(s[i]) then WordEnd(s, i + 1) else i
  }

  /** `s.split()` */
  function Words(s: string): seq<string> {
    if s == "" then []
    else if IsSpace(s[0]) then Words(s[1..])
    else var n := WordEnd(s, 0); [s[..n]] + Words(s[n..])
  }

  lemma {:induction false} WordEndIs(s: string, i: nat, j: nat)
    requires i <= j <= |s| && (forall k :: i <= k < j ==> !IsSpace(s[k])) && (j < |s| ==> IsSpace(s[j]))
    ensures WordEnd(s, i) == j
    decreases j - i
  {
    if i < j {
      WordEndIs(s, i + 1, j);
    }
  }

  /** Splitting at a space. */
  lemma {:induction false} WordsAppend(a: string, b: string)
    ensures Words(a + " " + b) == Words(a) + Words(b)
    decreases |a|
  {
    var s := a + " " + b;
    if a == "" {
      assert s[1..] == b;
    } else if IsSpace(a[0]) {
      WordsAppend(a[1..], b);
      assert s[1..] == a[1..] + " " + b;
    } else {
      var n := WordEnd(a, 0);
      WordEndIs(s, 0, n);
      WordsAppend(a[n..], b);
      assert s[n..] == a[n..] + " " + b && s[..n] == a[..n];
    }
  }

  lemma {:induction false} WordsAreWords(s: string)
    ensures forall w :: w in Words(s) ==> w != "" && NoSpace(w)
    ensures (exists i :: 0 <= i < |s| && !IsSpace(s[i])) <==> Words(s) != []
  {
    if s != "" {
      if IsSpace(s[0]) {
        WordsAreWords(s[1..]);
        assert forall i :: 1 <= i < |s| ==> s[i] == s[1..][i - 1];
      } else {
        WordsAreWords(s[WordEnd(s, 0)..]);
      }
    }
  }

  lemma OneWord(s: string)
    requires s != "" && NoSpace(s)
    ensures Words(s) == [s]
  {
    WordEndIs(s, 0, |s|);
    assert s[|s|..] == "" && s[..|s|] == s;
  }

  // ---- Drift ----

  function FirstNamed(scripts: seq<string>, bare: string): string {
    if scripts == [] then bare
    else if BaseName(scripts[0]) == bare then scripts[0]
    else FirstNamed(scripts[1..], bare)
  }

  /** The script that one of our commands runs. */
  function ScriptOf(command: string, reg: Registry): string {
    var parts := Words(command);
    if parts == [] then ""
    else if Contains(command, "_dispatch.py") && |parts| >= 3 then parts[|parts| - 1] + ".py"
    else FirstNamed(reg.listing, BaseName(parts[|parts| - 1]))
  }

  function DeployedBy(hooks: seq<Hook>, reg: Registry): set<string> {
    set h | h in hooks && CommandOf(h) != "" && IsOwn(h, reg) :: ScriptOf(CommandOf(h), reg)
  }

  function DeployedIn(entries: seq<Entry>, reg: Registry): set<string> {
    set entry, name | entry in entries && name in DeployedBy(HooksOf(entry), reg) :: name
  }

  /** The scripts that the entries of a settings file run. */
  function Deployed(events: Events, reg: Registry): set<string> {
    set e, name | e in events.order && name in DeployedIn(events.Of(e), reg) :: name
  }

  function Canonical(reg: Registry): set<string> {
    set s | s in AllScripts(reg.defs)
  }

  /** The first `n` event types. */
  function DeployedUpTo(events: Events, n: nat, reg: Registry): set<string>
    requires n <= |events.order|
  {
    set e, name | e in events.order[..n] && name in DeployedIn(events.Of(e), reg) :: name
  }

  lemma DeployedStep(hooks: seq<Hook>, k: nat, reg: Registry)
    requires k < |hooks|
    ensures DeployedBy(hooks[..k + 1], reg) == DeployedBy(hooks[..k], reg)
         + if CommandOf(hooks[k]) != "" && IsOwn(hooks[k], reg) then {ScriptOf(CommandOf(hooks[k]), reg)} else {}
  {
    hide IsOwn, ScriptOf;
    assert hooks[..k + 1] == hooks[..k] + [hooks[k]];
  }

  lemma DeployedInStep(entries: seq<Entry>, j: nat, reg: Registry)
    requires j < |entries|
    ensures DeployedIn(entries[..j + 1], reg) == DeployedIn(entries[..j], reg) + DeployedBy(HooksOf(entries[j]), reg)
  {
    hide DeployedBy;
    assert entries[..j + 1] == entries[..j] + [entries[j]];
  }

  lemma DeployedUpToStep(events: Events, i: nat, reg: Registry)
    requires i < |events.order|
    ensures DeployedUpTo(events, i + 1, reg) ==
      DeployedUpTo(events, i, reg) + DeployedIn(events.Of(events.order[i]), reg)
  {
    hide DeployedIn;
    assert events.order[..i + 1] == events.order[..i] + [events.order[i]];
  }

  method ExtractScripts(events: Events, reg: Registry) returns (result: set<string>)
    ensures result == Deployed(events, reg)
  {
    result := {};
    assert events.order[..|events.order|] == events.order;
    assert Deployed(events, reg) == DeployedUpTo(events, |events.order|, reg);
    hide IsOwn, ScriptOf, DeployedIn, DeployedUpTo, DeployedBy, Deployed;
    for i := 0 to |events.order|
      invariant result == DeployedUpTo(events, i, reg)
    {
      DeployedUpToStep(events, i, reg);
      var before := result;
      var entries := events.Of(events.order[i]);
      for j := 0 to |entries|
        invariant result == before + DeployedIn(entries[..j], reg)
      {
        DeployedInStep(entries, j, reg);
        var before' := result;
        var hooks := HooksOf(entries[j]);
        for k := 0 to |hooks|
          invariant result == before' + DeployedBy(hooks[..k], reg)
        {
          DeployedStep(hooks, k, reg);
          var command := CommandOf(hooks[k]);
          if command == "" || !IsOwn(hooks[k], reg) {
            continue;
          }
          result := result + {ScriptOf(command, reg)};
        }
        assert hooks[..|hooks|] == hooks;
      }
      assert entries[..|entries|] == entries;
    }
  }

  /** Scripts not deployed yet, and deployed scripts that the registry does not know. */
  method CountDrift(events: Events, reg: Registry) returns (missing: nat, orphaned: nat)
    ensures missing == |Canonical(reg) - Deployed(events, reg)| && orphaned == |Deployed(events, reg) - Canonical(reg)|
  {
    var deployed := ExtractScripts(events, reg);
    missing, orphaned := |Canonical(reg) - deployed|, |deployed - Canonical(reg)|;
  }

  // ---- Built commands ----

  lemma BuiltIsOwn(hooksDir: string, script: string, reg: Registry)
    ensures Contains(Command(hooksDir, script), "_dispatch.py") && IsOwnHook(Command(hooksDir, script), reg)
  {
    var command := Command(hooksDir, script);
    var i := |"python3 " + hooksDir + "/"|;
    assert command[i..] == "_dispatch.py" + (" " + Stem(script));
    assert At(command, "_dispatch.py", i);
  }

  lemma Named(pre: string, name: string, post: string)
    ensures Names(pre + name, name) && Names(pre + "/" + name + post, name)
  {
    assert (pre + name)[|pre|..] == name;
    var command := pre + "/" + name + post;
    assert command == pre + ("/" + name) + post && command[|pre|..] == ("/" + name) + post;
    assert At(command, "/" + name, |pre|);
  }

  /** A command is ours if it ends with a script that is or was registered, or names one after a slash: by the script's
      path or its last component alone. */
  lemma ScriptsAreOwn(reg: Registry, pre: string, script: string, post: string)
    requires script in AllScripts(reg.defs) || script in reg.retired
    ensures IsOwnHook(pre + script, reg) && IsOwnHook(pre + "/" + script + post, reg)
    ensures IsOwnHook(pre + BaseName(script), reg) && IsOwnHook(pre + "/" + BaseName(script) + post, reg)
  {
    hide Names, AllScripts, BaseName, Contains;
    Named(pre, script, post);
    Named(pre, BaseName(script), post);
  }

  /** A hook that hands a script to the dispatcher, by its stem, with a timeout if there is one. */
  ghost predicate RunsScript(h: Hook, hooksDir: string, script: string, timeout: Option<nat>) {
    && h.command == Some("python3 " + hooksDir + "/_dispatch.py " + Stem(script))
    && h.other.Keys == (if timeout.Some? then {"type", "timeout"} else {"type"})
    && h.other["type"] == "\"command\"" && (timeout.Some? ==> h.other["timeout"] == Dec(timeout.value))
  }

  lemma CommandText(hooksDir: string, name: string)
    ensures "python3 " + (hooksDir + "/_dispatch.py") + (" " + name) == "python3 " + hooksDir + "/_dispatch.py " + name
  {
    assert "/_dispatch.py" + " " == "/_dispatch.py ";
  }

  lemma BuiltRunsScript(hooksDir: string, script: string, timeout: Option<nat>)
    ensures RunsScript(BuildHook(hooksDir, script, timeout), hooksDir, script, timeout)
  {
    hide Stem, Dec;
    CommandText(hooksDir, Stem(script));
  }

  lemma StemMeans(name: string)
    ensures Stem(name + ".py") == name && (!EndsWith(name, ".py") ==> Stem(name) == name)
  {
    assert (name + ".py")[|name|..] == ".py";
  }

  /** A script that survives being cut to its stem and read back from a command line. */
  predicate Tidy(script: string) {
    EndsWith(script, ".py") && |script| > 3 && NoSpace(script)
  }

  lemma CommandParts(hooksDir: string, script: string)
    ensures var path := hooksDir + "/_dispatch.py";
      Words(path) != [] && Words(Command(hooksDir, script)) == ["python3"] + Words(path) + Words(Stem(script))
  {
    var path := hooksDir + "/_dispatch.py";
    PathHasWord(hooksDir);
    OneWord("python3");
    hide Words;
    WordsAppend("python3", path);
    WordsAppend("python3" + " " + path, Stem(script));
    assert "python3" + " " == "python3 ";
    assert Command(hooksDir, script) == "python3" + " " + path + " " + Stem(script);
  }

  lemma PathHasWord(hooksDir: string)
    ensures Words(hooksDir + "/_dispatch.py") != []
  {
    var path := hooksDir + "/_dispatch.py";
    assert path[|hooksDir|] == '/';
    WordsAreWords(path);
  }

  lemma TidyIsReadBack(hooksDir: string, script: string, reg: Registry)
    requires Tidy(script)
    ensures ScriptOf(Command(hooksDir, script), reg) == script
  {
    CommandParts(hooksDir, script);
    OneWord(Stem(script));
    BuiltIsOwn(hooksDir, script, reg);
  }

  // ---- When the registry is read back ----

  lemma {:induction false} LastWordEnds(a: string, w: string)
    requires w != "" && NoSpace(w)
    ensures var words := Words(a + w); words != [] && EndsWith(words[|words| - 1], w)
    decreases |a|
  {
    var s := a + w;
    if a == "" {
      OneWord(w);
      assert s == w;
    } else if IsSpace(a[0]) {
      LastWordEnds(a[1..], w);
      assert s[1..] == a[1..] + w;
    } else if NoSpace(a) {
      OneWord(s);
      assert s[|a|..] == w;
    } else {
      var n := WordEnd(s, 0);
      var k :| 0 <= k < |a| && IsSpace(a[k]);
      assert s[k] == a[k] && n < |a|;
      LastWordEnds(a[n..], w);
      assert s[n..] == a[n..] + w;
    }
  }

  lemma {:induction false} BaseNameOf(a: string, b: string)
    requires '/' !in b
    ensures BaseName(a + "/" + b) == b
    decreases |b|
  {
    var path := a + "/" + b;
    if b != "" {
      var front := b[..|b| - 1];
      BaseNameOf(a, front);
      assert path[..|path| - 1] == a + "/" + front;
    }
  }

  lemma {:induction false} BareIsBare(b: string)
    requires '/' !in b
    ensures BaseName(b) == b
  {
    if b != "" {
      BareIsBare(b[..|b| - 1]);
    }
  }

  lemma {:induction false} FirstNamedIsNamed(scripts: seq<string>, bare: string)
    requires BaseName(bare) == bare
    ensures BaseName(FirstNamed(scripts, bare)) == bare
  {
    if scripts != [] && BaseName(scripts[0]) != bare {
      FirstNamedIsNamed(scripts[1..], bare);
    }
  }

  /** Whatever a built command runs, it is tidy or, when the stem is blank, the dispatcher itself. */
  lemma ReadBackIsTidy(hooksDir: string, script: string, reg: Registry)
    ensures var read := ScriptOf(Command(hooksDir, script), reg);
      Tidy(read) || (Words(Stem(script)) == [] && BaseName(read) == "_dispatch.py")
  {
    hide Words, BaseName, FirstNamed, IsOwnHook, Command, Stem, Tidy, Contains, EndsWith;
    var command := Command(hooksDir, script);
    var words := Words(command);
    WordsAreWords(command);
    BuiltIsOwn(hooksDir, script, reg);
    CommandParts(hooksDir, script);
    if |words| >= 3 {
      assert words[|words| - 1] in words;
      WordIsTidy(words[|words| - 1]);
    } else {
      LastWordEnds(hooksDir, "/_dispatch.py");
      LastIsDispatcher(words[|words| - 1]);
      BareIsBare("_dispatch.py");
      FirstNamedIsNamed(reg.listing, "_dispatch.py");
    }
  }

  lemma WordIsTidy(word: string)
    requires word != "" && NoSpace(word)
    ensures Tidy(word + ".py")
  {
  }

  lemma LastIsDispatcher(word: string)
    requires EndsWith(word, "/_dispatch.py")
    ensures BaseName(word) == "_dispatch.py"
  {
    var n := |word| - |"/_dispatch.py"|;
    assert word == word[..n] + ("/" + "_dispatch.py") == word[..n] + "/" + "_dispatch.py";
    BaseNameOf(word[..n], "_dispatch.py");
  }

  lemma {:induction false} EndsWithBaseName(path: string)
    ensures EndsWith(path, BaseName(path))
  {
    if path != "" && path[|path| - 1] != '/' {
      EndsWithBaseName(path[..|path| - 1]);
    }
  }

  /** A script with a blank stem is not called `_dispatch.py`. */
  lemma DispatcherHasStem(script: string)
    requires BaseName(script) == "_dispatch.py"
    ensures Words(Stem(script)) != []
  {
    EndsWithBaseName(script);
    hide Words, BaseName;
    var i := |script| - |"_dispatch.py"|;
    assert script[i] == script[i..][0] == '_';
    assert Stem(script)[i] == '_';
    WordsAreWords(Stem(script));
  }

  lemma TidyHasStem(script: string)
    requires Tidy(script)
    ensures Words(Stem(script)) != []
  {
    assert !IsSpace(Stem(script)[0]);
    WordsAreWords(Stem(script));
  }

  /** If some script is untidy, then one is missing among those read back. */
  lemma UntidyIsMissing(hooksDir: string, reg: Registry) returns (missing: string)
    requires exists s :: s in AllScripts(reg.defs) && !Tidy(s)
    ensures missing in AllScripts(reg.defs)
    ensures forall s :: s in AllScripts(reg.defs) ==> ScriptOf(Command(hooksDir, s), reg) != missing
  {
    hide *;
    var scripts := AllScripts(reg.defs);
    if s :| s in scripts && !Tidy(s) && BaseName(s) != "_dispatch.py" {
      missing := s;
    } else {
      missing :| missing in scripts && !Tidy(missing);
    }
    forall s | s in scripts
      ensures ScriptOf(Command(hooksDir, s), reg) != missing
    {
      ReadBackIsTidy(hooksDir, s, reg);
      if Tidy(s) {
        TidyHasStem(s);
      } else if BaseName(s) == "_dispatch.py" {
        DispatcherHasStem(s);
      }
    }
  }
}
