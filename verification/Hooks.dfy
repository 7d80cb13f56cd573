/** Our entries in a settings file: evicted, then written anew. */
module Hooks {
  import opened Wrappers
  import opened HookRegistry

  /** A settings document; `other` holds the JSON texts of the keys that are none of ours. */
  datatype Document = Document(hooks: Option<Events>, hash: Option<string>, other: map<string, string>) {
    function At(e: string): seq<Entry> {
      if hooks.Some? then hooks.value.Of(e) else []
    }

    ghost predicate Valid() {
      hooks.Some? ==> hooks.value.Valid()
    }
  }

  const EMPTY_DOCUMENT := Document(None, None, map[])

  // ---- Eviction ----

  function Foreign(hooks: seq<Hook>, reg: Registry): seq<Hook> {
    if hooks == [] then []
    else
      var front, last := Foreign(hooks[..|hooks| - 1], reg), hooks[|hooks| - 1];
      if IsOwn(last, reg) then front else front + [last]
  }

  /** Entries without our hooks; an entry that has no others goes. */
  function Clean(entries: seq<Entry>, reg: Registry): seq<Entry> {
    if entries == [] then []
    else
      var front, last := Clean(entries[..|entries| - 1], reg), entries[|entries| - 1];
      var foreign := Foreign(HooksOf(last), reg);
      if foreign == [] then front else front + [last.(hooks := Some(foreign))]
  }

  function CleanEvents(events: Events, reg: Registry): Events {
    Events(events.order, map e | e in events.at :: Clean(events.at[e], reg))
  }

  function Evicted(doc: Document, reg: Registry): Document {
    if doc.hooks.None? then doc else doc.(hooks := Some(CleanEvents(doc.hooks.value, reg)))
  }

  // ---- The entries of a registry ----

  type Key = (string, string)

  function KeyOf(def: HookDef): Key {
    (def.eventType, def.matcher)
  }

  /** Event type and matcher of each definition, each pair once, where it comes first. */
  function Keys(defs: seq<HookDef>): seq<Key> {
    if defs == [] then []
    else
      var front, key := Keys(defs[..|defs| - 1]), KeyOf(defs[|defs| - 1]);
      if key in front then front else front + [key]
  }

  function Built(def: HookDef, hooksDir: string): seq<Hook> {
    seq(|def.scripts|, i requires 0 <= i < |def.scripts| => BuildHook(hooksDir, def.scripts[i], def.timeout))
  }

  /** The commands of all definitions with one key, in order. */
  function HooksFor(defs: seq<HookDef>, hooksDir: string, key: Key): seq<Hook> {
    if defs == [] then []
    else
      HooksFor(defs[..|defs| - 1], hooksDir, key)
      + if KeyOf(defs[|defs| - 1]) == key then Built(defs[|defs| - 1], hooksDir) else []
  }

  function BuildEntry(key: Key, hooks: seq<Hook>): Entry {
    Entry(if key.0 == "SessionStart" then None else Some(key.1), Some(hooks), map[])
  }

  /** The entries that the registry adds to one event type. */
  function EntriesFor(reg: Registry, hooksDir: string, keys: seq<Key>, e: string): seq<Entry> {
    if keys == [] then []
    else
      var front, key := EntriesFor(reg, hooksDir, keys[..|keys| - 1], e), keys[|keys| - 1];
      if key.0 == e then front + [BuildEntry(key, HooksFor(reg.defs, hooksDir, key))] else front
  }

  /** Event types that are new go to the end. */
  function AddEvents(order: seq<string>, keys: seq<Key>): seq<string> {
    if keys == [] then order
    else
      var front, key := AddEvents(order, keys[..|keys| - 1]), keys[|keys| - 1];
      if key.0 in front then front else front + [key.0]
  }

  function AddEntries(events: Events, reg: Registry, hooksDir: string, keys: seq<Key>): Events {
    var order := AddEvents(events.order, keys);
    Events(order, map e | e in order :: events.Of(e) + EntriesFor(reg, hooksDir, keys, e))
  }

  function Synced(doc: Document, reg: Registry, hooksDir: string): Document {
    var keys := Keys(reg.defs);
    Document(if keys == [] then doc.hooks
             else Some(AddEntries(if doc.hooks.Some? then doc.hooks.value else NO_EVENTS, reg, hooksDir, keys)),
             Some(reg.hash), doc.other)
  }

  /** Evict, then sync. */
  function Installed(doc: Document, reg: Registry, hooksDir: string): Document {
    Synced(Evicted(doc, reg), reg, hooksDir)
  }

  // ---- The file ----

  predicate Distinct(keys: seq<Key>) {
    forall i, j :: 0 <= i < j < |keys| ==> keys[i] != keys[j]
  }

  lemma {:induction false} KeysAreKeys(defs: seq<HookDef>)
    ensures forall k :: k in Keys(defs) <==> exists i :: 0 <= i < |defs| && KeyOf(defs[i]) == k
    ensures Distinct(Keys(defs))
  {
    if defs != [] {
      var front, last := defs[..|defs| - 1], defs[|defs| - 1];
      KeysAreKeys(front);
      assert defs == front + [last];
      var keys := Keys(front);
      assert KeyOf(last) !in keys ==> forall i :: 0 <= i < |keys| ==> keys[i] != KeyOf(last);
      forall k
        ensures k in Keys(defs) <==> exists i :: 0 <= i < |defs| && KeyOf(defs[i]) == k
      {
        assert k in Keys(defs) <==> k in Keys(front) || k == KeyOf(last);
        if k in Keys(front) {
          var i :| 0 <= i < |front| && KeyOf(front[i]) == k;
          assert KeyOf(defs[i]) == k;
        }
        assert KeyOf(defs[|defs| - 1]) == KeyOf(last);
        assert forall i :: 0 <= i < |front| ==> KeyOf(defs[i]) == KeyOf(front[i]);
      }
    }
  }

  lemma {:induction false} NoHooksWithoutKey(defs: seq<HookDef>, hooksDir: string, key: Key)
    requires key !in Keys(defs)
    ensures HooksFor(defs, hooksDir, key) == []
  {
    if defs != [] {
      NoHooksWithoutKey(defs[..|defs| - 1], hooksDir, key);
    }
  }

  /** A settings file; `None` when it is missing or not readable as JSON. */
  class SettingsFile {
    var doc: Option<Document>

    constructor (doc: Option<Document>)
      ensures this.doc == doc
    {
      this.doc := doc;
    }

    function Load(): Document
      reads this
    {
      if doc.Some? then doc.value else EMPTY_DOCUMENT
    }

    method Evict(reg: Registry)
      requires Load().Valid()
      modifies this
      ensures doc == Some(Evicted(old(Load()), reg)) && doc.value.Valid()
    {
      var data := Load();
      if data.hooks.Some? {
        var cleaned := EvictEvents(data.hooks.value, reg);
        data := data.(hooks := Some(cleaned));
      }
      doc := Some(data);
    }

    /** Refuses in a linked worktree, and then leaves the file alone. */
    method Sync(reg: Registry, hooksDir: string, inWorktree: bool) returns (refused: bool)
      requires Load().Valid()
      modifies this
      ensures refused == inWorktree
      ensures doc == if refused then old(doc) else Some(Synced(old(Load()), reg, hooksDir))
      ensures Load().Valid()
    {
      hide HooksFor, BuildEntry, AddEntries, Keys;
      if inWorktree {
        return true;
      }
      var data := Load();
      var keys, groups := GroupRegistry(reg, hooksDir);
      var events := data.hooks;
      for i := 0 to |keys|
        invariant events == if i == 0 then data.hooks
          else Some(AddEntries(if data.hooks.Some? then data.hooks.value else NO_EVENTS, reg, hooksDir, keys[..i]))
        invariant events.Some? ==> events.value.Valid()
      {
        assert keys[..i + 1][..i] == keys[..i];
        var e := keys[i].0;
        var before := if events.Some? then events.value else NO_EVENTS;
        ghost var base := if data.hooks.Some? then data.hooks.value else NO_EVENTS;
        AddNone(base, reg, hooksDir);
        assert keys[..0] == [];
        AddOne(base, reg, hooksDir, keys[..i + 1]);
        events := Some(Events(if e in before.at then before.order else before.order + [e],
                              before.at[e := before.Of(e) + [groups[keys[i]]]]));
      }
      assert keys[..|keys|] == keys;
      doc := Some(data.(hooks := events, hash := Some(reg.hash)));
      refused := false;
    }
  }

  /** Seen from one event type: its entries, then the added ones. */
  lemma EntriesAfter(events: Events, reg: Registry, hooksDir: string, keys: seq<Key>, e: string)
    requires events.Valid()
    ensures AddEntries(events, reg, hooksDir, keys).Of(e) == events.Of(e) + EntriesFor(reg, hooksDir, keys, e)
  {
    hide EntriesFor, AddEvents;
    AddEventsKeeps(events.order, keys);
    NoEntriesWithoutEvent(reg, hooksDir, events.order, keys);
  }

  lemma AddNone(events: Events, reg: Registry, hooksDir: string)
    requires events.Valid()
    ensures AddEntries(events, reg, hooksDir, []) == events
  {
    var after := AddEntries(events, reg, hooksDir, []);
    forall e
      ensures after.Of(e) == events.Of(e)
    {
      EntriesAfter(events, reg, hooksDir, [], e);
    }
    assert forall e :: e in after.at ==> after.at[e] == after.Of(e);
    assert after.at == events.at;
  }

  lemma AddEventsStep(order: seq<string>, keys: seq<Key>)
    requires keys != []
    ensures var front, key := AddEvents(order, keys[..|keys| - 1]), keys[|keys| - 1];
      AddEvents(order, keys) == if key.0 in front then front else front + [key.0]
  {
  }

  lemma EntriesStep(reg: Registry, hooksDir: string, keys: seq<Key>, e: string)
    requires keys != []
    ensures var front, key := EntriesFor(reg, hooksDir, keys[..|keys| - 1], e), keys[|keys| - 1];
      EntriesFor(reg, hooksDir, keys, e)
        == front + if key.0 == e then [BuildEntry(key, HooksFor(reg.defs, hooksDir, key))] else []
  {
  }

  /** One more entry: its event type is made when missing. */
  lemma AddOne(events: Events, reg: Registry, hooksDir: string, keys: seq<Key>)
    requires events.Valid() && keys != []
    ensures var key := keys[|keys| - 1];
      var before, after :=
        AddEntries(events, reg, hooksDir, keys[..|keys| - 1]), AddEntries(events, reg, hooksDir, keys);
      && after.order == (if key.0 in before.order then before.order else before.order + [key.0])
      && after.at == before.at[key.0 := before.Of(key.0) + [BuildEntry(key, HooksFor(reg.defs, hooksDir, key))]]
  {
    hide HooksFor, BuildEntry, EntriesFor, AddEvents;
    AddEventsKeeps(events.order, keys[..|keys| - 1]);
    var front, key := keys[..|keys| - 1], keys[|keys| - 1];
    AddEventsStep(events.order, keys);
    var before, after := AddEntries(events, reg, hooksDir, front), AddEntries(events, reg, hooksDir, keys);
    var at := before.at[key.0 := before.Of(key.0) + [BuildEntry(key, HooksFor(reg.defs, hooksDir, key))]];
    assert after.at.Keys == at.Keys;
    forall e | e in after.at
      ensures after.at[e] == at[e]
    {
      AddOneAt(events, reg, hooksDir, keys, e);
      assert after.at[e] == after.Of(e);
    }
  }

  lemma AddOneAt(events: Events, reg: Registry, hooksDir: string, keys: seq<Key>, e: string)
    requires events.Valid() && keys != []
    ensures var key := keys[|keys| - 1];
      AddEntries(events, reg, hooksDir, keys).Of(e) == AddEntries(events, reg, hooksDir, keys[..|keys| - 1]).Of(e)
        + if e == key.0 then [BuildEntry(key, HooksFor(reg.defs, hooksDir, key))] else []
  {
    hide *;
    EntriesAfter(events, reg, hooksDir, keys[..|keys| - 1], e);
    EntriesAfter(events, reg, hooksDir, keys, e);
    EntriesStep(reg, hooksDir, keys, e);
  }

  lemma {:induction false} AddEventsKeeps(order: seq<string>, keys: seq<Key>)
    ensures forall e :: e in order ==> e in AddEvents(order, keys)
    ensures forall i :: 0 <= i < |keys| ==> keys[i].0 in AddEvents(order, keys)
  {
    if keys != [] {
      AddEventsKeeps(order, keys[..|keys| - 1]);
    }
  }

  lemma {:induction false} NoEntriesWithoutEvent(reg: Registry, hooksDir: string, order: seq<string>, keys: seq<Key>)
    ensures forall e :: e !in AddEvents(order, keys) ==> EntriesFor(reg, hooksDir, keys, e) == []
  {
    if keys != [] {
      NoEntriesWithoutEvent(reg, hooksDir, order, keys[..|keys| - 1]);
    }
  }

  /** The outer loop of eviction. */
  method EvictEvents(events: Events, reg: Registry) returns (cleaned: Events)
    requires events.Valid()
    ensures cleaned == CleanEvents(events, reg)
  {
    hide Clean;
    var order, at := events.order, events.at;
    for i := 0 to |order|
      invariant at.Keys == events.at.Keys
      invariant forall e :: e in order[..i] ==> at[e] == Clean(events.at[e], reg)
      invariant forall e :: e in events.at && e !in order[..i] ==> at[e] == events.at[e]
    {
      assert order[..i + 1] == order[..i] + [order[i]];
      assert order[i] !in order[..i];
      var entries := CleanEntries(at[order[i]], reg);
      at := at[order[i] := entries];
    }
    assert order[..|order|] == order;
    cleaned := Events(order, at);
  }

  /** The inner loop of eviction. */
  method CleanEntries(entries: seq<Entry>, reg: Registry) returns (cleaned: seq<Entry>)
    ensures cleaned == Clean(entries, reg)
  {
    cleaned := [];
    for i := 0 to |entries|
      invariant cleaned == Clean(entries[..i], reg)
    {
      assert entries[..i + 1][..i] == entries[..i];
      var nonOwn := Foreign(HooksOf(entries[i]), reg);
      if nonOwn != [] {
        cleaned := cleaned + [entries[i].(hooks := Some(nonOwn))];
      }
    }
    assert entries[..|entries|] == entries;
  }

  /** The loop that merges definitions with the same event type and matcher: an insertion-ordered dictionary. */
  method GroupRegistry(reg: Registry, hooksDir: string) returns (keys: seq<Key>, groups: map<Key, Entry>)
    ensures keys == Keys(reg.defs)
    ensures forall k :: k in keys ==> k in groups && groups[k] == BuildEntry(k, HooksFor(reg.defs, hooksDir, k))
  {
    hide Keys, HooksFor, Built;
    keys, groups := [], map[];
    var defs := reg.defs;
    NoKeys();
    for i := 0 to |defs|
      invariant keys == Keys(defs[..i]) && groups.Keys == set k | k in keys
      invariant forall k :: k in keys ==> groups[k] == BuildEntry(k, HooksFor(defs[..i], hooksDir, k))
    {
      GroupsStep(defs, hooksDir, i);
      var key, hooks := KeyOf(defs[i]), Built(defs[i], hooksDir);
      if key !in groups {
        keys, groups := keys + [key], groups[key := BuildEntry(key, hooks)];
      } else {
        var entry := groups[key];
        groups := groups[key := entry.(hooks := Some(HooksOf(entry) + hooks))];
      }
    }
    assert defs[..|defs|] == defs;
  }

  lemma NoKeys()
    ensures Keys([]) == []
  {
  }

  lemma GroupsStep(defs: seq<HookDef>, hooksDir: string, i: nat)
    requires i < |defs|
    ensures var keys, key := Keys(defs[..i]), KeyOf(defs[i]);
      && Keys(defs[..i + 1]) == (if key in keys then keys else keys + [key])
      && (key !in keys ==> HooksFor(defs[..i + 1], hooksDir, key) == Built(defs[i], hooksDir))
      && HooksFor(defs[..i + 1], hooksDir, key) == HooksFor(defs[..i], hooksDir, key) + Built(defs[i], hooksDir)
      && forall k :: k != key ==> HooksFor(defs[..i + 1], hooksDir, k) == HooksFor(defs[..i], hooksDir, k)
  {
    hide Built;
    var front := defs[..i];
    assert defs[..i + 1] == front + [defs[i]] && (front + [defs[i]])[..i] == front;
    if KeyOf(defs[i]) !in Keys(defs[..i]) {
      NoHooksWithoutKey(defs[..i], hooksDir, KeyOf(defs[i]));
    }
  }

  // ---- What eviction does ----

  /** A hook of another tool, with the entry that holds it. */
  datatype Placed = Placed(matcher: Option<string>, other: map<string, string>, hook: Hook)

  function PlacedIn(entry: Entry, hooks: seq<Hook>): seq<Placed> {
    seq(|hooks|, i requires 0 <= i < |hooks| => Placed(entry.matcher, entry.other, hooks[i]))
  }

  /** The hooks of other tools under one event type, in order. */
  function ForeignHooks(entries: seq<Entry>, reg: Registry): seq<Placed> {
    if entries == [] then []
    else
      ForeignHooks(entries[..|entries| - 1], reg)
      + PlacedIn(entries[|entries| - 1], Foreign(HooksOf(entries[|entries| - 1]), reg))
  }

  predicate HasOwn(entry: Entry, reg: Registry) {
    exists h :: h in HooksOf(entry) && IsOwn(h, reg)
  }

  /** The entries that hold a hook of ours, in order. */
  function OwnEntries(entries: seq<Entry>, reg: Registry): seq<Entry> {
    if entries == [] then []
    else
      var front, last := OwnEntries(entries[..|entries| - 1], reg), entries[|entries| - 1];
      if HasOwn(last, reg) then front + [last] else front
  }

  lemma {:induction false} ForeignOfForeign(hooks: seq<Hook>, reg: Registry)
    ensures var foreign := Foreign(hooks, reg);
      && Foreign(foreign, reg) == foreign
      && forall h :: h in foreign <==> h in hooks && !IsOwn(h, reg)
  {
    hide IsOwn;
    if hooks != [] {
      var front, last := hooks[..|hooks| - 1], hooks[|hooks| - 1];
      ForeignOfForeign(front, reg);
      assert hooks == front + [last];
      if !IsOwn(last, reg) {
        assert (Foreign(front, reg) + [last])[..|Foreign(front, reg)|] == Foreign(front, reg);
      }
    }
  }

  /** Cleaning twice is cleaning once; it keeps the others' hooks and leaves none of ours. */
  lemma {:induction false} CleanCorrect(entries: seq<Entry>, reg: Registry)
    ensures var cleaned := Clean(entries, reg);
      && Clean(cleaned, reg) == cleaned
      && ForeignHooks(cleaned, reg) == ForeignHooks(entries, reg)
      && (forall entry :: entry in cleaned ==> !HasOwn(entry, reg))
  {
    hide IsOwn, Foreign;
    if entries != [] {
      var front, last := entries[..|entries| - 1], entries[|entries| - 1];
      CleanCorrect(front, reg);
      ForeignOfForeign(HooksOf(last), reg);
      var foreign, cleaned := Foreign(HooksOf(last), reg), Clean(front, reg);
      if foreign != [] {
        assert (cleaned + [last.(hooks := Some(foreign))])[..|cleaned|] == cleaned;
      }
    }
  }

  lemma {:induction false} CleanAppend(a: seq<Entry>, b: seq<Entry>, reg: Registry)
    ensures Clean(a + b, reg) == Clean(a, reg) + Clean(b, reg)
  {
    hide IsOwn, Foreign;
    if b == [] {
      assert a + b == a;
    } else {
      CleanAppend(a, b[..|b| - 1], reg);
      assert (a + b)[..|a + b| - 1] == a + b[..|b| - 1];
    }
  }

  lemma {:induction false} ForeignHooksAppend(a: seq<Entry>, b: seq<Entry>, reg: Registry)
    ensures ForeignHooks(a + b, reg) == ForeignHooks(a, reg) + ForeignHooks(b, reg)
  {
    hide Foreign, PlacedIn, HooksOf;
    if b == [] {
      assert a + b == a;
    } else {
      ForeignHooksAppend(a, b[..|b| - 1], reg);
      var last := b[|b| - 1];
      assert (a + b)[..|a + b| - 1] == a + b[..|b| - 1] && (a + b)[|a + b| - 1] == last;
      var placed := PlacedIn(last, Foreign(HooksOf(last), reg));
      assert ForeignHooks(a + b, reg) == ForeignHooks(a + b[..|b| - 1], reg) + placed;
    }
  }

  lemma {:induction false} OwnEntriesAppend(a: seq<Entry>, b: seq<Entry>, reg: Registry)
    ensures OwnEntries(a + b, reg) == OwnEntries(a, reg) + OwnEntries(b, reg)
  {
    hide HasOwn;
    if b == [] {
      assert a + b == a;
    } else {
      OwnEntriesAppend(a, b[..|b| - 1], reg);
      assert (a + b)[..|a + b| - 1] == a + b[..|b| - 1];
    }
  }

  lemma {:induction false} NoneOwned(entries: seq<Entry>, reg: Registry)
    requires forall entry :: entry in entries ==> !HasOwn(entry, reg)
    ensures OwnEntries(entries, reg) == []
  {
    hide HasOwn;
    if entries != [] {
      NoneOwned(entries[..|entries| - 1], reg);
    }
  }

  // ---- What the registry adds ----

  lemma {:induction false} BuiltHooks(defs: seq<HookDef>, hooksDir: string, key: Key)
    ensures forall h :: h in HooksFor(defs, hooksDir, key) ==>
      exists i, j ::
        0 <= i < |defs| && 0 <= j < |defs[i].scripts| && h == BuildHook(hooksDir, defs[i].scripts[j], defs[i].timeout)
    ensures forall i, j :: 0 <= i < |defs| && KeyOf(defs[i]) == key && 0 <= j < |defs[i].scripts| ==>
      BuildHook(hooksDir, defs[i].scripts[j], defs[i].timeout) in HooksFor(defs, hooksDir, key)
  {
    hide BuildHook;
    if defs != [] {
      var front, last := defs[..|defs| - 1], defs[|defs| - 1];
      BuiltHooks(front, hooksDir, key);
      assert defs == front + [last];
      var rest := HooksFor(front, hooksDir, key);
      forall h | h in HooksFor(defs, hooksDir, key)
        ensures exists i, j ::
          0 <= i < |defs| && 0 <= j < |defs[i].scripts| && h == BuildHook(hooksDir, defs[i].scripts[j], defs[i].timeout)
      {
        if h in rest {
          var i, j :| 0 <= i < |front| && 0 <= j < |front[i].scripts| &&
            h == BuildHook(hooksDir, front[i].scripts[j], front[i].timeout);
          assert defs[i] == front[i];
        } else {
          var j :| 0 <= j < |last.scripts| && Built(last, hooksDir)[j] == h;
          assert h == BuildHook(hooksDir, defs[|front|].scripts[j], defs[|front|].timeout);
        }
      }
      forall i, j | 0 <= i < |defs| && KeyOf(defs[i]) == key && 0 <= j < |defs[i].scripts|
        ensures BuildHook(hooksDir, defs[i].scripts[j], defs[i].timeout) in HooksFor(defs, hooksDir, key)
      {
        if i < |front| {
          assert front[i] == defs[i];
          assert BuildHook(hooksDir, front[i].scripts[j], front[i].timeout) in rest;
        } else {
          assert Built(last, hooksDir)[j] in Built(last, hooksDir);
        }
      }
    }
  }

  lemma {:induction false} AllOwned(hooks: seq<Hook>, reg: Registry)
    requires forall h :: h in hooks ==> IsOwn(h, reg)
    ensures Foreign(hooks, reg) == []
  {
    hide IsOwn;
    if hooks != [] {
      AllOwned(hooks[..|hooks| - 1], reg);
    }
  }

  lemma AddedHooksAreOwn(reg: Registry, hooksDir: string, key: Key)
    ensures Foreign(HooksFor(reg.defs, hooksDir, key), reg) == []
    ensures HasOwn(BuildEntry(key, HooksFor(reg.defs, hooksDir, key)), reg) <==> HooksFor(reg.defs, hooksDir, key) != []
  {
    hide HooksFor, IsOwnHook, Command;
    var defs, hooks := reg.defs, HooksFor(reg.defs, hooksDir, key);
    BuiltHooks(defs, hooksDir, key);
    forall h | h in hooks
      ensures IsOwn(h, reg)
    {
      var i, j :| 0 <= i < |defs| && 0 <= j < |defs[i].scripts| &&
        h == BuildHook(hooksDir, defs[i].scripts[j], defs[i].timeout);
      BuiltIsOwn(hooksDir, defs[i].scripts[j], reg);
    }
    AllOwned(hooks, reg);
    assert hooks != [] ==> hooks[0] in hooks;
  }

  /** The keys of one event type that bring commands. */
  function FilledKeys(reg: Registry, hooksDir: string, keys: seq<Key>, e: string): seq<Key> {
    if keys == [] then []
    else
      var front, key := FilledKeys(reg, hooksDir, keys[..|keys| - 1], e), keys[|keys| - 1];
      if key.0 == e && HooksFor(reg.defs, hooksDir, key) != [] then front + [key] else front
  }

  function EntriesOf(reg: Registry, hooksDir: string, keys: seq<Key>): seq<Entry> {
    seq(|keys|, i requires 0 <= i < |keys| => BuildEntry(keys[i], HooksFor(reg.defs, hooksDir, keys[i])))
  }

  /** Everything added is ours. */
  lemma {:induction false} AddedIsOwn(reg: Registry, hooksDir: string, keys: seq<Key>, e: string)
    ensures var added := EntriesFor(reg, hooksDir, keys, e);
      && Clean(added, reg) == [] && ForeignHooks(added, reg) == []
      && OwnEntries(added, reg) == EntriesOf(reg, hooksDir, FilledKeys(reg, hooksDir, keys, e))
  {
    hide HooksFor, Foreign, HasOwn;
    if keys != [] {
      var front, key := keys[..|keys| - 1], keys[|keys| - 1];
      AddedIsOwn(reg, hooksDir, front, e);
      AddedHooksAreOwn(reg, hooksDir, key);
      var added, entry := EntriesFor(reg, hooksDir, front, e), BuildEntry(key, HooksFor(reg.defs, hooksDir, key));
      if key.0 == e {
        assert (added + [entry])[..|added|] == added;
      }
    }
  }

  // ---- Installing ----

  lemma {:induction false} AddEventsDistinct(order: seq<string>, keys: seq<Key>)
    requires forall i, j :: 0 <= i < j < |order| ==> order[i] != order[j]
    ensures var after := AddEvents(order, keys);
      order <= after && forall i, j :: 0 <= i < j < |after| ==> after[i] != after[j]
  {
    if keys != [] {
      AddEventsDistinct(order, keys[..|keys| - 1]);
    }
  }

  lemma {:induction false} NothingNew(order: seq<string>, keys: seq<Key>)
    requires forall k :: k in keys ==> k.0 in order
    ensures AddEvents(order, keys) == order
  {
    if keys != [] {
      NothingNew(order, keys[..|keys| - 1]);
    }
  }

  /** The entries of an event type after an install: what others had there, then what the registry adds. */
  lemma InstalledEntries(doc: Document, reg: Registry, hooksDir: string, e: string)
    requires doc.Valid()
    ensures Installed(doc, reg, hooksDir).At(e) == Clean(doc.At(e), reg) + EntriesFor(reg, hooksDir, Keys(reg.defs), e)
  {
    hide EntriesFor, Keys, AddEntries, IsOwn, Foreign;
    var keys, evicted := Keys(reg.defs), Evicted(doc, reg);
    assert evicted.At(e) == Clean(doc.At(e), reg);
    if keys == [] {
      NoEntries(reg, hooksDir, e);
    } else {
      EntriesAfter(if evicted.hooks.Some? then evicted.hooks.value else NO_EVENTS, reg, hooksDir, keys, e);
    }
  }

  lemma NoEntries(reg: Registry, hooksDir: string, e: string)
    ensures EntriesFor(reg, hooksDir, [], e) == []
  {
  }

  function EventsOf(doc: Document): Events {
    if doc.hooks.Some? then doc.hooks.value else NO_EVENTS
  }

  lemma AddEntriesFrame(events: Events, reg: Registry, hooksDir: string, keys: seq<Key>)
    requires events.Valid()
    ensures var after := AddEntries(events, reg, hooksDir, keys);
      after.Valid() && events.order <= after.order && forall k :: k in keys ==> k.0 in after.order
  {
    hide AddEvents, EntriesFor;
    AddEventsDistinct(events.order, keys);
    AddEventsKeeps(events.order, keys);
  }

  /** Installing adds event types at the end and touches nothing but the hooks and the registry hash. */
  lemma InstalledFrame(doc: Document, reg: Registry, hooksDir: string)
    requires doc.Valid()
    ensures var after := Installed(doc, reg, hooksDir);
      && after.Valid() && after.other == doc.other && after.hash == Some(reg.hash)
      && (after.hooks.None? <==> doc.hooks.None? && reg.defs == [])
      && EventsOf(doc).order <= EventsOf(after).order
      && forall i :: 0 <= i < |reg.defs| ==> reg.defs[i].eventType in EventsOf(after).order
  {
    hide Keys, AddEntries, Clean;
    var keys, evicted := Keys(reg.defs), Evicted(doc, reg);
    KeysAreKeys(reg.defs);
    NoKeys();
    AddEntriesFrame(EventsOf(evicted), reg, hooksDir, keys);
    assert forall i :: 0 <= i < |reg.defs| ==> KeyOf(reg.defs[i]) in keys;
    assert reg.defs != [] ==> KeyOf(reg.defs[0]) in keys;
    assert |reg.defs| == 0 ==> reg.defs == [];
  }

  lemma EqualDocuments(a: Document, b: Document)
    requires a.Valid() && b.Valid() && a.hash == b.hash && a.other == b.other && a.hooks.None? == b.hooks.None?
    requires EventsOf(a).order == EventsOf(b).order && forall e :: a.At(e) == b.At(e)
    ensures a == b
  {
    if a.hooks.Some? {
      var at, at' := a.hooks.value.at, b.hooks.value.at;
      assert forall e :: e in at <==> e in at';
      assert forall e :: e in at ==> at[e] == a.At(e);
      assert at == at';
    }
  }

  /** Installing twice is installing once, whatever the document holds. */
  lemma InstallTwice(doc: Document, reg: Registry, hooksDir: string)
    requires doc.Valid()
    ensures Installed(Installed(doc, reg, hooksDir), reg, hooksDir) == Installed(doc, reg, hooksDir)
  {
    hide Installed;
    var once := Installed(doc, reg, hooksDir);
    var twice := Installed(once, reg, hooksDir);
    InstalledFrame(doc, reg, hooksDir);
    InstalledFrame(once, reg, hooksDir);
    SameOrder(doc, reg, hooksDir);
    forall e
      ensures twice.At(e) == once.At(e)
    {
      SameEntries(doc, reg, hooksDir, e);
    }
    EqualDocuments(twice, once);
  }

  lemma SameEntries(doc: Document, reg: Registry, hooksDir: string, e: string)
    requires doc.Valid() && Installed(doc, reg, hooksDir).Valid()
    ensures var once := Installed(doc, reg, hooksDir); Installed(once, reg, hooksDir).At(e) == once.At(e)
  {
    hide *;
    var cleaned, added := Clean(doc.At(e), reg), EntriesFor(reg, hooksDir, Keys(reg.defs), e);
    InstalledEntries(doc, reg, hooksDir, e);
    InstalledEntries(Installed(doc, reg, hooksDir), reg, hooksDir, e);
    CleanAppend(cleaned, added, reg);
    CleanCorrect(doc.At(e), reg);
    AddedIsOwn(reg, hooksDir, Keys(reg.defs), e);
  }

  lemma SameOrder(doc: Document, reg: Registry, hooksDir: string)
    requires doc.Valid()
    ensures var once := Installed(doc, reg, hooksDir);
      EventsOf(Installed(once, reg, hooksDir)).order == EventsOf(once).order
  {
    hide AddEvents, Keys, EntriesFor, Clean;
    var once, keys := Installed(doc, reg, hooksDir), Keys(reg.defs);
    AddEventsKeeps(EventsOf(doc).order, keys);
    if keys != [] {
      NothingNew(EventsOf(once).order, keys);
    }
  }

  /** Under every event type: the hooks of others stay as they are, in order and with their entry's matcher, and our
      entries are exactly one for each (event type, matcher) of the registry, in its order, holding its commands in its
      order. */
  lemma InstallMeaning(doc: Document, reg: Registry, hooksDir: string, e: string)
    requires doc.Valid()
    ensures var after := Installed(doc, reg, hooksDir).At(e);
      && ForeignHooks(after, reg) == ForeignHooks(doc.At(e), reg)
      && OwnEntries(after, reg) == EntriesOf(reg, hooksDir, FilledKeys(reg, hooksDir, Keys(reg.defs), e))
  {
    hide Installed, Keys, EntriesFor, Clean;
    var kept, added := Clean(doc.At(e), reg), EntriesFor(reg, hooksDir, Keys(reg.defs), e);
    InstalledEntries(doc, reg, hooksDir, e);
    ForeignHooksAppend(kept, added, reg);
    OwnEntriesAppend(kept, added, reg);
    CleanCorrect(doc.At(e), reg);
    NoneOwned(kept, reg);
    AddedIsOwn(reg, hooksDir, Keys(reg.defs), e);
  }

  lemma {:induction false} FilledKeysAreKeys(reg: Registry, hooksDir: string, keys: seq<Key>, e: string)
    requires Distinct(keys)
    ensures var filled := FilledKeys(reg, hooksDir, keys, e);
      && Distinct(filled)
      && forall k :: k in filled <==> k in keys && k.0 == e && HooksFor(reg.defs, hooksDir, k) != []
  {
    hide HooksFor;
    if keys != [] {
      var front, key := keys[..|keys| - 1], keys[|keys| - 1];
      FilledKeysAreKeys(reg, hooksDir, front, e);
      assert keys == front + [key] && key !in front;
      var filled := FilledKeys(reg, hooksDir, front, e);
      assert key !in filled ==> forall i :: 0 <= i < |filled| ==> filled[i] != key;
    }
  }

  ghost predicate OneEntryPerMatcher(entries: seq<Entry>) {
    forall i, j :: 0 <= i < j < |entries| ==> entries[i].matcher != entries[j].matcher
  }

  /** `SessionStart` entries are written without their matcher, so the registry must not hold two of them. */
  predicate OneSessionStart(defs: seq<HookDef>) {
    forall i, j :: 0 <= i < |defs| && 0 <= j < |defs| && StartsSession(defs[i]) && StartsSession(defs[j])
      ==> defs[i].matcher == defs[j].matcher
  }

  predicate StartsSession(def: HookDef) {
    def.eventType == "SessionStart" && def.scripts != []
  }

  lemma {:induction false} FilledIff(defs: seq<HookDef>, hooksDir: string, key: Key)
    ensures HooksFor(defs, hooksDir, key) != []
      <==> exists i :: 0 <= i < |defs| && KeyOf(defs[i]) == key && defs[i].scripts != []
  {
    hide BuildHook;
    if defs != [] {
      var front, last := defs[..|defs| - 1], defs[|defs| - 1];
      FilledIff(front, hooksDir, key);
      assert |Built(last, hooksDir)| == |last.scripts|;
      assert forall i :: 0 <= i < |front| ==> defs[i] == front[i];
      if HooksFor(front, hooksDir, key) != [] {
        var i :| 0 <= i < |front| && KeyOf(front[i]) == key && front[i].scripts != [];
        assert KeyOf(defs[i]) == key;
      }
      if i :| 0 <= i < |defs| && KeyOf(defs[i]) == key && defs[i].scripts != [] {
        assert i < |front| ==> KeyOf(front[i]) == key;
      }
    }
  }

  /** After an install no event type holds two entries of ours with the same matcher, exactly when the registry holds
      at most one matcher that starts sessions. */
  lemma OneOwnEntry(doc: Document, reg: Registry, hooksDir: string)
    requires doc.Valid()
    ensures (forall e :: OneEntryPerMatcher(OwnEntries(Installed(doc, reg, hooksDir).At(e), reg))) <==>
      OneSessionStart(reg.defs)
  {
    hide Installed, Keys, OwnEntries, HooksFor, FilledKeys;
    var defs, keys := reg.defs, Keys(reg.defs);
    KeysAreKeys(defs);
    forall e
      ensures OneSessionStart(defs) ==> OneEntryPerMatcher(OwnEntries(Installed(doc, reg, hooksDir).At(e), reg))
    {
      InstallMeaning(doc, reg, hooksDir, e);
      FilledKeysAreKeys(reg, hooksDir, keys, e);
      var filled := FilledKeys(reg, hooksDir, keys, e);
      forall i, j | 0 <= i < j < |filled| && OneSessionStart(defs)
        ensures EntriesOf(reg, hooksDir, filled)[i].matcher != EntriesOf(reg, hooksDir, filled)[j].matcher
      {
        assert filled[i] in filled && filled[j] in filled;
        FilledIff(defs, hooksDir, filled[i]);
        FilledIff(defs, hooksDir, filled[j]);
      }
    }
    if !OneSessionStart(defs) {
      var i, j :| 0 <= i < |defs| && 0 <= j < |defs| && StartsSession(defs[i]) && StartsSession(defs[j]) &&
        defs[i].matcher != defs[j].matcher;
      var e := "SessionStart";
      InstallMeaning(doc, reg, hooksDir, e);
      FilledKeysAreKeys(reg, hooksDir, keys, e);
      FilledIff(defs, hooksDir, KeyOf(defs[i]));
      FilledIff(defs, hooksDir, KeyOf(defs[j]));
      var filled := FilledKeys(reg, hooksDir, keys, e);
      var a :| 0 <= a < |filled| && filled[a] == KeyOf(defs[i]);
      var b :| 0 <= b < |filled| && filled[b] == KeyOf(defs[j]);
      var entries := EntriesOf(reg, hooksDir, filled);
      assert entries[a].matcher == entries[b].matcher && a != b;
    }
  }

  // ---- Drift ----

  lemma {:induction false} CleanHasNone(entries: seq<Entry>, reg: Registry)
    requires forall entry :: entry in entries ==> !HasOwn(entry, reg)
    ensures DeployedIn(entries, reg) == {}
  {
    hide IsOwn, ScriptOf;
  }

  lemma {:induction false} ScriptsOfDefs(defs: seq<HookDef>)
    ensures forall s :: s in AllScripts(defs) <==> exists i :: 0 <= i < |defs| && s in defs[i].scripts
  {
    if defs != [] {
      ScriptsOfDefs(defs[1..]);
      assert forall i :: 1 <= i < |defs| ==> defs[i] == defs[1..][i - 1];
    }
  }

  lemma {:induction false} EntryIsAdded(reg: Registry, hooksDir: string, keys: seq<Key>, e: string)
    ensures forall entry :: (entry in EntriesFor(reg, hooksDir, keys, e)
      <==> exists k :: k in keys && k.0 == e && entry == BuildEntry(k, HooksFor(reg.defs, hooksDir, k)))
  {
    hide HooksFor, BuildEntry;
    if keys != [] {
      var front, key := keys[..|keys| - 1], keys[|keys| - 1];
      EntryIsAdded(reg, hooksDir, front, e);
      assert keys == front + [key];
    }
  }

  lemma CommandNotEmpty(hooksDir: string, script: string)
    ensures Command(hooksDir, script) != ""
  {
  }

  /** The scripts run by the entry of one key. */
  lemma DeployedByKey(reg: Registry, hooksDir: string, key: Key)
    ensures forall name :: name in DeployedBy(HooksFor(reg.defs, hooksDir, key), reg) ==>
      exists s :: s in AllScripts(reg.defs) && name == ScriptOf(Command(hooksDir, s), reg)
    ensures forall i, j :: 0 <= i < |reg.defs| && KeyOf(reg.defs[i]) == key && 0 <= j < |reg.defs[i].scripts| ==>
      ScriptOf(Command(hooksDir, reg.defs[i].scripts[j]), reg) in DeployedBy(HooksFor(reg.defs, hooksDir, key), reg)
  {
    hide ScriptOf, IsOwnHook, Command, HooksFor, AllScripts;
    var defs, hooks := reg.defs, HooksFor(reg.defs, hooksDir, key);
    BuiltHooks(defs, hooksDir, key);
    ScriptsOfDefs(defs);
    forall s
      ensures Command(hooksDir, s) != ""
    {
      CommandNotEmpty(hooksDir, s);
    }
    forall name | name in DeployedBy(hooks, reg)
      ensures exists s :: s in AllScripts(defs) && name == ScriptOf(Command(hooksDir, s), reg)
    {
      var h :| h in hooks && CommandOf(h) != "" && name == ScriptOf(CommandOf(h), reg);
      var i, j :| 0 <= i < |defs| && 0 <= j < |defs[i].scripts| &&
        h == BuildHook(hooksDir, defs[i].scripts[j], defs[i].timeout);
      assert defs[i].scripts[j] in defs[i].scripts;
    }
    forall i, j | 0 <= i < |defs| && KeyOf(defs[i]) == key && 0 <= j < |defs[i].scripts|
      ensures ScriptOf(Command(hooksDir, defs[i].scripts[j]), reg) in DeployedBy(hooks, reg)
    {
      var h := BuildHook(hooksDir, defs[i].scripts[j], defs[i].timeout);
      BuiltIsOwn(hooksDir, defs[i].scripts[j], reg);
      assert h in hooks && IsOwn(h, reg);
    }
  }

  lemma DeployedAt(doc: Document, reg: Registry, hooksDir: string, e: string)
    requires doc.Valid()
    ensures forall name :: name in DeployedIn(Installed(doc, reg, hooksDir).At(e), reg) ==>
      exists s :: s in AllScripts(reg.defs) && name == ScriptOf(Command(hooksDir, s), reg)
    ensures forall i, j :: 0 <= i < |reg.defs| && reg.defs[i].eventType == e && 0 <= j < |reg.defs[i].scripts| ==>
      ScriptOf(Command(hooksDir, reg.defs[i].scripts[j]), reg) in DeployedIn(Installed(doc, reg, hooksDir).At(e), reg)
  {
    hide Installed, Keys, EntriesFor, Clean, ScriptOf, AllScripts, Command, HooksFor, IsOwn, DeployedBy;
    var defs, keys := reg.defs, Keys(reg.defs);
    var kept, added := Clean(doc.At(e), reg), EntriesFor(reg, hooksDir, keys, e);
    InstalledEntries(doc, reg, hooksDir, e);
    CleanCorrect(doc.At(e), reg);
    CleanHasNone(kept, reg);
    EntryIsAdded(reg, hooksDir, keys, e);
    KeysAreKeys(defs);
    forall name | name in DeployedIn(kept + added, reg)
      ensures exists s :: s in AllScripts(defs) && name == ScriptOf(Command(hooksDir, s), reg)
    {
      var entry :| entry in kept + added && name in DeployedBy(HooksOf(entry), reg);
      assert entry in kept ==> name in DeployedIn(kept, reg);
      var k :| k in keys && k.0 == e && entry == BuildEntry(k, HooksFor(defs, hooksDir, k));
      DeployedByKey(reg, hooksDir, k);
    }
    forall i, j | 0 <= i < |defs| && defs[i].eventType == e && 0 <= j < |defs[i].scripts|
      ensures ScriptOf(Command(hooksDir, defs[i].scripts[j]), reg) in DeployedIn(kept + added, reg)
    {
      var k, name := KeyOf(defs[i]), ScriptOf(Command(hooksDir, defs[i].scripts[j]), reg);
      var entry := BuildEntry(k, HooksFor(defs, hooksDir, k));
      DeployedByKey(reg, hooksDir, k);
      assert k in keys && entry in added;
      assert entry in kept + added && HooksOf(entry) == HooksFor(defs, hooksDir, k) &&
        name in DeployedBy(HooksOf(entry), reg);
    }
  }

  /** After an install the scripts deployed are those that the built commands run. */
  lemma DeployedAfter(doc: Document, reg: Registry, hooksDir: string)
    requires doc.Valid()
    ensures Deployed(EventsOf(Installed(doc, reg, hooksDir)), reg)
      == set s | s in AllScripts(reg.defs) :: ScriptOf(Command(hooksDir, s), reg)
  {
    hide Installed, DeployedIn, ScriptOf, AllScripts, Command;
    var defs := reg.defs;
    var run := set s | s in AllScripts(defs) :: ScriptOf(Command(hooksDir, s), reg);
    var after := Installed(doc, reg, hooksDir);
    var events := EventsOf(after);
    InstalledFrame(doc, reg, hooksDir);
    ScriptsOfDefs(defs);
    assert forall e :: events.Of(e) == after.At(e);
    forall name | name in Deployed(events, reg)
      ensures name in run
    {
      var e :| e in events.order && name in DeployedIn(events.Of(e), reg);
      DeployedAt(doc, reg, hooksDir, e);
    }
    forall name | name in run
      ensures name in Deployed(events, reg)
    {
      var s :| s in AllScripts(defs) && name == ScriptOf(Command(hooksDir, s), reg);
      var i :| 0 <= i < |defs| && s in defs[i].scripts;
      DeployedAt(doc, reg, hooksDir, defs[i].eventType);
    }
  }

  /** After an install no script is missing and none is orphaned, exactly when every script of the registry is a `.py`
      file whose name has no white space. */
  lemma NoDriftAfterInstall(doc: Document, reg: Registry, hooksDir: string)
    requires doc.Valid()
    ensures var deployed := Deployed(EventsOf(Installed(doc, reg, hooksDir)), reg);
      |Canonical(reg) - deployed| == 0 && |deployed - Canonical(reg)| == 0 <==>
        forall s :: s in AllScripts(reg.defs) ==> Tidy(s)
  {
    hide Installed, Deployed, EventsOf, Tidy, ScriptOf, AllScripts, Command;
    var deployed := Deployed(EventsOf(Installed(doc, reg, hooksDir)), reg);
    DeployedAfter(doc, reg, hooksDir);
    if forall s :: s in AllScripts(reg.defs) ==> Tidy(s) {
      forall s | s in AllScripts(reg.defs)
        ensures ScriptOf(Command(hooksDir, s), reg) == s
      {
        TidyIsReadBack(hooksDir, s, reg);
      }
      assert deployed == Canonical(reg);
    } else {
      var s := UntidyIsMissing(hooksDir, reg);
      assert s in Canonical(reg) - deployed;
    }
  }

  // ---- The plugin manifest ----

  /** `hooks.json`, from the same groups. */
  method GenerateHooksJson(reg: Registry, hooksDir: string) returns (byEvent: Events)
    ensures byEvent == AddEntries(NO_EVENTS, reg, hooksDir, Keys(reg.defs))
  {
    hide HooksFor, BuildEntry, AddEntries, Keys, EntriesFor, AddEvents;
    var keys, groups := GroupRegistry(reg, hooksDir);
    byEvent := NO_EVENTS;
    AddNone(NO_EVENTS, reg, hooksDir);
    assert keys[..0] == [];
    for i := 0 to |keys|
      invariant byEvent == AddEntries(NO_EVENTS, reg, hooksDir, keys[..i])
    {
      assert keys[..i + 1][..i] == keys[..i] && keys[i] in keys;
      AddNext(NO_EVENTS, reg, hooksDir, keys[..i + 1]);
      var e := keys[i].0;
      byEvent := Events(if e in byEvent.at then byEvent.order else byEvent.order + [e],
                        byEvent.at[e := byEvent.Of(e) + [groups[keys[i]]]]);
    }
    assert keys[..|keys|] == keys;
  }

  /** One more entry, as the loop of the manifest adds it. */
  lemma AddNext(events: Events, reg: Registry, hooksDir: string, keys: seq<Key>)
    requires events.Valid() && keys != []
    ensures var key, before := keys[|keys| - 1], AddEntries(events, reg, hooksDir, keys[..|keys| - 1]);
      AddEntries(events, reg, hooksDir, keys) ==
        Events(if key.0 in before.at then before.order else before.order + [key.0],
          before.at[key.0 := before.Of(key.0) + [BuildEntry(key, HooksFor(reg.defs, hooksDir, key))]])
  {
    hide HooksFor, BuildEntry, AddEntries;
    AddOne(events, reg, hooksDir, keys);
    AddEntriesFrame(events, reg, hooksDir, keys[..|keys| - 1]);
  }

  /** The manifest and a settings file that held nothing before agree. */
  lemma ManifestIsFreshInstall(reg: Registry, hooksDir: string)
    ensures EventsOf(Installed(EMPTY_DOCUMENT, reg, hooksDir)) == AddEntries(NO_EVENTS, reg, hooksDir, Keys(reg.defs))
  {
    if Keys(reg.defs) == [] {
      AddNone(NO_EVENTS, reg, hooksDir);
    }
  }
}
