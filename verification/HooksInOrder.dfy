/** What an install keeps and what it adds, by place: which hooks of others stay, and in which order our entries and
    their commands come. */
module HooksInOrder {
  import opened Wrappers
  import opened Text
  import opened Places
  import opened HookRegistry
  import opened Hooks

  // ---- What eviction keeps ----

  ghost function NotOwned(hooks: seq<Hook>, reg: Registry): seq<bool> {
    seq(|hooks|, i requires 0 <= i < |hooks| => !IsOwn(hooks[i], reg))
  }

  /** Exactly the hooks that are not ours stay, each at its place in the order. */
  lemma {:induction false} ForeignByPlace(hooks: seq<Hook>, reg: Registry)
    ensures Selects(hooks, NotOwned(hooks, reg), Foreign(hooks, reg))
  {
    hide IsOwn, Selects;
    if hooks == [] {
      SelectsNothing<Hook>();
      assert NotOwned(hooks, reg) == [];
    } else {
      var front, last := hooks[..|hooks| - 1], hooks[|hooks| - 1];
      ForeignByPlace(front, reg);
      SelectsSnoc(front, NotOwned(front, reg), Foreign(front, reg), last, !IsOwn(last, reg));
      assert hooks == front + [last] && NotOwned(hooks, reg) == NotOwned(front, reg) + [!IsOwn(last, reg)];
    }
  }

  ghost function NotAllOwned(entries: seq<Entry>, reg: Registry): seq<bool> {
    seq(|entries|, i requires 0 <= i < |entries| => exists h :: h in HooksOf(entries[i]) && !IsOwn(h, reg))
  }

  /** `cleaned` is `entry` without our hooks, and with its other keys as they were. */
  ghost predicate WithoutOwn(entry: Entry, cleaned: Entry, reg: Registry) {
    && cleaned.matcher == entry.matcher && cleaned.other == entry.other && cleaned.hooks.Some?
    && Selects(HooksOf(entry), NotOwned(HooksOf(entry), reg), cleaned.hooks.value)
  }

  /** The entries with a hook that is not ours stay in order, each without ours. */
  lemma {:induction false} CleanByPlace(entries: seq<Entry>, reg: Registry) returns (kept: seq<Entry>)
    ensures Selects(entries, NotAllOwned(entries, reg), kept) && |kept| == |Clean(entries, reg)|
    ensures forall k :: 0 <= k < |kept| ==> WithoutOwn(kept[k], Clean(entries, reg)[k], reg)
  {
    hide IsOwn, Selects, Foreign, NotOwned, HooksOf;
    kept := [];
    if entries == [] {
      SelectsNothing<Entry>();
    } else {
      var front, last := entries[..|entries| - 1], entries[|entries| - 1];
      kept := CleanByPlace(front, reg);
      ForeignByPlace(HooksOf(last), reg);
      ForeignOfForeign(HooksOf(last), reg);
      var foreign := Foreign(HooksOf(last), reg);
      assert foreign != [] ==> foreign[0] in foreign;
      var keep := exists h :: h in HooksOf(last) && !IsOwn(h, reg);
      SelectsSnoc(front, NotAllOwned(front, reg), kept, last, keep);
      assert entries == front + [last] && NotAllOwned(entries, reg) == NotAllOwned(front, reg) + [keep];
      kept := if keep then kept + [last] else kept;
    }
  }

  // ---- What the registry adds ----

  ghost function AllKeys(defs: seq<HookDef>): seq<Key> {
    seq(|defs|, i requires 0 <= i < |defs| => (defs[i].eventType, defs[i].matcher))
  }

  ghost function Firsts<T>(s: seq<T>): seq<bool> {
    seq(|s|, i requires 0 <= i < |s| => s[i] !in s[..i])
  }

  lemma FirstsSnoc<T>(s: seq<T>, x: T)
    ensures Firsts(s + [x]) == Firsts(s) + [x !in s]
  {
    assert forall i :: 0 <= i <= |s| ==> (s + [x])[..i] == s[..i];
  }

  /** Event type and matcher of every definition that is the first with both. */
  lemma {:induction false} KeysByPlace(defs: seq<HookDef>)
    ensures Selects(AllKeys(defs), Firsts(AllKeys(defs)), Keys(defs))
    ensures forall k :: k in Keys(defs) <==> k in AllKeys(defs)
  {
    hide Selects, Firsts;
    if defs == [] {
      SelectsNothing<Key>();
      assert Firsts<Key>([]) == [] by {
        NoFirsts<Key>();
      }
    } else {
      var front, last := defs[..|defs| - 1], defs[|defs| - 1];
      KeysByPlace(front);
      FirstsSnoc(AllKeys(front), KeyOf(last));
      SelectsSnoc(AllKeys(front), Firsts(AllKeys(front)), Keys(front), KeyOf(last), KeyOf(last) !in AllKeys(front));
      assert AllKeys(defs) == AllKeys(front) + [KeyOf(last)];
    }
  }

  lemma NoFirsts<T>()
    ensures Firsts<T>([]) == []
  {
  }

  /** The commands of definitions one after the other. */
  lemma {:induction false} HooksForJoin(a: seq<HookDef>, b: seq<HookDef>, hooksDir: string, key: Key)
    ensures HooksFor(a + b, hooksDir, key) == HooksFor(a, hooksDir, key) + HooksFor(b, hooksDir, key)
  {
    hide Built;
    if b == [] {
      assert a + b == a;
    } else {
      var front := b[..|b| - 1];
      HooksForJoin(a, front, hooksDir, key);
      assert (a + b)[..|a + b| - 1] == a + front;
      var last := if KeyOf(b[|b| - 1]) == key then Built(b[|b| - 1], hooksDir) else [];
      assert HooksFor(a + b, hooksDir, key) == HooksFor(a, hooksDir, key) + HooksFor(front, hooksDir, key) + last;
    }
  }

  /** One hook for each script of a definition, in order. */
  lemma HooksForOne(def: HookDef, hooksDir: string, key: Key)
    ensures var hooks := HooksFor([def], hooksDir, key);
      && |hooks| == (if key == (def.eventType, def.matcher) then |def.scripts| else 0)
      && forall j :: 0 <= j < |hooks| ==> RunsScript(hooks[j], hooksDir, def.scripts[j], def.timeout)
  {
    hide RunsScript, BuildHook;
    OneDefinition(def, hooksDir, key);
    forall j | 0 <= j < |def.scripts|
      ensures RunsScript(Built(def, hooksDir)[j], hooksDir, def.scripts[j], def.timeout)
    {
      BuiltRunsScript(hooksDir, def.scripts[j], def.timeout);
    }
  }

  lemma OneDefinition(def: HookDef, hooksDir: string, key: Key)
    ensures HooksFor([def], hooksDir, key) == if KeyOf(def) == key then Built(def, hooksDir) else []
  {
    hide Built;
    assert [def][..0] == [] && HooksFor([], hooksDir, key) == [];
  }

  /** A definition gives commands for a key of one event type. */
  ghost predicate Fills(defs: seq<HookDef>, e: string, key: Key) {
    key.0 == e && exists i :: 0 <= i < |defs| && KeyOf(defs[i]) == key && defs[i].scripts != []
  }

  ghost function Filled(defs: seq<HookDef>, e: string, keys: seq<Key>): seq<bool> {
    seq(|keys|, i requires 0 <= i < |keys| => Fills(defs, e, keys[i]))
  }

  lemma FillsIff(defs: seq<HookDef>, hooksDir: string, e: string, key: Key)
    ensures Fills(defs, e, key) <==> key.0 == e && HooksFor(defs, hooksDir, key) != []
  {
    hide HooksFor;
    FilledIff(defs, hooksDir, key);
  }

  lemma FilledSnoc(defs: seq<HookDef>, e: string, keys: seq<Key>, key: Key)
    ensures Filled(defs, e, keys + [key]) == Filled(defs, e, keys) + [Fills(defs, e, key)]
  {
    hide Fills;
  }

  /** Our entries of one event type come in the order of its keys. */
  lemma {:induction false} FilledByPlace(reg: Registry, hooksDir: string, keys: seq<Key>, e: string)
    ensures Selects(keys, Filled(reg.defs, e, keys), FilledKeys(reg, hooksDir, keys, e))
  {
    hide HooksFor, Selects, Fills;
    if keys == [] {
      SelectsNothing<Key>();
      assert Filled(reg.defs, e, keys) == [];
    } else {
      var front, key := keys[..|keys| - 1], keys[|keys| - 1];
      FilledByPlace(reg, hooksDir, front, e);
      FillsIff(reg.defs, hooksDir, e, key);
      SelectsSnoc(front, Filled(reg.defs, e, front), FilledKeys(reg, hooksDir, front, e), key, Fills(reg.defs, e, key));
      assert keys == front + [key];
      FilledSnoc(reg.defs, e, front, key);
    }
  }

  ghost function EventsOfKeys(keys: seq<Key>): seq<string> {
    seq(|keys|, i requires 0 <= i < |keys| => keys[i].0)
  }

  /** The old event types stay in front; the new ones follow in the order in which the registry first names them. */
  lemma {:induction false} EventsByPlace(order: seq<string>, keys: seq<Key>)
    ensures var after, all := AddEvents(order, keys), order + EventsOfKeys(keys);
      && order <= after && (forall e :: e in after <==> e in all)
      && Selects(EventsOfKeys(keys), Firsts(all)[|order|..], after[|order|..])
  {
    hide Selects, Firsts;
    FirstsCount(order + EventsOfKeys(keys));
    if keys == [] {
      SelectsNothing<string>();
      assert Firsts(order + EventsOfKeys([]))[|order|..] == [] && order + [] == order;
    } else {
      var front, e := keys[..|keys| - 1], keys[|keys| - 1].0;
      var all, after := order + EventsOfKeys(front), AddEvents(order, front);
      EventsByPlace(order, front);
      assert EventsOfKeys(keys) == EventsOfKeys(front) + [e];
      assert order + EventsOfKeys(keys) == all + [e];
      FirstsCount(all);
      FirstsSnoc(all, e);
      assert (Firsts(all) + [e !in all])[|order|..] == Firsts(all)[|order|..] + [e !in all];
      SelectsSnoc(EventsOfKeys(front), Firsts(all)[|order|..], after[|order|..], e, e !in all);
      assert e !in all ==> (after + [e])[|order|..] == after[|order|..] + [e];
    }
  }

  lemma FirstsCount<T>(s: seq<T>)
    ensures |Firsts(s)| == |s|
  {
  }

  /** After an install, by place: the hooks of others under one event type, then ours for the keys of the registry. */
  lemma InstalledByPlace(doc: Document, reg: Registry, hooksDir: string, e: string) returns (kept: seq<Entry>)
    requires doc.Valid()
    ensures Selects(doc.At(e), NotAllOwned(doc.At(e), reg), kept)
    ensures var after := Installed(doc, reg, hooksDir).At(e);
      && |kept| <= |after|
      && (forall k :: 0 <= k < |kept| ==> WithoutOwn(kept[k], after[k], reg))
      && after[|kept|..] == EntriesFor(reg, hooksDir, Keys(reg.defs), e)
  {
    hide Installed, Clean, EntriesFor, Keys, Selects, NotAllOwned, WithoutOwn;
    kept := CleanByPlace(doc.At(e), reg);
    InstalledEntries(doc, reg, hooksDir, e);
  }

  ghost function OfEvent(keys: seq<Key>, e: string): seq<bool> {
    seq(|keys|, i requires 0 <= i < |keys| => keys[i].0 == e)
  }

  /** One entry for each key of the event type, in the order of the keys; session starts are written without matcher. */
  lemma {:induction false} EntriesByPlace(reg: Registry, hooksDir: string, keys: seq<Key>, e: string)
    returns (chosen: seq<Key>)
    ensures Selects(keys, OfEvent(keys, e), chosen) && |chosen| == |EntriesFor(reg, hooksDir, keys, e)|
    ensures forall k :: 0 <= k < |chosen| ==>
      EntriesFor(reg, hooksDir, keys, e)[k] == Entry(if e == "SessionStart" then None else Some(chosen[k].1),
        Some(HooksFor(reg.defs, hooksDir, chosen[k])), map[])
  {
    hide HooksFor, Selects;
    chosen := [];
    if keys == [] {
      SelectsNothing<Key>();
    } else {
      var front, key := keys[..|keys| - 1], keys[|keys| - 1];
      chosen := EntriesByPlace(reg, hooksDir, front, e);
      SelectsSnoc(front, OfEvent(front, e), chosen, key, key.0 == e);
      assert keys == front + [key] && OfEvent(keys, e) == OfEvent(front, e) + [key.0 == e];
      chosen := if key.0 == e then chosen + [key] else chosen;
    }
  }
}
