/** Configuration layers: deep merge of mappings, replacement of everything else. */
module ConfigLayers {
  import opened Wrappers

  /** A YAML value: a mapping, or anything else (numbers, strings, lists, null). */
  datatype Value = Plain(text: string) | Mapping(entries: map<string, Value>)

  type Layer = map<string, Value>

  function Lookup(layer: Layer, key: string): Option<Value> {
    if key in layer then Some(layer[key]) else None
  }

  /** What `value` makes of what stood at its key before. */
  function Over(before: Option<Value>, value: Value): Value
    decreases value
  {
    if before.Some? && before.value.Mapping? && value.Mapping? then
      var base := before.value.entries;
      Mapping(map k | k in base.Keys + value.entries.Keys ::
        if k in value.entries then Over(Lookup(base, k), value.entries[k]) else base[k])
    else value
  }

  function Apply(base: Layer, override: Layer): (merged: Layer)
    ensures merged.Keys == base.Keys + override.Keys
    ensures forall k ::
      k in merged ==> merged[k] == if k in override then Over(Lookup(base, k), override[k]) else base[k]
  {
    Over(Some(Mapping(base)), Mapping(override)).entries
  }

  /** `_apply_layer`, with the updated base as its result. */
  method ApplyLayer(base: Layer, override: Layer) returns (merged: Layer)
    ensures merged == Apply(base, override)
    decreases Mapping(override)
  {
    merged := base;
    var todo := override.Keys;
    while todo != {}
      invariant todo <= override.Keys && merged.Keys == base.Keys + (override.Keys - todo)
      invariant forall k :: k in merged ==>
        merged[k] == if k in override && k !in todo then Over(Lookup(base, k), override[k]) else base[k]
    {
      var key :| key in todo;
      var value := override[key];
      todo := todo - {key};
      if key in merged && merged[key].Mapping? && value.Mapping? {
        assert value < Mapping(override);
        var inner := ApplyLayer(merged[key].entries, value.entries);
        merged := merged[key := Mapping(inner)];
      } else {
        merged := merged[key := value];
      }
    }
  }

  /** The layers applied in order to an empty base. */
  function Fold(layers: seq<Layer>): Layer {
    if layers == [] then map[] else Apply(Fold(layers[..|layers| - 1]), layers[|layers| - 1])
  }

  method MergeLayers(layers: seq<Layer>) returns (merged: Layer)
    ensures merged == Fold(layers)
  {
    merged := map[];
    for i := 0 to |layers|
      invariant merged == Fold(layers[..i])
    {
      assert layers[..i + 1][..i] == layers[..i];
      merged := ApplyLayer(merged, layers[i]);
    }
    assert layers[..|layers|] == layers;
  }

  // ---- What a fold holds at a key ----

  /** The mappings at `key` in the layers after the last layer that holds something else there. */
  function Tail(layers: seq<Layer>, key: string): seq<Layer> {
    if layers == [] then []
    else
      var earlier := Tail(layers[..|layers| - 1], key);
      match Lookup(layers[|layers| - 1], key)
      case None => earlier
      case Some(Plain(_)) => []
      case Some(Mapping(entries)) => earlier + [entries]
  }

  /** The last plain value at `key`. */
  function LastPlain(layers: seq<Layer>, key: string): Option<Value> {
    if layers == [] then None
    else
      match Lookup(layers[|layers| - 1], key)
      case Some(Plain(t)) => Some(Plain(t))
      case _ => LastPlain(layers[..|layers| - 1], key)
  }

  lemma EmptyBase(layer: Layer)
    ensures Apply(map[], layer) == layer
  {
  }

  lemma FoldSnoc(layers: seq<Layer>, layer: Layer)
    ensures Fold(layers + [layer]) == Apply(Fold(layers), layer)
  {
    assert (layers + [layer])[..|layers|] == layers;
  }

  /** At each key a fold holds the fold of the mappings that follow the last plain value, or that plain value if no
      mapping follows; and it has exactly the keys of its layers. */
  lemma {:induction false} FoldMeaning(layers: seq<Layer>, key: string)
    ensures Lookup(Fold(layers), key) ==
      if Tail(layers, key) != [] then Some(Mapping(Fold(Tail(layers, key)))) else LastPlain(layers, key)
    ensures key in Fold(layers) <==> exists i :: 0 <= i < |layers| && key in layers[i]
  {
    if layers != [] {
      var front, last := layers[..|layers| - 1], layers[|layers| - 1];
      FoldMeaning(front, key);
      assert forall i :: 0 <= i < |front| ==> layers[i] == front[i];
      if key in last && last[key].Mapping? {
        var earlier, entries := Tail(front, key), last[key].entries;
        FoldSnoc(earlier, entries);
        if earlier == [] {
          EmptyBase(entries);
          PlainIsPlain(front, key);
        }
      }
    }
  }

  lemma {:induction false} PlainIsPlain(layers: seq<Layer>, key: string)
    ensures LastPlain(layers, key).Some? ==> LastPlain(layers, key).value.Plain?
  {
    if layers != [] {
      PlainIsPlain(layers[..|layers| - 1], key);
    }
  }

  // ---- Re-applying a layer ----

  lemma {:induction false} OverTwice(before: Option<Value>, value: Value)
    ensures Over(Some(Over(before, value)), value) == Over(before, value)
    decreases value
  {
    if value.Mapping? {
      var once := Over(before, value).entries;
      forall k | k in value.entries
        ensures Over(Some(once[k]), value.entries[k]) == once[k]
      {
        if before.Some? && before.value.Mapping? {
          OverTwice(Lookup(before.value.entries, k), value.entries[k]);
        } else {
          OverTwice(None, value.entries[k]);
        }
      }
      assert Over(Some(Over(before, value)), value).entries == once;
    }
  }

  /** Applying a layer a second time changes nothing. */
  lemma ApplyTwice(base: Layer, override: Layer)
    ensures Apply(Apply(base, override), override) == Apply(base, override)
  {
    OverTwice(Some(Mapping(base)), Mapping(override));
  }

  // ---- Grouping of layers ----

  /** Everything `a` holds is overridden by `b`. */
  predicate Covers(b: Layer, a: Layer)
    decreases Mapping(b)
  {
    forall k :: k in a ==> k in b && (a[k].Mapping? && b[k].Mapping? ==> Covers(b[k].entries, a[k].entries))
  }

  /** Wherever a mapping of `c` follows a plain value of `b` that replaced a mapping of `a`, it covers that mapping. */
  predicate NothingResurfaces(a: Layer, b: Layer, c: Layer)
    decreases Mapping(c)
  {
    forall k :: k in a && k in b && k in c && a[k].Mapping? && c[k].Mapping? ==>
      if b[k].Mapping? then NothingResurfaces(a[k].entries, b[k].entries, c[k].entries)
      else Covers(c[k].entries, a[k].entries)
  }

  lemma {:induction false} CoversMeans(b: Layer, a: Layer)
    ensures Apply(a, b) == b <==> Covers(b, a)
    decreases Mapping(b)
  {
    forall k | k in a && k in b
      ensures Over(Some(a[k]), b[k]) == b[k] <==>
        (a[k].Mapping? && b[k].Mapping? ==> Covers(b[k].entries, a[k].entries))
    {
      if a[k].Mapping? && b[k].Mapping? {
        assert b[k] < Mapping(b);
        CoversMeans(b[k].entries, a[k].entries);
        assert Over(Some(a[k]), b[k]) == Mapping(Apply(a[k].entries, b[k].entries));
      }
    }
    if Apply(a, b) == b {
      forall k | k in a
        ensures k in b && Over(Some(a[k]), b[k]) == b[k]
      {
        assert k in Apply(a, b);
      }
    }
  }

  /** Layers may be grouped either way exactly when nothing masked in between resurfaces. */
  lemma {:induction false} Associative(a: Layer, b: Layer, c: Layer)
    ensures Apply(Apply(a, b), c) == Apply(a, Apply(b, c)) <==> NothingResurfaces(a, b, c)
    decreases Mapping(c)
  {
    var left, right := Apply(Apply(a, b), c), Apply(a, Apply(b, c));
    assert left.Keys == right.Keys;
    forall k | k in left
      ensures left[k] == right[k] <==>
        (k in a && k in b && k in c && a[k].Mapping? && c[k].Mapping? ==>
          if b[k].Mapping? then NothingResurfaces(a[k].entries, b[k].entries, c[k].entries)
          else Covers(c[k].entries, a[k].entries))
    {
      AssociativeAt(a, b, c, k);
    }
    assert forall k :: k in c ==> c[k] < Mapping(c);
  }

  lemma AssociativeAt(a: Layer, b: Layer, c: Layer, k: string)
    requires k in Apply(Apply(a, b), c)
    ensures Apply(Apply(a, b), c)[k] == Apply(a, Apply(b, c))[k] <==>
      (k in a && k in b && k in c && a[k].Mapping? && c[k].Mapping? ==>
        if b[k].Mapping? then NothingResurfaces(a[k].entries, b[k].entries, c[k].entries)
        else Covers(c[k].entries, a[k].entries))
    decreases Mapping(c), 0
  {
    if k in a && k in b && k in c && a[k].Mapping? && c[k].Mapping? {
      var x, z := a[k].entries, c[k].entries;
      assert c[k] < Mapping(c);
      if b[k].Mapping? {
        var y := b[k].entries;
        Associative(x, y, z);
        assert Over(Some(a[k]), b[k]) == Mapping(Apply(x, y)) && Over(Some(b[k]), c[k]) == Mapping(Apply(y, z));
        assert Apply(Apply(a, b), c)[k] == Mapping(Apply(Apply(x, y), z));
        assert Apply(a, Apply(b, c))[k] == Mapping(Apply(x, Apply(y, z)));
      } else {
        CoversMeans(z, x);
        assert Apply(Apply(a, b), c)[k] == c[k] && Apply(a, Apply(b, c))[k] == Mapping(Apply(x, z));
      }
    }
  }

  /** The two layers hold mappings at the same ones of their common paths. */
  predicate SameShape(a: Layer, b: Layer)
    decreases Mapping(b)
  {
    forall k :: k in a && k in b ==>
      (a[k].Mapping? <==> b[k].Mapping?) && (a[k].Mapping? ==> SameShape(a[k].entries, b[k].entries))
  }

  /** In particular layers that agree on which paths are mappings may be grouped either way. */
  lemma {:induction false} SameShapeAssociative(a: Layer, b: Layer, c: Layer)
    requires SameShape(a, b)
    ensures Apply(Apply(a, b), c) == Apply(a, Apply(b, c))
  {
    SameShapeIsSafe(a, b, c);
    Associative(a, b, c);
  }

  lemma {:induction false} SameShapeIsSafe(a: Layer, b: Layer, c: Layer)
    requires SameShape(a, b)
    ensures NothingResurfaces(a, b, c)
    decreases Mapping(c)
  {
    forall k | k in a && k in b && k in c && a[k].Mapping? && c[k].Mapping?
      ensures b[k].Mapping? && NothingResurfaces(a[k].entries, b[k].entries, c[k].entries)
    {
      assert c[k] < Mapping(c);
      SameShapeIsSafe(a[k].entries, b[k].entries, c[k].entries);
    }
  }

  /** A mapping, a plain value and a mapping at one key: grouping the last two first brings back what the value
      erased. */
  lemma GroupingMatters()
    ensures var a: Layer := map["k" := Mapping(map["x" := Plain("1")])];
      var b: Layer := map["k" := Plain("off")];
      var c: Layer := map["k" := Mapping(map[])];
      Apply(Apply(a, b), c) != Apply(a, Apply(b, c))
  {
    var a: Layer := map["k" := Mapping(map["x" := Plain("1")])];
    var b: Layer := map["k" := Plain("off")];
    var c: Layer := map["k" := Mapping(map[])];
    Associative(a, b, c);
    assert "x" in a["k"].entries && "x" !in c["k"].entries;
    assert !Covers(c["k"].entries, a["k"].entries);
  }
}
