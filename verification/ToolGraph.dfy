/** The directly-follows graph of tool calls: adjacent pairs, n-grams within a turn, and turn gaps. */
module ToolGraph {
  type Pair = (string, string)

  datatype Session = Session(sessionId: string, recipe: string, turns: seq<seq<string>>)

  /** Python's `Counter` is a multiset. */
  datatype Dfg = Dfg(bigrams: multiset<Pair>, ngrams: multiset<seq<string>>, pairGaps: map<Pair, seq<int>>,
    totalTurns: nat)

  const MAX_NGRAM_LEN := 5

  // ---- What is counted ----

  function Flat(turns: seq<seq<string>>): seq<string> {
    if turns == [] then [] else Flat(turns[..|turns| - 1]) + turns[|turns| - 1]
  }

  /** Each adjacent pair of a sequence, in order. */
  function Adjacent(flat: seq<string>): (pairs: seq<Pair>)
    ensures |pairs| == if flat == [] then 0 else |flat| - 1
    ensures forall i :: 0 <= i < |pairs| ==> pairs[i] == (flat[i], flat[i + 1])
  {
    if flat == [] then [] else seq(|flat| - 1, i requires 0 <= i < |flat| - 1 => (flat[i], flat[i + 1]))
  }

  /** Each window of a given length, in order. */
  function Windows(turn: seq<string>, length: nat): (grams: seq<seq<string>>)
    ensures |grams| == if |turn| < length then 0 else |turn| - length + 1
    ensures forall i :: 0 <= i < |grams| ==> grams[i] == turn[i..i + length]
  {
    if |turn| < length then []
    else seq(|turn| - length + 1, i requires 0 <= i < |turn| - length + 1 => turn[i..i + length])
  }

  /** The windows of lengths 2 up to, not including, `length`. */
  function TurnNgrams(turn: seq<string>, length: nat): multiset<seq<string>> {
    if length <= 2 then multiset{} else TurnNgrams(turn, length - 1) + multiset(Windows(turn, length - 1))
  }

  function Ngrams(turns: seq<seq<string>>): multiset<seq<string>> {
    if turns == [] then multiset{}
    else Ngrams(turns[..|turns| - 1]) + TurnNgrams(turns[|turns| - 1], MAX_NGRAM_LEN + 1)
  }

  /** The latest turn before `j` that holds the tool, or -1. */
  function Latest(turns: seq<seq<string>>, j: nat, tool: string): (i: int)
    requires j <= |turns|
    ensures -1 <= i < j
    ensures i >= 0 ==> tool in turns[i]
    ensures forall k :: i < k < j ==> tool !in turns[k]
  {
    if j == 0 then -1 else if tool in turns[j - 1] then j - 1 else Latest(turns, j - 1, tool)
  }

  function Occurrences(turn: seq<string>, tool: string): nat {
    multiset(turn)[tool]
  }

  function Repeat(x: int, n: nat): seq<int> {
    seq(n, _ => x)
  }

  /** One gap from the latest earlier `a` for each of `n` occurrences of `b` in turn `j`. */
  function GapsAt(turns: seq<seq<string>>, j: nat, p: Pair, n: nat): seq<int>
    requires j < |turns|
  {
    if p.0 == p.1 || Latest(turns, j, p.0) < 0 then [] else Repeat(j - Latest(turns, j, p.0), n)
  }

  /** The gaps of a pair within the first `n` turns. */
  function Gaps(turns: seq<seq<string>>, n: nat, p: Pair): seq<int>
    requires n <= |turns|
  {
    if n == 0 then [] else Gaps(turns, n - 1, p) + GapsAt(turns, n - 1, p, Occurrences(turns[n - 1], p.1))
  }

  /** Everything counted in a list of sessions, for one pair's gaps. */
  datatype Totals = Totals(bigrams: multiset<Pair>, ngrams: multiset<seq<string>>, gaps: seq<int>, turns: nat)

  function Nothing(): Totals {
    Totals(multiset{}, multiset{}, [], 0)
  }

  function Plus(a: Totals, b: Totals): Totals {
    Totals(a.bigrams + b.bigrams, a.ngrams + b.ngrams, a.gaps + b.gaps, a.turns + b.turns)
  }

  function OfSession(s: Session, p: Pair): Totals {
    Totals(multiset(Adjacent(Flat(s.turns))), Ngrams(s.turns), Gaps(s.turns, |s.turns|, p), |s.turns|)
  }

  function Total(sessions: seq<Session>, p: Pair): Totals {
    if sessions == [] then Nothing()
    else Plus(Total(sessions[..|sessions| - 1], p), OfSession(sessions[|sessions| - 1], p))
  }

  function GapList(gaps: map<Pair, seq<int>>, p: Pair): seq<int> {
    if p in gaps then gaps[p] else []
  }

  function DfgTotals(d: Dfg, p: Pair): Totals {
    Totals(d.bigrams, d.ngrams, GapList(d.pairGaps, p), d.totalTurns)
  }

  ghost predicate NoEmptyList(gaps: map<Pair, seq<int>>) {
    forall p :: p in gaps ==> gaps[p] != []
  }

  /** The graph counts exactly what the sessions hold. */
  ghost predicate IsDfg(sessions: seq<Session>, d: Dfg) {
    NoEmptyList(d.pairGaps) && forall p :: DfgTotals(d, p) == Total(sessions, p)
  }

  // ---- Building the graph ----

  method AddBigrams(flat: seq<string>, bigrams: multiset<Pair>) returns (r: multiset<Pair>)
    ensures r == bigrams + multiset(Adjacent(flat))
  {
    r := bigrams;
    ghost var pairs := Adjacent(flat);
    assert pairs[..0] == [];
    for i := 0 to if flat == [] then 0 else |flat| - 1
      invariant r == bigrams + multiset(pairs[..i])
    {
      assert pairs[..i + 1] == pairs[..i] + [pairs[i]];
      r := r + multiset{(flat[i], flat[i + 1])};
    }
    assert pairs[..|pairs|] == pairs;
  }

  method AddWindows(turn: seq<string>, length: nat, ngrams: multiset<seq<string>>) returns (r: multiset<seq<string>>)
    ensures r == ngrams + multiset(Windows(turn, length))
  {
    r := ngrams;
    ghost var grams := Windows(turn, length);
    hide Windows;
    assert grams[..0] == [];
    for start := 0 to if |turn| < length then 0 else |turn| - length + 1
      invariant r == ngrams + multiset(grams[..start])
    {
      assert grams[..start + 1] == grams[..start] + [grams[start]];
      r := r + multiset{turn[start..start + length]};
    }
    assert grams[..|grams|] == grams;
  }

  method AddTurnNgrams(turn: seq<string>, ngrams: multiset<seq<string>>) returns (r: multiset<seq<string>>)
    ensures r == ngrams + TurnNgrams(turn, MAX_NGRAM_LEN + 1)
  {
    hide Windows;
    r := ngrams;
    for length := 2 to MAX_NGRAM_LEN + 1
      invariant r == ngrams + TurnNgrams(turn, length)
    {
      r := AddWindows(turn, length, r);
    }
  }

  method AddNgrams(turns: seq<seq<string>>, ngrams: multiset<seq<string>>) returns (r: multiset<seq<string>>)
    ensures r == ngrams + Ngrams(turns)
  {
    hide TurnNgrams;
    r := ngrams;
    for j := 0 to |turns|
      invariant r == ngrams + Ngrams(turns[..j])
    {
      assert turns[..j + 1][..j] == turns[..j];
      r := AddTurnNgrams(turns[j], r);
    }
    assert turns[..|turns|] == turns;
  }

  /** The gap that one occurrence of `tool` adds to a pair. */
  function NewGap(lastSeen: map<string, nat>, tool: string, turnIdx: nat, p: Pair): seq<int> {
    if p.1 == tool && p.0 != tool && p.0 in lastSeen then [turnIdx - lastSeen[p.0]] else []
  }

  /** Appends `gap` for every remembered tool other than `tool`. */
  method AppendGaps(pairGaps: map<Pair, seq<int>>, lastSeen: map<string, nat>, tool: string, turnIdx: nat)
    returns (r: map<Pair, seq<int>>)
    requires NoEmptyList(pairGaps) && forall prev :: prev in lastSeen ==> lastSeen[prev] < turnIdx
    ensures NoEmptyList(r)
    ensures forall p :: GapList(r, p) == GapList(pairGaps, p) + NewGap(lastSeen, tool, turnIdx, p)
  {
    r := pairGaps;
    var todo := lastSeen.Keys;
    while todo != {}
      invariant todo <= lastSeen.Keys && NoEmptyList(r)
      invariant forall p ::
        GapList(r, p) == GapList(pairGaps, p) + if p.0 in todo then [] else NewGap(lastSeen, tool, turnIdx, p)
    {
      var prevTool :| prevTool in todo;
      todo := todo - {prevTool};
      if prevTool != tool {
        var pair := (prevTool, tool);
        var gap := turnIdx - lastSeen[prevTool];
        if gap > 0 {
          r := r[pair := GapList(r, pair) + [gap]];
        }
      }
    }
  }

  ghost predicate Remembers(lastSeen: map<string, nat>, turns: seq<seq<string>>, j: nat)
    requires j <= |turns|
  {
    forall a :: (a in lastSeen <==> Latest(turns, j, a) >= 0) && (a in lastSeen ==> lastSeen[a] == Latest(turns, j, a))
  }

  lemma OneMore(turns: seq<seq<string>>, j: nat, t: nat, lastSeen: map<string, nat>, p: Pair)
    requires j < |turns| && t < |turns[j]| && Remembers(lastSeen, turns, j)
    ensures GapsAt(turns, j, p, Occurrences(turns[j][..t + 1], p.1))
         == GapsAt(turns, j, p, Occurrences(turns[j][..t], p.1)) + NewGap(lastSeen, turns[j][t], j, p)
  {
    hide Latest;
    assert turns[j][..t + 1] == turns[j][..t] + [turns[j][t]];
    assert Occurrences(turns[j][..t + 1], p.1) == Occurrences(turns[j][..t], p.1) + if p.1 == turns[j][t] then 1 else 0;
  }

  lemma NoOccurrence(turns: seq<seq<string>>, j: nat, p: Pair)
    requires j < |turns|
    ensures GapsAt(turns, j, p, Occurrences(turns[j][..0], p.1)) == []
  {
  }

  method AddTurnGaps(turns: seq<seq<string>>, j: nat, lastSeen: map<string, nat>, pairGaps: map<Pair, seq<int>>)
    returns (r: map<Pair, seq<int>>)
    requires j < |turns| && Remembers(lastSeen, turns, j) && NoEmptyList(pairGaps)
    ensures NoEmptyList(r)
    ensures forall p :: GapList(r, p) == GapList(pairGaps, p) + GapsAt(turns, j, p, Occurrences(turns[j], p.1))
  {
    hide NoEmptyList, GapList, GapsAt, NewGap, Occurrences, Latest;
    r := pairGaps;
    var turn := turns[j];
    forall p
      ensures GapList(r, p) == GapList(pairGaps, p) + GapsAt(turns, j, p, Occurrences(turn[..0], p.1))
    {
      NoOccurrence(turns, j, p);
    }
    for t := 0 to |turn|
      invariant NoEmptyList(r)
      invariant forall p :: GapList(r, p) == GapList(pairGaps, p) + GapsAt(turns, j, p, Occurrences(turn[..t], p.1))
    {
      ghost var soFar := r;
      r := AppendGaps(r, lastSeen, turn[t], j);
      forall p
        ensures GapList(r, p) == GapList(pairGaps, p) + GapsAt(turns, j, p, Occurrences(turn[..t + 1], p.1))
      {
        OneMore(turns, j, t, lastSeen, p);
        assert GapList(soFar, p) == GapList(pairGaps, p) + GapsAt(turns, j, p, Occurrences(turn[..t], p.1));
      }
    }
    assert turn[..|turn|] == turn;
  }

  method Remember(turns: seq<seq<string>>, j: nat, lastSeen: map<string, nat>) returns (r: map<string, nat>)
    requires j < |turns| && Remembers(lastSeen, turns, j)
    ensures Remembers(r, turns, j + 1)
  {
    r := lastSeen;
    var turn := turns[j];
    for t := 0 to |turn|
      invariant forall a :: a in r <==> a in lastSeen || a in turn[..t]
      invariant forall a :: a in r ==> r[a] == if a in turn[..t] then j else lastSeen[a]
    {
      assert turn[..t + 1] == turn[..t] + [turn[t]];
      r := r[turn[t] := j];
    }
    assert turn[..|turn|] == turn;
  }

  method AddGaps(turns: seq<seq<string>>, pairGaps: map<Pair, seq<int>>) returns (r: map<Pair, seq<int>>)
    requires NoEmptyList(pairGaps)
    ensures NoEmptyList(r)
    ensures forall p :: GapList(r, p) == GapList(pairGaps, p) + Gaps(turns, |turns|, p)
  {
    hide NoEmptyList, GapList, GapsAt, Occurrences;
    r := pairGaps;
    var lastSeen: map<string, nat> := map[];
    assert Remembers(lastSeen, turns, 0);
    hide Remembers;
    for j := 0 to |turns|
      invariant NoEmptyList(r) && Remembers(lastSeen, turns, j)
      invariant forall p :: GapList(r, p) == GapList(pairGaps, p) + Gaps(turns, j, p)
    {
      r := AddTurnGaps(turns, j, lastSeen, r);
      lastSeen := Remember(turns, j, lastSeen);
    }
  }

  method BuildDfg(sessions: seq<Session>) returns (d: Dfg)
    ensures IsDfg(sessions, d)
  {
    hide NoEmptyList, Gaps, Ngrams, Adjacent, GapList;
    var bigrams: multiset<Pair>, ngrams: multiset<seq<string>> := multiset{}, multiset{};
    var pairGaps: map<Pair, seq<int>> := map[];
    var totalTurns: nat := 0;
    EmptyGaps();
    for i := 0 to |sessions|
      invariant NoEmptyList(pairGaps)
      invariant forall p :: Totals(bigrams, ngrams, GapList(pairGaps, p), totalTurns) == Total(sessions[..i], p)
    {
      var s := sessions[i];
      assert sessions[..i + 1][..i] == sessions[..i];
      totalTurns := totalTurns + |s.turns|;
      var flat := [];
      for j := 0 to |s.turns|
        invariant flat == Flat(s.turns[..j])
      {
        assert s.turns[..j + 1][..j] == s.turns[..j];
        flat := flat + s.turns[j];
      }
      assert s.turns[..|s.turns|] == s.turns;
      bigrams := AddBigrams(flat, bigrams);
      ngrams := AddNgrams(s.turns, ngrams);
      pairGaps := AddGaps(s.turns, pairGaps);
    }
    assert sessions[..|sessions|] == sessions;
    d := Dfg(bigrams, ngrams, pairGaps, totalTurns);
  }

  lemma EmptyGaps()
    ensures NoEmptyList(map[]) && forall p :: GapList(map[], p) == []
  {
  }

  // ---- Per recipe ----

  function OfRecipe(sessions: seq<Session>, recipe: string): seq<Session> {
    if sessions == [] then []
    else
      var front, s := OfRecipe(sessions[..|sessions| - 1], recipe), sessions[|sessions| - 1];
      if s.recipe == recipe then front + [s] else front
  }

  ghost predicate IsByRecipe(sessions: seq<Session>, byRecipe: map<string, Dfg>) {
    && (forall r :: r in byRecipe <==> exists i :: 0 <= i < |sessions| && sessions[i].recipe == r)
    && forall r :: r in byRecipe ==> IsDfg(OfRecipe(sessions, r), byRecipe[r])
  }

  /** The sessions of each recipe, in order. */
  method GroupByRecipe(sessions: seq<Session>) returns (byRecipe: map<string, seq<Session>>)
    ensures forall r :: r in byRecipe <==> exists i :: 0 <= i < |sessions| && sessions[i].recipe == r
    ensures forall r :: r in byRecipe ==> byRecipe[r] == OfRecipe(sessions, r)
  {
    byRecipe := map[];
    for i := 0 to |sessions|
      invariant forall r :: r in byRecipe <==> exists j :: 0 <= j < i && sessions[j].recipe == r
      invariant forall r :: OfRecipe(sessions[..i], r) == if r in byRecipe then byRecipe[r] else []
    {
      var s := sessions[i];
      assert sessions[..i + 1][..i] == sessions[..i];
      byRecipe := byRecipe[s.recipe := (if s.recipe in byRecipe then byRecipe[s.recipe] else []) + [s]];
    }
    assert sessions[..|sessions|] == sessions;
  }

  method BuildDfgByRecipe(sessions: seq<Session>) returns (result: map<string, Dfg>)
    ensures IsByRecipe(sessions, result)
  {
    hide IsDfg, OfRecipe;
    var byRecipe := GroupByRecipe(sessions);
    result := map[];
    var todo := byRecipe.Keys;
    while todo != {}
      invariant todo <= byRecipe.Keys && result.Keys == byRecipe.Keys - todo
      invariant forall r :: r in result ==> IsDfg(byRecipe[r], result[r])
    {
      var recipe :| recipe in todo;
      todo := todo - {recipe};
      var d := BuildDfg(byRecipe[recipe]);
      result := result[recipe := d];
    }
  }

  method ComputeAnalysis(sessions: seq<Session>) returns (globalDfg: Dfg, byRecipe: map<string, Dfg>, sessionCount: nat)
    ensures IsDfg(sessions, globalDfg) && IsByRecipe(sessions, byRecipe) && sessionCount == |sessions|
  {
    globalDfg := BuildDfg(sessions);
    byRecipe := BuildDfgByRecipe(sessions);
    sessionCount := |sessions|;
  }

  // ---- The global graph is the sum of the recipe graphs ----

  /** Totals with the gaps as a multiset: recipes interleave, so only the order of gaps is lost. */
  datatype Counts = Counts(bigrams: multiset<Pair>, ngrams: multiset<seq<string>>, gaps: multiset<int>, turns: nat)

  function Count(t: Totals): Counts {
    Counts(t.bigrams, t.ngrams, multiset(t.gaps), t.turns)
  }

  function Add(a: Counts, b: Counts): Counts {
    Counts(a.bigrams + b.bigrams, a.ngrams + b.ngrams, a.gaps + b.gaps, a.turns + b.turns)
  }

  function Without(sessions: seq<Session>, recipe: string): seq<Session> {
    if sessions == [] then []
    else
      var front, s := Without(sessions[..|sessions| - 1], recipe), sessions[|sessions| - 1];
      if s.recipe == recipe then front else front + [s]
  }

  lemma TotalSnoc(sessions: seq<Session>, s: Session, p: Pair)
    ensures Total(sessions + [s], p) == Plus(Total(sessions, p), OfSession(s, p))
  {
    assert (sessions + [s])[..|sessions|] == sessions;
  }

  lemma CountPlus(a: Totals, b: Totals)
    ensures Count(Plus(a, b)) == Add(Count(a), Count(b))
  {
  }

  lemma AddLaws(a: Counts, b: Counts, c: Counts)
    ensures Add(Add(a, b), c) == Add(Add(a, c), b) == Add(a, Add(b, c))
  {
  }

  lemma RecipeSnoc(sessions: seq<Session>, s: Session, recipe: string)
    ensures OfRecipe(sessions + [s], recipe) ==
      if s.recipe == recipe then OfRecipe(sessions, recipe) + [s] else OfRecipe(sessions, recipe)
    ensures Without(sessions + [s], recipe) ==
      if s.recipe == recipe then Without(sessions, recipe) else Without(sessions, recipe) + [s]
  {
    assert (sessions + [s])[..|sessions|] == sessions;
  }

  lemma {:induction false} SplitByRecipe(sessions: seq<Session>, recipe: string, p: Pair)
    ensures Count(Total(sessions, p)) ==
      Add(Count(Total(OfRecipe(sessions, recipe), p)), Count(Total(Without(sessions, recipe), p)))
  {
    if sessions != [] {
      hide *;
      var front, s := sessions[..|sessions| - 1], sessions[|sessions| - 1];
      var inside, outside := OfRecipe(front, recipe), Without(front, recipe);
      assert sessions == front + [s];
      SplitByRecipe(front, recipe, p);
      RecipeSnoc(front, s, recipe);
      TotalSnoc(front, s, p);
      TotalSnoc(inside, s, p);
      TotalSnoc(outside, s, p);
      CountPlus(Total(front, p), OfSession(s, p));
      CountPlus(Total(inside, p), OfSession(s, p));
      CountPlus(Total(outside, p), OfSession(s, p));
      AddLaws(Count(Total(inside, p)), Count(Total(outside, p)), Count(OfSession(s, p)));
    }
  }

  lemma {:induction false} WithoutOther(sessions: seq<Session>, gone: string, recipe: string)
    requires gone != recipe
    ensures OfRecipe(Without(sessions, gone), recipe) == OfRecipe(sessions, recipe)
  {
    if sessions != [] {
      var front, s := sessions[..|sessions| - 1], sessions[|sessions| - 1];
      WithoutOther(front, gone, recipe);
      if s.recipe != gone {
        assert Without(sessions, gone)[..|Without(front, gone)|] == Without(front, gone);
      }
    }
  }

  lemma {:induction false} WithoutRecipes(sessions: seq<Session>, gone: string)
    ensures forall i :: 0 <= i < |Without(sessions, gone)| ==>
      Without(sessions, gone)[i] in sessions && Without(sessions, gone)[i].recipe != gone
  {
    if sessions != [] {
      WithoutRecipes(sessions[..|sessions| - 1], gone);
    }
  }

  function SumOf(names: seq<string>, sessions: seq<Session>, p: Pair): Counts {
    if names == [] then Count(Nothing())
    else Add(Count(Total(OfRecipe(sessions, names[0]), p)), SumOf(names[1..], sessions, p))
  }

  ghost predicate ListsOnce(names: seq<string>) {
    forall i, j :: 0 <= i < j < |names| ==> names[i] != names[j]
  }

  lemma {:induction false} SumWithout(names: seq<string>, sessions: seq<Session>, gone: string, p: Pair)
    requires gone !in names
    ensures SumOf(names, Without(sessions, gone), p) == SumOf(names, sessions, p)
  {
    if names != [] {
      WithoutOther(sessions, gone, names[0]);
      SumWithout(names[1..], sessions, gone, p);
    }
  }

  lemma RestIsListed(names: seq<string>, sessions: seq<Session>)
    requires names != [] && forall i :: 0 <= i < |sessions| ==> sessions[i].recipe in names
    ensures forall i :: 0 <= i < |Without(sessions, names[0])| ==> Without(sessions, names[0])[i].recipe in names[1..]
  {
    var rest := Without(sessions, names[0]);
    WithoutRecipes(sessions, names[0]);
    forall i | 0 <= i < |rest|
      ensures rest[i].recipe in names[1..]
    {
      var j :| 0 <= j < |sessions| && sessions[j] == rest[i];
      var k :| 0 <= k < |names| && names[k] == rest[i].recipe;
      assert names[1..][k - 1] == names[k];
    }
  }

  lemma NothingTotal(p: Pair)
    ensures Total([], p) == Nothing()
  {
  }

  lemma {:induction false} TotalIsSum(names: seq<string>, sessions: seq<Session>, p: Pair)
    requires ListsOnce(names) && forall i :: 0 <= i < |sessions| ==> sessions[i].recipe in names
    ensures Count(Total(sessions, p)) == SumOf(names, sessions, p)
  {
    hide Total, Count, Add, OfRecipe, Without, Nothing;
    if names == [] {
      assert |sessions| > 0 ==> sessions[0].recipe in names;
      NothingTotal(p);
    } else {
      SplitByRecipe(sessions, names[0], p);
      RestIsListed(names, sessions);
      TotalIsSum(names[1..], Without(sessions, names[0]), p);
      SumWithout(names[1..], sessions, names[0], p);
    }
  }

  function SumOfGraphs(names: seq<string>, byRecipe: map<string, Dfg>, p: Pair): Counts
    requires forall i :: 0 <= i < |names| ==> names[i] in byRecipe
  {
    if names == [] then Count(Nothing())
    else Add(Count(DfgTotals(byRecipe[names[0]], p)), SumOfGraphs(names[1..], byRecipe, p))
  }

  lemma {:induction false} GraphsAreTotals(
      names: seq<string>, sessions: seq<Session>, byRecipe: map<string, Dfg>, p: Pair)
    requires IsByRecipe(sessions, byRecipe) && forall i :: 0 <= i < |names| ==> names[i] in byRecipe
    ensures SumOfGraphs(names, byRecipe, p) == SumOf(names, sessions, p)
  {
    hide Total, DfgTotals, Add, Count;
    if names != [] {
      assert IsDfg(OfRecipe(sessions, names[0]), byRecipe[names[0]]);
      GraphsAreTotals(names[1..], sessions, byRecipe, p);
    }
  }

  /** Bigram and n-gram counts, turn totals and, for every pair, the gaps as a multiset: the global graph is the sum of
      the graphs per recipe, each recipe taken once. */
  lemma GlobalIsSumOfRecipes(
      sessions: seq<Session>, globalDfg: Dfg, byRecipe: map<string, Dfg>, names: seq<string>, p: Pair)
    requires IsDfg(sessions, globalDfg) && IsByRecipe(sessions, byRecipe)
    requires ListsOnce(names) && forall r :: r in names <==> r in byRecipe
    ensures Count(DfgTotals(globalDfg, p)) == SumOfGraphs(names, byRecipe, p)
  {
    hide Total, DfgTotals, Add, Count, OfRecipe, SumOf, SumOfGraphs;
    forall i | 0 <= i < |sessions|
      ensures sessions[i].recipe in names
    {
      assert sessions[i].recipe in byRecipe;
    }
    TotalIsSum(names, sessions, p);
    GraphsAreTotals(names, sessions, byRecipe, p);
  }

  // ---- Gaps and sizes ----

  /** Turn `j`, among the first `n`, contributes gap `g` to the pair: `j - g` is the latest earlier turn with its first
      tool. */
  ghost predicate IsGap(turns: seq<seq<string>>, n: nat, j: nat, p: Pair, g: int) {
    && n <= |turns| && j < n && p.0 != p.1 && p.1 in turns[j] && 0 < g <= j
    && p.0 in turns[j - g] && forall k :: j - g < k < j ==> p.0 !in turns[k]
  }

  /** How many occurrences of the second tool have the first, a different one, in an earlier turn. */
  function GapCount(turns: seq<seq<string>>, n: nat, p: Pair): nat
    requires n <= |turns|
  {
    if n == 0 then 0
    else if p.0 != p.1 && exists i :: 0 <= i < n - 1 && p.0 in turns[i] then
      GapCount(turns, n - 1, p) + Occurrences(turns[n - 1], p.1)
    else GapCount(turns, n - 1, p)
  }

  lemma LastTurnGap(turns: seq<seq<string>>, j: nat, p: Pair, g: int)
    requires j < |turns| && g in GapsAt(turns, j, p, Occurrences(turns[j], p.1))
    ensures IsGap(turns, j + 1, j, p, g)
  {
  }

  lemma GapStays(turns: seq<seq<string>>, n: nat, j: nat, p: Pair, g: int)
    requires 0 < n <= |turns| && IsGap(turns, n - 1, j, p, g)
    ensures IsGap(turns, n, j, p, g)
  {
  }

  /** Every gap is the positive distance to the latest earlier turn with the first tool. */
  lemma {:induction false} GapsMeaning(turns: seq<seq<string>>, n: nat, p: Pair, g: int)
    requires n <= |turns| && g in Gaps(turns, n, p)
    ensures exists j: nat :: IsGap(turns, n, j, p, g)
  {
    hide IsGap, GapsAt, Latest, Occurrences;
    if n > 0 {
      if g in Gaps(turns, n - 1, p) {
        GapsMeaning(turns, n - 1, p, g);
        var k: nat :| IsGap(turns, n - 1, k, p, g);
        GapStays(turns, n, k, p, g);
      } else {
        LastTurnGap(turns, n - 1, p, g);
      }
    }
  }

  /** How many occurrences of the second tool stand at distance `g` from the latest earlier turn with the first. */
  ghost function GapCountAt(turns: seq<seq<string>>, n: nat, p: Pair, g: int): nat
    requires n <= |turns|
  {
    if n == 0 then 0
    else GapCountAt(turns, n - 1, p, g) + if IsGap(turns, n, n - 1, p, g) then Occurrences(turns[n - 1], p.1) else 0
  }

  lemma {:induction false} RepeatCount(x: int, n: nat)
    ensures forall g :: multiset(Repeat(x, n))[g] == if g == x then n else 0
  {
    if n > 0 {
      RepeatCount(x, n - 1);
      assert Repeat(x, n) == Repeat(x, n - 1) + [x];
    }
  }

  lemma GapIsToLatest(turns: seq<seq<string>>, j: nat, p: Pair, g: int)
    requires IsGap(turns, j + 1, j, p, g)
    ensures Latest(turns, j, p.0) == j - g
  {
  }

  lemma GapsAtCount(turns: seq<seq<string>>, j: nat, p: Pair, g: int)
    requires j < |turns|
    ensures multiset(GapsAt(turns, j, p, Occurrences(turns[j], p.1)))[g]
      == if IsGap(turns, j + 1, j, p, g) then Occurrences(turns[j], p.1) else 0
  {
    var i, n := Latest(turns, j, p.0), Occurrences(turns[j], p.1);
    if p.0 != p.1 && i >= 0 {
      RepeatCount(j - i, n);
      assert n > 0 ==> IsGap(turns, j + 1, j, p, j - i);
    }
    if IsGap(turns, j + 1, j, p, g) {
      GapIsToLatest(turns, j, p, g);
    }
  }

  /** Each gap is listed once for each occurrence: how often a distance is listed is how many occurrences of the second
      tool stand at that distance. */
  lemma {:induction false} GapsPerOccurrence(turns: seq<seq<string>>, n: nat, p: Pair, g: int)
    requires n <= |turns|
    ensures multiset(Gaps(turns, n, p))[g] == GapCountAt(turns, n, p, g)
  {
    hide IsGap, GapsAt, Occurrences;
    if n > 0 {
      GapsPerOccurrence(turns, n - 1, p, g);
      GapsAtCount(turns, n - 1, p, g);
    }
  }

  /** There are as many gaps as occurrences of the second tool after the first, and each distance turns up in the
      list. */
  lemma {:induction false} GapsCounted(turns: seq<seq<string>>, n: nat, p: Pair)
    requires n <= |turns|
    ensures |Gaps(turns, n, p)| == GapCount(turns, n, p)
    ensures forall j: nat, g :: IsGap(turns, n, j, p, g) ==> g in Gaps(turns, n, p)
  {
    if n > 0 {
      GapsCounted(turns, n - 1, p);
      var j, before := n - 1, Gaps(turns, n - 1, p);
      var added := GapsAt(turns, j, p, Occurrences(turns[j], p.1));
      assert Latest(turns, j, p.0) >= 0 ==> p.0 in turns[Latest(turns, j, p.0)];
      assert |added| == GapCount(turns, n, p) - GapCount(turns, j, p);
      forall k: nat, g | IsGap(turns, n, k, p, g)
        ensures g in before + added
      {
        if k < j {
          assert IsGap(turns, j, k, p, g);
        } else {
          assert Latest(turns, j, p.0) == j - g;
          assert added[0] == g;
        }
      }
    }
  }

  function BigramCount(sessions: seq<Session>): nat {
    if sessions == [] then 0
    else BigramCount(sessions[..|sessions| - 1]) + PairCount(Flat(sessions[|sessions| - 1].turns))
  }

  function PairCount(flat: seq<string>): nat {
    if flat == [] then 0 else |flat| - 1
  }

  /** All bigrams together: one less than the tools of each session, but never negative. */
  lemma {:induction false} BigramTotal(sessions: seq<Session>, p: Pair)
    ensures |Total(sessions, p).bigrams| == BigramCount(sessions)
  {
    hide Gaps, Ngrams;
    if sessions != [] {
      BigramTotal(sessions[..|sessions| - 1], p);
      assert |multiset(Adjacent(Flat(sessions[|sessions| - 1].turns)))| ==
        |Adjacent(Flat(sessions[|sessions| - 1].turns))|;
    }
  }

  // ---- What the graph counts, place by place ----

  /** How many places before `n` hold `x`. */
  ghost function CountOf<T>(s: seq<T>, n: nat, x: T): nat
    requires n <= |s|
  {
    if n == 0 then 0 else CountOf(s, n - 1, x) + if s[n - 1] == x then 1 else 0
  }

  lemma {:induction false} MultisetCounts<T>(s: seq<T>, n: nat, x: T)
    requires n <= |s|
    ensures multiset(s[..n])[x] == CountOf(s, n, x)
  {
    if n > 0 {
      MultisetCounts(s, n - 1, x);
      assert s[..n] == s[..n - 1] + [s[n - 1]];
    }
  }

  /** How many of the first `n` tools of a turn are `p.1` right after `p.0`. */
  ghost function PairsWithin(turn: seq<string>, n: nat, p: Pair): nat
    requires n <= |turn|
  {
    if n < 2 then 0
    else PairsWithin(turn, n - 1, p) + if turn[n - 2] == p.0 && turn[n - 1] == p.1 then 1 else 0
  }

  lemma {:induction false} AdjacentCounts(turn: seq<string>, n: nat, p: Pair)
    requires n <= |turn|
    ensures multiset(Adjacent(turn[..n]))[p] == PairsWithin(turn, n, p)
  {
    hide Adjacent;
    if n >= 2 {
      AdjacentCounts(turn, n - 1, p);
      AdjacentSnoc(turn, n);
    } else {
      assert |Adjacent(turn[..n])| == 0;
      assert Adjacent(turn[..n]) == [];
    }
  }

  lemma AdjacentSnoc(turn: seq<string>, n: nat)
    requires 2 <= n <= |turn|
    ensures Adjacent(turn[..n]) == Adjacent(turn[..n - 1]) + [(turn[n - 2], turn[n - 1])]
  {
  }

  /** Turn `j` is the next after `i` that has tools. */
  ghost predicate NextWithTools(turns: seq<seq<string>>, i: nat, j: nat) {
    && i < j < |turns| && turns[i] != [] && turns[j] != []
    && forall k :: i < k < j ==> turns[k] == []
  }

  ghost predicate JoinsAt(turns: seq<seq<string>>, j: nat, p: Pair) {
    exists i: nat :: NextWithTools(turns, i, j) && turns[i][|turns[i]| - 1] == p.0 && turns[j][0] == p.1
  }

  /** The places within turns, and the turns that begin with `p.1` where the turn before them that has tools ends in
      `p.0`, among the first `n` turns. */
  ghost function PairPlaces(turns: seq<seq<string>>, n: nat, p: Pair): nat
    requires n <= |turns|
  {
    if n == 0 then 0
    else
      PairPlaces(turns, n - 1, p) + PairsWithin(turns[n - 1], |turns[n - 1]|, p)
      + if JoinsAt(turns, n - 1, p) then 1 else 0
  }

  lemma AdjacentSplit(x: seq<string>, y: seq<string>)
    requires x != [] && y != []
    ensures Adjacent(x + y) == Adjacent(x) + [(x[|x| - 1], y[0])] + Adjacent(y)
  {
  }

  lemma AdjacentConcat(x: seq<string>, y: seq<string>)
    ensures multiset(Adjacent(x + y)) == multiset(Adjacent(x)) + multiset(Adjacent(y)) +
      if x != [] && y != [] then multiset{(x[|x| - 1], y[0])} else multiset{}
  {
    if x == [] {
      assert x + y == y;
    } else if y == [] {
      assert x + y == x;
    } else {
      AdjacentSplit(x, y);
    }
  }

  /** Turn `i` is the last of the first `n` that has tools, and the joined turns end as it does. */
  ghost predicate EndsAt(turns: seq<seq<string>>, n: nat, i: nat) {
    && i < n <= |turns| && turns[i] != [] && (forall k :: i < k < n ==> turns[k] == [])
    && var flat := Flat(turns[..n]); flat != [] && flat[|flat| - 1] == turns[i][|turns[i]| - 1]
  }

  /** The joined turns end as the last turn with tools does. */
  lemma {:induction false} FlatEnds(turns: seq<seq<string>>, n: nat)
    requires n <= |turns|
    ensures Flat(turns[..n]) == [] ==> forall k :: 0 <= k < n ==> turns[k] == []
    ensures Flat(turns[..n]) != [] ==> exists i: nat :: i < n && EndsAt(turns, n, i)
  {
    if n > 0 {
      FlatEnds(turns, n - 1);
      assert turns[..n][..n - 1] == turns[..n - 1];
      if turns[n - 1] != [] {
        assert EndsAt(turns, n, n - 1);
      } else if Flat(turns[..n - 1]) != [] {
        var i: nat :| i < n - 1 && EndsAt(turns, n - 1, i);
        assert EndsAt(turns, n, i);
      }
    }
  }

  lemma NextIsUnique(turns: seq<seq<string>>, i: nat, j: nat, n: nat)
    requires NextWithTools(turns, i, n) && NextWithTools(turns, j, n)
    ensures i == j
  {
  }

  lemma JoinIsAtEnd(turns: seq<seq<string>>, n: nat, p: Pair)
    requires n < |turns|
    ensures var flat := Flat(turns[..n]);
      JoinsAt(turns, n, p) <==> flat != [] && turns[n] != [] && (flat[|flat| - 1], turns[n][0]) == p
  {
    FlatEnds(turns, n);
    var flat := Flat(turns[..n]);
    if flat != [] && turns[n] != [] {
      var i: nat :| i < n && EndsAt(turns, n, i);
      assert NextWithTools(turns, i, n);
      if JoinsAt(turns, n, p) {
        var j: nat :| NextWithTools(turns, j, n) && turns[j][|turns[j]| - 1] == p.0 && turns[n][0] == p.1;
        NextIsUnique(turns, i, j, n);
      }
    }
  }

  lemma FlatStep(turns: seq<seq<string>>, n: nat)
    requires n < |turns|
    ensures Flat(turns[..n + 1]) == Flat(turns[..n]) + turns[n]
  {
    assert turns[..n + 1][..n] == turns[..n];
  }

  /** One more turn. */
  lemma PairsStep(turns: seq<seq<string>>, n: nat, p: Pair)
    requires n < |turns|
    ensures multiset(Adjacent(Flat(turns[..n + 1])))[p] ==
      multiset(Adjacent(Flat(turns[..n])))[p] + PairsWithin(turns[n], |turns[n]|, p)
      + if JoinsAt(turns, n, p) then 1 else 0
  {
    hide Adjacent, PairsWithin, JoinsAt, Flat;
    var last := turns[n];
    FlatStep(turns, n);
    AdjacentConcat(Flat(turns[..n]), last);
    AdjacentCounts(last, |last|, p);
    assert last[..|last|] == last;
    JoinIsAtEnd(turns, n, p);
  }

  /** The pairs of a session are those of neighbouring tools, in the order of the turns. */
  lemma {:induction false} PairsByPlace(turns: seq<seq<string>>, n: nat, p: Pair)
    requires n <= |turns|
    ensures multiset(Adjacent(Flat(turns[..n])))[p] == PairPlaces(turns, n, p)
  {
    hide Adjacent, PairsWithin, JoinsAt, Flat;
    if n == 0 {
      NoPairs();
    } else {
      PairsByPlace(turns, n - 1, p);
      PairsStep(turns, n - 1, p);
    }
  }

  lemma NoPairs()
    ensures Adjacent([]) == [] && Flat([]) == []
  {
  }

  ghost function SessionPairs(sessions: seq<Session>, p: Pair): nat {
    if sessions == [] then 0
    else
      var turns := sessions[|sessions| - 1].turns;
      SessionPairs(sessions[..|sessions| - 1], p) + PairPlaces(turns, |turns|, p)
  }

  /** How many places before `n` of a turn the tools of `gram` start at. */
  ghost function GramPlaces(turn: seq<string>, n: nat, gram: seq<string>): nat
    requires n <= |turn| + 1
  {
    if n == 0 then 0 else GramPlaces(turn, n - 1, gram) + if gram <= turn[n - 1..] then 1 else 0
  }

  lemma {:induction false} WindowCounts(turn: seq<string>, n: nat, gram: seq<string>)
    requires |gram| > 0 && n <= |Windows(turn, |gram|)|
    ensures CountOf(Windows(turn, |gram|), n, gram) == GramPlaces(turn, n, gram)
  {
    hide Windows;
    if n > 0 {
      WindowCounts(turn, n - 1, gram);
      StartsHere(turn, n - 1, gram);
    }
  }

  lemma StartsHere(turn: seq<string>, k: nat, gram: seq<string>)
    requires k + |gram| <= |turn|
    ensures gram <= turn[k..] <==> turn[k..k + |gram|] == gram
  {
    assert turn[k..][..|gram|] == turn[k..k + |gram|];
  }

  lemma {:induction false} NoLateStart(turn: seq<string>, n: nat, gram: seq<string>)
    requires n <= |turn| + 1 && |gram| > 0 && (n + |gram| > |turn| + 1)
    ensures GramPlaces(turn, n, gram) ==
      GramPlaces(turn, if |turn| < |gram| then 0 else |turn| - |gram| + 1, gram)
    decreases n
  {
    var first := if |turn| < |gram| then 0 else |turn| - |gram| + 1;
    if n > first {
      assert !(gram <= turn[n - 1..]);
      if n - 1 > first {
        NoLateStart(turn, n - 1, gram);
      }
    }
  }

  lemma LastStart(turn: seq<string>, gram: seq<string>, n: nat)
    requires |gram| > 0 && n == if |turn| < |gram| then 0 else |turn| - |gram| + 1
    ensures GramPlaces(turn, n, gram) == GramPlaces(turn, |turn|, gram)
  {
    hide *;
    if |gram| > 1 {
      NoLateStart(turn, |turn|, gram);
    }
  }

  lemma WindowsOfLength(turn: seq<string>, gram: seq<string>)
    requires |gram| > 0
    ensures var windows := Windows(turn, |gram|); CountOf(windows, |windows|, gram) == GramPlaces(turn, |turn|, gram)
  {
    hide *;
    WindowCounts(turn, |Windows(turn, |gram|)|, gram);
    LastStart(turn, gram, |Windows(turn, |gram|)|);
  }

  lemma WholeCount<T>(s: seq<T>, x: T)
    ensures multiset(s)[x] == CountOf(s, |s|, x)
  {
    MultisetCounts(s, |s|, x);
    assert s[..|s|] == s;
  }

  lemma WindowsCount(turn: seq<string>, length: nat, gram: seq<string>)
    requires length > 0
    ensures multiset(Windows(turn, length))[gram] == if |gram| == length then GramPlaces(turn, |turn|, gram) else 0
  {
    hide *;
    WholeCount(Windows(turn, length), gram);
    if |gram| == length {
      WindowsOfLength(turn, gram);
    } else {
      NotAWindow(turn, length, |Windows(turn, length)|, gram);
    }
  }

  lemma {:induction false} NotAWindow(turn: seq<string>, length: nat, n: nat, gram: seq<string>)
    requires |gram| != length && n <= |Windows(turn, length)|
    ensures CountOf(Windows(turn, length), n, gram) == 0
  {
    if n > 0 {
      NotAWindow(turn, length, n - 1, gram);
    }
  }

  lemma {:induction false} TurnGramsByPlace(turn: seq<string>, length: nat, gram: seq<string>)
    requires length >= 2
    ensures TurnNgrams(turn, length)[gram] == if 2 <= |gram| < length then GramPlaces(turn, |turn|, gram) else 0
  {
    hide Windows;
    if length > 2 {
      TurnGramsByPlace(turn, length - 1, gram);
      WindowsCount(turn, length - 1, gram);
    }
  }

  ghost function GramPlacesIn(turns: seq<seq<string>>, n: nat, gram: seq<string>): nat
    requires n <= |turns|
  {
    if n == 0 then 0 else GramPlacesIn(turns, n - 1, gram) + GramPlaces(turns[n - 1], |turns[n - 1]|, gram)
  }

  /** The n-grams of a session are the runs of two to five tools within its turns. */
  lemma {:induction false} GramsByPlace(turns: seq<seq<string>>, n: nat, gram: seq<string>)
    requires n <= |turns|
    ensures Ngrams(turns[..n])[gram] == if 2 <= |gram| <= 5 then GramPlacesIn(turns, n, gram) else 0
  {
    hide TurnNgrams;
    if n > 0 {
      GramsByPlace(turns, n - 1, gram);
      assert turns[..n][..n - 1] == turns[..n - 1];
      TurnGramsByPlace(turns[n - 1], 6, gram);
    }
  }

  ghost function SessionGrams(sessions: seq<Session>, gram: seq<string>): nat {
    if sessions == [] then 0
    else
      var turns := sessions[|sessions| - 1].turns;
      SessionGrams(sessions[..|sessions| - 1], gram) + GramPlacesIn(turns, |turns|, gram)
  }

  ghost function SessionTurns(sessions: seq<Session>): nat {
    if sessions == [] then 0 else SessionTurns(sessions[..|sessions| - 1]) + |sessions[|sessions| - 1].turns|
  }

  lemma {:induction false} TotalsByPlace(sessions: seq<Session>, p: Pair, q: Pair, gram: seq<string>)
    ensures Total(sessions, q).bigrams[p] == SessionPairs(sessions, p)
    ensures Total(sessions, q).ngrams[gram] == if 2 <= |gram| <= 5 then SessionGrams(sessions, gram) else 0
    ensures Total(sessions, q).turns == SessionTurns(sessions)
  {
    hide Gaps, Ngrams, Adjacent, Flat, PairPlaces, GramPlacesIn;
    if sessions != [] {
      var turns := sessions[|sessions| - 1].turns;
      TotalsByPlace(sessions[..|sessions| - 1], p, q, gram);
      PairsByPlace(turns, |turns|, p);
      GramsByPlace(turns, |turns|, gram);
      assert turns[..|turns|] == turns;
    }
  }

  /** What a graph holds: each pair as often as its tools are neighbours in a session, turns joined in their order;
      each run of two to five tools as often as it stands in a turn; and the number of turns. */
  lemma GraphByPlace(sessions: seq<Session>, d: Dfg, p: Pair, gram: seq<string>)
    requires IsDfg(sessions, d)
    ensures d.bigrams[p] == SessionPairs(sessions, p)
    ensures d.ngrams[gram] == if 2 <= |gram| <= 5 then SessionGrams(sessions, gram) else 0
    ensures d.totalTurns == SessionTurns(sessions)
  {
    hide Total;
    assert DfgTotals(d, p) == Total(sessions, p);
    TotalsByPlace(sessions, p, p, gram);
  }

  /** One session of two turns with one tool each: a pair in the order of the turns, and none the other way. */
  lemma TurnsInOrder(d: Dfg)
    requires IsDfg([Session("s", "r", [["Read"], ["Edit"]])], d)
    ensures d.bigrams[("Read", "Edit")] == 1 && d.bigrams[("Edit", "Read")] == 0
  {
    var sessions := [Session("s", "r", [["Read"], ["Edit"]])];
    var turns := sessions[0].turns;
    hide IsDfg;
    GraphByPlace(sessions, d, ("Read", "Edit"), []);
    GraphByPlace(sessions, d, ("Edit", "Read"), []);
    assert sessions[..0] == [];
    assert NextWithTools(turns, 0, 1);
    assert JoinsAt(turns, 1, ("Read", "Edit")) && !JoinsAt(turns, 1, ("Edit", "Read"));
    assert PairPlaces(turns, 1, ("Read", "Edit")) == 0 && PairPlaces(turns, 1, ("Edit", "Read")) == 0;
  }
}
