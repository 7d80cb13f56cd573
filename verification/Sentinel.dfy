/** The sentinel block around a campaign summary, and the regular expression that finds it.

    The pattern is `---campaign-summary::(.+?)---[^\n]*\n(.*?)\n---end-campaign-summary::(.+?)---`
    with `.` matching newlines. Each function below tries the alternatives of one part of it in
    the order of a backtracking matcher. */
module Sentinel {
  import opened Wrappers
  import opened Text

  const OPEN := "---campaign-summary::"
  const CLOSE := "\n---end-campaign-summary::"
  const DASHES := "---"

  datatype Match = Match(cid: string, body: string, cidEnd: string)

  /** `(.*?)\n---end-campaign-summary::(.+?)---`: the shortest body ending at `j` or later. */
  function CloseFrom(t: string, j: nat): (r: Option<(nat, string)>)
    ensures r.Some? ==> j <= r.value.0 <= |t|
    decreases |t| - j
  {
    if j > |t| then None
    else if At(t, CLOSE, j) && Find(t, DASHES, j + |CLOSE| + 1).Some? then
      Some((j, t[j + |CLOSE|..Find(t, DASHES, j + |CLOSE| + 1).value]))
    else CloseFrom(t, j + 1)
  }

  /** What follows the dashes of the opening line: the rest of that line, the body and the closing id. */
  function BodyAfter(t: string, i: nat): Option<(string, string)> {
    match Find(t, "\n", i)
    case None => None
    case Some(n) =>
      match CloseFrom(t, n + 1)
      case None => None
      case Some((j, cidEnd)) => Some((t[n + 1..j], cidEnd))
  }

  /** The opening id `t[a..p]` for the least `p` from which the rest of the pattern matches. */
  function CidFrom(t: string, a: nat, p: nat): (r: Option<Match>)
    requires a < p
    ensures r.Some? ==> r.value.cid != ""
    decreases |t| - p
  {
    if p > |t| then None
    else if At(t, DASHES, p) && BodyAfter(t, p + |DASHES|).Some? then
      var (body, cidEnd) := BodyAfter(t, p + |DASHES|).value;
      Some(Match(t[a..p], body, cidEnd))
    else CidFrom(t, a, p + 1)
  }

  function SearchFrom(t: string, i: nat): (r: Option<Match>)
    ensures r.Some? ==> r.value.cid != ""
    decreases |t| - i
  {
    if i > |t| then None
    else if At(t, OPEN, i) && CidFrom(t, i + |OPEN|, i + |OPEN| + 1).Some? then
      CidFrom(t, i + |OPEN|, i + |OPEN| + 1)
    else SearchFrom(t, i + 1)
  }

  /** The leftmost match. */
  function Search(t: string): (r: Option<Match>)
    ensures r.Some? ==> r.value.cid != ""
  {
    SearchFrom(t, 0)
  }

  function Wrap(cid: string, body: string): string {
    OPEN + cid + DASHES + "\n" + body + CLOSE + cid + DASHES
  }

  /** The ids that the lazy group gives back whole: no `---` starts inside the id. A caller can check
      this on the id alone; a leading `---` or a newline is harmless, a trailing `-` is not. */
  predicate SafeId(cid: string) {
    cid != "" && forall p :: 1 <= p < |cid| ==> !At(cid + DASHES, DASHES, p)
  }

  // ---- Occurrences of a pattern in a longer text ----

  lemma AtMeans(s: string, pat: string, i: nat)
    ensures At(s, pat, i) <==> i + |pat| <= |s| && s[i..i + |pat|] == pat
  {
    if i + |pat| <= |s| {
      assert s[i..][..|pat|] == s[i..i + |pat|];
    }
  }

  /** Whether `pat` occurs at a place depends only on the text it would cover. */
  lemma AtInside(t: string, u: string, a: nat, pat: string, i: nat)
    requires At(t, u, a) && i + |pat| <= |u|
    ensures At(t, pat, a + i) <==> At(u, pat, i)
  {
    AtMeans(t, u, a);
    AtMeans(t, pat, a + i);
    AtMeans(u, pat, i);
    assert t[a + i..a + i + |pat|] == t[a..a + |u|][i..i + |pat|];
  }

  lemma AtGlue(a: string, u: string, b: string)
    ensures At(a + u + b, u, |a|)
  {
    assert (a + u + b)[|a|..] == u + b;
  }

  lemma FindIs(t: string, pat: string, i: nat, k: nat)
    requires i <= k && At(t, pat, k) && forall j :: i <= j < k ==> !At(t, pat, j)
    ensures Find(t, pat, i) == Some(k)
  {
    var r := Find(t, pat, i);
    assert r.Some?;
  }

  // ---- The search on wrapped text ----

  /** Where the lazy group stops on `cid`. */
  function CidStop(cid: string): (c: nat)
    requires cid != ""
    ensures 1 <= c <= |cid| && At(cid + DASHES, DASHES, c)
    ensures forall p :: 1 <= p < c ==> !At(cid + DASHES, DASHES, p)
  {
    assert At(cid + DASHES, DASHES, |cid|) by {
      AtGlue(cid, DASHES, "");
      assert cid + DASHES + "" == cid + DASHES;
    }
    Find(cid + DASHES, DASHES, 1).value
  }

  lemma StopsOnId(t: string, a: nat, cid: string)
    requires cid != "" && At(t, cid + DASHES, a)
    ensures Find(t, DASHES, a + 1) == Some(a + CidStop(cid))
  {
    var u, c := cid + DASHES, CidStop(cid);
    AtInside(t, u, a, DASHES, c);
    forall j | a + 1 <= j < a + c
      ensures !At(t, DASHES, j)
    {
      AtInside(t, u, a, DASHES, j - a);
    }
    FindIs(t, DASHES, a + 1, a + c);
  }

  lemma {:induction false} CloseExists(t: string, j: nat, k: nat)
    requires j <= k <= |t| && At(t, CLOSE, k) && Find(t, DASHES, k + |CLOSE| + 1).Some?
    ensures CloseFrom(t, j).Some?
    decreases k - j
  {
    hide At, Find;
    if j < k && !(At(t, CLOSE, j) && Find(t, DASHES, j + |CLOSE| + 1).Some?) {
      CloseExists(t, j + 1, k);
    }
  }

  lemma {:induction false} CloseIs(t: string, j: nat, k: nat)
    requires j <= k <= |t| && At(t, CLOSE, k) && Find(t, DASHES, k + |CLOSE| + 1).Some?
    requires forall i :: j <= i < k ==> !At(t, CLOSE, i)
    ensures CloseFrom(t, j) == Some((k, t[k + |CLOSE|..Find(t, DASHES, k + |CLOSE| + 1).value]))
    decreases k - j
  {
    hide At, Find;
    if j < k {
      CloseIs(t, j + 1, k);
    }
  }

  lemma {:induction false} CidIs(t: string, a: nat, p: nat, k: nat)
    requires a < p <= k <= |t| && At(t, DASHES, k) && BodyAfter(t, k + |DASHES|).Some?
    requires forall i :: p <= i < k ==> !At(t, DASHES, i)
    ensures CidFrom(t, a, p) ==
      Some(Match(t[a..k], BodyAfter(t, k + |DASHES|).value.0, BodyAfter(t, k + |DASHES|).value.1))
    decreases k - p
  {
    hide At, BodyAfter;
    if p < k {
      CidIs(t, a, p + 1, k);
    }
  }

  lemma {:induction false} SearchIs(t: string, i: nat, k: nat)
    requires i <= k <= |t| && At(t, OPEN, k) && CidFrom(t, k + |OPEN|, k + |OPEN| + 1).Some?
    requires forall j :: i <= j < k ==> !At(t, OPEN, j)
    ensures SearchFrom(t, i) == CidFrom(t, k + |OPEN|, k + |OPEN| + 1)
    decreases k - i
  {
    hide At, CidFrom;
    if i < k {
      SearchIs(t, i + 1, k);
    }
  }

  /** An opening marker cannot straddle the start of another one. */
  lemma NoEarlierOpen(pre: string, rest: string, j: nat)
    requires !Contains(pre, OPEN) && j < |pre|
    ensures !At(pre + OPEN + rest, OPEN, j)
  {
    var t := pre + OPEN + rest;
    AtMeans(t, OPEN, j);
    if j + |OPEN| <= |pre| {
      AtMeans(pre, OPEN, j);
      assert pre[j..j + |OPEN|] == t[j..j + |OPEN|];
      assert !At(pre, OPEN, j);
    } else {
      // The overlap would make a proper suffix of the marker one of its prefixes.
      var n := j + |OPEN| - |pre|;
      assert t[j..j + |OPEN|][|OPEN| - n..] == t[|pre|..|pre| + n] == OPEN[..n];
      NoBorder(n);
    }
  }

  lemma NoBorder(n: nat)
    requires 0 < n < |OPEN|
    ensures OPEN[|OPEN| - n..] != OPEN[..n]
  {
    assert OPEN[|OPEN| - n..][n - 1] == ':';
    if OPEN[n - 1] == ':' {
      assert n == 20;
      assert OPEN[|OPEN| - n..][0] == '-' && OPEN[|OPEN| - n..][2] == 'c';
    }
  }

  /** The text opens a block for `cid` at `i`, ends its opening line after the dashes, and closes it at `k`. */
  ghost predicate IsBlock(t: string, i: nat, cid: string, k: nat) {
    && cid != "" && LineEnd(i, cid) < k <= |t|
    && (forall j :: 0 <= j < i ==> !At(t, OPEN, j)) && At(t, OPEN, i)
    && At(t, cid + DASHES, i + |OPEN|) && t[LineEnd(i, cid)] == '\n'
    && At(t, CLOSE, k) && At(t, cid + DASHES, k + |CLOSE|)
  }

  function LineEnd(i: nat, cid: string): nat {
    i + |OPEN| + |cid| + |DASHES|
  }

  lemma TextAt(t: string, cid: string, a: nat, c: nat)
    requires At(t, cid + DASHES, a) && c <= |cid|
    ensures a + |cid| + |DASHES| <= |t| && t[a..a + c] == cid[..c]
  {
    AtMeans(t, cid + DASHES, a);
    assert t[a..a + c] == t[a..a + |cid + DASHES|][..c] == (cid + DASHES)[..c] == cid[..c];
  }

  lemma BodyExists(t: string, i: nat, cid: string, k: nat, from: nat)
    requires IsBlock(t, i, cid, k) && from <= LineEnd(i, cid)
    ensures BodyAfter(t, from).Some?
  {
    hide At, Find, CloseFrom;
    assert At(t, "\n", LineEnd(i, cid)) by {
      AtMeans(t, "\n", LineEnd(i, cid));
    }
    StopsOnId(t, k + |CLOSE|, cid);
    var n := Find(t, "\n", from).value;
    CloseExists(t, n + 1, k);
  }

  /** Whatever the body, the search stops on the lazy cut of the id. */
  lemma BlockFound(t: string, i: nat, cid: string, k: nat)
    requires IsBlock(t, i, cid, k)
    ensures var rest := BodyAfter(t, i + |OPEN| + CidStop(cid) + |DASHES|);
      rest.Some? && Search(t) == Some(Match(cid[..CidStop(cid)], rest.value.0, rest.value.1))
  {
    hide BodyAfter, At, CidFrom, SearchFrom;
    var a, c := i + |OPEN|, CidStop(cid);
    StopsOnId(t, a, cid);
    BodyExists(t, i, cid, k, a + c + |DASHES|);
    TextAt(t, cid, a, c);
    CidIs(t, a, a + 1, a + c);
    SearchIs(t, 0, i);
  }

  /** A safe id is found whole, with the body up to the first closing marker. */
  lemma SafeBlockFound(t: string, i: nat, cid: string, k: nat)
    requires IsBlock(t, i, cid, k) && SafeId(cid)
    requires forall j :: LineEnd(i, cid) < j < k ==> !At(t, CLOSE, j)
    ensures Search(t) == Some(Match(cid, t[LineEnd(i, cid) + 1..k], cid))
  {
    hide At, CidFrom, SearchFrom, CloseFrom;
    assert CidStop(cid) == |cid|;
    var nl := LineEnd(i, cid);
    BlockFound(t, i, cid, k);
    assert At(t, "\n", nl) by {
      AtMeans(t, "\n", nl);
    }
    FindIs(t, "\n", nl, nl);
    StopsOnId(t, k + |CLOSE|, cid);
    CloseIs(t, nl + 1, k);
    TextAt(t, cid, k + |CLOSE|, |cid|);
    assert cid[..|cid|] == cid;
  }

  // ---- What the search finds, on the text alone ----

  /** The places of a match: opening marker, end of the opening id, end of its line, closing marker, end of the closing
      id. */
  datatype Spots = Spots(open: nat, cidEnd: nat, newline: nat, close: nat, end: nat)

  ghost predicate ClosesAt(t: string, close: nat, end: nat) {
    At(t, CLOSE, close) && close + |CLOSE| < end && At(t, DASHES, end)
  }

  /** The pattern matches with its parts at these places. */
  ghost predicate Fits(t: string, x: Spots) {
    && At(t, OPEN, x.open) && x.open + |OPEN| < x.cidEnd && At(t, DASHES, x.cidEnd)
    && x.cidEnd + |DASHES| <= x.newline < |t| && t[x.newline] == '\n'
    && (forall k :: x.cidEnd + |DASHES| <= k < x.newline ==> t[k] != '\n')
    && x.newline < x.close && ClosesAt(t, x.close, x.end)
  }

  /** The matcher prefers `x`: the leftmost start, then the shortest opening id, the shortest body, the shortest
      closing id. */
  predicate Preferred(x: Spots, y: Spots) {
    x.open < y.open || (x.open == y.open && PreferredAfter(x, y))
  }

  predicate PreferredAfter(x: Spots, y: Spots) {
    x.cidEnd < y.cidEnd || (x.cidEnd == y.cidEnd && (x.close < y.close || (x.close == y.close && x.end <= y.end)))
  }

  /** The match that the search takes. */
  ghost predicate IsFound(t: string, x: Spots) {
    Fits(t, x) && forall y :: Fits(t, y) ==> Preferred(x, y)
  }

  lemma FitsBounds(t: string, x: Spots)
    requires Fits(t, x)
    ensures x.open + |OPEN| < x.cidEnd < x.newline < x.close < x.close + |CLOSE| < x.end <= |t|
  {
  }

  function Found(t: string, x: Spots): Match
    requires x.open + |OPEN| <= x.cidEnd <= |t| && x.newline < x.close <= |t| && x.close + |CLOSE| <= x.end <= |t|
  {
    Match(t[x.open + |OPEN|..x.cidEnd], t[x.newline + 1..x.close], t[x.close + |CLOSE|..x.end])
  }

  ghost predicate Closes(t: string, close: nat) {
    exists end: nat :: ClosesAt(t, close, end)
  }

  lemma CloseFromHere(t: string, from: nat) returns (end: nat)
    ensures from > |t| ==> CloseFrom(t, from).None? && forall j: nat :: from <= j ==> !Closes(t, j)
    ensures from <= |t| && Closes(t, from) ==>
      && ClosesAt(t, from, end) && end <= |t| && CloseFrom(t, from) == Some((from, t[from + |CLOSE|..end]))
      && forall e: nat :: ClosesAt(t, from, e) ==> end <= e
    ensures from <= |t| && !Closes(t, from) ==> CloseFrom(t, from) == CloseFrom(t, from + 1)
  {
    end := 0;
    if from <= |t| && At(t, CLOSE, from) && Find(t, DASHES, from + |CLOSE| + 1).Some? {
      end := Find(t, DASHES, from + |CLOSE| + 1).value;
      assert ClosesAt(t, from, end);
    }
  }

  lemma {:induction false} CloseFromMeans(t: string, from: nat) returns (close: nat, end: nat)
    ensures CloseFrom(t, from).None? ==> forall j: nat, e: nat :: from <= j ==> !ClosesAt(t, j, e)
    ensures CloseFrom(t, from).Some? ==>
      && from <= close && ClosesAt(t, close, end) && end <= |t|
      && CloseFrom(t, from) == Some((close, t[close + |CLOSE|..end]))
      && (forall j: nat, e: nat :: from <= j && ClosesAt(t, j, e) ==> close < j || (close == j && end <= e))
    decreases |t| - from
  {
    hide CloseFrom, ClosesAt;
    end := CloseFromHere(t, from);
    close := from;
    if from <= |t| && !Closes(t, from) {
      close, end := CloseFromMeans(t, from + 1);
    }
    assert forall j: nat, e: nat :: ClosesAt(t, j, e) ==> Closes(t, j);
  }

  /** The first newline after a place. */
  lemma FindNewline(t: string, from: nat)
    ensures var r := Find(t, "\n", from);
      && (r.None? ==> forall n: nat :: from <= n < |t| ==> t[n] != '\n')
      && (r.Some? ==> from <= r.value < |t| && t[r.value] == '\n' && forall k :: from <= k < r.value ==> t[k] != '\n')
  {
    forall n: nat | n < |t|
      ensures At(t, "\n", n) <==> t[n] == '\n'
    {
      AtMeans(t, "\n", n);
    }
    if Find(t, "\n", from).Some? {
      AtMeans(t, "\n", Find(t, "\n", from).value);
    }
  }

  lemma BodyAfterMeans(t: string, open: nat, cidEnd: nat) returns (x: Spots)
    requires At(t, OPEN, open) && open + |OPEN| < cidEnd && At(t, DASHES, cidEnd)
    ensures BodyAfter(t, cidEnd + |DASHES|).None? ==>
      forall y: Spots :: y.open == open && y.cidEnd == cidEnd ==> !Fits(t, y)
    ensures BodyAfter(t, cidEnd + |DASHES|).Some? ==>
      && x.open == open && x.cidEnd == cidEnd && Fits(t, x) && x.end <= |t|
      && BodyAfter(t, cidEnd + |DASHES|) == Some((t[x.newline + 1..x.close], t[x.close + |CLOSE|..x.end]))
      && (forall y: Spots :: y.open == open && y.cidEnd == cidEnd && Fits(t, y) ==> PreferredAfter(x, y))
  {
    hide At, Find, CloseFrom, ClosesAt;
    x := Spots(open, cidEnd, 0, 0, 0);
    FindNewline(t, cidEnd + |DASHES|);
    var r := Find(t, "\n", cidEnd + |DASHES|);
    if r.Some? {
      var close, end := CloseFromMeans(t, r.value + 1);
      x := Spots(open, cidEnd, r.value, close, end);
      forall y: Spots | y.open == open && y.cidEnd == cidEnd && Fits(t, y)
        ensures y.newline == r.value && ClosesAt(t, y.close, y.end)
      {
      }
    }
  }

  lemma {:induction false} CidFromMeans(t: string, open: nat, from: nat) returns (x: Spots)
    requires At(t, OPEN, open) && open + |OPEN| < from
    ensures CidFrom(t, open + |OPEN|, from).None? ==>
      forall y: Spots :: y.open == open && from <= y.cidEnd ==> !Fits(t, y)
    ensures CidFrom(t, open + |OPEN|, from).Some? ==>
      && x.open == open && from <= x.cidEnd && Fits(t, x) && x.end <= |t|
      && x.cidEnd <= |t| && x.close <= |t|
      && CidFrom(t, open + |OPEN|, from) == Some(Found(t, x))
      && (forall y: Spots :: y.open == open && from <= y.cidEnd && Fits(t, y) ==> PreferredAfter(x, y))
    decreases |t| - from
  {
    hide BodyAfter, ClosesAt;
    x := Spots(0, 0, 0, 0, 0);
    if from > |t| {
    } else if At(t, DASHES, from) && BodyAfter(t, from + |DASHES|).Some? {
      x := BodyAfterMeans(t, open, from);
      FitsBounds(t, x);
    } else {
      if At(t, DASHES, from) {
        var _ := BodyAfterMeans(t, open, from);
      }
      CidFromStep(t, open + |OPEN|, from);
      x := CidFromMeans(t, open, from + 1);
    }
  }

  lemma CidFromStep(t: string, a: nat, from: nat)
    requires a < from <= |t| && !(At(t, DASHES, from) && BodyAfter(t, from + |DASHES|).Some?)
    ensures CidFrom(t, a, from) == CidFrom(t, a, from + 1)
  {
    hide BodyAfter;
  }

  lemma SearchFromHere(t: string, from: nat) returns (x: Spots)
    ensures from > |t| ==> SearchFrom(t, from).None? && forall y: Spots :: from <= y.open ==> !Fits(t, y)
    ensures from <= |t| ==>
      || SearchFrom(t, from) == SearchFrom(t, from + 1)
      || (x.open == from && IsHere(t, x) && SearchFrom(t, from) == Some(Found(t, x)))
    ensures from <= |t| && (exists y: Spots :: y.open == from && Fits(t, y)) ==>
      x.open == from && IsHere(t, x) && SearchFrom(t, from) == Some(Found(t, x))
  {
    hide CidFrom, ClosesAt;
    x := Spots(0, 0, 0, 0, 0);
    if from <= |t| && At(t, OPEN, from) {
      x := CidFromMeans(t, from, from + |OPEN| + 1);
    }
  }

  /** The preferred match among those that start where it does. */
  ghost predicate IsHere(t: string, x: Spots) {
    && Fits(t, x) && x.end <= |t| && x.cidEnd <= |t| && x.close <= |t|
    && forall y: Spots :: y.open == x.open && Fits(t, y) ==> PreferredAfter(x, y)
  }

  lemma {:induction false} SearchFromMeans(t: string, from: nat) returns (x: Spots)
    ensures SearchFrom(t, from).None? ==> forall y: Spots :: from <= y.open ==> !Fits(t, y)
    ensures SearchFrom(t, from).Some? ==>
      && from <= x.open && IsHere(t, x) && SearchFrom(t, from) == Some(Found(t, x))
      && (forall y: Spots :: from <= y.open && Fits(t, y) ==> Preferred(x, y))
    decreases |t| - from
  {
    hide SearchFrom, Fits;
    x := SearchFromHere(t, from);
    if from <= |t| && !(exists y: Spots :: y.open == from && Fits(t, y)) {
      x := SearchFromMeans(t, from + 1);
    }
  }

  /** The search finds nothing exactly when the pattern fits nowhere; otherwise it takes the preferred match. */
  lemma SearchMeans(t: string) returns (x: Spots)
    ensures Search(t).None? <==> forall y :: !Fits(t, y)
    ensures Search(t).Some? ==>
      IsFound(t, x) && x.end <= |t| && x.cidEnd <= |t| && x.close <= |t| && Search(t) == Some(Found(t, x))
  {
    hide SearchFrom, Fits;
    x := SearchFromMeans(t, 0);
  }
}
