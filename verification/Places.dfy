/** Parts of a sequence, kept in order. */
module Places {
  ghost predicate Rising(places: seq<nat>) {
    forall j, k :: 0 <= j < k < |places| ==> places[j] < places[k]
  }

  /** `r` holds, in order, the elements of `s` at exactly the places where `keep` is true. */
  ghost predicate Selects<T>(s: seq<T>, keep: seq<bool>, r: seq<T>) {
    |keep| == |s| && exists places: seq<nat> :: IsSelection(s, keep, places, r)
  }

  ghost predicate IsSelection<T>(s: seq<T>, keep: seq<bool>, places: seq<nat>, r: seq<T>)
    requires |keep| == |s|
  {
    && Rising(places) && |places| == |r|
    && (forall k :: 0 <= k < |places| ==> places[k] < |s| && r[k] == s[places[k]] && keep[places[k]])
    && forall i: nat :: i < |s| && keep[i] ==> i in places
  }

  function Shifted(places: seq<nat>, n: nat): (r: seq<nat>)
    ensures |r| == |places| && forall k :: 0 <= k < |r| ==> r[k] == places[k] + n
  {
    seq(|places|, k requires 0 <= k < |places| => places[k] + n)
  }

  lemma ConcatRises(p: seq<nat>, q: seq<nat>, n: nat)
    requires Rising(p) && Rising(q) && forall k :: 0 <= k < |p| ==> p[k] < n
    ensures Rising(p + Shifted(q, n))
  {
    var places := p + Shifted(q, n);
    forall j, k | 0 <= j < k < |places|
      ensures places[j] < places[k]
    {
      if j >= |p| {
        assert q[j - |p|] < q[k - |p|];
      }
    }
  }

  lemma ConcatIsSelection<T>(
      s: seq<T>, keep: seq<bool>, p: seq<nat>, r: seq<T>, s': seq<T>, keep': seq<bool>, q: seq<nat>, r': seq<T>)
    requires |keep| == |s| && |keep'| == |s'| && IsSelection(s, keep, p, r) && IsSelection(s', keep', q, r')
    ensures IsSelection(s + s', keep + keep', p + Shifted(q, |s|), r + r')
  {
    hide Rising;
    var places := p + Shifted(q, |s|);
    ConcatRises(p, q, |s|);
    forall k | 0 <= k < |places|
      ensures places[k] < |s + s'| && (r + r')[k] == (s + s')[places[k]] && (keep + keep')[places[k]]
    {
      if k >= |p| {
        assert places[k] == q[k - |p|] + |s|;
      }
    }
    forall i: nat | i < |s + s'| && (keep + keep')[i]
      ensures i in places
    {
      if i < |s| {
        assert i in p;
      } else {
        assert keep'[i - |s|];
        var k :| 0 <= k < |q| && q[k] == i - |s|;
        assert places[|p| + k] == i;
      }
    }
  }

  lemma SelectsConcat<T>(s: seq<T>, keep: seq<bool>, r: seq<T>, s': seq<T>, keep': seq<bool>, r': seq<T>)
    requires Selects(s, keep, r) && Selects(s', keep', r')
    ensures Selects(s + s', keep + keep', r + r')
  {
    hide IsSelection;
    var p: seq<nat> :| IsSelection(s, keep, p, r);
    var q: seq<nat> :| IsSelection(s', keep', q, r');
    ConcatIsSelection(s, keep, p, r, s', keep', q, r');
  }

  lemma SelectsNothing<T>()
    ensures Selects<T>([], [], [])
  {
    assert IsSelection<T>([], [], [], []);
  }

  lemma SelectsOne<T>(x: T, kept: bool)
    ensures Selects([x], [kept], if kept then [x] else [])
  {
    var places: seq<nat> := if kept then [0] else [];
    assert IsSelection([x], [kept], places, if kept then [x] else []);
  }

  /** One more element. */
  lemma SelectsSnoc<T>(s: seq<T>, keep: seq<bool>, r: seq<T>, x: T, kept: bool)
    requires Selects(s, keep, r)
    ensures Selects(s + [x], keep + [kept], if kept then r + [x] else r)
  {
    hide Selects;
    SelectsOne(x, kept);
    SelectsConcat(s, keep, r, [x], [kept], if kept then [x] else []);
    assert r + [] == r;
  }

  /** One element in front. */
  lemma SelectsCons<T>(s: seq<T>, keep: seq<bool>, r: seq<T>, x: T, kept: bool)
    requires Selects(s, keep, r)
    ensures Selects([x] + s, [kept] + keep, if kept then [x] + r else r)
  {
    hide Selects;
    SelectsOne(x, kept);
    SelectsConcat([x], [kept], if kept then [x] else [], s, keep, r);
    assert [] + r == r;
  }
}
