/** Conditional requests: the CI watcher's ETag cache against plain GETs (RFC 9110, sections 13.1.2 and 15.4.5).

    Text is given by its UTF-8 bytes, one character below 256 for each. */
module EtagCache {
  import opened Wrappers
  import opened Sorting

  type Params = seq<(string, string)>

  // ---- Cache keys ----

  predicate IsBytes(s: string) {
    forall i :: 0 <= i < |s| ==> s[i] as int < 256
  }

  /** Characters that `quote_plus` leaves as they are. */
  predicate Unreserved(c: char) {
    'a' <= c <= 'z' || 'A' <= c <= 'Z' || '0' <= c <= '9' || c == '_' || c == '.' || c == '-' || c == '~'
  }

  function HexDigit(d: nat): (c: char)
    requires d < 16
    ensures Unreserved(c)
  {
    if d < 10 then (d + '0' as int) as char else (d - 10 + 'A' as int) as char
  }

  function QuoteByte(c: char): string
    requires c as int < 256
  {
    if Unreserved(c) then [c]
    else if c == ' ' then "+"
    else ['%', HexDigit(c as int / 16), HexDigit(c as int % 16)]
  }

  function Quote(s: string): string
    requires IsBytes(s)
  {
    if s == "" then "" else QuoteByte(s[0]) + Quote(s[1..])
  }

  function EncodePair(p: (string, string)): string
    requires IsBytes(p.0) && IsBytes(p.1)
  {
    Quote(p.0) + ("=" + Quote(p.1))
  }

  predicate Encodable(ps: Params) {
    forall i :: 0 <= i < |ps| ==> IsBytes(ps[i].0) && IsBytes(ps[i].1)
  }

  /** `urlencode(pairs)` */
  function UrlEncode(ps: Params): string
    requires Encodable(ps)
  {
    if ps == [] then ""
    else if |ps| == 1 then EncodePair(ps[0])
    else EncodePair(ps[0]) + ("&" + UrlEncode(ps[1..]))
  }

  predicate TextLess(a: string, b: string) {
    a != b && (a == "" || (b != "" && (a[0] < b[0] || (a[0] == b[0] && TextLess(a[1..], b[1..])))))
  }

  predicate PairLess(p: (string, string), q: (string, string)) {
    TextLess(p.0, q.0) || (p.0 == q.0 && TextLess(p.1, q.1))
  }

  function NotAfter(): ((string, string), (string, string)) -> bool {
    (p, q) => !PairLess(q, p)
  }

  function Sorted(ps: Params): Params {
    Sort(ps, NotAfter())
  }

  function CacheKey(url: string, params: Params): string
    requires Encodable(params)
  {
    SortedKeepsParams(params);
    url + if params == [] then "" else "?" + UrlEncode(Sorted(params))
  }

  lemma SortedKeepsParams(ps: Params)
    ensures multiset(Sorted(ps)) == multiset(ps)
    ensures Encodable(ps) ==> Encodable(Sorted(ps))
  {
    SortPermutes(ps, NotAfter());
    if Encodable(ps) {
      forall i | 0 <= i < |Sorted(ps)|
        ensures IsBytes(Sorted(ps)[i].0) && IsBytes(Sorted(ps)[i].1)
      {
        assert Sorted(ps)[i] in multiset(Sorted(ps));
        assert Sorted(ps)[i] in ps;
      }
    }
  }

  predicate Plain(s: string) {
    '=' !in s && '&' !in s && '?' !in s
  }

  lemma {:induction false} QuoteIsPlain(s: string)
    requires IsBytes(s)
    ensures Plain(Quote(s))
  {
    if s != "" {
      QuoteIsPlain(s[1..]);
    }
  }

  lemma HexInjective(a: nat, b: nat)
    requires a < 16 && b < 16 && HexDigit(a) == HexDigit(b)
    ensures a == b
  {
  }

  lemma {:induction false} QuoteInjective(a: string, b: string)
    requires IsBytes(a) && IsBytes(b) && Quote(a) == Quote(b)
    ensures a == b
  {
    if a != "" && b != "" {
      var p, q := QuoteByte(a[0]), QuoteByte(b[0]);
      assert p[0] == Quote(a)[0] == Quote(b)[0] == q[0];
      assert |p| == |q|;
      assert p == Quote(a)[..|p|] == q;
      if |p| == 3 {
        HexInjective(a[0] as int / 16, b[0] as int / 16);
        HexInjective(a[0] as int % 16, b[0] as int % 16);
      }
      assert a[0] == b[0];
      assert Quote(a[1..]) == Quote(a)[|p|..] == Quote(b[1..]);
      QuoteInjective(a[1..], b[1..]);
      assert a == [a[0]] + a[1..] && b == [b[0]] + b[1..];
    }
  }

  /** Two splits of one text at the first occurrence of a character are the same split. */
  lemma SplitOnce(a: string, x: string, b: string, y: string, c: char)
    requires c !in a && c !in b && a + ([c] + x) == b + ([c] + y)
    ensures a == b && x == y
  {
    var s := a + ([c] + x);
    assert s[|a|] == c && s[|b|] == c;
    assert forall i :: 0 <= i < |a| ==> s[i] == a[i] && a[i] in a;
    assert forall i :: 0 <= i < |b| ==> s[i] == b[i] && b[i] in b;
    assert |a| == |b|;
    assert a == s[..|a|] == b;
    assert x == s[|a| + 1..] == y;
  }

  lemma PairInjective(p: (string, string), q: (string, string))
    requires IsBytes(p.0) && IsBytes(p.1) && IsBytes(q.0) && IsBytes(q.1) && EncodePair(p) == EncodePair(q)
    ensures p == q
  {
    QuoteIsPlain(p.0);
    QuoteIsPlain(q.0);
    SplitOnce(Quote(p.0), Quote(p.1), Quote(q.0), Quote(q.1), '=');
    QuoteInjective(p.0, q.0);
    QuoteInjective(p.1, q.1);
  }

  /** The encoded pairs, each with an `&` after it. */
  function Terminated(ps: Params): string
    requires Encodable(ps)
  {
    if ps == [] then "" else EncodePair(ps[0]) + ("&" + Terminated(ps[1..]))
  }

  lemma {:induction false} TerminatedIs(ps: Params)
    requires Encodable(ps)
    ensures Terminated(ps) == if ps == [] then "" else UrlEncode(ps) + "&"
  {
    hide EncodePair;
    if |ps| > 1 {
      TerminatedIs(ps[1..]);
    }
  }

  lemma {:induction false} TerminatedInjective(ps: Params, qs: Params)
    requires Encodable(ps) && Encodable(qs) && Terminated(ps) == Terminated(qs)
    ensures ps == qs
  {
    if ps != [] && qs != [] {
      QuoteIsPlain(ps[0].0);
      QuoteIsPlain(ps[0].1);
      QuoteIsPlain(qs[0].0);
      QuoteIsPlain(qs[0].1);
      SplitOnce(EncodePair(ps[0]), Terminated(ps[1..]), EncodePair(qs[0]), Terminated(qs[1..]), '&');
      PairInjective(ps[0], qs[0]);
      TerminatedInjective(ps[1..], qs[1..]);
      assert ps == [ps[0]] + ps[1..] && qs == [qs[0]] + qs[1..];
    }
  }

  /** The encoding loses nothing. */
  lemma EncodeInjective(ps: Params, qs: Params)
    requires Encodable(ps) && Encodable(qs) && ps != [] && qs != [] && UrlEncode(ps) == UrlEncode(qs)
    ensures ps == qs
  {
    hide UrlEncode, Terminated;
    TerminatedIs(ps);
    TerminatedIs(qs);
    TerminatedInjective(ps, qs);
  }

  /** A resource: a URL and its parameters, in any order. */
  type Resource = (string, multiset<(string, string)>)

  predicate LegalRequest(url: string, params: Params) {
    '?' !in url && Encodable(params)
  }

  lemma KeyShowsParams(url: string, params: Params)
    requires LegalRequest(url, params)
    ensures '?' in CacheKey(url, params) <==> params != []
  {
    hide UrlEncode, Sorted;
    if params != [] {
      assert CacheKey(url, params)[|url|] == '?';
    }
  }

  /** Requests share a cache slot only if they ask for the same resource. */
  lemma KeyNamesResource(url: string, params: Params, url': string, params': Params)
    requires LegalRequest(url, params) && LegalRequest(url', params') &&
      CacheKey(url, params) == CacheKey(url', params')
    ensures url == url' && multiset(params) == multiset(params')
  {
    hide UrlEncode, Sorted;
    KeyShowsParams(url, params);
    KeyShowsParams(url', params');
    SortedKeepsParams(params);
    SortedKeepsParams(params');
    var s, s' := Sorted(params), Sorted(params');
    if params != [] {
      assert |multiset(s)| == |multiset(params)| > 0 && |multiset(s')| == |multiset(params')| > 0;
      SplitOnce(url, UrlEncode(s), url', UrlEncode(s'), '?');
      EncodeInjective(s, s');
    } else {
      assert url + "" == url && url' + "" == url';
    }
  }

  // ---- The order of the parameters does not matter ----

  lemma {:induction false} TextOrder(a: string, b: string)
    ensures !(TextLess(a, b) && TextLess(b, a)) && (a == b || TextLess(a, b) || TextLess(b, a))
  {
    if a != "" && b != "" {
      TextOrder(a[1..], b[1..]);
      assert a == [a[0]] + a[1..] && b == [b[0]] + b[1..];
    }
  }

  lemma {:induction false} TextTransitive(a: string, b: string, c: string)
    requires TextLess(a, b) && TextLess(b, c)
    ensures TextLess(a, c)
  {
    if a != "" {
      if a[0] == b[0] == c[0] {
        TextTransitive(a[1..], b[1..], c[1..]);
      }
      assert a[0] <= b[0] <= c[0];
    }
  }

  lemma PairOrder(p: (string, string), q: (string, string), r: (string, string))
    ensures !(PairLess(p, q) && PairLess(q, p)) && (p == q || PairLess(p, q) || PairLess(q, p))
    ensures PairLess(p, q) && PairLess(q, r) ==> PairLess(p, r)
  {
    hide TextLess;
    TextOrder(p.0, q.0);
    TextOrder(p.1, q.1);
    if PairLess(p, q) && PairLess(q, r) {
      if TextLess(p.0, q.0) && TextLess(q.0, r.0) {
        TextTransitive(p.0, q.0, r.0);
        TextOrder(p.0, r.0);
      } else if p.0 == q.0 == r.0 {
        TextTransitive(p.1, q.1, r.1);
      }
    }
  }

  ghost predicate Ascending(ps: Params) {
    forall i, j :: 0 <= i < j < |ps| ==> !PairLess(ps[j], ps[i])
  }

  ghost predicate NoneBelow(ps: Params, q: (string, string)) {
    forall p :: p in ps ==> !PairLess(p, q)
  }

  lemma ConsAscends(q: (string, string), ps: Params)
    requires Ascending(ps) && NoneBelow(ps, q)
    ensures Ascending([q] + ps)
  {
    hide PairLess;
  }

  lemma {:induction false} InsertAscends(p: (string, string), ps: Params)
    requires Ascending(ps)
    ensures Ascending(Insert(p, ps, NotAfter()))
  {
    hide PairLess, Ascending;
    if ps == [] {
      ConsAscends(p, []);
      return;
    }
    var rest := Insert(p, ps[1..], NotAfter());
    TailAscends(ps);
    PairOrder(p, ps[0], p);
    if PairLess(ps[0], p) {
      InsertAscends(p, ps[1..]);
      InsertMembers(p, ps[1..], NotAfter());
      ConsAscends(ps[0], rest);
    } else {
      forall q | q in ps
        ensures !PairLess(q, p)
      {
        PairOrder(q, p, ps[0]);
        PairOrder(q, ps[0], q);
        assert q == ps[0] || q in ps[1..];
      }
      ConsAscends(p, ps);
    }
  }

  lemma TailAscends(ps: Params)
    requires Ascending(ps) && ps != []
    ensures Ascending(ps[1..]) && NoneBelow(ps[1..], ps[0])
  {
    hide PairLess;
  }

  lemma {:induction false} SortedAscends(ps: Params)
    ensures Ascending(Sorted(ps))
  {
    hide Insert;
    if ps != [] {
      SortedAscends(ps[1..]);
      InsertAscends(ps[0], Sorted(ps[1..]));
    }
  }

  lemma SameHead(ps: Params, qs: Params)
    requires Ascending(ps) && Ascending(qs) && ps != [] && qs != [] && ps[0] in qs && qs[0] in ps
    ensures ps[0] == qs[0]
  {
    hide PairLess;
    PairOrder(ps[0], qs[0], ps[0]);
    var i :| 0 <= i < |ps| && ps[i] == qs[0];
    var j :| 0 <= j < |qs| && qs[j] == ps[0];
  }

  lemma {:induction false} OneAscending(ps: Params, qs: Params)
    requires Ascending(ps) && Ascending(qs) && multiset(ps) == multiset(qs)
    ensures ps == qs
  {
    hide PairLess, Ascending;
    SameMembers(ps, qs);
    if ps != [] {
      SameHead(ps, qs);
      TailAscends(ps);
      TailAscends(qs);
      SplitHead(ps);
      SplitHead(qs);
      OneAscending(ps[1..], qs[1..]);
    }
  }

  lemma SplitHead(ps: Params)
    requires ps != []
    ensures ps == [ps[0]] + ps[1..] && multiset(ps[1..]) == multiset(ps) - multiset{ps[0]}
  {
  }

  /** Requests for one resource share a cache slot, in whatever order they list its parameters. */
  lemma ResourceFixesKey(url: string, params: Params, params': Params)
    requires Encodable(params) && multiset(params) == multiset(params')
    ensures Encodable(params') && CacheKey(url, params) == CacheKey(url, params')
  {
    hide UrlEncode, Sorted, Ascending;
    SameMembers(params, params');
    assert forall i :: 0 <= i < |params'| ==> params'[i] in params;
    SortedKeepsParams(params);
    SortedKeepsParams(params');
    SortedAscends(params);
    SortedAscends(params');
    OneAscending(Sorted(params), Sorted(params'));
  }

  // ---- The watcher ----

  datatype Response<T> = NotModified | Ok(etag: Option<string>, body: T) | HttpError(status: int)

  /** What a call returns, or the exception it raises. */
  datatype Result<T> = Body(body: T) | NoCachedResponse | Failed(status: int)

  type Cache<T> = map<string, (string, T)>

  /** How the server answers one request, given the tag it is sent. */
  type Server<!T> = Option<string> -> Response<T>

  function Fetch<T>(cache: Cache<T>, key: string, server: Server<T>): (Cache<T>, Result<T>) {
    var cached := if key in cache then Some(cache[key]) else None;
    match server(if cached.Some? then Some(cached.value.0) else None)
    case NotModified => (cache, if cached.Some? then Body(cached.value.1) else NoCachedResponse)
    case HttpError(status) => (cache, Failed(status))
    case Ok(etag, body) =>
      (if etag.Some? && etag.value != "" then cache[key := (etag.value, body)] else cache, Body(body))
  }

  class CiWatcher<T> {
    var etagCache: Cache<T>

    constructor ()
      ensures etagCache == map[]
    {
      etagCache := map[];
    }

    method GetWithEtag(url: string, params: Params, server: Server<T>) returns (r: Result<T>)
      requires Encodable(params)
      modifies this
      ensures (etagCache, r) == Fetch(old(etagCache), CacheKey(url, params), server)
    {
      var key := CacheKey(url, params);
      var tag: Option<string> := None;
      if key in etagCache {
        tag := Some(etagCache[key].0);
      }
      var resp := server(tag);
      if resp.NotModified? {
        if key in etagCache {
          return Body(etagCache[key].1);
        }
        return NoCachedResponse;
      }
      if resp.HttpError? {
        return Failed(resp.status);
      }
      if resp.etag.Some? && resp.etag.value != "" {
        etagCache := etagCache[key := (resp.etag.value, resp.body)];
      }
      return Body(resp.body);
    }
  }

  // ---- Against plain GETs ----

  /** One request: the resource asked for, its body at that moment, and how the server answers. */
  datatype Request<!T> = Request(url: string, params: Params, current: T, server: Server<T>) {
    function Resource(): Resource {
      (url, multiset(params))
    }

    predicate Legal() {
      LegalRequest(url, params)
    }

    function Key(): string
      requires Encodable(params)
    {
      CacheKey(url, params)
    }
  }

  /** The server speaks of the current body only: it answers 304 only to a tag of that body, and sends it with a tag of
      its own. `tagged` says which body of a resource a tag was made for; no tag is made for two bodies. */
  ghost predicate Honest<T(!new)>(q: Request<T>, tagged: (Resource, string) -> T) {
    && (forall tag :: q.server(tag) == NotModified ==> tag.Some? && tagged(q.Resource(), tag.value) == q.current)
    && (forall tag :: q.server(tag).Ok? ==> q.server(tag).body == q.current)
    && (forall tag ::
      q.server(tag).Ok? && q.server(tag).etag.Some? ==> tagged(q.Resource(), q.server(tag).etag.value) == q.current)
  }

  /** Every cached body is the one its tag was made for. */
  ghost predicate Faithful<T(!new)>(cache: Cache<T>, tagged: (Resource, string) -> T) {
    forall url, params :: LegalRequest(url, params) && CacheKey(url, params) in cache ==>
      cache[CacheKey(url, params)].1 == tagged((url, multiset(params)), cache[CacheKey(url, params)].0)
  }

  /** The current body, or an error that the server gave. */
  ghost predicate Served<T(!new)>(q: Request<T>, r: Result<T>) {
    r == Body(q.current) || (r.Failed? && exists tag :: q.server(tag) == HttpError(r.status))
  }

  lemma FetchIsTransparent<T(!new)>(cache: Cache<T>, q: Request<T>, tagged: (Resource, string) -> T)
    requires Faithful(cache, tagged) && q.Legal() && Honest(q, tagged)
    ensures var (cache', r) := Fetch(cache, q.Key(), q.server);
      Faithful(cache', tagged) && Served(q, r)
  {
    hide CacheKey;
    var (cache', r) := Fetch(cache, q.Key(), q.server);
    forall url, params | LegalRequest(url, params) && CacheKey(url, params) in cache'
      ensures cache'[CacheKey(url, params)].1 == tagged((url, multiset(params)), cache'[CacheKey(url, params)].0)
    {
      if CacheKey(url, params) == q.Key() {
        KeyNamesResource(url, params, q.url, q.params);
      }
    }
  }

  /** The caches and results of a sequence of requests. */
  function Run<T>(cache: Cache<T>, requests: seq<Request<T>>): (Cache<T>, seq<Result<T>>)
    requires forall i :: 0 <= i < |requests| ==> requests[i].Legal()
  {
    if requests == [] then (cache, [])
    else
      var (before, results) := Run(cache, requests[..|requests| - 1]);
      var q := requests[|requests| - 1];
      assert q.Legal();
      var (after, r) := Fetch(before, q.Key(), q.server);
      (after, results + [r])
  }

  // ---- What is cached, and what is sent ----

  predicate AllLegal<T>(requests: seq<Request<T>>) {
    forall i :: 0 <= i < |requests| ==> requests[i].Legal()
  }

  /** What is stored for a key after the first `n` requests. */
  ghost function StoredBefore<T>(requests: seq<Request<T>>, n: nat, key: string): Option<(string, T)>
    requires AllLegal(requests) && n <= |requests|
  {
    var cache := Run(map[], requests[..n]).0;
    if key in cache then Some(cache[key]) else None
  }

  /** The answer to request `i`, which is sent the tag stored for its key, if there is one. */
  ghost function Answer<T>(requests: seq<Request<T>>, i: nat): Response<T>
    requires AllLegal(requests) && i < |requests|
  {
    var q := requests[i];
    var stored := StoredBefore(requests, i, q.Key());
    q.server(if stored.Some? then Some(stored.value.0) else None)
  }

  /** Request `i` brings a body with a tag for `key`. */
  ghost predicate Brings<T>(requests: seq<Request<T>>, key: string, i: nat)
    requires AllLegal(requests) && i < |requests|
  {
    && requests[i].Key() == key
    && Answer(requests, i).Ok? && Answer(requests, i).etag.Some? && Answer(requests, i).etag.value != ""
  }

  /** The last of the first `n` requests that brings a tagged body for `key`. */
  ghost predicate IsLatest<T>(requests: seq<Request<T>>, n: nat, key: string, i: nat)
    requires AllLegal(requests) && n <= |requests|
  {
    i < n && Brings(requests, key, i) && forall j :: i < j < n ==> !Brings(requests, key, j)
  }

  lemma RunStep<T>(requests: seq<Request<T>>, n: nat)
    requires AllLegal(requests) && n < |requests|
    ensures Run(map[], requests[..n + 1]) ==
      var (before, results) := Run(map[], requests[..n]);
      var (after, r) := Fetch(before, requests[n].Key(), requests[n].server);
      (after, results + [r])
  {
    assert requests[..n + 1][..n] == requests[..n];
  }

  /** The cache holds, for every key, the last tagged body a request for it brought, with its tag. */
  lemma {:induction false} CacheHoldsLatest<T>(requests: seq<Request<T>>, n: nat, key: string)
    requires AllLegal(requests) && n <= |requests|
    ensures var stored := StoredBefore(requests, n, key);
      && (stored.None? <==> forall i :: 0 <= i < n ==> !Brings(requests, key, i))
      && forall i :: 0 <= i < n && IsLatest(requests, n, key, i) ==>
        stored == Some((Answer(requests, i).etag.value, Answer(requests, i).body))
  {
    hide CacheKey, Run;
    if n > 0 {
      CacheHoldsLatest(requests, n - 1, key);
      StoredStep(requests, n - 1, key);
    } else {
      RunNothing<T>();
    }
  }

  lemma RunNothing<T>()
    ensures Run<T>(map[], []) == (map[], [])
  {
  }

  lemma StoredStep<T>(requests: seq<Request<T>>, n: nat, key: string)
    requires AllLegal(requests) && n < |requests|
    ensures StoredBefore(requests, n + 1, key) ==
      if Brings(requests, key, n) then Some((Answer(requests, n).etag.value, Answer(requests, n).body))
      else StoredBefore(requests, n, key)
  {
    hide CacheKey, Run;
    RunStep(requests, n);
  }

  /** Every answer becomes the result of its call; a 304 gives the stored body. */
  lemma {:induction false} ResultsAreAnswers<T>(requests: seq<Request<T>>, n: nat, i: nat)
    requires AllLegal(requests) && i < n <= |requests|
    ensures var results := Run(map[], requests[..n]).1;
      && |results| == n
      && results[i] == match Answer(requests, i)
        case Ok(_, body) => Body(body)
        case HttpError(status) => Failed(status)
        case NotModified =>
          var stored := StoredBefore(requests, i, requests[i].Key());
          if stored.Some? then Body(stored.value.1) else NoCachedResponse
  {
    hide CacheKey, Run;
    RunStep(requests, n - 1);
    if i < n - 1 {
      ResultsAreAnswers(requests, n - 1, i);
    } else {
      RunCounts(requests, n - 1);
    }
  }

  lemma {:induction false} RunCounts<T>(requests: seq<Request<T>>, n: nat)
    requires AllLegal(requests) && n <= |requests|
    ensures |Run(map[], requests[..n]).1| == n
  {
    hide CacheKey;
    if n > 0 {
      RunCounts(requests, n - 1);
      RunStep(requests, n - 1);
    }
  }

  lemma NothingCached<T(!new)>(tagged: (Resource, string) -> T)
    ensures Faithful(map[], tagged)
  {
  }

  /** Over every sequence of requests to an honest server, each call returns the body a plain GET would return at that
      moment, unless the server answers it with an error. */
  lemma {:induction false} CachingIsTransparent<T(!new)>(requests: seq<Request<T>>, tagged: (Resource, string) -> T)
    requires forall i :: 0 <= i < |requests| ==> requests[i].Legal() && Honest(requests[i], tagged)
    ensures var (cache, results) := Run(map[], requests);
      && Faithful(cache, tagged) && |results| == |requests|
      && forall i :: 0 <= i < |requests| ==> Served(requests[i], results[i])
  {
    hide CacheKey, Faithful, Honest, Served;
    if requests == [] {
      NothingCached<T>(tagged);
    } else {
      var front, q := requests[..|requests| - 1], requests[|requests| - 1];
      CachingIsTransparent(front, tagged);
      FetchIsTransparent(Run(map[], front).0, q, tagged);
    }
  }
}
