/** First-write-wins freezing of network responses (src/env/netcache/mitm_https_cache.py:104-235, 292-298,
    338-445). Flows interleave; each looks its request up and, on a miss, may store its response later, after
    its upstream URL was rewritten. */
module NetFreeze {
  import opened EnvSteps

  datatype Url = Url(scheme: string, netloc: string, host: string, path: string, query: string)

  type Headers = seq<(string, string)>

  datatype HttpRequest = HttpRequest(verb: string, url: Url, headers: Headers, body: string)

  datatype HttpResponse = HttpResponse(status: int, headers: Headers, body: string)

  /** Case folding, URL assembly, body digests and the tables of hosts and headers. */
  datatype Texts = Texts(
    lower: string -> string, upper: string -> string, unsplit: (string, string, string, string) -> string,
    isRelease: (string, string) -> bool, pinned: Url -> Option<Url>, bodyDigest: string -> string,
    varies: string -> bool, hopByHop: string -> bool, volatile: string -> bool)

  predicate HasHeader(x: Texts, headers: Headers, name: string) {
    exists h :: h in headers && x.lower(h.0) == name
  }

  predicate UncacheableVary(x: Texts, headers: Headers) {
    exists h :: h in headers && x.lower(h.0) == "vary" && x.varies(h.1)
  }

  function Canonical(x: Texts, u: Url, keepQuery: bool): string {
    x.unsplit(x.lower(u.scheme), x.lower(u.netloc), u.path, if keepQuery then u.query else "")
  }

  /** `_cache_url`. */
  function CacheUrl(x: Texts, r: HttpRequest, url: Url, responseHeaders: Headers): Option<string> {
    if HasHeader(x, r.headers, "range") then None
    else if UncacheableVary(x, responseHeaders) || HasHeader(x, responseHeaders, "content-encoding") then None
    else if x.upper(r.verb) == "GET" then Some(Canonical(x, url, !x.isRelease(x.lower(url.host), url.path)))
    else if x.upper(r.verb) == "POST" then Some(Canonical(x, url, true) + "#body-sha256=" + x.bodyDigest(r.body))
    else None
  }

  /** An exchange can be cached only if it is a GET or POST of a whole resource, and its response is neither encoded nor
      varies with the request. */
  lemma CacheableIff(x: Texts, r: HttpRequest, url: Url, responseHeaders: Headers)
    ensures CacheUrl(x, r, url, responseHeaders).Some? <==>
      && x.upper(r.verb) in {"GET", "POST"}
      && (forall h :: h in r.headers ==> x.lower(h.0) != "range")
      && (forall h :: h in responseHeaders ==> x.lower(h.0) != "content-encoding")
      && (forall h :: h in responseHeaders && x.lower(h.0) == "vary" ==> !x.varies(h.1))
  {
  }

  /** What of the URL names the resource: its path and query as they are, the rest up to case; a release asset is named
      without its query. */
  function Resource(x: Texts, r: HttpRequest, url: Url): (string, string, string, string) {
    var asset := x.upper(r.verb) != "POST" && x.isRelease(x.lower(url.host), url.path);
    (x.lower(url.scheme), x.lower(url.netloc), url.path, if asset then "" else url.query)
  }

  function UrlText(x: Texts, parts: (string, string, string, string)): string {
    x.unsplit(parts.0, parts.1, parts.2, parts.3)
  }

  /** The two resources have different texts if they are different, and neither text has a fragment. */
  predicate ToldApart(x: Texts, p: (string, string, string, string), q: (string, string, string, string)) {
    (UrlText(x, p) == UrlText(x, q) ==> p == q) && '#' !in UrlText(x, p) && '#' !in UrlText(x, q)
  }

  /** Exchanges of one method with one cache URL are about one resource, and two POSTs have bodies with one digest. */
  lemma OneResource(x: Texts, r: HttpRequest, url: Url, r': HttpRequest, url': Url)
    requires CacheUrl(x, r, url, []).Some? && CacheUrl(x, r, url, []) == CacheUrl(x, r', url', [])
    requires x.upper(r.verb) == x.upper(r'.verb) && ToldApart(x, Resource(x, r, url), Resource(x, r', url'))
    ensures Resource(x, r, url) == Resource(x, r', url')
    ensures x.upper(r.verb) == "POST" ==> x.bodyDigest(r.body) == x.bodyDigest(r'.body)
  {
    if x.upper(r.verb) == "POST" {
      var a, b := UrlText(x, Resource(x, r, url)), UrlText(x, Resource(x, r', url'));
      var d, d' := "body-sha256=" + x.bodyDigest(r.body), "body-sha256=" + x.bodyDigest(r'.body);
      assert "#body-sha256=" == ['#'] + "body-sha256=";
      assert a + ['#'] + d == a + "#body-sha256=" + x.bodyDigest(r.body);
      assert b + ['#'] + d' == b + "#body-sha256=" + x.bodyDigest(r'.body);
      SplitAtFirst(a, d, b, d', '#');
      assert d[12..] == x.bodyDigest(r.body) && d'[12..] == x.bodyDigest(r'.body);
    }
  }

  // ------------------------------------------------------------ keys

  const NUL: char := '\0'

  /** The text that `_cache_entry_dir` digests; SHA-256 is taken not to collide on the texts of one cache. */
  function KeyText(scope: string, verb: string, url: string): string {
    scope + [NUL] + Rest(verb, url)
  }

  function Rest(verb: string, url: string): string { verb + [' '] + url }

  /** The key of an exchange, or None when it is not cacheable. */
  function KeyOf(x: Texts, scope: string, r: HttpRequest, url: Url, responseHeaders: Headers): Option<string> {
    var u := CacheUrl(x, r, url, responseHeaders);
    if u == None then None else Some(KeyText(scope, x.upper(r.verb), u.value))
  }

  lemma SplitAtFirst(a: string, b: string, a': string, b': string, mark: char)
    requires a + [mark] + b == a' + [mark] + b'
    requires mark !in a && mark !in a'
    ensures a == a' && b == b'
  {
    var t := a + [mark] + b;
    assert t[|a|] == mark && t[|a'|] == mark;
    assert forall i :: 0 <= i < |a| ==> t[i] == a[i];
    assert forall i :: 0 <= i < |a'| ==> t[i] == a'[i];
    assert |a| == |a'|;
    assert t[..|a|] == a && t[..|a'|] == a' && t[|a| + 1..] == b && t[|a'| + 1..] == b';
  }

  lemma SplitAtLast(a: string, b: string, a': string, b': string, mark: char)
    requires a + [mark] + b == a' + [mark] + b'
    requires mark !in b && mark !in b'
    ensures a == a' && b == b'
  {
    var t := a + [mark] + b;
    assert t[|a|] == mark && t[|a'|] == mark;
    assert forall i :: |a| < i < |t| ==> t[i] == b[i - |a| - 1];
    assert forall i :: |a'| < i < |t| ==> t[i] == b'[i - |a'| - 1];
    assert |a| == |a'|;
    assert t[..|a|] == a && t[..|a'|] == a' && t[|a| + 1..] == b && t[|a'| + 1..] == b';
  }

  /** Scopes never share a key, as long as either no scope or no method and URL contains a NUL. */
  lemma ScopesNeverShareKeys(scope: string, verb: string, url: string, scope': string, verb': string, url': string)
    requires KeyText(scope, verb, url) == KeyText(scope', verb', url')
    requires (NUL !in scope && NUL !in scope') || (NUL !in Rest(verb, url) && NUL !in Rest(verb', url'))
    requires ' ' !in verb && ' ' !in verb'
    ensures scope == scope' && verb == verb' && url == url'
  {
    if NUL !in scope && NUL !in scope' {
      SplitAtFirst(scope, Rest(verb, url), scope', Rest(verb', url'), NUL);
    } else {
      SplitAtLast(scope, Rest(verb, url), scope', Rest(verb', url'), NUL);
    }
    SplitAtFirst(verb, url, verb', url', ' ');
  }

  /** With a NUL in one scope and in the other URL, two scopes do share a key. */
  lemma SharedKey(s: string, m: string, u: string, v: string)
    ensures KeyText(s + [NUL] + Rest(m, u), m, v) == KeyText(s, m, u + [NUL] + Rest(m, v))
    ensures s + [NUL] + Rest(m, u) != s
  {
    assert KeyText(s + [NUL] + Rest(m, u), m, v) == s + [NUL] + (m + [' '] + u) + [NUL] + (m + [' '] + v);
    assert KeyText(s, m, u + [NUL] + Rest(m, v)) == s + [NUL] + (m + [' '] + (u + [NUL] + (m + [' '] + v)));
    assert |s + [NUL] + Rest(m, u)| > |s|;
  }

  /** The methods that are ever given a key. */
  predicate Keyed(m: string) { m == "GET" || m == "POST" }

  /** Some requests under the two scopes have one key. */
  ghost predicate CanShare(s: string, s': string) {
    exists m, u, m', u' :: Keyed(m) && Keyed(m') && KeyText(s, m, u) == KeyText(s', m', u')
  }

  /** The longer scope is the shorter one, a NUL, and what reads as a GET or POST and its URL. */
  ghost predicate Continues(longer: string, shorter: string) {
    exists m, u :: Keyed(m) && longer == shorter + [NUL] + Rest(m, u)
  }

  /** Exactly when two scopes can share an entry. */
  lemma ScopesShareIff(s: string, s': string)
    requires s != s'
    ensures CanShare(s, s') <==> Continues(s, s') || Continues(s', s)
  {
    if CanShare(s, s') {
      var m, u, m', u' :| Keyed(m) && Keyed(m') && KeyText(s, m, u) == KeyText(s', m', u');
      if |s| <= |s'| { LongerContinues(s, m, u, s', m', u'); } else { LongerContinues(s', m', u', s, m, u); }
    }
    if Continues(s, s') {
      var m, u :| Keyed(m) && s == s' + [NUL] + Rest(m, u);
      SharedKey(s', m, u, "");
    }
    if Continues(s', s) {
      var m, u :| Keyed(m) && s' == s + [NUL] + Rest(m, u);
      SharedKey(s, m, u, "");
    }
  }

  lemma LongerContinues(s: string, m: string, u: string, s': string, m': string, u': string)
    requires KeyText(s, m, u) == KeyText(s', m', u') && s != s' && |s| <= |s'| && Keyed(m)
    ensures Continues(s', s)
  {
    var t, rest := KeyText(s, m, u), Rest(m, u);
    assert t == s' + [NUL] + Rest(m', u');
    assert t[..|s|] == s && t[..|s'|] == s';
    assert |s| < |s'| && s'[|s|] == t[|s|] == NUL;
    var n := |s'| - |s| - 1;
    assert t[|s| + 1..] == rest && rest[n] == t[|s'|] == NUL;
    assert forall k :: 0 <= k <= |m| ==> rest[k] == (m + [' '])[k] != NUL;
    assert rest[..n] == Rest(m, u[..n - |m| - 1]);
    assert s' == s + [NUL] + rest[..n];
  }

  // ------------------------------------------------------------ headers

  function Strip(headers: Headers, drop: string -> bool): Headers {
    if headers == [] then [] else (if drop(headers[0].0) then [] else [headers[0]]) + Strip(headers[1..], drop)
  }

  /** `_force_identity_accept_encoding`. */
  function Negotiated(x: Texts, r: HttpRequest): HttpRequest {
    r.(headers := Strip(r.headers, n => x.lower(n) == "accept-encoding") + [("Accept-Encoding", "identity")])
  }

  /** What the client of a flow sees of the upstream response: scoped flows lose the volatile headers. */
  function Seen(x: Texts, scope: Option<string>, upstream: HttpResponse): HttpResponse {
    if scope == None then upstream else upstream.(headers := Strip(upstream.headers, x.volatile))
  }

  /** Headers are dropped one by one, by name; the others stay, in order. */
  lemma {:induction false} StripJoins(a: Headers, h: (string, string), b: Headers, drop: string -> bool)
    ensures Strip(a + [h] + b, drop) == Strip(a, drop) + (if drop(h.0) then [] else [h]) + Strip(b, drop)
  {
    if a == [] {
      assert ([] + [h] + b)[1..] == b && [] + [h] + b == [h] + b;
    } else {
      assert (a + [h] + b)[1..] == a[1..] + [h] + b;
      StripJoins(a[1..], h, b, drop);
    }
  }

  lemma {:induction false} StripKeeps(headers: Headers, drop: string -> bool, h: (string, string))
    ensures h in Strip(headers, drop) <==> h in headers && !drop(h.0)
  {
    if headers != [] { StripKeeps(headers[1..], drop, h); }
  }

  /** What is rewritten on the way: the request asks for the identity encoding and no other; the client of a scoped
      flow gets no volatile header, and an entry keeps neither those nor hop-by-hop headers. Nothing else changes. */
  lemma Rewrites(x: Texts, r: HttpRequest, scope: Option<string>, upstream: HttpResponse, h: (string, string))
    ensures Negotiated(x, r) == r.(headers := Negotiated(x, r).headers)
    ensures h in Negotiated(x, r).headers <==>
      h == ("Accept-Encoding", "identity") || (h in r.headers && x.lower(h.0) != "accept-encoding")
    ensures Seen(x, scope, upstream) == upstream.(headers := Seen(x, scope, upstream).headers)
    ensures h in Seen(x, scope, upstream).headers <==> h in upstream.headers && (scope == None || !x.volatile(h.0))
    ensures Frozen(x, upstream) == upstream.(headers := Frozen(x, upstream).headers)
    ensures h in Frozen(x, upstream).headers <==> h in upstream.headers && !x.hopByHop(h.0) && !x.volatile(h.0)
  {
    StripKeeps(r.headers, n => x.lower(n) == "accept-encoding", h);
    StripKeeps(upstream.headers, x.volatile, h);
    StripKeeps(upstream.headers, n => Dropped(x, n), h);
  }

  predicate Dropped(x: Texts, name: string) { x.hopByHop(name) || x.volatile(name) }

  /** What an entry keeps of the response its flow received. */
  function Frozen(x: Texts, r: HttpResponse): HttpResponse {
    r.(headers := Strip(r.headers, n => Dropped(x, n)))
  }

  lemma {:induction false} OnlyHopByHopLeft(x: Texts, headers: Headers, both: string -> bool)
    requires forall n :: both(n) <==> Dropped(x, n)
    ensures Strip(Strip(headers, x.volatile), both) == Strip(Strip(headers, x.volatile), x.hopByHop)
  {
    if headers != [] {
      OnlyHopByHopLeft(x, headers[1..], both);
      var rest := Strip(headers[1..], x.volatile);
      assert ([headers[0]] + rest)[1..] == rest && [] + rest == rest;
    }
  }

  /** The client of a miss and the clients of its later hits see the same status and body, and the same headers
      once hop-by-hop headers are left aside. */
  lemma MissAndHitAgree(x: Texts, scope: string, upstream: HttpResponse)
    ensures var seen := Seen(x, Some(scope), upstream); var frozen := Frozen(x, seen);
      && frozen.status == seen.status && frozen.body == seen.body
      && frozen.headers == Strip(seen.headers, x.hopByHop)
  {
    OnlyHopByHopLeft(x, upstream.headers, n => Dropped(x, n));
  }

  // ------------------------------------------------------------ flows

  class Flow {
    const client: nat
    const proxyAuth: Option<string>
    var request: HttpRequest
    var authorization: Option<string>
    var scope: Option<string>
    var originalUrl: Option<Url>
    var hit: bool
    var response: Option<HttpResponse>
    ghost var asked: Option<string>

    constructor (client: nat, proxyAuth: Option<string>, request: HttpRequest, authorization: Option<string>)
      ensures this.client == client && this.proxyAuth == proxyAuth && this.request == request
      ensures this.authorization == authorization && IsNew()
    {
      this.client, this.proxyAuth, this.request, this.authorization := client, proxyAuth, request, authorization;
      scope, originalUrl, hit, response, asked := None, None, false, None, None;
    }

    predicate IsNew()
      reads this
    {
      scope == None && originalUrl == None && !hit && response == None
    }

    /** `_cache_identity_url`. */
    function IdentityUrl(): Url
      reads this
    {
      if originalUrl.Some? then originalUrl.value else request.url
    }

    /** The key this flow would store a response with these headers under. */
    function StoreKey(x: Texts, responseHeaders: Headers): Option<string>
      reads this
    {
      if scope == None then None else KeyOf(x, scope.value, request, IdentityUrl(), responseHeaders)
    }

    /** The flow's side of `request`, against the entries of the moment. */
    method Serve(x: Texts, entries: map<string, HttpResponse>, found: Option<string>)
      requires IsNew()
      modifies this
      ensures scope == found && FlowOk(x, entries, this) && authorization == None
      ensures scope == None ==> !hit && asked == None && request == old(request)
      ensures !hit ==> response == None
      ensures scope.Some? ==>
        var sent := Negotiated(x, old(request));
        && asked == KeyOf(x, scope.value, sent, sent.url, [])
        && request == (if !hit && x.pinned(sent.url).Some? then sent.(url := x.pinned(sent.url).value) else sent)
        && originalUrl == (if !hit && x.pinned(sent.url).Some? then Some(sent.url) else None)
    {
      scope, authorization, asked := found, None, None;
      if scope == None { return; }
      request := Negotiated(x, request);
      var key := KeyOf(x, scope.value, request, request.url, []);
      asked := key;
      var readable: bool := *;
      if key.Some? && key.value in entries && readable {
        hit, response := true, Some(entries[key.value]);
        return;
      }
      var pinned := x.pinned(request.url);
      if pinned.Some? {
        originalUrl := Some(request.url);
        request := request.(url := pinned.value);
      }
    }

    /** The flow's side of `responseheaders` and `response`: what the client gets, and the key to store it under
        if it may be stored. */
    method Receive(x: Texts, ghost entries: map<string, HttpResponse>, upstream: HttpResponse) returns (key: Option<string>)
      requires !hit && FlowOk(x, entries, this)
      modifies this`response
      ensures FlowOk(x, entries, this) && response == Some(Seen(x, scope, upstream))
      ensures key == if scope == None || upstream.status != 200 then None else StoreKey(x, response.value.headers)
      ensures key.Some? ==> asked == key
    {
      var seen := Seen(x, scope, upstream);
      response := Some(seen);
      if scope == None || seen.status != 200 { return None; }
      key := StoreKey(x, seen.headers);
      HeadersOnlyForbid(x, scope.value, request, IdentityUrl(), seen.headers);
    }
  }

  ghost predicate FlowOk(x: Texts, entries: map<string, HttpResponse>, f: Flow)
    reads f
  {
    && (f.hit ==> f.asked.Some? && f.asked.value in entries && f.response == Some(entries[f.asked.value]))
    && (f.asked.Some? ==> f.scope.Some?)
    && (f.scope.Some? ==> f.StoreKey(x, []) == f.asked)
  }

  ghost predicate Wrote(x: Texts, entry: HttpResponse, f: Flow, k: string)
    reads f
  {
    && !f.hit && f.asked == Some(k) && f.response.Some?
    && f.response.value.status == 200 && entry == Frozen(x, f.response.value)
  }

  lemma FlowOkGrows(x: Texts, entries: map<string, HttpResponse>, k: string, v: HttpResponse, f: Flow)
    requires FlowOk(x, entries, f) && k !in entries
    ensures FlowOk(x, entries[k := v], f)
  {
  }

  /** Response headers can make an exchange uncacheable; they never change its key. */
  lemma HeadersOnlyForbid(x: Texts, scope: string, r: HttpRequest, url: Url, responseHeaders: Headers)
    ensures var k := KeyOf(x, scope, r, url, responseHeaders);
      k == None || k == KeyOf(x, scope, r, url, [])
  {
  }

  // ------------------------------------------------------------ the addon

  class HttpsCacheAddon {
    const x: Texts
    var entries: map<string, HttpResponse>
    var clientScopes: map<nat, string>
    ghost var flows: set<Flow>
    ghost var writers: map<string, Flow>

    constructor (x: Texts)
      ensures Valid() && this.x == x && entries == map[] && flows == {}
    {
      this.x, entries, clientScopes, flows, writers := x, map[], map[], {}, map[];
    }

    /** A hit carries its entry as it is; every entry is what the flow that wrote it received under the key
        that flow had asked for, and was a success. */
    ghost predicate Valid()
      reads this, flows
    {
      && (forall f :: f in flows ==> FlowOk(x, entries, f))
      && entries.Keys == writers.Keys
      && forall k :: k in entries ==> writers[k] in flows && Wrote(x, entries[k], writers[k], k)
    }

    /** `_cache_scope`: the proxy's own authentication, the request's header, or the connection's. */
    function CacheScope(flow: Flow): Option<string>
      reads this, flow
    {
      if flow.proxyAuth.Some? then flow.proxyAuth
      else if flow.authorization.Some? then flow.authorization
      else if flow.client in clientScopes then Some(clientScopes[flow.client]) else None
    }

    method HttpConnect(flow: Flow)
      requires Valid() && flow !in flows
      modifies this`clientScopes, flow`authorization
      ensures Valid() && flow.authorization == None
    {
      if flow.authorization.Some? { clientScopes := clientScopes[flow.client := flow.authorization.value]; }
      flow.authorization := None;
    }

    /** `request`: answers from the cache, or lets the request go upstream, to a pinned mirror if there is one.
        A load may fail. A flow without a scope neither reads nor writes the cache. */
    method Request(flow: Flow)
      requires Valid() && flow !in flows && flow.IsNew()
      modifies this`flows, flow
      ensures Valid() && flows == old(flows) + {flow}
      ensures flow.scope == old(CacheScope(flow)) && (flow.scope == None ==> !flow.hit && flow.response == None)
      ensures flow.scope ==
        if flow.proxyAuth != None then flow.proxyAuth
        else if old(flow.authorization) != None then old(flow.authorization)
        else if flow.client in clientScopes then Some(clientScopes[flow.client]) else None
      ensures flow.scope.Some? ==>
        var sent := Negotiated(x, old(flow.request));
        && flow.asked == KeyOf(x, flow.scope.value, sent, sent.url, [])
        && flow.IdentityUrl() == sent.url
        && (!flow.hit ==> flow.request.url == if x.pinned(sent.url).Some? then x.pinned(sent.url).value else sent.url)
      ensures flow.hit ==> flow.asked.Some? && flow.asked.value in entries && flow.response == Some(entries[flow.asked.value])
    {
      var scope := CacheScope(flow);
      flow.Serve(x, entries, scope);
      flows := flows + {flow};
    }

    /** `responseheaders` and `response`: the upstream response is stripped of volatile headers and stored, if it
        may be, under the key that the flow asked for -- unless that entry exists. */
    method Respond(flow: Flow, upstream: HttpResponse) returns (stored: bool)
      requires Valid() && flow in flows && (flow.hit || flow.response == None)
      modifies this`entries, this`writers, flow`response
      ensures Valid() && flow.response == (if flow.hit then old(flow.response) else Some(Seen(x, flow.scope, upstream)))
      ensures flow.hit ==> !stored
      ensures forall k :: k in old(entries) ==> k in entries && entries[k] == old(entries)[k]
      ensures !stored ==> entries == old(entries)
      ensures stored ==>
        && flow.asked.Some? && flow.asked.value !in old(entries) && flow.response.Some?
        && entries == old(entries)[flow.asked.value := Frozen(x, flow.response.value)]
    {
      stored := false;
      if flow.hit { return; }
      var key := flow.Receive(x, entries, upstream);
      var writable: bool := *;
      if key == None || key.value in entries || !writable { return; }
      var frozen := Frozen(x, flow.response.value);
      forall f | f in flows ensures FlowOk(x, entries[key.value := frozen], f) {
        FlowOkGrows(x, entries, key.value, frozen, f);
      }
      entries := entries[key.value := frozen];
      writers := writers[key.value := flow];
      stored := true;
    }

    /** A hit was written by a flow of the same scope, with the same method and cache URL; and, if the URLs of the two
        can be told apart at all, about the same resource, with the same body digest if it is a POST. */
    lemma HitsStayInScope(flow: Flow)
      requires Valid() && flow in flows && flow.hit && flow.scope.Some?
      ensures (forall f :: f in flows ==> NulFree(f)) ==>
        var w := writers[flow.asked.value];
        && w in flows && w.scope == flow.scope && x.upper(w.request.verb) == x.upper(flow.request.verb)
        && CacheUrl(x, w.request, w.IdentityUrl(), []) == CacheUrl(x, flow.request, flow.IdentityUrl(), [])
        && flow.response == Some(Frozen(x, w.response.value)) && flow.response.value.status == 200
        && var asked, served := Resource(x, flow.request, flow.IdentityUrl()), Resource(x, w.request, w.IdentityUrl());
          ToldApart(x, asked, served) ==>
            && asked == served
            && (x.upper(flow.request.verb) == "POST" ==> x.bodyDigest(w.request.body) == x.bodyDigest(flow.request.body))
    {
      if exists f :: f in flows && !NulFree(f) { return; }
      var w := writers[flow.asked.value];
      ScopesNeverShareKeys(
        flow.scope.value, x.upper(flow.request.verb), CacheUrl(x, flow.request, flow.IdentityUrl(), []).value,
        w.scope.value, x.upper(w.request.verb), CacheUrl(x, w.request, w.IdentityUrl(), []).value);
      if ToldApart(x, Resource(x, flow.request, flow.IdentityUrl()), Resource(x, w.request, w.IdentityUrl())) {
        OneResource(x, flow.request, flow.IdentityUrl(), w.request, w.IdentityUrl());
      }
    }

    ghost predicate NulFree(f: Flow)
      reads f
    {
      f.scope.Some? ==> NUL !in f.scope.value && ' ' !in x.upper(f.request.verb)
    }
  }
}
