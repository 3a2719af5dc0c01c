/** How the reverse proxy rewrites a request, and what a chain of proxies does. */
module Proxy {
  import opened Wrappers

  datatype Url = Url(scheme: string, host: string, path: string, rawQuery: string)

  predicate EndsWithSlash(s: string) {
    s != "" && s[|s| - 1] == '/'
  }

  predicate StartsWithSlash(s: string) {
    s != "" && s[0] == '/'
  }

  function SingleJoiningSlash(a: string, b: string): string {
    if EndsWithSlash(a) && StartsWithSlash(b) then a + b[1..]
    else if !EndsWithSlash(a) && !StartsWithSlash(b) then a + "/" + b
    else a + b
  }

  function JoinQuery(a: string, b: string): string {
    if a == "" || b == "" then a + b else a + "&" + b
  }

  /** The parameters of a query, which '&' separates. */
  function Params(query: string): seq<string> {
    if query == "" then [] else Split(query)
  }

  function Split(s: string): (parts: seq<string>)
    ensures parts != []
  {
    if s == "" then [""]
    else if s[0] == '&' then [""] + Split(s[1..])
    else
      var rest := Split(s[1..]);
      [[s[0]] + rest[0]] + rest[1..]
  }

  lemma {:induction false} SplitJoined(a: string, b: string)
    ensures Split(a + ("&" + b)) == Split(a) + Split(b)
  {
    var s := a + ("&" + b);
    if a == "" {
      assert s == "&" + b && s[1..] == b;
    } else {
      SplitJoined(a[1..], b);
      assert s[1..] == a[1..] + ("&" + b);
      SplitStep(a, b);
    }
  }

  lemma SplitStep(a: string, b: string)
    requires a != "" && Split(a[1..] + ("&" + b)) == Split(a[1..]) + Split(b)
    requires (a + ("&" + b))[1..] == a[1..] + ("&" + b)
    ensures Split(a + ("&" + b)) == Split(a) + Split(b)
  {
    var rest, tail := Split(a[1..]), Split(b);
    assert (rest + tail)[0] == rest[0] && (rest + tail)[1..] == rest[1..] + tail;
  }

  /** The parameters of both, the first one's first. */
  lemma JoinedParams(a: string, b: string)
    ensures Params(JoinQuery(a, b)) == Params(a) + Params(b)
  {
    if a == "" {
      assert a + b == b;
    } else if b == "" {
      assert a + b == a;
    } else {
      SplitJoined(a, b);
      assert a + "&" + b == a + ("&" + b);
    }
  }

  function EffectiveScheme(target: Url): string {
    if target.scheme == "" then "http" else target.scheme
  }

  /** The URL one proxy sends a request for `url` on to. */
  function Routed(url: Url, target: Url, targetPath: Option<string>): Url {
    Url(EffectiveScheme(target),
        target.host,
        match targetPath case None => SingleJoiningSlash(target.path, url.path) case Some(p) => p,
        JoinQuery(target.rawQuery, url.rawQuery))
  }

  // Header.Set writes "X-Request-ID" in its canonical form.
  const REQUEST_ID := "X-Request-Id"

  class Request {
    var url: Url
    var header: map<string, seq<string>>

    constructor (url: Url, header: map<string, seq<string>>)
      ensures this.url == url && this.header == header
    {
      this.url, this.header := url, header;
    }
  }

  method SetHeader(req: Request, requestID: string)
    modifies req`header
    ensures "User-Agent" in req.header
    ensures requestID != "" ==> REQUEST_ID in req.header && req.header[REQUEST_ID] == [requestID]
    // nothing else changes, and no User-Agent of the client is replaced
    ensures forall k :: k in old(req.header) && (k != REQUEST_ID || requestID == "") ==>
                          k in req.header && req.header[k] == old(req.header)[k]
    ensures forall k :: k in req.header ==> k in old(req.header) || k == "User-Agent" || (k == REQUEST_ID && requestID != "")
    ensures "User-Agent" !in old(req.header) ==> req.header["User-Agent"] == [""]
  {
    if "User-Agent" !in req.header {
      req.header := req.header["User-Agent" := [""]];
    }
    if requestID != "" {
      req.header := req.header[REQUEST_ID := [requestID]];
    }
  }

  /** The director: it edits the request in place, field by field. */
  method Direct(req: Request, target: Url, targetPath: Option<string>, requestID: string)
    modifies req
    ensures req.url == Routed(old(req.url), target, targetPath)
    ensures req.url.scheme == (if target.scheme == "" then "http" else target.scheme) && req.url.host == target.host
    ensures targetPath.Some? ==> req.url.path == targetPath.value
    ensures targetPath.None? ==> req.url.path == TrimEnd(target.path) + ("/" + TrimStart(old(req.url).path))
    ensures Params(req.url.rawQuery) == Params(target.rawQuery) + Params(old(req.url).rawQuery)
    ensures "User-Agent" in req.header
    ensures requestID != "" ==> REQUEST_ID in req.header && req.header[REQUEST_ID] == [requestID]
    // nothing else changes, and no User-Agent of the client is replaced
    ensures forall k :: k in old(req.header) && (k != REQUEST_ID || requestID == "") ==>
                          k in req.header && req.header[k] == old(req.header)[k]
    ensures forall k :: k in req.header ==> k in old(req.header) || k == "User-Agent" || (k == REQUEST_ID && requestID != "")
    ensures "User-Agent" !in old(req.header) ==> req.header["User-Agent"] == [""]
  {
    if target.scheme == "" {
      req.url := req.url.(scheme := "http");
    } else {
      req.url := req.url.(scheme := target.scheme);
    }
    req.url := req.url.(host := target.host);
    if targetPath.Some? {
      req.url := req.url.(path := targetPath.value);
    } else {
      req.url := req.url.(path := SingleJoiningSlash(target.path, req.url.path));
    }
    if target.rawQuery == "" || req.url.rawQuery == "" {
      req.url := req.url.(rawQuery := target.rawQuery + req.url.rawQuery);
    } else {
      req.url := req.url.(rawQuery := target.rawQuery + "&" + req.url.rawQuery);
    }
    SetHeader(req, requestID);
    RoutedParts(old(req.url), target, targetPath);
  }

  /** The parts of the new URL: the target's scheme and host, its path before the
      request's or the fixed one, its parameters before the request's. */
  lemma RoutedParts(url: Url, target: Url, targetPath: Option<string>)
    ensures var new' := Routed(url, target, targetPath);
            && new'.scheme == (if target.scheme == "" then "http" else target.scheme) && new'.host == target.host
            && (targetPath.Some? ==> new'.path == targetPath.value)
            && (targetPath.None? ==> new'.path == TrimEnd(target.path) + ("/" + TrimStart(url.path)))
            && Params(new'.rawQuery) == Params(target.rawQuery) + Params(url.rawQuery)
  {
    JoinedParams(target.rawQuery, url.rawQuery);
    JoinsWithOneSlash(target.path, url.path);
  }

  function TrimEnd(s: string): string {
    if EndsWithSlash(s) then s[..|s| - 1] else s
  }

  function TrimStart(s: string): string {
    if StartsWithSlash(s) then s[1..] else s
  }

  /** One slash less on each side, and exactly one in between. */
  lemma JoinsWithOneSlash(a: string, b: string)
    ensures SingleJoiningSlash(a, b) == TrimEnd(a) + ("/" + TrimStart(b))
  {
  }

  lemma TrimEndOfJoin(a: string, b: string)
    ensures TrimEnd(a + ("/" + b)) == if b == "" then a else a + ("/" + TrimEnd(b))
  {
    var s := a + ("/" + b);
    if b == "" {
      assert s[..|s| - 1] == a;
    } else {
      assert s[|s| - 1] == b[|b| - 1];
      assert EndsWithSlash(b) ==> s[..|s| - 1] == a + ("/" + b[..|b| - 1]);
    }
  }

  lemma TrimStartOfJoin(a: string, b: string)
    ensures TrimStart(a + ("/" + b)) == if a == "" then b else TrimStart(a) + ("/" + b)
  {
    var s := a + ("/" + b);
    if a == "" {
      assert s == "/" + b;
    } else {
      assert s[0] == a[0];
      assert StartsWithSlash(a) ==> s[1..] == a[1..] + ("/" + b);
    }
  }

  lemma TrimsCommute(b: string)
    ensures TrimStart(b) == "" <==> TrimEnd(b) == ""
    ensures TrimStart(b) != "" ==> TrimEnd(TrimStart(b)) == TrimStart(TrimEnd(b))
  {
    if |b| > 1 {
      assert b[1..][|b| - 2] == b[|b| - 1];
      assert b[..|b| - 1][0] == b[0];
      assert b[1..][..|b| - 2] == b[..|b| - 1][1..];
    }
  }

  lemma JoinOfLeft(a: string, b: string, c: string)
    ensures SingleJoiningSlash(SingleJoiningSlash(a, b), c) ==
            if TrimStart(b) == "" then TrimEnd(a) + ("/" + TrimStart(c))
            else (TrimEnd(a) + ("/" + TrimEnd(TrimStart(b)))) + ("/" + TrimStart(c))
  {
    JoinsWithOneSlash(a, b);
    JoinsWithOneSlash(SingleJoiningSlash(a, b), c);
    TrimEndOfJoin(TrimEnd(a), TrimStart(b));
  }

  lemma JoinOfRight(a: string, b: string, c: string)
    ensures SingleJoiningSlash(a, SingleJoiningSlash(b, c)) ==
            if TrimEnd(b) == "" then TrimEnd(a) + ("/" + TrimStart(c))
            else TrimEnd(a) + ("/" + (TrimStart(TrimEnd(b)) + ("/" + TrimStart(c))))
  {
    JoinsWithOneSlash(b, c);
    JoinsWithOneSlash(a, SingleJoiningSlash(b, c));
    TrimStartOfJoin(TrimEnd(b), TrimStart(c));
  }

  /** Joining paths is associative. */
  lemma JoiningSlashIsAssociative(a: string, b: string, c: string)
    ensures SingleJoiningSlash(SingleJoiningSlash(a, b), c) == SingleJoiningSlash(a, SingleJoiningSlash(b, c))
  {
    JoinOfLeft(a, b, c);
    JoinOfRight(a, b, c);
    TrimsCommute(b);
    Reassociate(TrimEnd(a), TrimEnd(TrimStart(b)), TrimStart(c));
  }

  lemma Reassociate(x: string, y: string, z: string)
    ensures (x + ("/" + y)) + ("/" + z) == x + ("/" + (y + ("/" + z)))
  {
  }

  lemma QueryJoinIsAssociative(a: string, b: string, c: string)
    ensures JoinQuery(JoinQuery(a, b), c) == JoinQuery(a, JoinQuery(b, c))
  {
    if a == "" {
      assert a + b == b && a + JoinQuery(b, c) == JoinQuery(b, c);
    } else if b == "" {
      assert a + b == a && b + c == c;
    } else if c == "" {
      assert b + c == b && JoinQuery(a, b) + c == JoinQuery(a, b);
    } else {
      assert (a + "&" + b) + "&" + c == a + "&" + (b + "&" + c);
    }
  }

  /** The request goes through the first target first. */
  function RoutedThrough(url: Url, targets: seq<Url>): Url {
    if targets == [] then url
    else Routed(RoutedThrough(url, targets[..|targets| - 1]), targets[|targets| - 1], None)
  }

  /** One target that stands for a whole chain. */
  function Composed(targets: seq<Url>): Url
    requires targets != []
  {
    var last := targets[|targets| - 1];
    if |targets| == 1 then last
    else
      var inner := Composed(targets[..|targets| - 1]);
      last.(path := SingleJoiningSlash(last.path, inner.path), rawQuery := JoinQuery(last.rawQuery, inner.rawQuery))
  }

  /** A chain of proxies without fixed paths is one proxy with the composed
      target: host and scheme are the last one's. */
  lemma {:induction false} ChainIsOneHop(url: Url, targets: seq<Url>)
    requires targets != []
    ensures RoutedThrough(url, targets) == Routed(url, Composed(targets), None)
    ensures RoutedThrough(url, targets).host == targets[|targets| - 1].host
    ensures RoutedThrough(url, targets).scheme == EffectiveScheme(targets[|targets| - 1])
  {
    var init, last := targets[..|targets| - 1], targets[|targets| - 1];
    if |targets| == 1 {
      assert init == [];
    } else {
      ChainIsOneHop(url, init);
      var inner := Composed(init);
      JoiningSlashIsAssociative(last.path, inner.path, url.path);
      QueryJoinIsAssociative(last.rawQuery, inner.rawQuery, url.rawQuery);
    }
  }

  // The last target's parameters first.
  function ParamsThrough(targets: seq<Url>): seq<string> {
    if targets == [] then []
    else Params(targets[|targets| - 1].rawQuery) + ParamsThrough(targets[..|targets| - 1])
  }

  /** The query that arrives has the parameters of every proxy on the way, the
      last one's first and those of the request last. */
  lemma {:induction false} ChainCollectsParams(url: Url, targets: seq<Url>)
    ensures Params(RoutedThrough(url, targets).rawQuery) == ParamsThrough(targets) + Params(url.rawQuery)
  {
    if targets == [] {
      assert ParamsThrough(targets) + Params(url.rawQuery) == Params(url.rawQuery);
    } else {
      var init, last := targets[..|targets| - 1], targets[|targets| - 1];
      ChainCollectsParams(url, init);
      JoinedParams(last.rawQuery, RoutedThrough(url, init).rawQuery);
    }
  }
}
