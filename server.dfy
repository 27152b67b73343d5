/** The `Server` route table of http/route.go (per-method lists that
    `AddRoute` appends to) and the dispatcher `HandleRoutes` of
    http/routes.go. */
module ServerTable {
  import opened Types
  import opened Strings
  import opened Helpers
  import opened Matching
  import opened Chain

  /** The route `Server.AddRoute` stores: the path as given (no `:name`
      compilation), the whole method list, no names. */
  function ServerEntry(path: string, handler: Handler, methods: seq<string>): Route {
    Route(methods, path, handler, [], [], "")
  }

  /** One step of the registration loop: the list under `m` (created empty
      when missing) gets `e` at its end. */
  function Append(t: map<string, seq<Route>>, m: string, e: Route): (r: map<string, seq<Route>>)
    ensures r.Keys == t.Keys + {m}
    ensures Lookup(r, m) == Lookup(t, m) + [e]
    ensures forall k :: k != m ==> Lookup(r, k) == Lookup(t, k)
  {
    t[m := Lookup(t, m) + [e]]
  }

  /** The table after the registration loop has run over `ms`. */
  function RegisterAll(t: map<string, seq<Route>>, ms: seq<string>, e: Route): map<string, seq<Route>>
  {
    if |ms| == 0 then t
    else Append(RegisterAll(t, ms[..|ms| - 1], e), ms[|ms| - 1], e)
  }

  function Copies(e: Route, n: nat): (r: seq<Route>)
    ensures |r| == n && forall i :: 0 <= i < n ==> r[i] == e
  {
    seq(n, _ => e)
  }

  /** Every method of the list gets the route appended once per occurrence,
      at the end of its list; every other list is unchanged. */
  lemma {:induction false} RegisterAllLookup(t: map<string, seq<Route>>, ms: seq<string>, e: Route, k: string)
    ensures Lookup(RegisterAll(t, ms, e), k) == Lookup(t, k) + Copies(e, multiset(ms)[k])
  {
    if |ms| > 0 {
      var n := |ms| - 1;
      var init := ms[..n];
      assert ms == init + [ms[n]];
      RegisterAllLookup(t, init, e, k);
      var c := multiset(init)[k];
      assert multiset(ms) == multiset(init) + multiset{ms[n]};
      if ms[n] == k {
        assert multiset(ms)[k] == c + 1;
        assert Copies(e, c + 1) == Copies(e, c) + [e];
      } else {
        assert multiset(ms)[k] == c;
      }
    }
  }

  /** The keys after registration: the old ones plus every listed method (a
      missing method is created). */
  lemma {:induction false} RegisterAllKeys(t: map<string, seq<Route>>, ms: seq<string>, e: Route)
    ensures RegisterAll(t, ms, e).Keys == t.Keys + set m | m in ms
  {
    if |ms| > 0 {
      var n := |ms| - 1;
      assert ms == ms[..n] + [ms[n]];
      RegisterAllKeys(t, ms[..n], e);
    }
  }

  /** An empty method list leaves the table as it was (no default verbs,
      unlike the stand-alone router). */
  lemma EmptyMethodListChangesNothing(t: map<string, seq<Route>>, e: Route)
    ensures RegisterAll(t, [], e) == t
  {
  }

  /** Every stored route has a non-empty path and a non-nil handler, as
      `ValidateRoute` guarantees for everything `AddRoute` stores. */
  ghost predicate WellFormed(t: map<string, seq<Route>>) {
    forall m, i :: m in t && 0 <= i < |t[m]| ==> t[m][i].path != "" && t[m][i].handler.Fn?
  }

  lemma {:induction false} RegisterAllWellFormed(t: map<string, seq<Route>>, ms: seq<string>, e: Route)
    requires WellFormed(t) && e.path != "" && e.handler.Fn?
    ensures WellFormed(RegisterAll(t, ms, e))
  {
    if |ms| > 0 {
      RegisterAllWellFormed(t, ms[..|ms| - 1], e);
    }
  }

  // ---------------------------------------------------------------------
  // Dispatch

  /** What `HandleRoutes` reads from the `*http.Request`: the method, the
      URL as `URL.String()` renders it, the raw `URL.Path`, and the headers. */
  datatype HttpRequest = HttpRequest(
    requestMethod: string,
    url: string,
    path: string,
    header: map<string, seq<string>>)

  /** The request and response fields `HandleRoutes` sets before the chain
      runs. */
  datatype Context = Context(
    requestMethod: string,
    url: string,
    headers: map<string, string>,
    params: map<string, string>,
    statusCode: int,
    responseHeaders: map<string, string>)

  /** What one call of `HandleRoutes` does: run the chain for the route at
      `index` of the method's list, answer 404, or panic. */
  datatype Dispatch =
    | Served(index: nat, ctx: Context, trace: seq<Event>)
    | NotFound(status: int, body: string)
    | Crashed(message: string)

  const IndexPanic := "runtime error: index out of range [0] with length 0"

  /** The context built for a matching route. The parameters come from the
      raw request path, not the trimmed one. */
  function MakeContext(req: HttpRequest, route: Route): Context {
    Context(req.requestMethod, req.url, GetHeaders(req.header), GetParams(route.path, req.path),
            0, GetBasicResponseHeaders(req.requestMethod))
  }

  /** The outcome of the scan alone: the index of the route that wins, no
      match, or the panic. */
  datatype Scan = Match(index: nat) | NoMatch | IndexCrash(index: nat)

  /** A route the scan passes over: both paths are non-empty and the
      normalised paths do not match. */
  predicate Missed(route: Route, req: HttpRequest) {
    route.path != "" && req.path != "" && !RouteMatches(route.path, req.path)
  }

  /** The scan of `HandleRoutes` from position `i` of the method's list: the
      first route whose normalised pattern matches the normalised request path
      wins and later ones are never tested; an empty stored path or an empty
      request path panics on the first character test. */
  function FirstMatch(list: seq<Route>, req: HttpRequest, i: nat): (s: Scan)
    requires i <= |list|
    decreases |list| - i
    ensures !s.NoMatch? ==> i <= s.index < |list|
    ensures s.Match? ==>
      list[s.index].path != "" && req.path != "" && RouteMatches(list[s.index].path, req.path)
    ensures s.IndexCrash? ==> list[s.index].path == "" || req.path == ""
  {
    if i == |list| then NoMatch
    else if list[i].path == "" || req.path == "" then IndexCrash(i)
    else if RouteMatches(list[i].path, req.path) then Match(i)
    else FirstMatch(list, req, i + 1)
  }

  /** The scan stops at the first hit: every route it passes over was
      tested and missed, and when nothing is found that holds of every route
      from `i` on. */
  lemma {:induction false} FirstMatchIsFirst(list: seq<Route>, req: HttpRequest, i: nat)
    requires i <= |list|
    decreases |list| - i
    ensures !FirstMatch(list, req, i).NoMatch? ==>
      forall j :: i <= j < FirstMatch(list, req, i).index ==> Missed(list[j], req)
    ensures FirstMatch(list, req, i).NoMatch? ==>
      forall j :: i <= j < |list| ==> Missed(list[j], req)
  {
    if i < |list| && Missed(list[i], req) {
      FirstMatchIsFirst(list, req, i + 1);
    }
  }

  /** The whole of `HandleRoutes` for one request: the chain of the server's
      middlewares (not the route's own) around the winning route's handler,
      the 404 answer, or the panic. */
  function DispatchOf(list: seq<Route>, mws: seq<Middleware>, req: HttpRequest): (d: Dispatch)
    ensures d.Served? ==>
      FirstMatch(list, req, 0) == Match(d.index) && d.index < |list|
      && d.ctx == MakeContext(req, list[d.index])
      && d.trace == ChainMiddlewares(mws, list[d.index].handler)
    ensures d.NotFound? <==> FirstMatch(list, req, 0).NoMatch?
    ensures d.NotFound? ==> d == NotFound(404, "404 Not Found")
    ensures d.Crashed? <==> FirstMatch(list, req, 0).IndexCrash?
    ensures d.Crashed? ==> d.message == IndexPanic
  {
    match FirstMatch(list, req, 0)
    case Match(k) => Served(k, MakeContext(req, list[k]), ChainMiddlewares(mws, list[k].handler))
    case NoMatch => NotFound(404, "404 Not Found")
    case IndexCrash(_) => Crashed(IndexPanic)
  }

  /** `/user` and `/user/` are dispatched to the same route (or both get
      404, or both panic). */
  lemma {:induction false} TrailingSlashSameRoute(list: seq<Route>, req: HttpRequest, i: nat)
    requires i <= |list| && req.path != "" && req.path[|req.path| - 1] != '/'
    decreases |list| - i
    ensures FirstMatch(list, req, i) == FirstMatch(list, req.(path := req.path + "/"), i)
  {
    if i < |list| {
      TrailingSlashNormalizes(req.path);
      TrailingSlashSameRoute(list, req, i + 1);
    }
  }

  /** A path ending in `/` is its prefix with the `/` put back. */
  lemma DropLastSlash(path: string) returns (p: string)
    requires path != "" && path[|path| - 1] == '/'
    ensures path == p + "/"
  {
    p := path[..|path| - 1];
  }

  /** ...but the parameters are read from the untrimmed path: a request for
      `/user/7/` gets no parameters from `/user/{id}`... */
  lemma ContextLosesParams(route: Route, req: HttpRequest)
    requires req.path != "" && req.path[|req.path| - 1] == '/'
    requires route.path != "" && route.path[|route.path| - 1] != '/'
    ensures MakeContext(req, route).params == map[]
  {
    var p := DropLastSlash(req.path);
    TrailingSlashBindsNothing(route.path, p);
  }

  /** ...even when that route is the one the request is dispatched to. */
  lemma TrailingSlashLosesParams(list: seq<Route>, mws: seq<Middleware>, req: HttpRequest)
    requires req.path != "" && req.path[|req.path| - 1] == '/'
    ensures var d := DispatchOf(list, mws, req);
      d.Served? && list[d.index].path[|list[d.index].path| - 1] != '/' ==> d.ctx.params == map[]
  {
    var d := DispatchOf(list, mws, req);
    if d.Served? && list[d.index].path[|list[d.index].path| - 1] != '/' {
      ContextLosesParams(list[d.index], req);
    }
  }

  /** The per-route test of `HandleRoutes`: supply a leading `/` to both
      paths, drop one trailing `/` from both, then match the whole request
      path. */
  method MatchesNormalized(routePath: string, urlPath: string) returns (matched: bool)
    requires routePath != "" && urlPath != ""
    ensures matched == RouteMatches(routePath, urlPath)
  {
    var path := routePath;
    if path[0] != '/' {
      path := "/" + path;
    }
    var url := urlPath;
    if url[0] != '/' {
      url := "/" + url;
    }
    if url[|url| - 1] == '/' {
      url := url[..|url| - 1];
    }
    if path[|path| - 1] == '/' {
      path := path[..|path| - 1];
    }
    assert path == Normalize(routePath) && url == Normalize(urlPath);
    matched := PatternMatches(path, url);
  }

  class Server {
    var routes: map<string, seq<Route>>
    var middlewares: seq<Middleware>

    /** `CreateServer`: an empty table and no middlewares. */
    constructor ()
      ensures routes == map[] && middlewares == []
    {
      routes := map[];
      middlewares := [];
    }

    ghost predicate Valid()
      reads this
    {
      WellFormed(routes)
    }

    /** `Server.AddRoute`: validation first (a panic leaves the table as it
        was), then the loop that appends the route to the list of every
        method in the list. */
    method AddRoute(path: string, handler: Handler, methods: seq<string>) returns (o: Outcome)
      modifies this
      ensures o.Panicked? <==> path == "" || handler.Nil?
      ensures o.Panicked? ==> o.message == ValidateRoute(path, handler).message && routes == old(routes)
      ensures o.Done? ==> routes == RegisterAll(old(routes), methods, ServerEntry(path, handler, methods))
      ensures middlewares == old(middlewares)
      ensures old(Valid()) ==> Valid()
    {
      var valid := ValidateRoute(path, handler);
      if valid.Panic? {
        return Panicked(valid.message);
      }
      var entry := Route(methods, path, handler, [], [], "");
      var i := 0;
      while i < |methods|
        invariant 0 <= i <= |methods|
        invariant routes == RegisterAll(old(routes), methods[..i], entry)
        invariant middlewares == old(middlewares)
      {
        var m := methods[i];
        if m !in routes {
          routes := routes[m := []];
        }
        routes := routes[m := routes[m] + [entry]];
        assert methods[..i + 1][..i] == methods[..i];
        i := i + 1;
      }
      assert methods[..i] == methods;
      if old(Valid()) {
        RegisterAllWellFormed(old(routes), methods, entry);
      }
      return Done;
    }

    method Get(path: string, handler: Handler) returns (o: Outcome)
      modifies this
      ensures o.Panicked? <==> path == "" || handler.Nil?
      ensures o.Panicked? ==> routes == old(routes)
      ensures o.Done? ==> routes == Append(old(routes), "GET", ServerEntry(path, handler, ["GET"]))
      ensures middlewares == old(middlewares)
    {
      o := AddRoute(path, handler, ["GET"]);
    }

    method Post(path: string, handler: Handler) returns (o: Outcome)
      modifies this
      ensures o.Panicked? <==> path == "" || handler.Nil?
      ensures o.Panicked? ==> routes == old(routes)
      ensures o.Done? ==> routes == Append(old(routes), "POST", ServerEntry(path, handler, ["POST"]))
      ensures middlewares == old(middlewares)
    {
      o := AddRoute(path, handler, ["POST"]);
    }

    method Put(path: string, handler: Handler) returns (o: Outcome)
      modifies this
      ensures o.Panicked? <==> path == "" || handler.Nil?
      ensures o.Panicked? ==> routes == old(routes)
      ensures o.Done? ==> routes == Append(old(routes), "PUT", ServerEntry(path, handler, ["PUT"]))
      ensures middlewares == old(middlewares)
    {
      o := AddRoute(path, handler, ["PUT"]);
    }

    method Delete(path: string, handler: Handler) returns (o: Outcome)
      modifies this
      ensures o.Panicked? <==> path == "" || handler.Nil?
      ensures o.Panicked? ==> routes == old(routes)
      ensures o.Done? ==> routes == Append(old(routes), "DELETE", ServerEntry(path, handler, ["DELETE"]))
      ensures middlewares == old(middlewares)
    {
      o := AddRoute(path, handler, ["DELETE"]);
    }

    method Patch(path: string, handler: Handler) returns (o: Outcome)
      modifies this
      ensures o.Panicked? <==> path == "" || handler.Nil?
      ensures o.Panicked? ==> routes == old(routes)
      ensures o.Done? ==> routes == Append(old(routes), "PATCH", ServerEntry(path, handler, ["PATCH"]))
      ensures middlewares == old(middlewares)
    {
      o := AddRoute(path, handler, ["PATCH"]);
    }

    method Options(path: string, handler: Handler) returns (o: Outcome)
      modifies this
      ensures o.Panicked? <==> path == "" || handler.Nil?
      ensures o.Panicked? ==> routes == old(routes)
      ensures o.Done? ==> routes == Append(old(routes), "OPTIONS", ServerEntry(path, handler, ["OPTIONS"]))
      ensures middlewares == old(middlewares)
    {
      o := AddRoute(path, handler, ["OPTIONS"]);
    }

    method Head(path: string, handler: Handler) returns (o: Outcome)
      modifies this
      ensures o.Panicked? <==> path == "" || handler.Nil?
      ensures o.Panicked? ==> routes == old(routes)
      ensures o.Done? ==> routes == Append(old(routes), "HEAD", ServerEntry(path, handler, ["HEAD"]))
      ensures middlewares == old(middlewares)
    {
      o := AddRoute(path, handler, ["HEAD"]);
    }

    /** `Server.Add`: the same route, carrying all seven verbs, under each of
        the seven verbs. */
    method Add(path: string, handler: Handler) returns (o: Outcome)
      modifies this
      ensures o.Panicked? <==> path == "" || handler.Nil?
      ensures o.Panicked? ==> routes == old(routes)
      ensures o.Done? ==> routes == RegisterAll(old(routes), AllVerbs, ServerEntry(path, handler, AllVerbs))
      ensures middlewares == old(middlewares)
    {
      o := AddRoute(path, handler, AllVerbs);
    }

    /** `Server.HandleRoutes`: scan the list of the request's method in
        stored order, normalising both paths, and run the chain of the
        server's middlewares around the first matching route's handler. */
    method HandleRoutes(req: HttpRequest) returns (d: Dispatch)
      ensures d == DispatchOf(Lookup(routes, req.requestMethod), middlewares, req)
      ensures Valid() && req.path != "" ==> !d.Crashed?
    {
      var list := Lookup(routes, req.requestMethod);
      ghost var stored := Valid() && req.path != "";
      var i := 0;
      while i < |list|
        invariant 0 <= i <= |list|
        invariant FirstMatch(list, req, i) == FirstMatch(list, req, 0)
        invariant stored ==> req.path != "" && forall j :: 0 <= j < |list| ==> list[j].path != ""
      {
        var route := list[i];
        if route.path == "" || req.path == "" {
          assert FirstMatch(list, req, i) == IndexCrash(i);
          return Crashed(IndexPanic);
        }
        var matched := MatchesNormalized(route.path, req.path);
        if matched {
          assert FirstMatch(list, req, i) == Match(i);
          var ctx := Context(req.requestMethod, req.url, GetHeaders(req.header),
                             GetParams(route.path, req.path), 0,
                             GetBasicResponseHeaders(req.requestMethod));
          assert ctx == MakeContext(req, list[i]);
          return Served(i, ctx, ChainMiddlewares(middlewares, route.handler));
        }
        assert FirstMatch(list, req, i) == FirstMatch(list, req, i + 1);
        i := i + 1;
      }
      assert FirstMatch(list, req, i) == NoMatch;
      return NotFound(404, "404 Not Found");
    }
  }

  /** A route stored by the server under a `:name` path is a literal: the
      server does not compile `:` segments, so `/user/:id` matches only the
      request path `/user/:id` itself (up to the slash normalisation). */
  lemma ServerColonRouteIsLiteral(path: string, url: string)
    requires path != "" && url != ""
    requires forall i :: 0 <= i < |Split(Normalize(path), '/')| ==> !IsPlaceholder(Split(Normalize(path), '/')[i])
    ensures RouteMatches(path, url) <==> Normalize(path) == Normalize(url)
  {
    LiteralPatternMatchesOnlyItself(Normalize(path), Normalize(url));
  }
}
