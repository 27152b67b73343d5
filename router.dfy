/** The stand-alone `Router` of http/router.go: one flat list of routes that
    `AddRoute` appends to, with the default-verb expansion and the `:name`
    compilation of the path. */
module RouterTable {
  import opened Types
  import opened Helpers
  import opened Strings
  import Matching

  /** The route `Router.AddRoute(path, handler, methods)` appends once the
      path and handler are accepted. The stored path is always the compiled
      pattern and the stored names are always the compiler's names: when the
      path holds no `:` the compiler would have left it unchanged anyway. */
  function RouterEntry(path: string, handler: Handler, methods: seq<string>): (r: Route)
    ensures |methods| == 0 ==> r.methods == AllVerbs
    ensures |methods| > 0 ==> r.methods == methods
    ensures r.path == CompiledPath(path) && r.params == ParamNamesOf(path)
    ensures !IsParameterizedRoute(path) ==> r.path == path && r.params == []
    ensures r.handler == handler && r.middlewares == [] && r.name == ""
  {
    var ms := if |methods| == 0 then AllVerbs else methods;
    if IsParameterizedRoute(path) then
      Route(ms, CompiledPath(path), handler, ParamNamesOf(path), [], "")
    else
      GuardIsRedundant(path);
      Route(ms, path, handler, [], [], "")
  }

  class Router {
    var routes: seq<Route>

    /** `NewRouter`: an empty list. */
    constructor ()
      ensures routes == []
    {
      routes := [];
    }

    /** `Router.getParameterizedRoute`, a copy of the helper with the same
        result. */
    method GetParameterizedRoute(path: string) returns (pattern: string, params: seq<string>)
      ensures pattern == CompiledPath(path) && params == ParamNamesOf(path)
    {
      pattern, params := Helpers.GetParameterizedRoute(path);
    }

    /** `Router.AddRoute`: validation first (a panic leaves the list as it
        was), then exactly one route appended at the end. */
    method AddRoute(path: string, handler: Handler, methods: seq<string>) returns (o: Outcome)
      modifies this
      ensures o.Panicked? <==> path == "" || handler.Nil?
      ensures o.Panicked? ==> o.message == ValidateRoute(path, handler).message && routes == old(routes)
      ensures o.Done? ==> routes == old(routes) + [RouterEntry(path, handler, methods)]
    {
      var valid := ValidateRoute(path, handler);
      if valid.Panic? {
        return Panicked(valid.message);
      }
      var ms := methods;
      if |ms| == 0 {
        ms := AllVerbs;
      }
      var stored := path;
      var params: seq<string> := [];
      if IsParameterizedRoute(path) {
        stored, params := GetParameterizedRoute(path);
      }
      routes := routes + [Route(ms, stored, handler, params, [], "")];
      return Done;
    }

    method Get(path: string, handler: Handler) returns (o: Outcome)
      modifies this
      ensures o.Panicked? <==> path == "" || handler.Nil?
      ensures o.Panicked? ==> routes == old(routes)
      ensures o.Done? ==> routes == old(routes) + [RouterEntry(path, handler, ["GET"])]
    {
      o := AddRoute(path, handler, ["GET"]);
    }

    method Post(path: string, handler: Handler) returns (o: Outcome)
      modifies this
      ensures o.Panicked? <==> path == "" || handler.Nil?
      ensures o.Panicked? ==> routes == old(routes)
      ensures o.Done? ==> routes == old(routes) + [RouterEntry(path, handler, ["POST"])]
    {
      o := AddRoute(path, handler, ["POST"]);
    }

    method Put(path: string, handler: Handler) returns (o: Outcome)
      modifies this
      ensures o.Panicked? <==> path == "" || handler.Nil?
      ensures o.Panicked? ==> routes == old(routes)
      ensures o.Done? ==> routes == old(routes) + [RouterEntry(path, handler, ["PUT"])]
    {
      o := AddRoute(path, handler, ["PUT"]);
    }

    method Delete(path: string, handler: Handler) returns (o: Outcome)
      modifies this
      ensures o.Panicked? <==> path == "" || handler.Nil?
      ensures o.Panicked? ==> routes == old(routes)
      ensures o.Done? ==> routes == old(routes) + [RouterEntry(path, handler, ["DELETE"])]
    {
      o := AddRoute(path, handler, ["DELETE"]);
    }

    method Patch(path: string, handler: Handler) returns (o: Outcome)
      modifies this
      ensures o.Panicked? <==> path == "" || handler.Nil?
      ensures o.Panicked? ==> routes == old(routes)
      ensures o.Done? ==> routes == old(routes) + [RouterEntry(path, handler, ["PATCH"])]
    {
      o := AddRoute(path, handler, ["PATCH"]);
    }

    method Options(path: string, handler: Handler) returns (o: Outcome)
      modifies this
      ensures o.Panicked? <==> path == "" || handler.Nil?
      ensures o.Panicked? ==> routes == old(routes)
      ensures o.Done? ==> routes == old(routes) + [RouterEntry(path, handler, ["OPTIONS"])]
    {
      o := AddRoute(path, handler, ["OPTIONS"]);
    }

    method Head(path: string, handler: Handler) returns (o: Outcome)
      modifies this
      ensures o.Panicked? <==> path == "" || handler.Nil?
      ensures o.Panicked? ==> routes == old(routes)
      ensures o.Done? ==> routes == old(routes) + [RouterEntry(path, handler, ["HEAD"])]
    {
      o := AddRoute(path, handler, ["HEAD"]);
    }

    /** `Router.Add`: one route carrying all seven verbs, the same route an
        empty method list produces. */
    method Add(path: string, handler: Handler) returns (o: Outcome)
      modifies this
      ensures o.Panicked? <==> path == "" || handler.Nil?
      ensures o.Panicked? ==> routes == old(routes)
      ensures o.Done? ==> routes == old(routes) + [RouterEntry(path, handler, AllVerbs)]
      ensures o.Done? ==> routes == old(routes) + [RouterEntry(path, handler, [])]
    {
      o := AddRoute(path, handler, AllVerbs);
    }
  }

  /** A route that `Router.AddRoute` stores is found again by the matcher:
      a request path that fills every `{name}` of the stored pattern with its
      own segment binds exactly the declared names. */
  lemma StoredRouteBindsDeclaredNames(path: string, handler: Handler, methods: seq<string>)
    requires DeclaredSegmentsOk(Split(path, '/'))
    ensures var r := RouterEntry(path, handler, methods);
      Matching.PlaceholderNames(Split(r.path, '/')) == r.params
  {
    ParamsRecoveredByMatcher(path);
  }
}
