/** The path-pattern compiler and table helpers of http/helpers.go:
    validateRoute, getParameterizedRoute, getSearchParams,
    isParameterizedRoute, sortRoutesWithParamsLast and removeQueryParams. */
module Helpers {
  import opened Strings
  import opened Types
  import opened Matching

  // ---------------------------------------------------------------------
  // validateRoute

  /** `validateRoute` (and its copies `Router.ValidateRoute`,
      `Server.ValidateRoute`): panics exactly on an empty path or a nil
      handler, the path being checked first; otherwise answers true. */
  function ValidateRoute(path: string, handler: Handler): (r: Result<bool>)
    ensures r.Panic? <==> path == "" || handler.Nil?
    ensures path == "" ==> r == Panic("Path cannot be empty")
    ensures path != "" && handler.Nil? ==> r == Panic("Handler cannot be empty")
    ensures r.Ok? ==> r.value
  {
    if path == "" then Panic("Path cannot be empty")
    else if handler.Nil? then Panic("Handler cannot be empty")
    else Ok(true)
  }

  // ---------------------------------------------------------------------
  // getParameterizedRoute / isParameterizedRoute

  /** `strings.HasPrefix(part, ":")`. */
  predicate IsColonSegment(seg: string) {
    |seg| > 0 && seg[0] == ':'
  }

  /** One segment of the compiled pattern: `:name` becomes `{name}`. */
  function CompileSegment(seg: string): string {
    if IsColonSegment(seg) then "{" + seg[1..] + "}" else seg
  }

  function CompileSegments(parts: seq<string>): (r: seq<string>)
    ensures |r| == |parts|
    ensures forall i :: 0 <= i < |parts| ==> r[i] == CompileSegment(parts[i])
  {
    seq(|parts|, i requires 0 <= i < |parts| => CompileSegment(parts[i]))
  }

  /** The names of the `:` segments with the `:` stripped, left to right. */
  function ParamNames(parts: seq<string>): seq<string>
  {
    if |parts| == 0 then []
    else
      var last := parts[|parts| - 1];
      ParamNames(parts[..|parts| - 1]) + (if IsColonSegment(last) then [last[1..]] else [])
  }

  /** The pattern `getParameterizedRoute` returns for `path`. */
  function CompiledPath(path: string): string {
    Join(CompileSegments(Split(path, '/')), '/')
  }

  /** The parameter names `getParameterizedRoute` returns for `path`. */
  function ParamNamesOf(path: string): seq<string> {
    ParamNames(Split(path, '/'))
  }

  /** The names found in one more segment. */
  lemma ParamNamesStep(parts: seq<string>, i: nat)
    requires i < |parts|
    ensures ParamNames(parts[..i + 1])
      == ParamNames(parts[..i]) + (if IsColonSegment(parts[i]) then [parts[i][1..]] else [])
  {
    assert parts[..i + 1][..i] == parts[..i];
  }

  /** `getParameterizedRoute` (and its copy `Router.getParameterizedRoute`):
      split on `/`, overwrite every `:name` segment with `{name}` while
      collecting the names, and join again. */
  method GetParameterizedRoute(path: string) returns (pattern: string, params: seq<string>)
    ensures pattern == CompiledPath(path)
    ensures params == ParamNamesOf(path)
  {
    var original := Split(path, '/');
    var parts := original;
    params := [];
    var i := 0;
    while i < |parts|
      invariant 0 <= i <= |parts| == |original|
      invariant forall k :: 0 <= k < i ==> parts[k] == CompileSegment(original[k])
      invariant forall k :: i <= k < |parts| ==> parts[k] == original[k]
      invariant params == ParamNames(original[..i])
    {
      ParamNamesStep(original, i);
      var part := parts[i];
      if IsColonSegment(part) {
        var paramName := part[1..];
        params := params + [paramName];
        parts := parts[i := "{" + paramName + "}"];
      }
      i := i + 1;
    }
    assert original[..i] == original;
    assert parts == CompileSegments(original);
    pattern := Join(parts, '/');
  }

  /** The compiled pattern has as many segments as the path; each `:name`
      segment became `{name}` and every other segment is unchanged. */
  lemma CompiledPathSegments(path: string)
    ensures Split(CompiledPath(path), '/') == CompileSegments(Split(path, '/'))
    ensures |Split(CompiledPath(path), '/')| == |Split(path, '/')|
  {
    var parts := Split(path, '/');
    var compiled := CompileSegments(parts);
    forall i | 0 <= i < |compiled| ensures '/' !in compiled[i] {
      if IsColonSegment(parts[i]) {
        assert forall c :: c in compiled[i] ==> c == '{' || c == '}' || c in parts[i];
      }
    }
    SplitJoin(compiled, '/');
  }

  /** Without `:` segments the compiler is the identity and finds no names. */
  lemma {:induction false} CompileWithoutColonsIsIdentity(path: string)
    requires forall i :: 0 <= i < |Split(path, '/')| ==> !IsColonSegment(Split(path, '/')[i])
    ensures CompiledPath(path) == path
    ensures ParamNamesOf(path) == []
  {
    var parts := Split(path, '/');
    assert CompileSegments(parts) == parts;
    JoinSplit(path, '/');
    NoColonNoNames(parts);
  }

  lemma {:induction false} NoColonNoNames(parts: seq<string>)
    requires forall i :: 0 <= i < |parts| ==> !IsColonSegment(parts[i])
    ensures ParamNames(parts) == []
  {
    if |parts| > 0 {
      NoColonNoNames(parts[..|parts| - 1]);
    }
  }

  /** `isParameterizedRoute`: the path holds a `:` anywhere. */
  function IsParameterizedRoute(path: string): (b: bool)
    ensures b <==> exists k :: 0 <= k < |path| && path[k] == ':'
  {
    ':' in path
  }

  /** The guard in `Router.AddRoute` is redundant: a path without any `:`
      compiles to itself with no names, so storing the compiler's output
      unconditionally would give the same route. */
  lemma GuardIsRedundant(path: string)
    requires !IsParameterizedRoute(path)
    ensures CompiledPath(path) == path && ParamNamesOf(path) == []
  {
    var parts := Split(path, '/');
    SplitChars(path, '/');
    assert forall i :: 0 <= i < |parts| ==> !IsColonSegment(parts[i]);
    CompileWithoutColonsIsIdentity(path);
  }

  /** A path that yields a name is parameterised. */
  lemma NamesImplyParameterized(path: string)
    requires ParamNamesOf(path) != []
    ensures IsParameterizedRoute(path)
  {
    if !IsParameterizedRoute(path) {
      GuardIsRedundant(path);
    }
  }

  /** `/a:b` counts as parameterised, yet it yields no name and compiles to
      itself: the `:` is not at the start of a segment. */
  lemma ColonInsideSegment()
    ensures IsParameterizedRoute("/a:b")
    ensures ParamNamesOf("/a:b") == [] && CompiledPath("/a:b") == "/a:b"
  {
    assert ["", "a:b"][1..] == ["a:b"];
    assert Join(["", "a:b"], '/') == "/a:b";
    SplitJoin(["", "a:b"], '/');
    ParamNamesSnoc([], "");
    assert [] + [""] == [""];
    ParamNamesSnoc([""], "a:b");
  }

  /** A parameter name the matcher can read back: non-empty, free of RE2
      white space. */
  predicate ReadableName(name: string) {
    name != [] && forall k :: 0 <= k < |name| ==> !IsRegexSpace(name[k])
  }

  /** The segments a declared path may hold for the compiler and the matcher
      to agree: every `:name` has a readable name, and no literal segment is
      already a `{...}` placeholder. */
  predicate DeclaredSegmentsOk(parts: seq<string>) {
    forall i :: 0 <= i < |parts| ==>
      (IsColonSegment(parts[i]) ==> ReadableName(parts[i][1..]))
      && (!IsColonSegment(parts[i]) ==> !IsPlaceholder(parts[i]))
  }

  lemma {:induction false} CompiledNamesRoundTrip(parts: seq<string>)
    requires DeclaredSegmentsOk(parts)
    ensures PlaceholderNames(CompileSegments(parts)) == ParamNames(parts)
  {
    if |parts| > 0 {
      var n := |parts| - 1;
      assert CompileSegments(parts)[..n] == CompileSegments(parts[..n]);
      CompiledNamesRoundTrip(parts[..n]);
      if IsColonSegment(parts[n]) {
        var seg := CompileSegment(parts[n]);
        assert IsPlaceholder(seg);
        assert PlaceholderName(seg) == parts[n][1..];
      }
    }
  }

  /** The matcher reads back, from the compiled pattern, exactly the names the
      compiler recorded, in the same order; `GetParams` therefore keys the
      captured segments by the declared names. */
  lemma ParamsRecoveredByMatcher(path: string)
    requires DeclaredSegmentsOk(Split(path, '/'))
    ensures PlaceholderNames(Split(CompiledPath(path), '/')) == ParamNamesOf(path)
  {
    CompiledPathSegments(path);
    CompiledNamesRoundTrip(Split(path, '/'));
  }

  lemma ParamNamesSnoc(a: seq<string>, x: string)
    ensures ParamNames(a + [x]) == ParamNames(a) + (if IsColonSegment(x) then [x[1..]] else [])
  {
    assert (a + [x])[..|a|] == a;
  }

  lemma SplitUserIdName()
    ensures Split("/user/:id/:name", '/') == ["", "user", ":id", ":name"]
  {
    assert "/user/:id/:name" == "" + ['/'] + ("user" + ['/'] + (":id" + ['/'] + ":name"));
    SplitFour("", "user", ":id", ":name", '/');
  }

  lemma SplitUserIdNamePattern()
    ensures Join(["", "user", "{id}", "{name}"], '/') == "/user/{id}/{name}"
    ensures Split("/user/{id}/{name}", '/') == ["", "user", "{id}", "{name}"]
  {
    JoinFour("", "user", "{id}", "{name}", '/');
    assert "/user/{id}/{name}" == "" + ['/'] + ("user" + ['/'] + ("{id}" + ['/'] + "{name}"));
    SplitFour("", "user", "{id}", "{name}", '/');
  }

  lemma SplitUserSeven()
    ensures Split("/user/7/bob", '/') == ["", "user", "7", "bob"]
    ensures Split("/user/7", '/') == ["", "user", "7"]
  {
    assert "/user/7/bob" == "" + ['/'] + ("user" + ['/'] + ("7" + ['/'] + "bob"));
    SplitFour("", "user", "7", "bob", '/');
    assert "/user/7" == "" + ['/'] + ("user" + ['/'] + "7");
    SplitThree("", "user", "7", '/');
  }

  lemma UserIdNamePlaceholders()
    ensures PlaceholderNames(["", "user", "{id}", "{name}"]) == ["id", "name"]
  {
    assert IsPlaceholder("{id}") && IsPlaceholder("{name}") && !IsPlaceholder("user") && !IsPlaceholder("");
    assert PlaceholderName("{id}") == "id" && PlaceholderName("{name}") == "name";
    PlaceholderNamesSnoc([], "");
    assert [] + [""] == [""];
    PlaceholderNamesSnoc([""], "user");
    assert [""] + ["user"] == ["", "user"];
    PlaceholderNamesSnoc(["", "user"], "{id}");
    assert ["", "user"] + ["{id}"] == ["", "user", "{id}"];
    PlaceholderNamesSnoc(["", "user", "{id}"], "{name}");
    assert ["", "user", "{id}"] + ["{name}"] == ["", "user", "{id}", "{name}"];
  }

  lemma CapturesOfOne(a: string, w: string)
    requires !IsPlaceholder(a)
    ensures Captures([a], [w]) == []
  {
    assert [a][..0] == [] && [w][..0] == [];
  }

  lemma CapturesOfTwo(a: string, b: string, w: string, x: string)
    requires !IsPlaceholder(a) && !IsPlaceholder(b)
    ensures Captures([a, b], [w, x]) == []
  {
    assert [a, b][..1] == [a] && [w, x][..1] == [w];
    CapturesOfOne(a, w);
  }

  lemma CapturesOfThree(a: string, b: string, c: string, w: string, x: string, y: string)
    requires !IsPlaceholder(a) && !IsPlaceholder(b) && IsPlaceholder(c)
    ensures Captures([a, b, c], [w, x, y]) == [y]
  {
    assert [a, b, c][..2] == [a, b] && [w, x, y][..2] == [w, x];
    CapturesOfTwo(a, b, w, x);
  }

  lemma CapturesOfFour(a: string, b: string, c: string, d: string, w: string, x: string, y: string, z: string)
    requires !IsPlaceholder(a) && !IsPlaceholder(b) && IsPlaceholder(c) && IsPlaceholder(d)
    ensures Captures([a, b, c, d], [w, x, y, z]) == [y, z]
  {
    assert [a, b, c, d][..3] == [a, b, c] && [w, x, y, z][..3] == [w, x, y];
    CapturesOfThree(a, b, c, w, x, y);
  }

  lemma BindTwo(a: string, b: string, x: string, y: string)
    ensures Bind([a, b], [x, y]) == map[a := x][b := y]
  {
    assert [a, b][..1] == [a] && [x, y][..1] == [x];
    assert [a][..0] == [] && [x][..0] == [];
  }

  lemma UserIdNameParts()
    ensures ParamNames(["", "user", ":id", ":name"]) == ["id", "name"]
    ensures CompileSegments(["", "user", ":id", ":name"]) == ["", "user", "{id}", "{name}"]
  {
    var parts := ["", "user", ":id", ":name"];
    ParamNamesSnoc([], "");
    assert [] + [""] == [""];
    ParamNamesSnoc([""], "user");
    assert [""] + ["user"] == ["", "user"];
    ParamNamesSnoc(["", "user"], ":id");
    assert ["", "user"] + [":id"] == ["", "user", ":id"];
    assert ":id"[1..] == "id";
    ParamNamesSnoc(["", "user", ":id"], ":name");
    assert ["", "user", ":id"] + [":name"] == parts;
    assert ":name"[1..] == "name";
    assert CompileSegment(":id") == "{id}" && CompileSegment(":name") == "{name}";
  }

  /** The declared example: `/user/:id/:name` records `["id", "name"]` and
      compiles to `/user/{id}/{name}`. */
  lemma UserIdNameCompiles()
    ensures ParamNamesOf("/user/:id/:name") == ["id", "name"]
    ensures CompiledPath("/user/:id/:name") == "/user/{id}/{name}"
  {
    SplitUserIdName();
    UserIdNameParts();
    SplitUserIdNamePattern();
  }

  lemma PlaceholderNamesSnoc(a: seq<string>, x: string)
    ensures PlaceholderNames(a + [x]) == PlaceholderNames(a) + (if IsPlaceholder(x) then [PlaceholderName(x)] else [])
  {
    assert (a + [x])[..|a|] == a;
  }

  lemma CapturesSnoc(a: seq<string>, x: string, b: seq<string>, y: string)
    requires |a| == |b|
    ensures Captures(a + [x], b + [y]) == Captures(a, b) + (if IsPlaceholder(x) then [y] else [])
  {
    assert (a + [x])[..|a|] == a;
    assert (b + [y])[..|b|] == b;
  }

  lemma GetParamsBySplit(routePath: string, actualPath: string, pats: seq<string>, segs: seq<string>)
    requires Split(routePath, '/') == pats && Split(actualPath, '/') == segs
    ensures GetParams(routePath, actualPath)
         == if SegmentsMatch(pats, segs) then Bind(PlaceholderNames(pats), Captures(pats, segs)) else map[]
  {
  }

  lemma FourSegmentsMatch(a: string, b: string, c: string, d: string, w: string, x: string, y: string, z: string)
    requires SegmentMatches(a, w) && SegmentMatches(b, x) && SegmentMatches(c, y) && SegmentMatches(d, z)
    ensures SegmentsMatch([a, b, c, d], [w, x, y, z])
  {
  }

  lemma TwoPlaceholdersBind(routePath: string, actualPath: string,
                            a: string, b: string, c: string, d: string, y: string, z: string)
    requires Split(routePath, '/') == [a, b, c, d] && Split(actualPath, '/') == [a, b, y, z]
    requires !IsPlaceholder(a) && !IsPlaceholder(b) && IsPlaceholder(c) && IsPlaceholder(d)
    requires y != "" && z != ""
    ensures GetParams(routePath, actualPath) == map[PlaceholderName(c) := y][PlaceholderName(d) := z]
  {
    FourSegmentsMatch(a, b, c, d, a, b, y, z);
    PlaceholderNamesSnoc([], a);
    assert [] + [a] == [a];
    PlaceholderNamesSnoc([a], b);
    assert [a] + [b] == [a, b];
    PlaceholderNamesSnoc([a, b], c);
    assert [a, b] + [c] == [a, b, c];
    PlaceholderNamesSnoc([a, b, c], d);
    assert [a, b, c] + [d] == [a, b, c, d];
    CapturesOfFour(a, b, c, d, a, b, y, z);
    BindTwo(PlaceholderName(c), PlaceholderName(d), y, z);
    GetParamsBySplit(routePath, actualPath, [a, b, c, d], [a, b, y, z]);
  }

  lemma UserIdNameSegments()
    ensures IsPlaceholder("{id}") && IsPlaceholder("{name}") && !IsPlaceholder("user") && !IsPlaceholder("")
    ensures PlaceholderName("{id}") == "id" && PlaceholderName("{name}") == "name"
  {
  }

  /** Matching `/user/7/bob` against `/user/{id}/{name}` binds both names. */
  lemma UserIdNameMatches()
    ensures GetParams("/user/{id}/{name}", "/user/7/bob") == map["id" := "7", "name" := "bob"]
  {
    UserIdNameSegments();
    SplitUserIdNamePattern();
    SplitUserSeven();
    TwoPlaceholdersBind("/user/{id}/{name}", "/user/7/bob", "", "user", "{id}", "{name}", "7", "bob");
  }

  /** `/user/7` has too few segments for `/user/{id}/{name}` and binds nothing. */
  lemma UserSevenDoesNotMatch()
    ensures GetParams("/user/{id}/{name}", "/user/7") == map[]
  {
    SplitUserIdNamePattern();
    SplitUserSeven();
    GetParamsBySplit("/user/{id}/{name}", "/user/7", ["", "user", "{id}", "{name}"], ["", "user", "7"]);
  }

  /** A bare `:` segment records the empty name, which the matcher cannot
      read back: the declared parameter never reaches `GetParams`. */
  lemma EmptyNameIsLost()
    ensures ParamNamesOf("/a/:") == [""]
    ensures PlaceholderNames(Split(CompiledPath("/a/:"), '/')) == []
  {
    var parts := ["", "a", ":"];
    assert "/a/:" == "" + ['/'] + ("a" + ['/'] + ":");
    SplitThree("", "a", ":", '/');
    EmptyNameParts();
    var pats := ["", "a", "{}"];
    JoinThree("", "a", "{}", '/');
    assert "/a/{}" == "" + ['/'] + ("a" + ['/'] + "{}");
    SplitThree("", "a", "{}", '/');
    EmptyNamePlaceholders();
  }

  lemma EmptyNameParts()
    ensures ParamNames(["", "a", ":"]) == [""]
    ensures CompileSegments(["", "a", ":"]) == ["", "a", "{}"]
  {
    ParamNamesSnoc([], "");
    assert [] + [""] == [""];
    ParamNamesSnoc([""], "a");
    assert [""] + ["a"] == ["", "a"];
    ParamNamesSnoc(["", "a"], ":");
    assert ["", "a"] + [":"] == ["", "a", ":"];
    assert ":"[1..] == "";
    assert CompileSegment(":") == "{}";
  }

  lemma EmptyNamePlaceholders()
    ensures PlaceholderNames(["", "a", "{}"]) == []
  {
    PlaceholderNamesSnoc([], "");
    assert [] + [""] == [""];
    PlaceholderNamesSnoc([""], "a");
    assert [""] + ["a"] == ["", "a"];
    PlaceholderNamesSnoc(["", "a"], "{}");
    assert ["", "a"] + ["{}"] == ["", "a", "{}"];
  }

  // ---------------------------------------------------------------------
  // removeQueryParams / getSearchParams

  /** `removeQueryParams`: the text before the first `?`, or the path itself
      when it has none. */
  function RemoveQueryParams(path: string): (r: string)
    ensures '?' !in r
    ensures |r| <= |path| && r == path[..|r|]
    ensures '?' in path ==> path[|r|] == '?'
    ensures '?' !in path ==> r == path
  {
    if '?' in path then
      SplitAtFirst(path, '?');
      Split(path, '?')[0]
    else path
  }

  /** Removing the query twice is removing it once. */
  lemma RemoveQueryParamsIdempotent(path: string)
    ensures RemoveQueryParams(RemoveQueryParams(path)) == RemoveQueryParams(path)
  {
  }

  /** A `k=v` piece: it holds a `=`, and its key is the text before the first
      one (`strings.SplitN(param, "=", 2)`). */
  predicate PairKey(piece: string, k: string) {
    '=' in piece && Cut(piece, '=').0 == k
  }

  /** The map the loop of `getSearchParams` builds from the `&` pieces:
      pieces without `=` are skipped, later keys overwrite earlier ones. */
  function CollectPairs(pieces: seq<string>): map<string, string>
  {
    if |pieces| == 0 then map[]
    else
      var n := |pieces| - 1;
      var prev := CollectPairs(pieces[..n]);
      if '=' in pieces[n] then prev[Cut(pieces[n], '=').0 := Cut(pieces[n], '=').1] else prev
  }

  /** A key is present exactly when some piece carries it. */
  lemma {:induction false} CollectPairsKeys(pieces: seq<string>, k: string)
    ensures k in CollectPairs(pieces) <==> exists i :: 0 <= i < |pieces| && PairKey(pieces[i], k)
  {
    if |pieces| > 0 {
      var n := |pieces| - 1;
      var init := pieces[..n];
      CollectPairsKeys(init, k);
      assert forall i :: 0 <= i < n ==> init[i] == pieces[i];
      if PairKey(pieces[n], k) {
        assert k in CollectPairs(pieces);
      } else {
        assert k in CollectPairs(pieces) <==> k in CollectPairs(init);
      }
    }
  }

  /** The value kept for a key is the one of the last piece carrying it. */
  lemma {:induction false} CollectPairsLastWins(pieces: seq<string>, i: nat)
    requires i < |pieces| && '=' in pieces[i]
    requires forall j :: i < j < |pieces| ==> !PairKey(pieces[j], Cut(pieces[i], '=').0)
    ensures Cut(pieces[i], '=').0 in CollectPairs(pieces)
    ensures CollectPairs(pieces)[Cut(pieces[i], '=').0] == Cut(pieces[i], '=').1
  {
    var n := |pieces| - 1;
    if i < n {
      assert forall j :: i < j < n ==> pieces[..n][j] == pieces[j];
      CollectPairsLastWins(pieces[..n], i);
      assert !PairKey(pieces[n], Cut(pieces[i], '=').0);
    }
  }

  /** The query text `getSearchParams` parses: `strings.Split(path, "?")[1]`. */
  function QueryText(path: string): string
    requires '?' in path
  {
    Split(path, '?')[1]
  }

  /** The query text is what lies between the first and the second `?` (or
      the end of the path). */
  lemma QueryTextBetweenMarks(path: string)
    requires '?' in path
    ensures '?' !in QueryText(path)
    ensures QueryText(path) == Split(Cut(path, '?').1, '?')[0]
    ensures QueryText(path) == RemoveQueryParams(Cut(path, '?').1)
  {
    SplitAtFirst(path, '?');
    var after := Cut(path, '?').1;
    if '?' in after {
      SplitAtFirst(after, '?');
    }
  }

  /** `getSearchParams`: with no `?` the empty map; otherwise the pairs of
      the text after the first `?`, split on `&`. */
  method GetSearchParams(path: string) returns (searchParams: map<string, string>)
    ensures '?' !in path ==> searchParams == map[]
    ensures '?' in path ==> searchParams == CollectPairs(Split(QueryText(path), '&'))
  {
    searchParams := map[];
    if '?' in path {
      var parts := Split(path, '?');
      if |parts| > 1 {
        var queryParams := parts[1];
        var pieces := Split(queryParams, '&');
        var i := 0;
        while i < |pieces|
          invariant 0 <= i <= |pieces|
          invariant searchParams == CollectPairs(pieces[..i])
        {
          assert pieces[..i + 1][..i] == pieces[..i];
          var param := pieces[i];
          if '=' in param {
            var keyValue := Cut(param, '=');
            searchParams := searchParams[keyValue.0 := keyValue.1];
          }
          i := i + 1;
        }
        assert pieces[..i] == pieces;
      }
    }
  }

  // ---------------------------------------------------------------------
  // sortRoutesWithParamsLast

  /** The body of the inner loop: swap when a parameterised route stands
      before a parameter-free one. */
  function SwapIfOutOfOrder(s: seq<Route>, i: nat, j: nat): (r: seq<Route>)
    requires i < j < |s|
    ensures |r| == |s|
  {
    if HasParams(s[i]) && !HasParams(s[j]) then s[i := s[j]][j := s[i]] else s
  }

  /** The inner loop for a fixed `i`, from `j` on. */
  function InnerPass(s: seq<Route>, i: nat, j: nat): (r: seq<Route>)
    requires i < j <= |s|
    ensures |r| == |s|
    decreases |s| - j
  {
    if j == |s| then s else InnerPass(SwapIfOutOfOrder(s, i, j), i, j + 1)
  }

  /** The outer loop from `i` on. */
  function OuterPasses(s: seq<Route>, i: nat): (r: seq<Route>)
    requires i <= |s|
    ensures |r| == |s|
    decreases |s| - i
  {
    if i == |s| then s else OuterPasses(InnerPass(s, i, i + 1), i + 1)
  }

  /** What `sortRoutesWithParamsLast` leaves in its slice. */
  function ParamsLast(s: seq<Route>): (r: seq<Route>)
    ensures |r| == |s|
  {
    OuterPasses(s, 0)
  }

  /** `sortRoutesWithParamsLast`: the nested swap loops, in place; the slice
      it returns is the one it was given. */
  method SortRoutesWithParamsLast(routes: array<Route>) returns (sorted: array<Route>)
    modifies routes
    ensures sorted == routes
    ensures routes[..] == ParamsLast(old(routes[..]))
  {
    ghost var target := ParamsLast(routes[..]);
    var n := routes.Length;
    var i := 0;
    while i < n
      invariant 0 <= i <= n
      invariant OuterPasses(routes[..], i) == target
    {
      var j := i + 1;
      while j < n
        invariant i < j <= n
        invariant OuterPasses(InnerPass(routes[..], i, j), i + 1) == target
      {
        ghost var before := routes[..];
        if |routes[i].params| > 0 && |routes[j].params| == 0 {
          routes[i], routes[j] := routes[j], routes[i];
        }
        assert routes[..] == SwapIfOutOfOrder(before, i, j);
        j := j + 1;
      }
      i := i + 1;
    }
    sorted := routes;
  }

  /** Every parameter-free route precedes every parameterised one. */
  ghost predicate ParamsAfterLiterals(s: seq<Route>) {
    forall p, q :: 0 <= p < q < |s| && HasParams(s[p]) ==> HasParams(s[q])
  }

  ghost predicate SettledBefore(s: seq<Route>, i: nat) {
    forall p, q :: 0 <= p < i && p < q < |s| && HasParams(s[p]) ==> HasParams(s[q])
  }

  ghost predicate InnerSettled(s: seq<Route>, i: nat, j: nat)
    requires i < |s|
  {
    forall q :: i < q < j && q < |s| && HasParams(s[i]) ==> HasParams(s[q])
  }

  lemma {:induction false} InnerPassSettles(s: seq<Route>, i: nat, j: nat)
    requires i < j <= |s|
    requires SettledBefore(s, i) && InnerSettled(s, i, j)
    ensures SettledBefore(InnerPass(s, i, j), i + 1)
    decreases |s| - j
  {
    if j < |s| {
      var t := SwapIfOutOfOrder(s, i, j);
      if HasParams(s[i]) && !HasParams(s[j]) {
        assert forall p :: 0 <= p < i ==> !HasParams(s[p]);
        assert forall p :: 0 <= p < i ==> t[p] == s[p];
      }
      assert SettledBefore(t, i) && InnerSettled(t, i, j + 1);
      InnerPassSettles(t, i, j + 1);
    }
  }

  lemma {:induction false} OuterPassesSettle(s: seq<Route>, i: nat)
    requires i <= |s| && SettledBefore(s, i)
    ensures ParamsAfterLiterals(OuterPasses(s, i))
    decreases |s| - i
  {
    if i < |s| {
      InnerPassSettles(s, i, i + 1);
      OuterPassesSettle(InnerPass(s, i, i + 1), i + 1);
    }
  }

  /** After the sort, parameter-free routes come first. */
  lemma ParamsLastPartitions(s: seq<Route>)
    ensures ParamsAfterLiterals(ParamsLast(s))
  {
    OuterPassesSettle(s, 0);
  }

  lemma {:induction false} InnerPassPermutes(s: seq<Route>, i: nat, j: nat)
    requires i < j <= |s|
    ensures multiset(InnerPass(s, i, j)) == multiset(s)
    decreases |s| - j
  {
    if j < |s| {
      var t := SwapIfOutOfOrder(s, i, j);
      if HasParams(s[i]) && !HasParams(s[j]) {
        SwapPermutes(s, i, j);
      }
      InnerPassPermutes(t, i, j + 1);
    }
  }

  lemma SwapPermutes(s: seq<Route>, i: nat, j: nat)
    requires i < j < |s|
    ensures multiset(s[i := s[j]][j := s[i]]) == multiset(s)
  {
    var t := s[i := s[j]][j := s[i]];
    var a, b, c := s[..i], s[i + 1..j], s[j + 1..];
    assert s == a + [s[i]] + b + [s[j]] + c;
    assert t == a + [s[j]] + b + [s[i]] + c;
  }

  lemma {:induction false} OuterPassesPermute(s: seq<Route>, i: nat)
    requires i <= |s|
    ensures multiset(OuterPasses(s, i)) == multiset(s)
    decreases |s| - i
  {
    if i < |s| {
      InnerPassPermutes(s, i, i + 1);
      OuterPassesPermute(InnerPass(s, i, i + 1), i + 1);
    }
  }

  /** The sort only rearranges its input. */
  lemma ParamsLastPermutes(s: seq<Route>)
    ensures multiset(ParamsLast(s)) == multiset(s)
  {
    OuterPassesPermute(s, 0);
  }

  /** The parameter-free routes of a list, in order. */
  function Literals(s: seq<Route>): seq<Route>
  {
    if |s| == 0 then [] else (if HasParams(s[0]) then [] else [s[0]]) + Literals(s[1..])
  }

  lemma {:induction false} LiteralsAppend(a: seq<Route>, b: seq<Route>)
    ensures Literals(a + b) == Literals(a) + Literals(b)
    decreases |a|
  {
    if |a| == 0 {
      assert a + b == b;
    } else {
      assert (a + b)[0] == a[0];
      assert (a + b)[1..] == a[1..] + b;
      LiteralsAppend(a[1..], b);
    }
  }

  lemma {:induction false} NoLiterals(s: seq<Route>)
    requires forall k :: 0 <= k < |s| ==> HasParams(s[k])
    ensures Literals(s) == []
    decreases |s|
  {
    if |s| > 0 {
      NoLiterals(s[1..]);
    }
  }

  /** Swapping a parameterised route with a later parameter-free one, across
      parameterised routes only, leaves the literal order alone. */
  lemma SwapKeepsLiterals(pre: seq<Route>, x: Route, mid: seq<Route>, y: Route, post: seq<Route>)
    requires HasParams(x) && !HasParams(y) && Literals(mid) == []
    ensures Literals(pre + [x] + mid + [y] + post) == Literals(pre + [y] + mid + [x] + post)
  {
    assert [x][1..] == [] && [y][1..] == [];
    assert Literals([y]) == [y] + Literals([]);
    assert Literals([x]) == [] && Literals([y]) == [y];
    LiteralsAppend(pre + [x] + mid + [y], post);
    LiteralsAppend(pre + [x] + mid, [y]);
    LiteralsAppend(pre + [x], mid);
    LiteralsAppend(pre, [x]);
    LiteralsAppend(pre + [y] + mid + [x], post);
    LiteralsAppend(pre + [y] + mid, [x]);
    LiteralsAppend(pre + [y], mid);
    LiteralsAppend(pre, [y]);
  }

  lemma {:induction false} InnerPassKeepsLiterals(s: seq<Route>, i: nat, j: nat)
    requires i < j <= |s|
    requires InnerSettled(s, i, j)
    ensures Literals(InnerPass(s, i, j)) == Literals(s)
    decreases |s| - j
  {
    if j < |s| {
      var t := SwapIfOutOfOrder(s, i, j);
      if HasParams(s[i]) && !HasParams(s[j]) {
        var mid := s[i + 1..j];
        assert s == s[..i] + [s[i]] + mid + [s[j]] + s[j + 1..];
        assert t == s[..i] + [s[j]] + mid + [s[i]] + s[j + 1..];
        NoLiterals(mid);
        SwapKeepsLiterals(s[..i], s[i], mid, s[j], s[j + 1..]);
      }
      InnerPassKeepsLiterals(t, i, j + 1);
    }
  }

  lemma {:induction false} OuterPassesKeepLiterals(s: seq<Route>, i: nat)
    requires i <= |s|
    ensures Literals(OuterPasses(s, i)) == Literals(s)
    decreases |s| - i
  {
    if i < |s| {
      InnerPassKeepsLiterals(s, i, i + 1);
      OuterPassesKeepLiterals(InnerPass(s, i, i + 1), i + 1);
    }
  }

  /** The parameter-free routes keep their relative order. */
  lemma ParamsLastKeepsLiteralOrder(s: seq<Route>)
    ensures Literals(ParamsLast(s)) == Literals(s)
  {
    OuterPassesKeepLiterals(s, 0);
  }

  /** The parameterised routes need not keep theirs: `[P1, P2, N]` becomes
      `[N, P2, P1]`. */
  lemma ParamRoutesMayReorder(p1: Route, p2: Route, n: Route)
    requires HasParams(p1) && HasParams(p2) && !HasParams(n)
    ensures ParamsLast([p1, p2, n]) == [n, p2, p1]
  {
    var s := [p1, p2, n];
    var t := [n, p2, p1];
    assert SwapIfOutOfOrder(s, 0, 1) == s;
    assert SwapIfOutOfOrder(s, 0, 2) == t;
    assert InnerPass(s, 0, 1) == InnerPass(s, 0, 2) == InnerPass(t, 0, 3) == t;
    assert SwapIfOutOfOrder(t, 1, 2) == t;
    assert InnerPass(t, 1, 2) == InnerPass(t, 1, 3) == t;
    assert InnerPass(t, 2, 3) == t;
    assert OuterPasses(s, 0) == OuterPasses(t, 1) == OuterPasses(t, 2) == OuterPasses(t, 3) == t;
  }
}
