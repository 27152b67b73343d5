/** Route-pattern matching and parameter extraction (Go file http/routes.go,
    GetParams, GetHeaders, GetBasicResponseHeaders, and the path normalisation
    of HandleRoutes).

    The source turns every `{name}` placeholder of a stored path into the
    regular expression `[^/]+` (or `([^/]+)`) and anchors the result. This model
    reads a stored path segment by segment: a segment that is exactly `{name}`,
    with a non-empty name free of RE2 white space, is a placeholder and matches
    any one non-empty segment; every other segment is literal and must be equal.
    That agrees with the regular expression as long as literal segments hold no
    regular-expression metacharacters (braces included), which is the
    assumption this model makes. */
module Matching {
  import opened Strings
  import opened Types

  /** RE2's `\s` class: tab, newline, form feed, carriage return and space. */
  predicate IsRegexSpace(c: char) {
    c == '\t' || c == '\n' || c == '\U{000C}' || c == '\r' || c == ' '
  }

  /** A segment covered by the placeholder expression `\{([^\s/]+)\}`. */
  predicate IsPlaceholder(seg: string) {
    |seg| >= 3 && seg[0] == '{' && seg[|seg| - 1] == '}'
    && forall k :: 1 <= k < |seg| - 1 ==> !IsRegexSpace(seg[k])
  }

  /** The name captured by the placeholder expression. */
  function PlaceholderName(seg: string): (name: string)
    requires IsPlaceholder(seg)
    ensures "{" + name + "}" == seg && name != []
  {
    seg[1..|seg| - 1]
  }

  /** One stored segment against one request segment. */
  predicate SegmentMatches(pat: string, seg: string) {
    if IsPlaceholder(pat) then seg != "" else pat == seg
  }

  predicate SegmentsMatch(pats: seq<string>, segs: seq<string>) {
    |pats| == |segs| && forall i :: 0 <= i < |pats| ==> SegmentMatches(pats[i], segs[i])
  }

  /** The anchored expression built from `pattern` matches all of `path`. */
  predicate PatternMatches(pattern: string, path: string) {
    SegmentsMatch(Split(pattern, '/'), Split(path, '/'))
  }

  /** The placeholder names of a pattern, left to right
      (`FindAllStringSubmatch` on the stored path). */
  function PlaceholderNames(pats: seq<string>): seq<string>
  {
    if |pats| == 0 then []
    else
      var last := pats[|pats| - 1];
      PlaceholderNames(pats[..|pats| - 1]) + (if IsPlaceholder(last) then [PlaceholderName(last)] else [])
  }

  /** The request segments that sit under placeholders, left to right (the
      capture groups of `FindStringSubmatch`). There is one per placeholder;
      on a match each is non-empty and none holds a `/`. */
  function Captures(pats: seq<string>, segs: seq<string>): (vals: seq<string>)
    requires |pats| == |segs|
    ensures |vals| == |PlaceholderNames(pats)|
    ensures forall k :: 0 <= k < |vals| ==> vals[k] in segs
    ensures SegmentsMatch(pats, segs) ==> forall k :: 0 <= k < |vals| ==> vals[k] != ""
  {
    if |pats| == 0 then []
    else
      var n := |pats| - 1;
      assert SegmentsMatch(pats, segs) ==> SegmentsMatch(pats[..n], segs[..n]);
      var prev := Captures(pats[..n], segs[..n]);
      assert forall k :: 0 <= k < |prev| ==> prev[k] in segs;
      prev + (if IsPlaceholder(pats[n]) then [segs[n]] else [])
  }

  /** The loop `params[name] = value` over names and values in order: every
      name becomes a key, and each value is one of the given values. */
  function Bind(names: seq<string>, vals: seq<string>): (m: map<string, string>)
    requires |names| == |vals|
    ensures forall k :: k in m <==> k in names
    ensures forall k :: k in m ==> m[k] in vals
  {
    if |names| == 0 then map[]
    else
      var n := |names| - 1;
      var prev := Bind(names[..n], vals[..n]);
      assert forall k :: k in names <==> k in names[..n] || k == names[n];
      assert forall k :: k in prev ==> prev[k] in vals;
      prev[names[n] := vals[n]]
  }

  /** A name that is repeated keeps the value bound last. */
  lemma {:induction false} BindLastWins(names: seq<string>, vals: seq<string>, i: nat)
    requires |names| == |vals| && i < |names|
    requires forall j :: i < j < |names| ==> names[j] != names[i]
    ensures names[i] in Bind(names, vals) && Bind(names, vals)[names[i]] == vals[i]
  {
    var n := |names| - 1;
    if i < n {
      BindLastWins(names[..n], vals[..n], i);
    }
  }

  /** `Server.GetParams(routePath, actualPath)`: the empty map unless the
      anchored pattern matches; otherwise every placeholder name is a key
      bound to a non-empty, `/`-free request segment. */
  function GetParams(routePath: string, actualPath: string): (params: map<string, string>)
    ensures !PatternMatches(routePath, actualPath) ==> params == map[]
    ensures PatternMatches(routePath, actualPath) ==>
      forall k :: k in params <==> k in PlaceholderNames(Split(routePath, '/'))
    ensures forall k :: k in params ==> params[k] != "" && '/' !in params[k]
  {
    var pats := Split(routePath, '/');
    var segs := Split(actualPath, '/');
    if !SegmentsMatch(pats, segs) then map[]
    else
      var vals := Captures(pats, segs);
      var m := Bind(PlaceholderNames(pats), vals);
      assert forall k :: k in m ==> m[k] in vals;
      m
  }

  /** On a match, the i-th placeholder name is bound to the i-th captured
      segment, unless the same name occurs again later. */
  lemma GetParamsPositional(routePath: string, actualPath: string, i: nat)
    requires PatternMatches(routePath, actualPath)
    requires i < |PlaceholderNames(Split(routePath, '/'))|
    requires forall j :: i < j < |PlaceholderNames(Split(routePath, '/'))| ==>
      PlaceholderNames(Split(routePath, '/'))[j] != PlaceholderNames(Split(routePath, '/'))[i]
    ensures GetParams(routePath, actualPath)[PlaceholderNames(Split(routePath, '/'))[i]]
         == Captures(Split(routePath, '/'), Split(actualPath, '/'))[i]
  {
    BindLastWins(PlaceholderNames(Split(routePath, '/')), Captures(Split(routePath, '/'), Split(actualPath, '/')), i);
  }

  /** `Server.GetHeaders`: the first value of every header that has one. */
  function GetHeaders(header: map<string, seq<string>>): (headers: map<string, string>)
    ensures forall k :: k in headers <==> k in header && |header[k]| > 0
    ensures forall k :: k in headers ==> headers[k] == header[k][0]
  {
    map k | k in header && |header[k]| > 0 :: header[k][0]
  }

  /** `Server.GetBasicResponseHeaders`: the same four headers whatever the
      method. */
  function GetBasicResponseHeaders(requestMethod: string): (headers: map<string, string>)
    ensures headers.Keys == {"Content-Type", "Access-Control-Allow-Origin",
                             "Access-Control-Allow-Methods", "Access-Control-Allow-Headers"}
    ensures headers["Access-Control-Allow-Methods"] == "GET"
  {
    map["Content-Type" := "application/json",
        "Access-Control-Allow-Origin" := "*",
        "Access-Control-Allow-Methods" := "GET",
        "Access-Control-Allow-Headers" := "Content-Type, Authorization"]
  }

  /** The path clean-up `HandleRoutes` applies to both the stored path and the
      request path: add a leading `/` when missing, then drop one trailing `/`.
      (Go indexes the first character, so the path must not be empty.) */
  function Normalize(p: string): (r: string)
    requires p != ""
  {
    DropTrailingSlash(if p[0] != '/' then "/" + p else p)
  }

  function DropTrailingSlash(a: string): string {
    if a != "" && a[|a| - 1] == '/' then a[..|a| - 1] else a
  }

  /** The test `HandleRoutes` makes for one stored route. */
  predicate RouteMatches(routePath: string, urlPath: string)
    requires routePath != "" && urlPath != ""
  {
    PatternMatches(Normalize(routePath), Normalize(urlPath))
  }

  /** A request path and the same path with one trailing `/` normalise alike,
      so `/user` and `/user/` hit the same routes. */
  lemma TrailingSlashEquivalent(p: string)
    requires p != "" && p[|p| - 1] != '/'
    ensures Normalize(p + "/") == Normalize(p)
    ensures forall routePath :: routePath != "" ==>
      (RouteMatches(routePath, p + "/") <==> RouteMatches(routePath, p))
  {
    TrailingSlashNormalizes(p);
  }

  lemma TrailingSlashNormalizes(p: string)
    requires p != "" && p[|p| - 1] != '/'
    ensures Normalize(p + "/") == Normalize(p)
  {
    var q := p + "/";
    if p[0] != '/' {
      assert ("/" + q)[..|"/" + q| - 1] == "/" + p;
    } else {
      assert q[..|q| - 1] == p;
    }
  }

  /** A missing leading `/` is supplied, so `user` and `/user` hit the same
      routes. */
  lemma LeadingSlashEquivalent(p: string)
    requires p != "" && p[0] != '/'
    ensures Normalize("/" + p) == Normalize(p)
  {
  }

  /** A pattern without placeholders matches only itself: a stored path such
      as `/user/:id`, which the server keeps uncompiled, is a literal. */
  lemma LiteralPatternMatchesOnlyItself(pattern: string, path: string)
    requires forall i :: 0 <= i < |Split(pattern, '/')| ==> !IsPlaceholder(Split(pattern, '/')[i])
    ensures PatternMatches(pattern, path) <==> pattern == path
  {
    if PatternMatches(pattern, path) {
      var pats := Split(pattern, '/');
      var segs := Split(path, '/');
      assert forall i :: 0 <= i < |pats| ==> pats[i] == segs[i];
      assert pats == segs;
      JoinSplit(pattern, '/');
      JoinSplit(path, '/');
    }
  }

  /** A request path with a trailing `/` has an empty last segment, which no
      stored pattern ending in a non-`/` character accepts: `GetParams` on
      such a path binds nothing. */
  lemma TrailingSlashBindsNothing(routePath: string, p: string)
    requires routePath != "" && routePath[|routePath| - 1] != '/'
    ensures !PatternMatches(routePath, p + "/")
    ensures GetParams(routePath, p + "/") == map[]
  {
    var pats := Split(routePath, '/');
    SplitSnocSep(p, '/');
    SplitLastPiece(routePath, '/');
    var segs := Split(p + "/", '/');
    assert segs[|segs| - 1] == "";
    assert pats[|pats| - 1] != "";
    if |pats| == |segs| {
      assert !SegmentMatches(pats[|pats| - 1], segs[|segs| - 1]);
    }
  }
}
