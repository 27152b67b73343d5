/** `RouteChain.Name` of http/chaining.go: stamp a name on every table entry
    that matches the chain's path and method list, either in a router's flat
    list or in the server's per-method lists. */
module Chaining {
  import opened Types
  import opened Strings
  import opened Matching
  import opened RouterTable
  import opened ServerTable

  /** `fmt.Sprintf("%v", methods)` for a list of strings: the elements joined
      by single spaces, in square brackets. */
  function RenderMethods(ms: seq<string>): (r: string)
    ensures |r| >= 2 && r[0] == '[' && r[|r| - 1] == ']'
    ensures r[1..|r| - 1] == Join(ms, ' ')
  {
    "[" + Join(ms, ' ') + "]"
  }

  /** Rendering tells two non-empty method lists apart when no method holds
      a space. */
  lemma RenderDistinguishesSpaceFree(a: seq<string>, b: seq<string>)
    requires |a| >= 1 && |b| >= 1
    requires forall i :: 0 <= i < |a| ==> ' ' !in a[i]
    requires forall i :: 0 <= i < |b| ==> ' ' !in b[i]
    ensures RenderMethods(a) == RenderMethods(b) <==> a == b
  {
    if RenderMethods(a) == RenderMethods(b) {
      SplitJoin(a, ' ');
      SplitJoin(b, ' ');
    }
  }

  /** ...but the comparison is on the rendering, not the list: a single method
      `"GET POST"` and the pair `GET`, `POST` render alike, and so do the
      empty list and the list holding one empty method. */
  lemma RenderConflates()
    ensures RenderMethods(["GET POST"]) == RenderMethods(["GET", "POST"])
    ensures ["GET POST"] != ["GET", "POST"]
    ensures RenderMethods([]) == RenderMethods([""])
  {
    assert ["GET", "POST"][1..] == ["POST"];
    assert Join(["GET", "POST"], ' ') == "GET" + " " + "POST";
  }

  /** One piece of the expression `Name` builds from a server route's path:
      a literal character, or a named group `(?P<name>[^/]+)`, written
      `{name}` in the path. */
  datatype Piece = Char(c: char) | Group(name: string)

  /** Go's regexp package accepts a group name made of ASCII letters, digits
      and `_`, and not empty. */
  predicate IsWordChar(c: char) {
    'a' <= c <= 'z' || 'A' <= c <= 'Z' || '0' <= c <= '9' || c == '_'
  }

  predicate IsGroupName(name: string) {
    name != "" && forall k :: 0 <= k < |name| ==> IsWordChar(name[k])
  }

  /** The path a list of pieces was read from. */
  function Render(ps: seq<Piece>): string {
    if ps == [] then ""
    else (match ps[0] case Char(c) => [c] case Group(n) => "{" + n + "}") + Render(ps[1..])
  }

  /** The characters of a brace-free text as literal pieces. */
  function Chars(s: string): (ps: seq<Piece>)
    ensures |ps| == |s|
  {
    seq(|s|, i requires 0 <= i < |s| => Char(s[i]))
  }

  function Prepend(x: Piece, r: Option<seq<Piece>>): Option<seq<Piece>> {
    match r
    case None => None
    case Some(ps) => Some([x] + ps)
  }

  /** The pieces of a route path, or `None` when the rewritten expression
      does not compile: a `}` with no `{` before it closes a group never
      opened, and a `{` must be followed by a group name and a `}`. */
  function Pieces(p: string): Option<seq<Piece>>
    decreases |p|
  {
    if p == [] then Some([])
    else if p[0] == '{' then GroupPieces(p[1..])
    else if p[0] == '}' then None
    else Prepend(Char(p[0]), Pieces(p[1..]))
  }

  /** The pieces after a `{`: the text up to the next `}` must be a group
      name. A `{` with no `}` after it leaves the group unnamed and open;
      a second `{` before the `}` lands inside the name. */
  function GroupPieces(q: string): Option<seq<Piece>>
    decreases |q|
  {
    if '}' !in q then None
    else
      var (name, rest) := Cut(q, '}');
      if IsGroupName(name) then Prepend(Group(name), Pieces(rest)) else None
  }

  /** Reading back the pieces of a path gives the path. */
  lemma {:induction false} PiecesRender(p: string)
    ensures Pieces(p).Some? ==> Render(Pieces(p).value) == p
    decreases |p|
  {
    if p != [] && Pieces(p).Some? {
      if p[0] == '{' {
        assert Pieces(p) == GroupPieces(p[1..]);
        assert '}' in p[1..];
        var (name, rest) := Cut(p[1..], '}');
        PiecesRender(rest);
        var ps := Pieces(rest).value;
        assert Pieces(p).value == [Group(name)] + ps;
        assert ([Group(name)] + ps)[1..] == ps;
        assert p == "{" + name + "}" + rest by {
          assert p == [p[0]] + p[1..];
        }
      } else {
        PiecesRender(p[1..]);
        var ps := Pieces(p[1..]).value;
        assert ([Char(p[0])] + ps)[1..] == ps;
        assert p == [p[0]] + p[1..];
      }
    }
  }

  function AfterChars(pre: string, r: Option<seq<Piece>>): Option<seq<Piece>> {
    match r
    case None => None
    case Some(ps) => Some(Chars(pre) + ps)
  }

  /** A brace-free prefix reads as literal pieces before the pieces of the
      rest; in particular a brace-free path is all literals. */
  lemma {:induction false} PiecesAfterLiteral(pre: string, q: string)
    requires '{' !in pre && '}' !in pre
    ensures Pieces(pre + q) == AfterChars(pre, Pieces(q))
    decreases |pre|
  {
    if pre == [] {
      assert pre + q == q;
      assert Pieces(q).Some? ==> Chars(pre) + Pieces(q).value == Pieces(q).value;
    } else {
      var p := pre + q;
      assert p[0] == pre[0] && p[1..] == pre[1..] + q;
      PiecesAfterLiteral(pre[1..], q);
      assert Chars(pre) == [Char(pre[0])] + Chars(pre[1..]);
      if Pieces(q).Some? {
        assert [Char(pre[0])] + (Chars(pre[1..]) + Pieces(q).value) == Chars(pre) + Pieces(q).value;
      }
    }
  }

  /** `{name}` reads as one group piece when `name` is a group name, and
      makes the whole path fail to compile otherwise. */
  lemma GroupThenRest(name: string, post: string)
    requires '}' !in name
    ensures Pieces("{" + name + "}" + post) ==
      if IsGroupName(name) then Prepend(Group(name), Pieces(post)) else None
  {
    var p := "{" + name + "}" + post;
    assert p[0] == '{' && p[1..] == name + ['}'] + post;
    CutAfter(name, '}', post);
  }

  /** Whether the anchored expression matches the whole text: a literal
      matches its own character, a group one or more characters other than
      `/`. */
  predicate PiecesMatch(ps: seq<Piece>, s: string)
    decreases |ps|
  {
    if ps == [] then s == []
    else match ps[0]
      case Char(c) => s != [] && s[0] == c && PiecesMatch(ps[1..], s[1..])
      case Group(_) => exists k :: 1 <= k <= |s| && '/' !in s[..k] && PiecesMatch(ps[1..], s[k..])
  }

  /** `regexp.MatchString` on the expression built from a server route's
      path, with the compile error dropped: a path that does not compile
      matches nothing. */
  predicate GroupPatternMatches(routePath: string, path: string) {
    var r := Pieces(routePath);
    r.Some? && PiecesMatch(r.value, path)
  }

  /** Which entries `Name` stamps. In a router's list: same path and same
      rendered methods. In the server's lists the path may also match the
      expression built from the entry's path. */
  predicate Selects(r: Route, path: string, methods: seq<string>, inServer: bool) {
    (r.path == path || (inServer && GroupPatternMatches(r.path, path)))
    && RenderMethods(r.methods) == RenderMethods(methods)
  }

  /** A literal run of pieces matches exactly its own text, and leaves the
      rest of the match to the pieces after it. */
  lemma {:induction false} MatchAfterLiteral(pre: string, rest: seq<Piece>, t: string)
    ensures PiecesMatch(Chars(pre) + rest, pre + t) <==> PiecesMatch(rest, t)
    decreases |pre|
  {
    if pre != [] {
      var ps := Chars(pre) + rest;
      assert ps[0] == Char(pre[0]);
      assert ps[1..] == Chars(pre[1..]) + rest;
      assert (pre + t)[1..] == pre[1..] + t;
      MatchAfterLiteral(pre[1..], rest, t);
    } else {
      assert Chars(pre) + rest == rest;
      assert pre + t == t;
    }
  }

  /** Literal pieces match exactly their own text. */
  lemma {:induction false} LiteralMatch(lit: string, s: string)
    ensures PiecesMatch(Chars(lit), s) <==> s == lit
    decreases |lit|
  {
    if lit != [] {
      assert Chars(lit)[0] == Char(lit[0]) && Chars(lit)[1..] == Chars(lit[1..]);
      if s != [] {
        LiteralMatch(lit[1..], s[1..]);
        assert s == [s[0]] + s[1..] && lit == [lit[0]] + lit[1..];
      }
    }
  }

  /** A group name has no `}` and no `/`. */
  lemma GroupNameChars(name: string)
    requires IsGroupName(name)
    ensures '}' !in name && '/' !in name
  {
  }

  /** The positive side: a route path whose placeholder is a group name
      between brace-free text selects every chain path that puts a non-empty,
      slash-free value in its place. */
  lemma WordPlaceholderMatches(pre: string, name: string, post: string, v: string)
    requires '{' !in pre && '}' !in pre && '{' !in post && '}' !in post
    requires IsGroupName(name) && v != [] && '/' !in v
    ensures GroupPatternMatches(pre + "{" + name + "}" + post, pre + v + post)
  {
    GroupNameChars(name);
    var q := "{" + name + "}" + post;
    GroupThenRest(name, post);
    PiecesAfterLiteral(post, "");
    assert post + "" == post && Chars(post) + [] == Chars(post);
    var tail := [Group(name)] + Chars(post);
    assert Pieces(q) == Some(tail);
    PiecesAfterLiteral(pre, q);
    assert pre + "{" + name + "}" + post == pre + q;
    assert Pieces(pre + q) == Some(Chars(pre) + tail);
    var s := v + post;
    MatchAfterLiteral(pre, tail, s);
    assert pre + v + post == pre + s;
    LiteralMatch(post, post);
    assert s[..|v|] == v && s[|v|..] == post;
    assert tail[1..] == Chars(post);
    assert PiecesMatch(tail, s);
  }

  /** A group stands for part of one segment: a match keeps the number of
      `/` of the route path. */
  lemma {:induction false} MatchKeepsSlashes(ps: seq<Piece>, s: string)
    requires forall i :: 0 <= i < |ps| ==> WellNamed(ps[i])
    requires PiecesMatch(ps, s)
    ensures multiset(s)['/'] == multiset(Render(ps))['/']
    decreases |ps|
  {
    if ps != [] {
      var rest := Render(ps[1..]);
      assert forall i :: 0 <= i < |ps[1..]| ==> WellNamed(ps[1..][i]) by {
        forall i | 0 <= i < |ps[1..]| ensures WellNamed(ps[1..][i]) {
          assert ps[1..][i] == ps[i + 1];
        }
      }
      match ps[0]
      case Char(c) =>
        MatchKeepsSlashes(ps[1..], s[1..]);
        SameHead(c, s[1..], rest);
        assert s == [c] + s[1..];
      case Group(n) =>
        var k :| 1 <= k <= |s| && '/' !in s[..k] && PiecesMatch(ps[1..], s[k..]);
        MatchKeepsSlashes(ps[1..], s[k..]);
        assert WellNamed(ps[0]);
        GroupSlashes(n, s, k, rest);
    }
  }

  lemma GroupSlashes(n: string, s: string, k: nat, rest: string)
    requires IsGroupName(n) && 1 <= k <= |s| && '/' !in s[..k]
    requires multiset(s[k..])['/'] == multiset(rest)['/']
    ensures multiset(s)['/'] == multiset("{" + n + "}" + rest)['/']
  {
    GroupNameChars(n);
    SlashFreePrefix(s[..k], s[k..]);
    assert s == s[..k] + s[k..];
    SlashFreePrefix("{" + n + "}", rest);
  }

  /** A group piece carries one of Go's group names. */
  predicate WellNamed(x: Piece) {
    x.Group? ==> IsGroupName(x.name)
  }

  lemma SameHead(c: char, x: string, y: string)
    requires multiset(x)['/'] == multiset(y)['/']
    ensures multiset([c] + x)['/'] == multiset([c] + y)['/']
  {
    assert multiset([c] + x) == multiset([c]) + multiset(x);
    assert multiset([c] + y) == multiset([c]) + multiset(y);
  }

  lemma SlashFreePrefix(a: string, b: string)
    requires '/' !in a
    ensures multiset(a + b)['/'] == multiset(b)['/']
  {
    assert multiset(a + b) == multiset(a) + multiset(b);
    assert multiset(a)['/'] == 0;
  }

  /** Every group read from a path carries one of Go's group names. */
  lemma {:induction false} PiecesWellNamed(p: string)
    ensures Pieces(p).Some? ==> forall i :: 0 <= i < |Pieces(p).value| ==> WellNamed(Pieces(p).value[i])
    decreases |p|
  {
    if p != [] && Pieces(p).Some? {
      if p[0] == '{' {
        assert Pieces(p) == GroupPieces(p[1..]);
        var (name, rest) := Cut(p[1..], '}');
        PiecesWellNamed(rest);
        assert Pieces(p).value == [Group(name)] + Pieces(rest).value;
      } else {
        PiecesWellNamed(p[1..]);
        assert Pieces(p).value == [Char(p[0])] + Pieces(p[1..]).value;
      }
    }
  }

  /** A server route path selects only chain paths with as many `/` as it
      has itself: no group reaches across a segment boundary. */
  lemma GroupPatternKeepsSegments(routePath: string, path: string)
    requires GroupPatternMatches(routePath, path)
    ensures multiset(path)['/'] == multiset(routePath)['/']
  {
    PiecesWellNamed(routePath);
    PiecesRender(routePath);
    MatchKeepsSlashes(Pieces(routePath).value, path);
  }

  /** A path with no braces is all literals and selects itself only. */
  lemma BraceFreeMatchesOnlyItself(routePath: string, path: string)
    requires '{' !in routePath && '}' !in routePath
    ensures GroupPatternMatches(routePath, path) <==> routePath == path
  {
    PiecesAfterLiteral(routePath, "");
    assert routePath + "" == routePath && Chars(routePath) + [] == Chars(routePath);
    LiteralMatch(routePath, path);
  }

  /** A placeholder whose name falls outside Go's group names makes the
      expression fail to compile, so the route path selects nothing. */
  lemma NonGroupNameNeverMatches(pre: string, name: string, post: string)
    requires '{' !in pre && '}' !in pre && '}' !in name && !IsGroupName(name)
    ensures Pieces(pre + "{" + name + "}" + post) == None
  {
    var q := "{" + name + "}" + post;
    GroupThenRest(name, post);
    PiecesAfterLiteral(pre, q);
    assert pre + "{" + name + "}" + post == pre + q;
  }

  /** For the request matcher the same segment is a placeholder like any
      other, as long as its name has no white space. */
  lemma PlaceholderThirdSegment(a: string, b: string, c: string, x: string)
    requires '/' !in a && '/' !in b && '/' !in c && '/' !in x
    requires IsPlaceholder(c) && x != ""
    ensures PatternMatches(a + ['/'] + (b + ['/'] + c), a + ['/'] + (b + ['/'] + x))
  {
    SplitThree(a, b, c, '/');
    SplitThree(a, b, x, '/');
  }

  /** `{user-id}` is such a name: `Name` never stamps a server route
      `/u/{user-id}` through it, although the request matcher matches
      `/u/me` against it. */
  lemma HyphenNameNeverSelected()
    ensures !Selects(Route(["GET"], "/u/{user-id}", Fn(0), [], [], ""), "/u/me", ["GET"], true)
    ensures PatternMatches("/u/{user-id}", "/u/me")
  {
    HyphenNameFails();
    HyphenNamePlaceholder();
  }

  lemma HyphenNameFails()
    ensures Pieces("/u/{user-id}") == None
  {
    var name := "user-id";
    assert !IsWordChar(name[4]);
    NonGroupNameNeverMatches("/u/", name, "");
    assert "/u/{user-id}" == "/u/" + "{" + name + "}" + "";
  }

  lemma HyphenNamePlaceholder()
    ensures PatternMatches("/u/{user-id}", "/u/me")
  {
    PlaceholderThirdSegment("", "u", "{user-id}", "me");
    assert "/u/{user-id}" == "" + ['/'] + ("u" + ['/'] + "{user-id}");
    assert "/u/me" == "" + ['/'] + ("u" + ['/'] + "me");
  }

  /** Two adjacent groups after a brace-free prefix read as two group
      pieces. */
  lemma AdjacentGroupsPieces(pre: string, a: string, b: string)
    requires '{' !in pre && '}' !in pre && IsGroupName(a) && IsGroupName(b)
    ensures Pieces(pre + ("{" + a + "}" + ("{" + b + "}"))) == Some(Chars(pre) + [Group(a), Group(b)])
  {
    GroupNameChars(a);
    GroupNameChars(b);
    var qb := "{" + b + "}";
    GroupThenRest(b, "");
    assert qb + "" == qb;
    assert Pieces("") == Some([]);
    assert [Group(b)] + [] == [Group(b)];
    assert Pieces(qb) == Some([Group(b)]);
    var q := "{" + a + "}" + qb;
    GroupThenRest(a, qb);
    assert [Group(a)] + [Group(b)] == [Group(a), Group(b)];
    assert Pieces(q) == Some([Group(a), Group(b)]);
    PiecesAfterLiteral(pre, q);
  }

  /** Two adjacent groups match exactly the slash-free texts of at least two
      characters. */
  lemma AdjacentGroupsMatch(a: string, b: string, t: string)
    ensures PiecesMatch([Group(a), Group(b)], t) <==> |t| >= 2 && '/' !in t
  {
    var ps := [Group(a), Group(b)];
    assert ps[1..] == [Group(b)] && [Group(b)][1..] == [];
    if PiecesMatch(ps, t) {
      var k :| 1 <= k <= |t| && '/' !in t[..k] && PiecesMatch([Group(b)], t[k..]);
      var j :| 1 <= j <= |t[k..]| && '/' !in t[k..][..j] && PiecesMatch([], t[k..][j..]);
      assert t[k..][..j] == t[k..];
      assert t == t[..k] + t[k..];
    }
    if |t| >= 2 && '/' !in t {
      assert t[1..][..|t| - 1] == t[1..] && t[1..][|t| - 1..] == [];
      assert PiecesMatch([Group(b)], t[1..]);
      assert t[..1] == [t[0]];
    }
  }

  /** Two groups in one segment, `{a}{b}`, need at least one character
      each: after a brace-free prefix, they select exactly the slash-free
      remainders of two characters or more, where the request matcher, which
      reads `{a}{b}` as one placeholder, takes one character. */
  lemma AdjacentGroupsNeedTwoCharacters(pre: string, a: string, b: string, t: string)
    requires '{' !in pre && '}' !in pre && IsGroupName(a) && IsGroupName(b)
    ensures GroupPatternMatches(pre + ("{" + a + "}" + ("{" + b + "}")), pre + t)
      <==> |t| >= 2 && '/' !in t
  {
    AdjacentGroupsPieces(pre, a, b);
    MatchAfterLiteral(pre, [Group(a), Group(b)], t);
    AdjacentGroupsMatch(a, b, t);
  }

  function StampOne(r: Route, path: string, methods: seq<string>, name: string, inServer: bool): Route {
    if Selects(r, path, methods, inServer) then r.(name := name) else r
  }

  /** One list after stamping: same length and order, only `name` fields
      change, and exactly the selected entries carry the new name. */
  function StampList(rs: seq<Route>, path: string, methods: seq<string>, name: string, inServer: bool)
    : (r: seq<Route>)
    ensures |r| == |rs|
    ensures forall j :: 0 <= j < |rs| ==> r[j].(name := rs[j].name) == rs[j]
    ensures forall j :: 0 <= j < |rs| && Selects(rs[j], path, methods, inServer) ==> r[j].name == name
    ensures forall j :: 0 <= j < |rs| && !Selects(rs[j], path, methods, inServer) ==> r[j] == rs[j]
  {
    seq(|rs|, j requires 0 <= j < |rs| => StampOne(rs[j], path, methods, name, inServer))
  }

  /** Naming twice with the same name is naming once: the selection ignores
      the `name` field. */
  lemma StampListIdempotent(rs: seq<Route>, path: string, methods: seq<string>, name: string, inServer: bool)
    ensures var once := StampList(rs, path, methods, name, inServer);
      StampList(once, path, methods, name, inServer) == once
  {
    var once := StampList(rs, path, methods, name, inServer);
    var twice := StampList(once, path, methods, name, inServer);
    forall j | 0 <= j < |rs|
      ensures twice[j] == once[j]
    {
      assert Selects(once[j], path, methods, inServer) == Selects(rs[j], path, methods, inServer);
    }
  }

  /** The server table after the outer loop has run over `ms`: every list
      under a listed method that exists is stamped; other lists are kept and
      no key is added. */
  function StampTable(t: map<string, seq<Route>>, ms: seq<string>, path: string, methods: seq<string>,
                      name: string): (r: map<string, seq<Route>>)
    ensures r.Keys == t.Keys
    ensures forall k :: k in t && k !in ms ==> r[k] == t[k]
    ensures forall k :: k in t && k in ms ==> r[k] == StampList(t[k], path, methods, name, true)
  {
    map k | k in t :: if k in ms then StampList(t[k], path, methods, name, true) else t[k]
  }

  /** Naming the server table twice with the same name equals naming it once. */
  lemma StampTableIdempotent(t: map<string, seq<Route>>, ms: seq<string>, path: string,
                             methods: seq<string>, name: string)
    ensures var once := StampTable(t, ms, path, methods, name);
      StampTable(once, ms, path, methods, name) == once
  {
    var once := StampTable(t, ms, path, methods, name);
    forall k | k in t && k in ms
      ensures StampList(once[k], path, methods, name, true) == once[k]
    {
      StampListIdempotent(t[k], path, methods, name, true);
    }
  }

  /** Stamping one more method's list extends the table stamped so far; a
      method already stamped is stamped again to the same effect. */
  lemma StampTableStep(t: map<string, seq<Route>>, done: seq<string>, m: string, path: string,
                       methods: seq<string>, name: string)
    ensures var before := StampTable(t, done, path, methods, name);
      var after := StampTable(t, done + [m], path, methods, name);
      && (m in t ==> after == before[m := StampList(before[m], path, methods, name, true)])
      && (m !in t ==> after == before)
  {
    var before := StampTable(t, done, path, methods, name);
    var after := StampTable(t, done + [m], path, methods, name);
    if m in t {
      if m in done {
        StampListIdempotent(t[m], path, methods, name, true);
      }
      assert after == before[m := StampList(before[m], path, methods, name, true)];
    } else {
      assert after == before;
    }
  }

  const NilDereference := "runtime error: invalid memory address or nil pointer dereference"

  class RouteChain {
    var router: Router?
    var server: Server?
    var path: string
    var methods: seq<string>

    constructor (router: Router?, server: Server?, path: string, methods: seq<string>)
      ensures this.router == router && this.server == server
      ensures this.path == path && this.methods == methods
    {
      this.router := router;
      this.server := server;
      this.path := path;
      this.methods := methods;
    }

    /** `RouteChain.Name`: reject an empty name before any change; with a
        router, stamp its list and return; otherwise stamp the server's lists
        under every method of the chain (a nil server panics as soon as one
        is looked up). */
    method Name(name: string) returns (o: Outcome)
      modifies router, server
      ensures name == "" ==> o == Panicked("Route name cannot be empty")
      ensures name == "" || router != null ==>
        server != null ==> server.routes == old(server.routes)
      ensures name == "" && router != null ==> router.routes == old(router.routes)
      ensures name != "" && router != null ==>
        o == Done && router.routes == StampList(old(router.routes), path, methods, name, false)
      ensures name != "" && router == null && server == null ==>
        o == (if |methods| == 0 then Done else Panicked(NilDereference))
      ensures name != "" && router == null && server != null ==>
        o == Done && server.routes == StampTable(old(server.routes), methods, path, methods, name)
      ensures server != null ==> server.middlewares == old(server.middlewares)
    {
      if name == "" {
        return Panicked("Route name cannot be empty");
      }
      if router != null {
        StampRouter(router, name);
        return Done;
      }
      if server == null {
        if |methods| == 0 {
          return Done;
        }
        return Panicked(NilDereference);
      }
      StampServer(server, name);
      return Done;
    }

    /** The router branch: the loop over the router's list, stamping in
        place. */
    method StampRouter(r: Router, name: string)
      modifies r
      ensures r.routes == StampList(old(r.routes), path, methods, name, false)
    {
      var i := 0;
      while i < |r.routes|
        invariant 0 <= i <= |r.routes| == |old(r.routes)|
        invariant forall j :: 0 <= j < i ==>
          r.routes[j] == StampOne(old(r.routes)[j], path, methods, name, false)
        invariant forall j :: i <= j < |r.routes| ==> r.routes[j] == old(r.routes)[j]
      {
        var route := r.routes[i];
        if Selects(route, path, methods, false) {
          r.routes := r.routes[i := route.(name := name)];
        }
        i := i + 1;
      }
    }

    /** The server branch: the outer loop over the chain's methods. A method
        listed twice stamps its list twice, to the same effect. */
    method StampServer(s: Server, name: string)
      modifies s
      ensures s.routes == StampTable(old(s.routes), methods, path, methods, name)
      ensures s.middlewares == old(s.middlewares)
    {
      var k := 0;
      while k < |methods|
        invariant 0 <= k <= |methods|
        invariant s.routes == StampTable(old(s.routes), methods[..k], path, methods, name)
        invariant s.middlewares == old(s.middlewares)
      {
        var m := methods[k];
        assert methods[..k + 1] == methods[..k] + [m];
        StampTableStep(old(s.routes), methods[..k], m, path, methods, name);
        StampMethod(s, m, name);
        k := k + 1;
      }
      assert methods[..k] == methods;
    }

    /** The inner loop of the server branch, for one method `m`: every
        selected entry of `m`'s list gets the name in place; a missing key is
        read as an empty list and not created. */
    method StampMethod(s: Server, m: string, name: string)
      modifies s
      ensures m in old(s.routes) ==>
        s.routes == old(s.routes)[m := StampList(old(s.routes)[m], path, methods, name, true)]
      ensures m !in old(s.routes) ==> s.routes == old(s.routes)
      ensures s.middlewares == old(s.middlewares)
    {
      var list := Lookup(s.routes, m);
      var current := list;
      var i := 0;
      while i < |list|
        invariant 0 <= i <= |list| == |current|
        invariant forall j :: 0 <= j < i ==> current[j] == StampOne(list[j], path, methods, name, true)
        invariant forall j :: i <= j < |list| ==> current[j] == list[j]
        invariant m in old(s.routes) ==> list == old(s.routes)[m] && s.routes == old(s.routes)[m := current]
        invariant m !in old(s.routes) ==> |list| == 0 && s.routes == old(s.routes)
        invariant s.middlewares == old(s.middlewares)
      {
        var route := list[i];
        if Selects(route, path, methods, true) {
          current := current[i := route.(name := name)];
          s.routes := s.routes[m := current];
        }
        i := i + 1;
      }
      assert current == StampList(list, path, methods, name, true);
    }
  }
}
