# express-go routing core in Dafny

This project models the request-routing core of express-go, a small
Express-style HTTP framework for Go, and proves properties of that model. It
covers:

- how routes are registered, both in the stand-alone `Router` (one flat list,
  with `:name` segments compiled to `{name}` placeholders) and in the `Server`
  (one list per HTTP method);
- how `HandleRoutes` picks the first matching route and builds the request
  context, including the path parameters of `GetParams`;
- how `chainMiddlewares` nests middlewares around the handler like an onion;
- how `RouteChain.Name` stamps a name on the routes it selects;
- what the built-in `CORS`, `RateLimit` and `Logs` middlewares decide for one
  request;
- the rule-based `Request.Validate` and the header and field maps of a
  `Request`;
- the value-semantics logger of `tools.go`.

A Go `panic` is modelled as a value: `Outcome.Panicked(message)` for a call
that returns nothing and `Result.Panic(message)` for a call that returns
something. The message is the one the Go code or the Go runtime produces.
Code that mutates a struct in place (`Router`, `Server`, `RouteChain`,
`Request`, the rate-limit store and options) is a Dafny `class` whose methods
say what they change. Pure helpers are functions. Loops are methods with
invariants, each proved against a specification function.

Files, one module each:

| file | module | Go source |
|---|---|---|
| types.dfy | `Types` | `http/types.go`: `Route`, `Handler`, `Middleware`, panics as values |
| strings.dfy | `Strings` | the parts of Go's `strings` package the core uses |
| matching.dfy | `Matching` | placeholder matching and `GetParams`/`GetHeaders` of `http/routes.go` |
| helpers.dfy | `Helpers` | `http/helpers.go` |
| router.dfy | `RouterTable` | `http/router.go` |
| server.dfy | `ServerTable` | `http/route.go`, `HandleRoutes` of `http/routes.go` |
| chain.dfy | `Chain` | `chainMiddlewares` of `http/routes.go` |
| chaining.dfy | `Chaining` | `http/chaining.go` |
| middlewares.dfy | `Middlewares` | `CORS`, `RateLimit`, `Logs` of `http/middlewares.go` |
| request.dfy | `Requests` | `AddHeader`, `AddField`, `GetHeader`, `Validate` of `http/request.go` |
| tools.dfy | `Tools` | `http/tools.go` |

Where the code and its documentation disagree, the model follows the code:

- `Server.AddRoute` stores the path verbatim. It does not compile `:name`,
  so `/users/:id` registered on the server matches only the literal
  `/users/:id` (`ServerTable.ServerColonRouteIsLiteral`).
- `HandleRoutes` matches on a normalised path, but it reads parameters from
  the raw path. A request with a trailing slash therefore reaches the route
  with no parameters (`ServerTable.TrailingSlashLosesParams`).
- `Validate`'s `required` message has no space after "The".
- `RouteChain` is used in `http/chaining.go` but declared in no file of the source. Its fields are taken from their uses there.
- `RouteChain.Name` selects server routes through a second kind of
  expression: each `{name}` becomes a named group. A name outside Go's group
  names, such as `{user-id}`, makes that expression fail to compile, and the
  error is ignored, so the route is never selected through it
  (`Chaining.HyphenNameNeverSelected`). Two groups in one segment, `{a}{b}`,
  need two characters (`Chaining.AdjacentGroupsNeedTwoCharacters`).
- Rules such as `max:255` are unknown to the `switch`, so they always report
  an error (`Requests.ParameterisedRuleAlwaysFails`).

## Model

| member | source | states |
|---|---|---|
| Types.Lookup | http/route.go:17-21 | a missing method key reads as the empty list, a present one as its list |
| Helpers.ValidateRoute | http/helpers.go:5-14 | panics exactly when the path is empty or the handler nil, with "Path cannot be empty" checked first, then "Handler cannot be empty"; otherwise returns true |
| Helpers.GetParameterizedRoute | http/helpers.go:16-28 | the loop result equals the compiled path (every `:name` segment replaced by `{name}`, the rest kept, joined by `/`) and the names of the `:` segments in order |
| Helpers.CompileSegments | http/helpers.go:18-25 | keeps the number of segments and compiles each segment on its own |
| Helpers.CompiledPathSegments | http/helpers.go:16-28 | splitting the compiled path gives back the compiled segments, as many as the input had |
| Helpers.CompileWithoutColonsIsIdentity | http/helpers.go:16-28 | a path with no `:` segment compiles to itself and has no names |
| Helpers.NoColonNoNames | http/helpers.go:19-24 | segments with no leading `:` contribute no names |
| Helpers.IsParameterizedRoute | http/helpers.go:49-51 | true exactly when some character of the path is `:` |
| Helpers.GuardIsRedundant | http/router.go:46-50 | when the `:` test fails the compiler would have left the path unchanged with no names, so the guard does not change the stored route |
| Helpers.NamesImplyParameterized | http/router.go:46-50 | a path that yields names passes the `:` test |
| Helpers.ColonInsideSegment | http/helpers.go:49-51 | `/a:b` passes the `:` test yet yields no names and compiles to itself |
| Helpers.CompiledNamesRoundTrip | http/helpers.go:16-28 | for well-formed segments, the placeholder names the matcher reads from the compiled segments are exactly the names the compiler collected |
| Helpers.ParamsRecoveredByMatcher | http/helpers.go:16-28 | the same round trip for a whole path |
| Helpers.UserIdNameCompiles | http/helpers.go:16-28 | `/user/:id/:name` compiles to `/user/{id}/{name}` with names `id`, `name` |
| Helpers.UserIdNameMatches | http/routes.go:9-31 | `GetParams("/user/{id}/{name}", "/user/7/bob")` binds `id` to `7` and `name` to `bob` |
| Helpers.UserSevenDoesNotMatch | http/routes.go:9-31 | a path with fewer segments than the pattern binds nothing |
| Helpers.TwoPlaceholdersBind | http/routes.go:9-31 | for a four-segment pattern whose last two segments are placeholders, each name is bound to the request segment in its position |
| Helpers.EmptyNameIsLost | http/helpers.go:20-23 | a bare `:` segment yields the empty name, but its compiled `{}` is no placeholder, so the matcher never binds it |
| Helpers.RemoveQueryParams | http/helpers.go:64-70 | the result is the prefix of the path before its first `?`, the whole path when there is none |
| Helpers.RemoveQueryParamsIdempotent | http/helpers.go:64-70 | removing the query twice is removing it once |
| Helpers.CollectPairsKeys | http/helpers.go:36-43 | a key is collected exactly when some `&` piece with `=` has that key before its first `=` |
| Helpers.CollectPairsLastWins | http/helpers.go:36-43 | the value kept for a key is the one of its last piece, cut at the first `=` |
| Helpers.CollectPairs | http/helpers.go:36-43 | the pieces in order: one without `=` is skipped, one with `=` sets the text before its first `=` to the text after it, overwriting an earlier value |
| Helpers.QueryTextBetweenMarks | http/helpers.go:33-35 | the query text is what lies between the first and the second `?` |
| Helpers.GetSearchParams | http/helpers.go:30-47 | no `?` gives the empty map; otherwise the pairs collected from the query text split at `&` |
| Helpers.SortRoutesWithParamsLast | http/helpers.go:53-62 | the in-place double loop leaves the array equal to the specification `ParamsLast` of its old contents |
| Helpers.ParamsLast | http/helpers.go:53-62 | the double loop as a function on the list: as many routes as before |
| Helpers.ParamsLastPartitions | http/helpers.go:53-62 | after sorting, no route with parameters comes before a route without |
| Helpers.ParamsLastPermutes | http/helpers.go:53-62 | sorting is a permutation |
| Helpers.ParamsLastKeepsLiteralOrder | http/helpers.go:53-62 | the routes without parameters keep their relative order |
| Helpers.ParamRoutesMayReorder | http/helpers.go:53-62 | the routes with parameters need not keep theirs: `[p1, p2, n]` becomes `[n, p2, p1]` |
| Matching.PlaceholderName | http/routes.go:12-13 | the captured name is non-empty and `{name}` rebuilds the segment |
| Matching.IsPlaceholder | http/routes.go:12 | a segment is a placeholder when it is `{`, a non-empty name without RE2 white space, then `}` |
| Matching.SegmentMatches | http/routes.go:71-72 | a placeholder segment matches any non-empty request segment, a literal segment only itself |
| Matching.PatternMatches | http/routes.go:91-93 | the anchored pattern matches when both paths have as many segments and each pair matches |
| Matching.Captures | http/routes.go:15-19 | one captured value per placeholder, each a request segment, and non-empty when the path matches |
| Matching.Bind | http/routes.go:24-28 | the keys are exactly the names; every value is one of the captured values |
| Matching.BindLastWins | http/routes.go:24-28 | a name bound several times keeps its last value |
| Matching.GetParams | http/routes.go:9-31 | a path the pattern does not match gives the empty map; otherwise every placeholder name is bound to a non-empty, slash-free request segment |
| Matching.GetParamsPositional | http/routes.go:9-31 | on a match, the `i`-th placeholder name is bound to the request segment in its position, unless a later placeholder has the same name |
| Matching.LiteralPatternMatchesOnlyItself | http/routes.go:91-93 | a pattern without placeholders matches exactly the identical path |
| Matching.TrailingSlashBindsNothing | http/routes.go:9-31 | a request path with a trailing slash never matches a pattern without one, so it binds no parameter |
| Matching.GetHeaders | http/routes.go:33-41 | one entry per request header with at least one value, holding its first value |
| Matching.GetBasicResponseHeaders | http/routes.go:43-50 | exactly the four basic headers, the allowed methods being `GET` whatever the request method |
| Matching.TrailingSlashEquivalent | http/routes.go:83-85 | one trailing slash on the request path changes neither its normal form nor which routes match |
| Matching.LeadingSlashEquivalent | http/routes.go:79-81 | a missing leading slash is added, so `a/b` and `/a/b` are the same request path |
| Matching.Normalize | http/routes.go:74-89 | a `/` is put in front of a path that lacks one, then one trailing `/` is dropped |
| Matching.RouteMatches | http/routes.go:71-93 | a stored route serves a request path when its normalised pattern matches the normalised request path |
| RouterTable.RouterEntry | http/router.go:38-58 | the appended route: all seven verbs for an empty list, otherwise the given list; the compiled path and names, or the path verbatim with no names when it holds no `:` |
| RouterTable.Router.constructor | http/router.go:9-11 | a new router has no routes |
| RouterTable.Router.GetParameterizedRoute | http/router.go:24-36 | the router's copy of the compiler returns the helper's result |
| RouterTable.Router.AddRoute | http/router.go:38-58 | panics exactly on an empty path or nil handler, leaving the list unchanged; otherwise appends exactly one route at the end |
| RouterTable.Router.Get | http/router.go:60-62 | registers one route for `GET` |
| RouterTable.Router.Post | http/router.go:64-66 | registers one route for `POST` |
| RouterTable.Router.Put | http/router.go:68-70 | registers one route for `PUT` |
| RouterTable.Router.Delete | http/router.go:72-74 | registers one route for `DELETE` |
| RouterTable.Router.Patch | http/router.go:76-78 | registers one route for `PATCH` |
| RouterTable.Router.Options | http/router.go:80-82 | registers one route for `OPTIONS` |
| RouterTable.Router.Head | http/router.go:84-86 | registers one route for `HEAD` |
| RouterTable.Router.Add | http/router.go:88-90 | registers one route carrying all seven verbs, the same route an empty method list gives |
| RouterTable.StoredRouteBindsDeclaredNames | http/router.go:46-57 | the names stored with a route are the placeholder names the matcher reads from its stored path |
| ServerTable.Append | http/route.go:18-25 | appending under one method key adds that key and extends only its list, by exactly the new route |
| ServerTable.Copies | http/route.go:17-26 | `n` copies of the route |
| ServerTable.RegisterAll | http/route.go:17-26 | the loop over the method list, one `append` under each listed method in order |
| ServerTable.EmptyMethodListChangesNothing | http/route.go:17-26 | an empty method list registers nothing |
| ServerTable.RegisterAllLookup | http/route.go:17-26 | after the loop, every method's list is its old list followed by one copy of the route per occurrence of that method in the argument list |
| ServerTable.RegisterAllKeys | http/route.go:17-26 | the keys afterwards are the old keys plus the listed methods |
| ServerTable.RegisterAllWellFormed | http/route.go:15-28 | registration keeps every stored route with a non-empty path and a non-nil handler |
| ServerTable.FirstMatch | http/routes.go:69-118 | the scan reports a route whose normalised pattern matches the normalised request path, or crashes on indexing at a route whose path (or the request's) is empty |
| ServerTable.FirstMatchIsFirst | http/routes.go:69-118 | every route the scan passes over had non-empty paths and did not match, so the reported route is the first match; when none is reported, no route of the list matches |
| ServerTable.DispatchOf | http/routes.go:68-122 | the served route is the first match, its context holds the parameters from the raw path and the basic response headers, and its trace is the middleware chain around its handler; no match answers 404 "404 Not Found"; an empty path panics with the index-out-of-range message |
| ServerTable.TrailingSlashSameRoute | http/routes.go:83-85 | a request path and the same path with a trailing slash select the same route |
| ServerTable.ContextLosesParams | http/routes.go:99-101 | a context built for a request path ending in `/` and a stored path not ending in `/` has an empty parameter map |
| ServerTable.TrailingSlashLosesParams | http/routes.go:99-101 | a request path ending in `/` that reaches a route reaches it with an empty parameter map |
| ServerTable.MatchesNormalized | http/routes.go:71-93 | the per-route normalisation and full-string match agree with the `RouteMatches` specification |
| ServerTable.Server.constructor | http/server.go:51-63 | a new server has no routes and no middlewares |
| ServerTable.Server.AddRoute | http/route.go:15-28 | panics exactly on an empty path or nil handler with nothing changed; otherwise the routes are the old ones with the route appended once per listed method, the method list stored in each copy; the server invariant is kept |
| ServerTable.Server.Get | http/route.go:30-32 | appends one route under `GET` |
| ServerTable.Server.Post | http/route.go:34-36 | appends one route under `POST` |
| ServerTable.Server.Put | http/route.go:38-40 | appends one route under `PUT` |
| ServerTable.Server.Delete | http/route.go:42-44 | appends one route under `DELETE` |
| ServerTable.Server.Patch | http/route.go:46-48 | appends one route under `PATCH` |
| ServerTable.Server.Options | http/route.go:50-52 | appends one route under `OPTIONS` |
| ServerTable.Server.Head | http/route.go:54-56 | appends one route under `HEAD` |
| ServerTable.Server.Add | http/route.go:58-60 | appends the route under each of the seven verbs |
| ServerTable.Server.HandleRoutes | http/routes.go:68-122 | the loop's result is the dispatch specification for the request's method list; on a server built through `AddRoute` a non-empty request path never crashes |
| ServerTable.ServerColonRouteIsLiteral | http/route.go:15-28 | a server route without placeholders, such as one written with `:id`, matches only the request path with the same normal form |
| Chain.Repeat | http/routes.go:57-59 | a middleware calling `next` `n` times replays only events of the downstream chain |
| Chain.Exec | http/routes.go:54-63 | past the last middleware the handler runs; otherwise the trace starts by entering that middleware and ends by leaving it |
| Chain.ChainMiddlewares | http/routes.go:52-66 | no middleware: the handler alone; otherwise the first middleware wraps the whole trace |
| Chain.OnionTrace | http/routes.go:52-66 | when every middleware calls `next` once, the trace is all enters in order, the handler once, then all leaves in reverse order |
| Chain.OnionPositions | http/routes.go:52-66 | the same by position: middleware `j` is entered at step `j`, the handler runs at step `n`, and middleware `j` is left at step `2n - j` |
| Chain.ShortCircuit | http/routes.go:56-59 | a middleware that never calls `next` stops the chain: the handler does not run and no later middleware is entered |
| Chain.ExecEvents | http/routes.go:55-63 | `exec(i)` touches only middlewares from `i` on and runs only its own handler |
| Chain.Nested | http/routes.go:55-63 | a middleware is entered only at the start and left only at the end of its own trace |
| Chain.HandlerRuns | http/routes.go:52-66 | the handler runs exactly the product of the middlewares' `next` call counts |
| Chaining.RenderMethods | http/chaining.go:16 | `%v` of a method list is the methods joined by spaces inside brackets |
| Chaining.RenderDistinguishesSpaceFree | http/chaining.go:16 | for non-empty lists of space-free methods, equal renderings mean equal lists |
| Chaining.RenderConflates | http/chaining.go:29 | `["GET POST"]` renders like `["GET", "POST"]`, and `[]` like `[""]` |
| Chaining.Pieces | http/chaining.go:26-27 | the path read as literal characters and `{name}` groups, or no expression at all when a brace is unmatched or a name is not made of ASCII letters, digits and `_` |
| Chaining.PiecesMatch | http/chaining.go:27-28 | a literal matches its own character, a group one or more characters other than `/`, and the whole text must be used |
| Chaining.GroupPatternMatches | http/chaining.go:26-28 | the match result with the compile error dropped: a path that does not compile matches nothing |
| Chaining.Selects | http/chaining.go:16-29 | a router entry is selected by equal path and equal rendered methods; a server entry also by its path's expression matching the chain's path |
| Chaining.PiecesRender | http/chaining.go:26-27 | reading the pieces back gives the route path |
| Chaining.BraceFreeMatchesOnlyItself | http/chaining.go:26-29 | a path without braces selects only the identical path |
| Chaining.WordPlaceholderMatches | http/chaining.go:26-29 | a `{name}` with a word name between brace-free text selects the chain path with any non-empty, slash-free value in its place |
| Chaining.NonGroupNameNeverMatches | http/chaining.go:26-28 | a `{name}` whose name is not a Go group name makes the path select nothing through the expression |
| Chaining.HyphenNameNeverSelected | http/chaining.go:26-29 | the server route `/u/{user-id}` is not stamped for the chain path `/u/me`, which the request matcher does match against it |
| Chaining.AdjacentGroupsMatch | http/chaining.go:27 | two groups in a row match exactly the slash-free texts of two characters or more |
| Chaining.AdjacentGroupsNeedTwoCharacters | http/chaining.go:26-29 | after a brace-free prefix, `{a}{b}` selects exactly the slash-free remainders of two characters or more |
| Chaining.GroupPatternKeepsSegments | http/chaining.go:26-28 | a selected chain path has as many `/` as the route path |
| Chaining.StampList | http/chaining.go:15-19 | one list after stamping: same length and order, only names change, exactly the selected routes carry the new name |
| Chaining.StampListIdempotent | http/chaining.go:15-19 | stamping the same name twice is stamping it once |
| Chaining.StampTable | http/chaining.go:23-34 | the server table after stamping: same keys, lists of the chain's methods stamped, the others kept |
| Chaining.StampTableIdempotent | http/chaining.go:23-34 | stamping the table twice with the same name is stamping it once |
| Chaining.RouteChain.constructor | http/chaining.go:14-23 | a chain records the router, server, path and methods that `Name` reads |
| Chaining.RouteChain.Name | http/chaining.go:9-36 | an empty name panics with nothing changed; a router has its list stamped and the server is untouched; otherwise every server list of the chain's methods is stamped; a nil server panics with the nil-dereference message as soon as one method is looked up |
| Chaining.RouteChain.StampRouter | http/chaining.go:14-20 | the router loop stamps exactly the routes with the same path and rendered methods |
| Chaining.RouteChain.StampServer | http/chaining.go:23-34 | the outer loop over the chain's methods gives the stamped table, a repeated method to the same effect |
| Chaining.RouteChain.StampMethod | http/chaining.go:24-33 | the inner loop stamps one method's list in place and creates no key |
| Middlewares.OriginAllowed | http/middlewares.go:56-65 | the loop with its early exit finds the origin exactly when some comma-separated entry, trimmed, equals it |
| Middlewares.OriginListed | http/middlewares.go:56-65 | the origin equals some comma-separated entry of the allow list after trimming |
| Middlewares.Admitted | http/middlewares.go:55-69 | an allow list of `*` admits every origin; any other admits the listed ones |
| Middlewares.Cors | http/middlewares.go:32-85 | `next` runs exactly when the origin is admitted and the method is not `OPTIONS`; a rejected origin gets 403 with the CORS message and no allow headers; an admitted one gets the three allow headers with defaults for empty options, and 204 for `OPTIONS`; Content-Type is set exactly when options are given |
| Middlewares.TrailingCommaAdmitsMissingOrigin | http/middlewares.go:56-65 | an allow list ending in a comma admits a request with no `Origin` header |
| Middlewares.RateLimitOptions.constructor | http/middlewares.go:23-27 | options hold the given limit and window |
| Middlewares.RateLimitStore.constructor | http/middlewares.go:29 | the store starts empty |
| Middlewares.RateLimit | http/middlewares.go:113-143 | nil options or a non-positive limit or window pass the request on with nothing changed; at or over the limit the answer is 429 "Rate limit exceeded", remaining 0 and the store unchanged; under it the client's count goes up by one, remaining is what is left, and `next` runs |
| Middlewares.Replay | http/middlewares.go:122-128 | from a count at most the limit, `n` requests raise the count to `min(count + n, limit)` and admit `min(n, limit - count)` of them |
| Middlewares.Logs | http/middlewares.go:87-111 | the logging middleware calls `next` exactly once |
| Middlewares.LogTemplate | http/middlewares.go:90-95 | a template is filled only when options are given and enabled; the default is `{{.Method}} {{.Path}} - {{.StatusCode}}` |
| Middlewares.LogsWrapsDownstream | http/middlewares.go:88-89 | wherever `Logs` sits, its logging step comes after the whole downstream chain, exactly once |
| Requests.RuleMessage | http/request.go:169-341 | per rule, the message left after the case's writes: `string` passes only a non-empty string; `int`, `boolean` and `array` pass only their JSON type; `integer` and `number` always pass; the text rules pass only a string of the right shape; `max` and `min` fail only a blank value; any other rule always fails |
| Requests.LastWriteWins | http/request.go:168-342 | a key is written exactly when some rule writes it, and the last such write is what stays |
| Requests.Messages | http/request.go:165-169 | one write per rule, in order |
| Requests.ParameterisedRuleAlwaysFails | http/request.go:335-340 | a rule with a parameter, such as `max:255`, reports the key whatever its value |
| Requests.TrailingBarReported | http/request.go:165-340 | a rule text ending in a bar ends with the empty rule, whose unknown-rule message is the one reported |
| Requests.DateRuleIsShapeOnly | http/request.go:209-222 | `2024-13-45` passes the date rule |
| Requests.UrlNeedsTwoHostCharacters | http/request.go:260-272 | `http://a` fails the URL rule and `http://ab` passes |
| Requests.EmailNeedsTopLevelDomain | http/request.go:162 | `a@b.co` passes the e-mail expression and `a@b.c` fails it |
| Requests.DateShape | http/request.go:217 | ten characters: four digits, `-`, two digits, `-`, two digits |
| Requests.TimeShape | http/request.go:254 | eight characters: two digits, `:`, two digits, `:`, two digits |
| Requests.DatetimeShape | http/request.go:241 | a date shape, `T`, then a time shape |
| Requests.EmailShape | http/request.go:162 | a non-empty local part, `@`, a domain part, a `.` and at least two ASCII letters |
| Requests.UrlShape | http/request.go:267 | `http://` or `https://`, then a first character that is not white space, `/`, `$`, `.`, `?` or `#`, a second that is not a newline, and no white space to the end |
| Requests.Errors | http/request.go:164-345 | a key is reported exactly when it is in the data and one of its rules fails |
| Requests.ErrorsReportFailingRules | http/request.go:164-343 | a key outside the data is never reported; a key of the data is reported exactly when some rule writes a message |
| Requests.Request.constructor | http/request.go:348-357 | a request holds its headers and no extra fields |
| Requests.Request.GetHeader | http/request.go:20-22 | a missing header reads as the empty string |
| Requests.Request.AddHeader | http/request.go:12-14 | a string value is stored and read back by `GetHeader`, other headers unchanged; any other value panics with Go's interface-conversion message and changes nothing |
| Requests.Request.AddField | http/request.go:16-18 | the field is set and nothing else changes |
| Requests.Request.Validate | http/request.go:146-346 | nil data panics first, then a nil body, then a body that is not a JSON object panics with the conversion message; otherwise the result is the error map of the rules |
| Requests.Request.ValidateAll | http/request.go:155-345 | the loop over the data keys, in any order, builds exactly the error map |
| Requests.Request.ValidateKey | http/request.go:165-342 | the loop over one key's rules leaves the last failing rule's message, or nothing when none fails |
| Tools.NewLogger | http/tools.go:18-20 | a new logger has no message and no fields |
| Tools.Merged | http/tools.go:119-131 | every key of either map, the argument's value winning |
| Tools.CopyInto | http/tools.go:121-126 | a copy loop over the keys, in any order, gives the merge |
| Tools.WithFields | http/tools.go:119-131 | a new logger, same message, fields merged with the argument winning |
| Tools.WithField | http/tools.go:133-143 | a new logger, same message, one field set |
| Tools.WithError | http/tools.go:145-147 | a new logger with the error recorded under `error` |
| Tools.OneFieldIsMerge | http/tools.go:133-143 | setting one field is the same as merging a one-entry map |
| Tools.Headline | http/tools.go:27-117 | the first printed line ends with the message; a non-empty logger message and `: ` come right before it; a level call starts with the level tag and a space |
| Tools.HeadlineInjective | http/tools.go:27-117 | two messages logged at the same level through the same logger print different first lines |
| Tools.UnprefixedHeadline | http/tools.go:18-20 | with the empty message every logger starts with, the first line is the tag, a space and the message |

## Left out

- Networking, `Listen`, response writing and the shared `s.Request`/`s.Response` objects. `HandleRoutes` returns a fresh context value and the events of the middleware chain.
- Locking: `RateLimit`'s critical section is one atomic step. `rateLimitMutex` and concurrent requests are not modelled.
- Sessions, cookies, files, static serving, uploads (`uploadFiles`) and body or query parsing. `ParseBody`, `GetJsonBody` and the request's `GetParams`/`GetQueryParams` are not part of this model.
- `Application`, `Group`, `Use` and `UseRouter`. The demo code and `utils` are not part of this model either.
- Regular expressions in general. The request matcher (`HandleRoutes`, `GetParams`) works segment by segment: a whole segment `{name}`, with a name free of white space, matches one non-empty segment. `Name`'s server branch reads a route path as literal characters and named groups instead. Literal text is taken to hold no regex metacharacters.
- Chaining.Selects: a `>` between braces is read as making the name invalid. Go ends the group name at the first `>`, so `{a>b}` would compile to a group `a` that matches `b>` and a segment.
- `regexp.MustCompile` panics on an invalid pattern (for example a literal `(` in a route path). That is not modelled.
- Middlewares are abstract in the chain. Each one is a name and a number of `next` calls, and their effects on the context are not modelled. A nil handler runs as `Run(Nil)` rather than panicking.
- `Logs` fills its template by text substitution and prints the line. The substitution and the printing are not modelled; only the template choice and the ordering are.
- Middlewares.RateLimit: `Window` is only checked to be positive. The source never uses it to expire counts, and neither does the model.
- Tools.Headline: only the first printed line is modelled. The field lines come in Go's random map order, and `println` prints an `any` value as a pair of addresses.
- The output of every logging call and `Validate`'s `fmt.Println` of the body are I/O and are left out.
- Requests.RuleMessage: the parameterised `max`/`min` branches, which compare lengths and numbers, are unreachable. The `switch` only reaches the case for the bare words `max` and `min`, whose `Split` at `:` has one part. The model keeps only the blank check.
- Requests.Request.Validate: a missing key and a JSON `null` are modelled as the same value. Every check treats them alike.
- Requests.Value: request bodies are the JSON values `encoding/json` produces, so other Go types passed as `any` are not modelled.
