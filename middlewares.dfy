/** The built-in middlewares of http/middlewares.go: the decisions of `CORS`
    and `RateLimit` and the ordering of `Logs`. A middleware's visible effect
    on one request is an `Effect`: how often it calls `next`, the status it
    writes (0 when it writes none), the response headers it sets and the body
    it writes. */
module Middlewares {
  import opened Types
  import opened Strings
  import opened Chain

  datatype Effect = Effect(nextCalls: nat, status: int, headers: map<string, string>, body: string)

  // ---------------------------------------------------------------------
  // CORS

  datatype CorsOptions = CorsOptions(
    allowOrigin: string,
    allowMethods: string,
    allowHeaders: string,
    contentType: string)

  const DefaultMethods := "GET, POST, PUT, PATCH, DELETE, OPTIONS"
  const DefaultHeaders := "Content-Type, Authorization"
  const CorsRejection := "CORS policy does not allow access from this origin"

  function ChosenOrigin(options: Option<CorsOptions>): string {
    if options.Some? && options.value.allowOrigin != "" then options.value.allowOrigin else "*"
  }

  function ChosenMethods(options: Option<CorsOptions>): string {
    if options.Some? && options.value.allowMethods != "" then options.value.allowMethods else DefaultMethods
  }

  function ChosenHeaders(options: Option<CorsOptions>): string {
    if options.Some? && options.value.allowHeaders != "" then options.value.allowHeaders else DefaultHeaders
  }

  /** The request's `Origin` equals some comma-separated entry of the allow
      list once that entry's surrounding white space is trimmed. */
  predicate OriginListed(allowOrigin: string, requestOrigin: string) {
    exists j :: 0 <= j < |Split(allowOrigin, ',')| && TrimSpace(Split(allowOrigin, ',')[j]) == requestOrigin
  }

  /** Whether `CORS` lets the request through its origin check: always
      under the wildcard, otherwise only when the origin is listed. */
  predicate Admitted(options: Option<CorsOptions>, requestOrigin: string) {
    ChosenOrigin(options) == "*" || OriginListed(ChosenOrigin(options), requestOrigin)
  }

  /** The allow-list loop of `CORS`, with its flag and early `break`. */
  method OriginAllowed(allowOrigin: string, requestOrigin: string) returns (allowed: bool)
    ensures allowed == OriginListed(allowOrigin, requestOrigin)
  {
    var allowedOrigins := Split(allowOrigin, ',');
    allowed := false;
    var i := 0;
    while i < |allowedOrigins|
      invariant 0 <= i <= |allowedOrigins|
      invariant !allowed
      invariant forall j :: 0 <= j < i ==> TrimSpace(allowedOrigins[j]) != requestOrigin
    {
      var entry := TrimSpace(allowedOrigins[i]);
      if entry == requestOrigin {
        allowed := true;
        assert TrimSpace(allowedOrigins[i]) == requestOrigin;
        break;
      }
      i := i + 1;
    }
    assert !allowed ==> !OriginListed(allowOrigin, requestOrigin);
  }

  /** `CORS(options)` applied to one request whose method is `requestMethod`
      and whose `Origin` header reads `requestOrigin` (empty when absent). */
  method Cors(options: Option<CorsOptions>, requestMethod: string, requestOrigin: string) returns (e: Effect)
    ensures e.nextCalls == 1 <==> Admitted(options, requestOrigin) && requestMethod != "OPTIONS"
    ensures e.nextCalls == 0 <==> !Admitted(options, requestOrigin) || requestMethod == "OPTIONS"
    ensures !Admitted(options, requestOrigin) ==>
      && e.status == 403 && e.body == CorsRejection
      && "Access-Control-Allow-Origin" !in e.headers
      && "Access-Control-Allow-Methods" !in e.headers
      && "Access-Control-Allow-Headers" !in e.headers
    ensures Admitted(options, requestOrigin) ==>
      && e.body == "" && e.status == (if requestMethod == "OPTIONS" then 204 else 0)
      && "Access-Control-Allow-Origin" in e.headers
      && e.headers["Access-Control-Allow-Origin"] == ChosenOrigin(options)
      && "Access-Control-Allow-Methods" in e.headers
      && e.headers["Access-Control-Allow-Methods"] == ChosenMethods(options)
      && "Access-Control-Allow-Headers" in e.headers
      && e.headers["Access-Control-Allow-Headers"] == ChosenHeaders(options)
    ensures "Content-Type" in e.headers <==> options.Some?
    ensures options.Some? ==>
      e.headers["Content-Type"] == (if options.value.contentType != "" then options.value.contentType else "application/json")
    ensures e.headers.Keys <= {"Content-Type", "Access-Control-Allow-Origin",
                               "Access-Control-Allow-Methods", "Access-Control-Allow-Headers"}
  {
    var origin := "*";
    var methods := DefaultMethods;
    var headers := DefaultHeaders;
    var hdrs: map<string, string> := map[];
    if options.Some? {
      var opts := options.value;
      if opts.allowOrigin != "" {
        origin := opts.allowOrigin;
      }
      if opts.allowMethods != "" {
        methods := opts.allowMethods;
      }
      if opts.allowHeaders != "" {
        headers := opts.allowHeaders;
      }
      if opts.contentType != "" {
        hdrs := hdrs["Content-Type" := opts.contentType];
      } else {
        hdrs := hdrs["Content-Type" := "application/json"];
      }
    }
    if origin != "*" {
      var originAllowed := OriginAllowed(origin, requestOrigin);
      if !originAllowed {
        return Effect(0, 403, hdrs, CorsRejection);
      }
    }
    hdrs := hdrs["Access-Control-Allow-Origin" := origin];
    hdrs := hdrs["Access-Control-Allow-Methods" := methods];
    hdrs := hdrs["Access-Control-Allow-Headers" := headers];
    if requestMethod == "OPTIONS" {
      return Effect(0, 204, hdrs, "");
    }
    return Effect(1, 0, hdrs, "");
  }

  /** An allow list with a trailing comma holds an empty entry, so a request
      without an `Origin` header (read as the empty string) is admitted. */
  lemma TrailingCommaAdmitsMissingOrigin(allowOrigin: string)
    ensures OriginListed(allowOrigin + ",", "")
  {
    SplitSnocSep(allowOrigin, ',');
    var parts := Split(allowOrigin + ",", ',');
    assert parts[|parts| - 1] == "";
    assert TrimSpace(parts[|parts| - 1]) == "";
  }

  // ---------------------------------------------------------------------
  // RateLimit

  class RateLimitOptions {
    var limit: int
    var window: int
    var remaining: int

    constructor (limit: int, window: int)
      ensures this.limit == limit && this.window == window && remaining == 0
    {
      this.limit := limit;
      this.window := window;
      remaining := 0;
    }
  }

  /** The package-wide `rateLimitStore`: requests counted per client
      address. */
  class RateLimitStore {
    var counts: map<string, int>

    constructor ()
      ensures counts == map[]
    {
      counts := map[];
    }
  }

  /** `rateLimitStore[clientIP]`: a client never seen counts zero. */
  function CountOf(counts: map<string, int>, client: string): int {
    if client in counts then counts[client] else 0
  }

  /** The count after one request from a client that had `count`. */
  function NextCount(count: int, limit: int): int {
    if count < limit then count + 1 else count
  }

  const RateLimitExceeded := "Rate limit exceeded"

  /** `RateLimit(options)` applied to one request from `clientIP`, the
      critical section taken as one step. */
  method RateLimit(options: RateLimitOptions?, store: RateLimitStore, clientIP: string) returns (e: Effect)
    modifies options, store
    ensures options == null || old(options.limit) <= 0 || old(options.window) <= 0 ==>
      e == Effect(1, 0, map[], "") && store.counts == old(store.counts)
      && (options != null ==> options.remaining == old(options.remaining))
    ensures options != null && old(options.limit) > 0 && old(options.window) > 0 ==>
      var count := CountOf(old(store.counts), clientIP);
      (count >= options.limit ==>
         e == Effect(0, 429, map[], RateLimitExceeded) && options.remaining == 0
         && store.counts == old(store.counts))
      && (count < options.limit ==>
         e == Effect(1, 0, map[], "") && options.remaining == options.limit - (count + 1)
         && store.counts == old(store.counts)[clientIP := NextCount(count, options.limit)])
    ensures options != null ==> options.limit == old(options.limit) && options.window == old(options.window)
  {
    if options == null || options.limit <= 0 || options.window <= 0 {
      return Effect(1, 0, map[], "");
    }
    var count := CountOf(store.counts, clientIP);
    if count >= options.limit {
      options.remaining := 0;
    } else {
      options.remaining := options.limit - count;
      store.counts := store.counts[clientIP := count + 1];
    }
    if options.remaining <= 0 {
      return Effect(0, 429, map[], RateLimitExceeded);
    }
    options.remaining := options.remaining - 1;
    return Effect(1, 0, map[], "");
  }

  /** The count after `n` requests from one client. */
  function CountAfter(count: int, limit: int, n: nat): int
    decreases n
  {
    if n == 0 then count else CountAfter(NextCount(count, limit), limit, n - 1)
  }

  /** How many of those `n` requests reach `next`. */
  function AdmittedOf(count: int, limit: int, n: nat): nat
    decreases n
  {
    if n == 0 then 0
    else (if count < limit then 1 else 0) + AdmittedOf(NextCount(count, limit), limit, n - 1)
  }

  function Min(a: int, b: int): int {
    if a <= b then a else b
  }

  /** Replaying `n` requests from a count at most the limit: the count climbs
      to the limit and stays there, and exactly `min(n, limit - count)`
      requests are admitted. Starting from zero the count therefore never
      exceeds the limit. */
  lemma {:induction false} Replay(count: int, limit: int, n: nat)
    requires count <= limit
    decreases n
    ensures CountAfter(count, limit, n) == Min(count + n, limit)
    ensures AdmittedOf(count, limit, n) == Min(n, limit - count)
  {
    if n > 0 {
      Replay(NextCount(count, limit), limit, n - 1);
    }
  }

  // ---------------------------------------------------------------------
  // Logs

  datatype LogOptions = LogOptions(enable: bool, format: string)

  const DefaultLogFormat := "{{.Method}} {{.Path}} - {{.StatusCode}}"

  /** `Logs(options)` as a chain step: it calls `next` once, first, and does
      its logging in the step after `next` has returned. */
  function Logs(options: Option<LogOptions>): (m: Middleware)
    ensures m.nextCalls == 1
  {
    Middleware("Logs", 1)
  }

  /** The template `Logs` fills after `next` returns; none when logging is
      off. */
  function LogTemplate(options: Option<LogOptions>): (t: Option<string>)
    ensures t.Some? <==> options.Some? && options.value.enable
    ensures t.Some? && options.value.format == "" ==> t.value == DefaultLogFormat
    ensures t.Some? && options.value.format != "" ==> t.value == options.value.format
  {
    if options.Some? && options.value.enable then
      Some(if options.value.format == "" then DefaultLogFormat else options.value.format)
    else None
  }

  /** Wherever `Logs` sits in the chain, its logging step comes after the
      whole downstream chain (the later middlewares and the handler) has run,
      exactly once. */
  lemma {:induction false} LogsWrapsDownstream(mws: seq<Middleware>, h: Handler, k: nat, options: Option<LogOptions>)
    requires k < |mws| && mws[k] == Logs(options)
    ensures Exec(mws, h, k) == [Enter(k)] + Exec(mws, h, k + 1) + [Leave(k)]
  {
    var rest := Exec(mws, h, k + 1);
    assert Repeat(rest, 1) == rest + Repeat(rest, 0);
    assert rest + [] == rest;
  }
}
