/** Shared entities of the router (Go file http/types.go) and the small
    wrappers used to model Go panics and optional values. */
module Types {

  datatype Option<+T> = None | Some(value: T)

  /** A call that returns nothing in Go either finishes or panics. */
  datatype Outcome = Done | Panicked(message: string)

  /** A call that returns a value in Go either returns it or panics. */
  datatype Result<+T> = Ok(value: T) | Panic(message: string)

  /** A Go `Handler` is a function value that may be nil; a non-nil handler is
      identified by an opaque number so that traces can name it. */
  datatype Handler = Nil | Fn(id: nat)

  /** A middleware is abstracted as a trace-emitting step: it runs its own code,
      calls `next` `nextCalls` times (the source does not guard against calling
      it more than once), then runs its code after `next`. */
  datatype Middleware = Middleware(name: string, nextCalls: nat)

  /** A registered endpoint (Go struct `Route`). The `name` field is the one that
      `RouteChain.Name` stamps. */
  datatype Route = Route(
    methods: seq<string>,
    path: string,
    handler: Handler,
    params: seq<string>,
    middlewares: seq<Middleware>,
    name: string)

  /** The seven verbs that `Add` registers and that `Router.AddRoute` uses for an
      empty method list. */
  const AllVerbs: seq<string> := ["GET", "POST", "PUT", "DELETE", "PATCH", "OPTIONS", "HEAD"]

  predicate HasParams(r: Route) {
    |r.params| > 0
  }

  /** Go's `m[k]` on a map of slices: a missing key reads as the empty slice. */
  function Lookup<K, V>(m: map<K, seq<V>>, k: K): (r: seq<V>)
    ensures k in m ==> r == m[k]
    ensures k !in m ==> r == []
  {
    if k in m then m[k] else []
  }
}
