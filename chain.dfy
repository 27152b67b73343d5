/** The onion middleware chain of `chainMiddlewares` (Go file http/routes.go).

    Go builds a closure `exec(index)` that hands middleware `index` a `next`
    callback running `exec(index + 1)`, and calls the handler once the index
    passes the end of the list. Middlewares are abstract here: each one is
    entered, calls `next` `nextCalls` times, and is left; the trace of those
    events is what the chain promises. */
module Chain {
  import opened Types

  datatype Event = Enter(index: nat) | Leave(index: nat) | Run(handler: Handler)

  /** `n` consecutive copies of the trace `t`: a middleware that calls `next`
      `n` times runs the rest of the chain `n` times. */
  function Repeat(t: seq<Event>, n: nat): (r: seq<Event>)
    ensures forall e :: e in r ==> e in t
  {
    if n == 0 then [] else t + Repeat(t, n - 1)
  }

  /** The events of `exec(i)`. */
  function Exec(mws: seq<Middleware>, h: Handler, i: nat): (trace: seq<Event>)
    requires i <= |mws|
    decreases |mws| - i
    ensures i == |mws| ==> trace == [Run(h)]
    ensures i < |mws| ==> |trace| >= 2 && trace[0] == Enter(i) && trace[|trace| - 1] == Leave(i)
  {
    if i == |mws| then [Run(h)]
    else [Enter(i)] + Repeat(Exec(mws, h, i + 1), mws[i].nextCalls) + [Leave(i)]
  }

  /** The handler `chainMiddlewares(middlewares, handler)` returns, applied to
      one context. */
  function ChainMiddlewares(mws: seq<Middleware>, h: Handler): (trace: seq<Event>)
    ensures |mws| == 0 ==> trace == [Run(h)]
    ensures |mws| > 0 ==> |trace| >= 2 && trace[0] == Enter(0) && trace[|trace| - 1] == Leave(0)
  {
    Exec(mws, h, 0)
  }

  function Enters(i: nat, n: nat): seq<Event>
    decreases n - i
  {
    if i >= n then [] else [Enter(i)] + Enters(i + 1, n)
  }

  function Leaves(i: nat, n: nat): seq<Event>
    decreases n - i
  {
    if i >= n then [] else Leaves(i + 1, n) + [Leave(i)]
  }

  predicate CallsNextOnce(mws: seq<Middleware>) {
    forall k :: 0 <= k < |mws| ==> mws[k].nextCalls == 1
  }

  lemma {:induction false} EntersLeavesShape(i: nat, n: nat)
    requires i <= n
    decreases n - i
    ensures |Enters(i, n)| == n - i && |Leaves(i, n)| == n - i
    ensures forall j :: i <= j < n ==> Enters(i, n)[j - i] == Enter(j)
    ensures forall j :: i <= j < n ==> Leaves(i, n)[n - 1 - j] == Leave(j)
  {
    if i < n {
      EntersLeavesShape(i + 1, n);
    }
  }

  /** When every middleware calls `next` exactly once, the trace is the onion:
      all middlewares entered in list order, the handler once, then all of them
      left in reverse order. */
  lemma {:induction false} OnionTrace(mws: seq<Middleware>, h: Handler, i: nat)
    requires i <= |mws| && CallsNextOnce(mws)
    decreases |mws| - i
    ensures Exec(mws, h, i) == Enters(i, |mws|) + [Run(h)] + Leaves(i, |mws|)
  {
    if i < |mws| {
      OnionTrace(mws, h, i + 1);
      var n := |mws|;
      var rest := Exec(mws, h, i + 1);
      assert Repeat(rest, 1) == rest + [] == rest;
      calc {
        Exec(mws, h, i);
        [Enter(i)] + rest + [Leave(i)];
        [Enter(i)] + (Enters(i + 1, n) + [Run(h)] + Leaves(i + 1, n)) + [Leave(i)];
        ([Enter(i)] + Enters(i + 1, n)) + [Run(h)] + (Leaves(i + 1, n) + [Leave(i)]);
        Enters(i, n) + [Run(h)] + Leaves(i, n);
      }
    } else {
      assert Enters(i, |mws|) == [] && Leaves(i, |mws|) == [];
    }
  }

  /** The onion spelled out by position: middleware `j` is entered at step `j`,
      the handler runs at step `n`, and middleware `j` is left at the mirrored
      step, so middleware `j` is entered before middleware `j + 1` and left
      after it. */
  lemma OnionPositions(mws: seq<Middleware>, h: Handler)
    requires CallsNextOnce(mws)
    ensures var trace := ChainMiddlewares(mws, h);
      var n := |mws|;
      |trace| == 2 * n + 1
      && trace[n] == Run(h)
      && (forall j :: 0 <= j < n ==> trace[j] == Enter(j))
      && (forall j :: 0 <= j < n ==> trace[2 * n - j] == Leave(j))
  {
    OnionTrace(mws, h, 0);
    EntersLeavesShape(0, |mws|);
    var n := |mws|;
    var trace := ChainMiddlewares(mws, h);
    assert trace == Enters(0, n) + [Run(h)] + Leaves(0, n);
    forall j | 0 <= j < n
      ensures trace[2 * n - j] == Leave(j)
    {
      assert trace[2 * n - j] == Leaves(0, n)[n - 1 - j];
    }
  }

  /** `Run(h)` is never in a trace of `exec(i)` that reaches a middleware at or
      after `i` which does not call `next`, and no middleware after it is
      entered. */
  lemma {:induction false} ShortCircuit(mws: seq<Middleware>, h: Handler, i: nat, k: nat)
    requires i <= k < |mws| && mws[k].nextCalls == 0
    decreases k - i
    ensures Run(h) !in Exec(mws, h, i)
    ensures forall j :: k < j < |mws| ==> Enter(j) !in Exec(mws, h, i)
  {
    if i == k {
      assert Repeat(Exec(mws, h, i + 1), 0) == [];
      assert Exec(mws, h, i) == [Enter(i), Leave(i)];
    } else {
      ShortCircuit(mws, h, i + 1, k);
    }
  }

  /** `exec(i)` only enters and leaves middlewares from `i` on, and only runs
      the handler it was given. */
  lemma {:induction false} ExecEvents(mws: seq<Middleware>, h: Handler, i: nat)
    requires i <= |mws|
    decreases |mws| - i
    ensures forall e :: e in Exec(mws, h, i) ==> (e.Run? && e.handler == h) || (!e.Run? && i <= e.index < |mws|)
  {
    if i < |mws| {
      ExecEvents(mws, h, i + 1);
      var mid := Repeat(Exec(mws, h, i + 1), mws[i].nextCalls);
      assert Exec(mws, h, i) == [Enter(i)] + mid + [Leave(i)];
    }
  }

  /** Every `Leave(j)` comes after every event of the downstream chain it
      wrapped: in `exec(i)` the only `Leave(i)` is the final event and the only
      `Enter(i)` the first, so code after `next()` runs only once the rest of
      the chain has returned. */
  lemma Nested(mws: seq<Middleware>, h: Handler, i: nat)
    requires i < |mws|
    ensures var trace := Exec(mws, h, i);
      forall p :: 0 < p < |trace| - 1 ==> trace[p] != Leave(i) && trace[p] != Enter(i)
  {
    var trace := Exec(mws, h, i);
    var mid := Repeat(Exec(mws, h, i + 1), mws[i].nextCalls);
    assert trace == [Enter(i)] + mid + [Leave(i)];
    forall p | 0 < p < |trace| - 1
      ensures trace[p] != Leave(i) && trace[p] != Enter(i)
    {
      assert trace[p] == mid[p - 1];
      assert mid[p - 1] in mid;
      ExecEvents(mws, h, i + 1);
    }
  }

  /** How many times the handler runs: the product of the `next` calls. */
  function RunCount(mws: seq<Middleware>, i: nat): nat
    requires i <= |mws|
    decreases |mws| - i
  {
    if i == |mws| then 1 else mws[i].nextCalls * RunCount(mws, i + 1)
  }

  lemma {:induction false} RepeatCount(t: seq<Event>, n: nat, e: Event)
    ensures multiset(Repeat(t, n))[e] == n * multiset(t)[e]
  {
    if n > 0 {
      RepeatCount(t, n - 1, e);
      assert multiset(t + Repeat(t, n - 1)) == multiset(t) + multiset(Repeat(t, n - 1));
      assert n * multiset(t)[e] == multiset(t)[e] + (n - 1) * multiset(t)[e];
    }
  }

  /** Entering and leaving middleware `i` adds no handler run. */
  lemma WrapCount(mid: seq<Event>, i: nat, h: Handler)
    ensures multiset([Enter(i)] + mid + [Leave(i)])[Run(h)] == multiset(mid)[Run(h)]
  {
    assert multiset([Enter(i)] + mid + [Leave(i)]) == multiset([Enter(i)]) + multiset(mid) + multiset([Leave(i)]);
  }

  /** The handler runs exactly `RunCount` times; in particular once when every
      middleware calls `next` once, and never when one of them does not. */
  lemma {:induction false} HandlerRuns(mws: seq<Middleware>, h: Handler, i: nat)
    requires i <= |mws|
    decreases |mws| - i
    ensures multiset(Exec(mws, h, i))[Run(h)] == RunCount(mws, i)
  {
    if i < |mws| {
      HandlerRuns(mws, h, i + 1);
      var mid := Repeat(Exec(mws, h, i + 1), mws[i].nextCalls);
      RepeatCount(Exec(mws, h, i + 1), mws[i].nextCalls, Run(h));
      WrapCount(mid, i, h);
    }
  }
}
