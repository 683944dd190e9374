/**
 The interceptors at work: they write the headers of one request object, which retries send again, and move one breaker.
 Proved to do what `Stack.Call` says, with other callers acting on the same breaker in between.
 */
module Clients {
  import opened Stack
  import opened Wrappers
  import B = Breaker
  import R = Retry

  class Request {
    var key: string
    var bearer: string

    constructor (key: string)
      ensures this.key == key && bearer == ""
    {
      this.key, bearer := key, "";
    }
  }

  class Client {
    const cfg: Settings
    const env: Env
    const stack: seq<Layer>
    const breaker: B.CircuitBreaker
    var trace: seq<Event>

    ghost predicate Valid()
      reads this, breaker, breaker.window
    {
      cfg.Normal() && breaker.Valid() && breaker.cfg == cfg.breaker
    }

    ghost function Meaning(req: Request): State
      reads this, req, breaker
    {
      State(req.key, req.bearer, breaker.Meaning(), trace)
    }

    ghost function Spec(depth: nat, p: Procedure, s: State): (State, Outcome)
      requires cfg.Normal() && depth <= |stack|
    {
      Call(cfg, env, stack[depth..], p, s)
    }

    lemma Unfold(depth: nat)
      requires depth < |stack|
      ensures stack[depth..] != [] && stack[depth..][0] == stack[depth] && stack[depth..][1..] == stack[depth + 1..]
    {
    }

    constructor (cfg: Settings, env: Env, stack: seq<Layer>)
      requires cfg.Normal()
      ensures Valid() && fresh(breaker) && fresh(breaker.window)
      ensures this.cfg == cfg && this.env == env && this.stack == stack && trace == [] && breaker.Meaning() == B.Init()
    {
      this.cfg, this.env, this.stack, trace := cfg, env, stack, [];
      breaker := new B.CircuitBreaker(cfg.breaker);
    }

    /** What other callers do to the shared breaker before event `n`. */
    method OthersAct(n: nat)
      requires Valid()
      modifies breaker, breaker.window
      ensures Valid() && breaker.Meaning() == B.Acted(cfg.breaker, old(breaker.Meaning()), env.others(n))
    {
      hide B.Allow, B.Record, B.Holds;
      var actions := env.others(n);
      for i := 0 to |actions|
        invariant Valid()
        invariant breaker.Meaning() == B.Acted(cfg.breaker, old(breaker.Meaning()), actions[..i])
      {
        assert actions[..i + 1][..i] == actions[..i];
        match actions[i]
        case Asks(now, later) => var _ := breaker.AllowCall(now, later);
        case Reports(failed, now) => breaker.RecordResult(failed, now);
      }
      assert actions[..|actions|] == actions;
    }

    /** The call as seen by the layer at this depth. */
    method Invoke(depth: nat, p: Procedure, req: Request) returns (out: Outcome)
      requires Valid() && depth <= |stack|
      modifies this`trace, req, breaker, breaker.window
      ensures Valid() && (Meaning(req), out) == Spec(depth, p, old(Meaning(req)))
      decreases |stack| - depth, 0
    {
      if depth == |stack| {
        out := env.server(|trace|);
        trace := trace + [Wire(req.key, req.bearer, out)];
        return;
      }
      Unfold(depth);
      match stack[depth]
      case Observe => out := Invoke(depth + 1, p, req);
      case Breaking => out := WrapBreaker(depth, p, req);
      case Idempotency => out := WrapIdempotency(depth, p, req);
      case Retrying => out := WrapRetry(depth, p, req);
      case Rotation => out := WrapRotation(depth, p, req);
      case Auth => out := WrapAuth(depth, p, req);
    }

    method WrapBreaker(depth: nat, p: Procedure, req: Request) returns (out: Outcome)
      requires Valid() && depth < |stack| && stack[depth].Breaking?
      modifies this`trace, req, breaker, breaker.window
      ensures Valid() && (Meaning(req), out) == Spec(depth, p, old(Meaning(req)))
      decreases |stack| - depth - 1, 2
    {
      Unfold(depth);
      hide B.Allow, B.Record, B.Holds;
      var now := env.now(|trace|);
      OthersAct(|trace|);
      var verdict := breaker.AllowCall(now, env.later(|trace|));
      if verdict.Rejected? {
        out := Err(UNAVAILABLE, Some(R.Max(verdict.retryAfter, 0)));
        trace := trace + [ShortCircuited(now, out)];
        return;
      }
      trace := trace + [Event.Admitted(now)];
      out := Invoke(depth + 1, p, req);
      now := env.now(|trace|);
      OthersAct(|trace|);
      breaker.RecordResult(IsFailure(cfg, out), now);
      trace := trace + [Recorded(IsFailure(cfg, out), now)];
    }

    method WrapIdempotency(depth: nat, p: Procedure, req: Request) returns (out: Outcome)
      requires Valid() && depth < |stack| && stack[depth].Idempotency?
      modifies this`trace, req, breaker, breaker.window
      ensures Valid() && (Meaning(req), out) == Spec(depth, p, old(Meaning(req)))
      decreases |stack| - depth - 1, 2
    {
      Unfold(depth);
      if !p.safe && req.key == "" {
        req.key := env.newKey(|trace|);
        trace := trace + [KeyDrawn(req.key)];
      }
      out := Invoke(depth + 1, p, req);
    }

    method WrapRetry(depth: nat, p: Procedure, req: Request) returns (out: Outcome)
      requires Valid() && depth < |stack| && stack[depth].Retrying?
      modifies this`trace, req, breaker, breaker.window
      ensures Valid() && (Meaning(req), out) == Spec(depth, p, old(Meaning(req)))
      decreases |stack| - depth - 1, 2
    {
      Unfold(depth);
      hide B.Allow, B.Record, R.NextDelay, R.Grow;
      if Gated(cfg, p) {
        out := Invoke(depth + 1, p, req);
        return;
      }
      var attempt, ceiling, prev := 1, cfg.retry.initial, cfg.retry.initial;
      ghost var inner := stack[depth + 1..];
      while true
        invariant Valid() && 1 <= attempt <= cfg.retry.maxAttempts
        invariant Spec(depth, p, old(Meaning(req))) == RetryFrom(cfg, env, inner, p, Meaning(req), attempt, ceiling, prev)
        decreases cfg.retry.maxAttempts - attempt
      {
        out := Invoke(depth + 1, p, req);
        if !IsRetryable(cfg, out) || attempt == cfg.retry.maxAttempts {
          return;
        }
        var n := |trace|;
        var delay := R.NextDelay(cfg.retry, out.hint, ceiling, prev, env.jitter(n));
        trace := trace + [Waited(delay)];
        if !env.wakes(n) {
          return;
        }
        prev, ceiling, attempt := delay, R.Grow(cfg.retry, ceiling), attempt + 1;
      }
    }

    method WrapRotation(depth: nat, p: Procedure, req: Request) returns (out: Outcome)
      requires Valid() && depth < |stack| && stack[depth].Rotation?
      modifies this`trace, req, breaker, breaker.window
      ensures Valid() && (Meaning(req), out) == Spec(depth, p, old(Meaning(req)))
      decreases |stack| - depth - 1, 2
    {
      Unfold(depth);
      out := Invoke(depth + 1, p, req);
      if RotationGated(cfg, p) || out.Ok? || out.code != UNAUTHENTICATED {
        return;
      }
      trace := trace + [Invalidated];
      out := Invoke(depth + 1, p, req);
    }

    method WrapAuth(depth: nat, p: Procedure, req: Request) returns (out: Outcome)
      requires Valid() && depth < |stack| && stack[depth].Auth?
      modifies this`trace, req, breaker, breaker.window
      ensures Valid() && (Meaning(req), out) == Spec(depth, p, old(Meaning(req)))
      decreases |stack| - depth - 1, 2
    {
      Unfold(depth);
      if !p.skipsAuth {
        var token := env.token(|trace|);
        trace := trace + [TokenDrawn(token)];
        if token.None? {
          return Err(UNAUTHENTICATED, None);
        }
        req.bearer := "Bearer " + token.value;
      }
      out := Invoke(depth + 1, p, req);
    }
  }
}
