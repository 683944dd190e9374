/**
 Why each event of a call happens, for every stack: when a breaker records a failure, when a call waits and how long, when
 the token is invalidated. Said of the trace alone: of the last outcome before the event, and of what is configured.
 */
module StackEvents {
  import opened Stack
  import opened StackTheorems
  import opened Wrappers
  import B = Breaker
  import R = Retry

  /** The outcome says that the call failed with one of these codes. */
  predicate FailedWith(last: Option<Outcome>, codes: set<Code>) {
    last.Some? && last.value.Err? && last.value.code in codes
  }

  /** This is a right delay before some retry that the configuration allows. */
  ghost predicate DelayAllowed(cfg: R.Config, hint: Option<int>, jitter: real, delay: int) {
    exists k: nat, prev: int :: 1 <= k < cfg.maxAttempts && R.RightDelay(cfg, hint, k, prev, jitter, delay)
  }

  /**
   What must have happened for event `i` to happen, in terms of the last outcome before it: waits follow retryable errors
   and last as long as the hint says, or as the strategy draws; tokens are invalidated after unauthenticated errors only;
   records say what the failure codes say; no layer acts that is not there or that its gate keeps out.
   */
  ghost predicate Justified(cfg: Settings, env: Env, stack: seq<Layer>, p: Procedure, t: seq<Event>, i: nat)
    requires i < |t|
  {
    var last := LastOutcome(t[..i]);
    match t[i]
    case Waited(delay) =>
      && Retrying in stack && (cfg.retry.allowNonIdempotent || !p.idempotencyUnknown)
      && FailedWith(last, cfg.retryableCodes)
      && (Draws(env) ==> DelayAllowed(cfg.retry, last.value.hint, env.jitter(i), delay))
    case Invalidated =>
      && Rotation in stack && (cfg.rotateNonIdempotent || !p.idempotencyUnknown)
      && FailedWith(last, {UNAUTHENTICATED})
    case Recorded(failed, now) =>
      && Breaking in stack && last.Some? && now == env.now(i)
      && (failed <==> FailedWith(last, cfg.failureCodes))
    case Admitted(now) => Breaking in stack && now == env.now(i)
    case ShortCircuited(now, out) =>
      Breaking in stack && now == env.now(i) && out.Err? && out.code == UNAVAILABLE && out.hint.Some? && out.hint.value >= 0
    case KeyDrawn(key) => Idempotency in stack && !p.safe && key == env.newKey(i)
    case TokenDrawn(token) => Auth in stack && !p.skipsAuth && token == env.token(i)
    case Wire(_, _, out) => out == env.server(i)
  }

  /** Something happens, and all of it is justified. */
  ghost predicate Lawful(cfg: Settings, env: Env, stack: seq<Layer>, p: Procedure, s: State, s1: State) {
    s.trace < s1.trace && AllJustified(cfg, env, stack, p, s1.trace, |s.trace|)
  }

  ghost predicate AllJustified(cfg: Settings, env: Env, stack: seq<Layer>, p: Procedure, t: seq<Event>, from: nat) {
    forall i | from <= i < |t| :: Justified(cfg, env, stack, p, t, i)
  }

  /** Later events do not matter, nor do further layers. */
  lemma StillJustified(
      cfg: Settings, env: Env, stack: seq<Layer>, more: seq<Layer>, p: Procedure, t: seq<Event>, from: nat, e: Event)
    requires AllJustified(cfg, env, stack, p, t, from) && from <= |t|
    requires forall l | l in stack :: l in more
    requires Justified(cfg, env, more, p, t + [e], |t|)
    ensures AllJustified(cfg, env, more, p, t + [e], from)
  {
    forall i | from <= i < |t| ensures Justified(cfg, env, more, p, t + [e], i) {
      assert (t + [e])[..i] == t[..i];
      assert Justified(cfg, env, stack, p, t, i);
    }
  }

  lemma NoneYet(cfg: Settings, env: Env, stack: seq<Layer>, p: Procedure, t: seq<Event>)
    ensures AllJustified(cfg, env, stack, p, t, |t|)
  {
  }

  lemma ThenJustified(
      cfg: Settings, env: Env, stack: seq<Layer>, more: seq<Layer>, p: Procedure, t: seq<Event>, t1: seq<Event>, from: nat)
    requires from <= |t| && t <= t1 && AllJustified(cfg, env, more, p, t, from)
    requires AllJustified(cfg, env, stack, p, t1, |t|)
    requires forall l | l in stack :: l in more
    ensures AllJustified(cfg, env, more, p, t1, from)
  {
    forall i | from <= i < |t1| ensures Justified(cfg, env, more, p, t1, i) {
      if i < |t| {
        assert t1[..i] == t[..i];
        assert Justified(cfg, env, more, p, t, i);
      } else {
        assert Justified(cfg, env, stack, p, t1, i);
      }
    }
  }

  /** One event before what the layers inside do. */
  lemma AfterEvent(
      cfg: Settings, env: Env, stack: seq<Layer>, p: Procedure, s: State, e: Event, s0: State, s1: State)
    requires stack != [] && s0.trace == s.trace + [e] && Lawful(cfg, env, stack[1..], p, s0, s1)
    requires Justified(cfg, env, stack, p, s.trace + [e], |s.trace|)
    ensures Lawful(cfg, env, stack, p, s, s1)
  {
    hide Justified;
    NoneYet(cfg, env, stack, p, s.trace);
    StillJustified(cfg, env, stack, stack, p, s.trace, |s.trace|, e);
    ThenJustified(cfg, env, stack[1..], stack, p, s0.trace, s1.trace, |s.trace|);
  }

  lemma MoreLayers(cfg: Settings, env: Env, stack: seq<Layer>, p: Procedure, s: State, s1: State)
    requires stack != [] && Lawful(cfg, env, stack[1..], p, s, s1)
    ensures Lawful(cfg, env, stack, p, s, s1)
  {
    hide Justified;
    NoneYet(cfg, env, stack, p, s.trace);
    ThenJustified(cfg, env, stack[1..], stack, p, s.trace, s1.trace, |s.trace|);
  }

  lemma {:induction false} EventsAreJustified(cfg: Settings, env: Env, stack: seq<Layer>, p: Procedure, s: State)
    requires cfg.Normal()
    ensures Lawful(cfg, env, stack, p, s, Call(cfg, env, stack, p, s).0)
    decreases |stack|, 0
  {
    var n := |s.trace|;
    hide RetryFrom, Lawful, AllJustified, LastOutcome, B.Acted, B.Allow, B.Record, DelayAllowed;
    if stack == [] {
      OneEvent(cfg, env, stack, p, s, Wire(s.key, s.bearer, env.server(n)));
    } else {
      var inner := stack[1..];
      match stack[0]
      case Observe =>
        EventsAreJustified(cfg, env, inner, p, s);
        MoreLayers(cfg, env, stack, p, s, Call(cfg, env, inner, p, s).0);
      case Breaking => BreakerEventsAreJustified(cfg, env, stack, p, s);
      case Idempotency =>
        if p.safe || s.key != "" {
          EventsAreJustified(cfg, env, inner, p, s);
          MoreLayers(cfg, env, stack, p, s, Call(cfg, env, inner, p, s).0);
        } else {
          var s0 := Log(s.(key := env.newKey(n)), KeyDrawn(env.newKey(n)));
          EventsAreJustified(cfg, env, inner, p, s0);
          AfterEvent(cfg, env, stack, p, s, KeyDrawn(env.newKey(n)), s0, Call(cfg, env, inner, p, s0).0);
        }
      case Retrying =>
        if Gated(cfg, p) {
          EventsAreJustified(cfg, env, inner, p, s);
          MoreLayers(cfg, env, stack, p, s, Call(cfg, env, inner, p, s).0);
        } else {
          RetryEventsAreJustified(cfg, env, stack, p, s, 1, cfg.retry.initial);
        }
      case Rotation => RotationEventsAreJustified(cfg, env, stack, p, s);
      case Auth =>
        if p.skipsAuth {
          EventsAreJustified(cfg, env, inner, p, s);
          MoreLayers(cfg, env, stack, p, s, Call(cfg, env, inner, p, s).0);
        } else if env.token(n).None? {
          OneEvent(cfg, env, stack, p, s, TokenDrawn(None));
        } else {
          var s0 := WithToken(s, env.token(n).value);
          EventsAreJustified(cfg, env, inner, p, s0);
          AfterEvent(cfg, env, stack, p, s, TokenDrawn(env.token(n)), s0, Call(cfg, env, inner, p, s0).0);
        }
    }
  }

  lemma OneEvent(cfg: Settings, env: Env, stack: seq<Layer>, p: Procedure, s: State, e: Event)
    requires Justified(cfg, env, stack, p, s.trace + [e], |s.trace|)
    ensures Lawful(cfg, env, stack, p, s, Log(s, e))
  {
    hide Justified;
  }

  lemma {:induction false} BreakerEventsAreJustified(cfg: Settings, env: Env, stack: seq<Layer>, p: Procedure, s: State)
    requires cfg.Normal() && stack != [] && stack[0].Breaking?
    ensures Lawful(cfg, env, stack, p, s, Call(cfg, env, stack, p, s).0)
    decreases |stack| - 1, 1
  {
    hide Lawful, AllJustified, LastOutcome, B.Acted, B.Allow, B.Record, DelayAllowed, Accounted;
    var n, inner := |s.trace|, stack[1..];
    var (core, verdict) := B.Allow(cfg.breaker, B.Acted(cfg.breaker, s.core, env.others(n)), env.now(n), env.later(n));
    if verdict.Rejected? {
      var out := Err(UNAVAILABLE, Some(R.Max(verdict.retryAfter, 0)));
      OneEvent(cfg, env, stack, p, s, ShortCircuited(env.now(n), out));
      SameEvents(cfg, env, stack, p, s, Log(s, ShortCircuited(env.now(n), out)), Call(cfg, env, stack, p, s).0);
    } else {
      var s0 := Log(s.(core := core), Event.Admitted(env.now(n)));
      EventsAreJustified(cfg, env, inner, p, s0);
      var (s1, out) := Call(cfg, env, inner, p, s0);
      AfterEvent(cfg, env, stack, p, s, Event.Admitted(env.now(n)), s0, s1);
      LastIsReturned(cfg, env, inner, p, s0);
      var m := |s1.trace|;
      var e := Recorded(IsFailure(cfg, out), env.now(m));
      assert (s1.trace + [e])[..m] == s1.trace;
      LaterEvent(cfg, env, stack, p, s, s1, e);
      SameEvents(cfg, env, stack, p, s, Log(s1, e), Call(cfg, env, stack, p, s).0);
    }
  }

  lemma SameEvents(cfg: Settings, env: Env, stack: seq<Layer>, p: Procedure, s: State, s1: State, s2: State)
    requires Lawful(cfg, env, stack, p, s, s1) && s2.trace == s1.trace
    ensures Lawful(cfg, env, stack, p, s, s2)
  {
  }

  lemma LaterEvent(cfg: Settings, env: Env, stack: seq<Layer>, p: Procedure, s: State, s1: State, e: Event)
    requires Lawful(cfg, env, stack, p, s, s1) && Justified(cfg, env, stack, p, s1.trace + [e], |s1.trace|)
    ensures Lawful(cfg, env, stack, p, s, Log(s1, e))
  {
    hide Justified;
    StillJustified(cfg, env, stack, stack, p, s1.trace, |s.trace|, e);
  }

  lemma LastIsReturned(cfg: Settings, env: Env, stack: seq<Layer>, p: Procedure, s: State)
    requires cfg.Normal()
    ensures LastOutcome(Call(cfg, env, stack, p, s).0.trace) == Some(Call(cfg, env, stack, p, s).1)
  {
    CallIsAccounted(cfg, env, stack, p, s);
    hide Call;
  }

  lemma {:induction false} RotationEventsAreJustified(cfg: Settings, env: Env, stack: seq<Layer>, p: Procedure, s: State)
    requires cfg.Normal() && stack != [] && stack[0].Rotation?
    ensures Lawful(cfg, env, stack, p, s, Call(cfg, env, stack, p, s).0)
    decreases |stack| - 1, 1
  {
    hide Lawful, AllJustified, LastOutcome, DelayAllowed;
    var inner := stack[1..];
    var (s1, out) := Call(cfg, env, inner, p, s);
    EventsAreJustified(cfg, env, inner, p, s);
    MoreLayers(cfg, env, stack, p, s, s1);
    if !RotationGated(cfg, p) && out.Err? && out.code == UNAUTHENTICATED {
      LastIsReturned(cfg, env, inner, p, s);
      assert (s1.trace + [Invalidated])[..|s1.trace|] == s1.trace;
      LaterEvent(cfg, env, stack, p, s, s1, Invalidated);
      var s2 := Log(s1, Invalidated);
      EventsAreJustified(cfg, env, inner, p, s2);
      ThenLawful(cfg, env, stack, p, s, s2, Call(cfg, env, inner, p, s2).0);
    }
  }

  lemma ThenLawful(cfg: Settings, env: Env, stack: seq<Layer>, p: Procedure, s: State, s1: State, s2: State)
    requires stack != [] && Lawful(cfg, env, stack, p, s, s1) && Lawful(cfg, env, stack[1..], p, s1, s2)
    ensures Lawful(cfg, env, stack, p, s, s2)
  {
    hide Justified;
    ThenJustified(cfg, env, stack[1..], stack, p, s1.trace, s2.trace, |s.trace|);
  }

  lemma {:induction false} RetryEventsAreJustified(
      cfg: Settings, env: Env, stack: seq<Layer>, p: Procedure, s: State, attempt: int, prev: int)
    requires cfg.Normal() && stack != [] && stack[0].Retrying? && !Gated(cfg, p) && 1 <= attempt <= cfg.retry.maxAttempts
    ensures Lawful(cfg, env, stack, p, s,
                   RetryFrom(cfg, env, stack[1..], p, s, attempt, R.Ceiling(cfg.retry, attempt - 1), prev).0)
    decreases |stack| - 1, 1 + cfg.retry.maxAttempts - attempt
  {
    hide Call, Lawful, AllJustified, LastOutcome, R.NextDelay, R.Grow, R.RightDelay;
    var inner, ceiling := stack[1..], R.Ceiling(cfg.retry, attempt - 1);
    var (s1, out) := Call(cfg, env, inner, p, s);
    EventsAreJustified(cfg, env, inner, p, s);
    MoreLayers(cfg, env, stack, p, s, s1);
    if IsRetryable(cfg, out) && attempt != cfg.retry.maxAttempts {
      var n := |s1.trace|;
      var delay := R.NextDelay(cfg.retry, out.hint, ceiling, prev, env.jitter(n));
      LastIsReturned(cfg, env, inner, p, s);
      assert (s1.trace + [Waited(delay)])[..n] == s1.trace;
      if Draws(env) {
        R.NextDelayIsRight(cfg.retry, out.hint, attempt, prev, env.jitter(n));
        assert DelayAllowed(cfg.retry, out.hint, env.jitter(n), delay);
      }
      var s2 := Log(s1, Waited(delay));
      LaterEvent(cfg, env, stack, p, s, s1, Waited(delay));
      if env.wakes(n) {
        RetryEventsAreJustified(cfg, env, stack, p, s2, attempt + 1, delay);
        assert R.Ceiling(cfg.retry, attempt) == R.Grow(cfg.retry, ceiling);
        var s3 := RetryFrom(cfg, env, inner, p, s2, attempt + 1, R.Ceiling(cfg.retry, attempt), delay).0;
        BothLawful(cfg, env, stack, p, s, s2, s3);
      }
    }
  }

  lemma BothLawful(cfg: Settings, env: Env, stack: seq<Layer>, p: Procedure, s: State, s1: State, s2: State)
    requires Lawful(cfg, env, stack, p, s, s1) && Lawful(cfg, env, stack, p, s1, s2)
    ensures Lawful(cfg, env, stack, p, s, s2)
  {
    hide Justified;
    ThenJustified(cfg, env, stack, stack, p, s1.trace, s2.trace, |s.trace|);
  }
}
