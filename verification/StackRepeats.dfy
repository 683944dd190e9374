/** How often, and when, a call is made again: by rotation and by retry, exactly. */
module StackRepeats {
  import opened Stack
  import opened StackTheorems
  import opened StackEvents
  import opened Wrappers
  import B = Breaker
  import R = Retry

  /**
   Rotation around layers that do not rotate, for a procedure that may be sent again. The token is invalidated once if the
   first run ends with an unauthenticated error, and then one more run follows, whose outcome is returned; otherwise it is
   never invalidated, and the first run is all that happens.
   */
  lemma RotationIsExact(cfg: Settings, env: Env, inner: seq<Layer>, p: Procedure, s: State)
    requires cfg.Normal() && Rotation !in inner && (cfg.rotateNonIdempotent || !p.idempotencyUnknown)
    ensures var (first, out) := Call(cfg, env, inner, p, s);
            var (s1, final) := Call(cfg, env, [Rotation] + inner, p, s);
            var rejected := out.Err? && out.code == UNAUTHENTICATED;
            && (forall i | |s.trace| <= i < |s1.trace| :: s1.trace[i].Invalidated? <==> rejected && i == |first.trace|)
            && (rejected ==> first.trace + [Invalidated] < s1.trace &&
                             (s1, final) == Call(cfg, env, inner, p, Log(first, Invalidated)))
            && (!rejected ==> s1 == first && final == out)
  {
    assert ([Rotation] + inner)[1..] == inner;
    var (first, out) := Call(cfg, env, inner, p, s);
    var (s1, final) := Call(cfg, env, [Rotation] + inner, p, s);
    var again := Call(cfg, env, inner, p, Log(first, Invalidated));
    assert (s1, final) == if out.Err? && out.code == UNAUTHENTICATED then again else (first, out);
    hide Call;
    EventsAreJustified(cfg, env, inner, p, s);
    EventsAreJustified(cfg, env, inner, p, Log(first, Invalidated));
    NeverInvalidates(cfg, env, inner, p, first.trace, |s.trace|);
    NeverInvalidates(cfg, env, inner, p, again.0.trace, |first.trace| + 1);
    hide AllJustified;
  }

  lemma NeverInvalidates(cfg: Settings, env: Env, stack: seq<Layer>, p: Procedure, t: seq<Event>, from: nat)
    requires Rotation !in stack && AllJustified(cfg, env, stack, p, t, from)
    ensures forall i | from <= i < |t| :: !t[i].Invalidated?
  {
    forall i | from <= i < |t| ensures !t[i].Invalidated? {
      assert Justified(cfg, env, stack, p, t, i);
    }
  }

  // ---------------------------------------------------------------- retry

  /** The positions of the waits from event `from` on. */
  function Waits(t: seq<Event>, from: nat): seq<nat> {
    if |t| <= from then [] else Waits(t[..|t| - 1], from) + if t[|t| - 1].Waited? then [|t| - 1] else []
  }

  lemma {:induction false} WaitsAre(t: seq<Event>, from: nat, i: nat)
    ensures i in Waits(t, from) <==> from <= i < |t| && t[i].Waited?
  {
    if |t| > from {
      WaitsAre(t[..|t| - 1], from, i);
    }
  }

  lemma {:induction false} WaitsRise(t: seq<Event>, from: nat, j: nat)
    requires j + 1 < |Waits(t, from)|
    ensures Waits(t, from)[j] < Waits(t, from)[j + 1]
  {
    var earlier := Waits(t[..|t| - 1], from);
    if j + 1 < |earlier| {
      WaitsRise(t[..|t| - 1], from, j);
    } else {
      WaitsAre(t[..|t| - 1], from, earlier[j]);
    }
  }

  lemma {:induction false} NoWaits(t: seq<Event>, from: nat)
    requires forall i | from <= i < |t| :: !t[i].Waited?
    ensures Waits(t, from) == []
  {
    if |t| > from {
      NoWaits(t[..|t| - 1], from);
    }
  }

  lemma {:induction false} WaitsSplit(t: seq<Event>, from: nat, mid: nat)
    requires from <= mid <= |t|
    ensures Waits(t, from) == Waits(t[..mid], from) + Waits(t, mid)
  {
    if mid == |t| {
      assert t[..mid] == t;
    } else {
      assert t[..|t| - 1][..mid] == t[..mid];
      WaitsSplit(t[..|t| - 1], from, mid);
    }
  }

  lemma NeverWaits(cfg: Settings, env: Env, stack: seq<Layer>, p: Procedure, t: seq<Event>, from: nat)
    requires Retrying !in stack && AllJustified(cfg, env, stack, p, t, from)
    ensures Waits(t, from) == []
  {
    forall i | from <= i < |t| ensures !t[i].Waited? {
      assert Justified(cfg, env, stack, p, t, i);
    }
    NoWaits(t, from);
  }

  /** The j-th of these waits, after attempt `attempt + j`, with `prev` the delay before the first of them. */
  ghost predicate RightWait(cfg: Settings, env: Env, t: seq<Event>, waits: seq<nat>, attempt: int, prev: int, j: nat)
    requires j < |waits| && attempt >= 1
  {
    var i := waits[j];
    && i < |t| && t[i].Waited?
    && FailedWith(LastOutcome(t[..i]), cfg.retryableCodes)
    && (j > 0 ==> waits[j - 1] < |t| && t[waits[j - 1]].Waited?)
    && R.RightDelay(cfg.retry, LastOutcome(t[..i]).value.hint, attempt + j, if j == 0 then prev else t[waits[j - 1]].delay,
                    env.jitter(i), t[i].delay)
    && (env.wakes(i) <==> i < |t| - 1)
  }

  /**
   The trace of a retry loop from its attempt number `attempt` on. It waits at most once after each attempt but the last
   allowed one, each time after a retryable error and for the right delay, and goes on exactly if the wait was not cut short;
   and it gives up on a retryable error only when all attempts are made or the wait was cut short.
   */
  ghost predicate RetriedRight(cfg: Settings, env: Env, t: seq<Event>, from: nat, out: Outcome, attempt: int, prev: int)
    requires attempt >= 1
  {
    var waits := Waits(t, from);
    && |waits| <= cfg.retry.maxAttempts - attempt
    && (forall j: nat | j < |waits| :: RightWait(cfg, env, t, waits, attempt, prev, j))
    && (FailedWith(Some(out), cfg.retryableCodes) ==>
          |waits| == cfg.retry.maxAttempts - attempt || (waits != [] && !env.wakes(waits[|waits| - 1])))
    && LastOutcome(t) == Some(out)
  }

  lemma OneMoreWait(t: seq<Event>, from: nat, n: nat)
    requires from <= n < |t| && t[n].Waited? && Waits(t[..n], from) == []
    ensures Waits(t, from) == [n] + Waits(t, n + 1)
  {
    WaitsSplit(t, from, n + 1);
    assert t[..n + 1][..n] == t[..n];
  }

  lemma OneWait(
      cfg: Settings, env: Env, t: seq<Event>, n: nat, from: nat, out: Outcome, attempt: int, prev: int, final: Outcome)
    requires attempt >= 1 && from <= n && n + 1 < |t| && t[n].Waited? && env.wakes(n) && Waits(t[..n], from) == []
    requires LastOutcome(t[..n]) == Some(out) && FailedWith(Some(out), cfg.retryableCodes)
    requires R.RightDelay(cfg.retry, out.hint, attempt, prev, env.jitter(n), t[n].delay)
    requires RetriedRight(cfg, env, t, n + 1, final, attempt + 1, t[n].delay)
    ensures RetriedRight(cfg, env, t, from, final, attempt, prev)
  {
    hide R.RightDelay, FailedWith, LastOutcome, Waits, RightWait;
    OneMoreWait(t, from, n);
    var rest, waits := Waits(t, n + 1), Waits(t, from);
    FirstWait(cfg, env, t, waits, out, attempt, prev);
    forall j: nat | 0 < j < |waits| ensures RightWait(cfg, env, t, waits, attempt, prev, j) {
      assert RightWait(cfg, env, t, rest, attempt + 1, t[n].delay, j - 1);
      LaterWait(cfg, env, t, rest, n, attempt, prev, j - 1);
    }
  }

  lemma FirstWait(cfg: Settings, env: Env, t: seq<Event>, waits: seq<nat>, out: Outcome, attempt: int, prev: int)
    requires attempt >= 1 && waits != [] && waits[0] + 1 < |t| && t[waits[0]].Waited? && env.wakes(waits[0])
    requires LastOutcome(t[..waits[0]]) == Some(out) && FailedWith(Some(out), cfg.retryableCodes)
    requires R.RightDelay(cfg.retry, out.hint, attempt, prev, env.jitter(waits[0]), t[waits[0]].delay)
    ensures RightWait(cfg, env, t, waits, attempt, prev, 0)
  {
    hide R.RightDelay, LastOutcome;
  }

  lemma LaterWait(
      cfg: Settings, env: Env, t: seq<Event>, rest: seq<nat>, n: nat, attempt: int, prev: int, j: nat)
    requires attempt >= 1 && j < |rest| && n < |t| && t[n].Waited?
    requires RightWait(cfg, env, t, rest, attempt + 1, t[n].delay, j)
    ensures RightWait(cfg, env, t, [n] + rest, attempt, prev, j + 1)
  {
    hide R.RightDelay, FailedWith, LastOutcome;
  }

  lemma {:induction false} RetriesFollow(
      cfg: Settings, env: Env, inner: seq<Layer>, p: Procedure, s: State, attempt: int, prev: int)
    requires cfg.Normal() && Draws(env) && Retrying !in inner && 1 <= attempt <= cfg.retry.maxAttempts
    ensures var (s1, out) := RetryFrom(cfg, env, inner, p, s, attempt, R.Ceiling(cfg.retry, attempt - 1), prev);
            s.trace < s1.trace && RetriedRight(cfg, env, s1.trace, |s.trace|, out, attempt, prev)
    decreases cfg.retry.maxAttempts - attempt
  {
    hide Call, R.NextDelay, R.Grow, R.RightDelay, AllJustified, LastOutcome, RetriedRight;
    var ceiling := R.Ceiling(cfg.retry, attempt - 1);
    var (s1, out) := Call(cfg, env, inner, p, s);
    EventsAreJustified(cfg, env, inner, p, s);
    NeverWaits(cfg, env, inner, p, s1.trace, |s.trace|);
    LastIsReturned(cfg, env, inner, p, s);
    if !IsRetryable(cfg, out) || attempt == cfg.retry.maxAttempts {
      LastAttempt(cfg, env, s1.trace, |s.trace|, out, attempt, prev);
    } else {
      var n := |s1.trace|;
      var delay := R.NextDelay(cfg.retry, out.hint, ceiling, prev, env.jitter(n));
      R.NextDelayIsRight(cfg.retry, out.hint, attempt, prev, env.jitter(n));
      var s2 := Log(s1, Waited(delay));
      if env.wakes(n) {
        assert R.Ceiling(cfg.retry, attempt) == R.Grow(cfg.retry, ceiling);
        RetriesFollow(cfg, env, inner, p, s2, attempt + 1, delay);
        var (s3, final) := RetryFrom(cfg, env, inner, p, s2, attempt + 1, R.Ceiling(cfg.retry, attempt), delay);
        assert s3.trace[..n] == s1.trace;
        OneWait(cfg, env, s3.trace, n, |s.trace|, out, attempt, prev, final);
      } else {
        CutShort(cfg, env, s1, |s.trace|, out, attempt, prev, delay);
      }
    }
  }

  lemma LastAttempt(cfg: Settings, env: Env, t: seq<Event>, from: nat, out: Outcome, attempt: int, prev: int)
    requires 1 <= attempt <= cfg.retry.maxAttempts && Waits(t, from) == [] && LastOutcome(t) == Some(out)
    requires !IsRetryable(cfg, out) || attempt == cfg.retry.maxAttempts
    ensures RetriedRight(cfg, env, t, from, out, attempt, prev)
  {
  }

  lemma CutShort(cfg: Settings, env: Env, s1: State, from: nat, out: Outcome, attempt: int, prev: int, delay: int)
    requires 1 <= attempt < cfg.retry.maxAttempts && from <= |s1.trace| && Waits(s1.trace, from) == []
    requires LastOutcome(s1.trace) == Some(out) && IsRetryable(cfg, out) && !env.wakes(|s1.trace|)
    requires R.RightDelay(cfg.retry, out.hint, attempt, prev, env.jitter(|s1.trace|), delay)
    ensures RetriedRight(cfg, env, Log(s1, Waited(delay)).trace, from, out, attempt, prev)
  {
    hide R.RightDelay;
    var n, t := |s1.trace|, Log(s1, Waited(delay)).trace;
    assert t[..n] == s1.trace;
    assert Waits(t, from) == [n];
    CountsAfter(s1, Waited(delay));
  }

  /** Retry around layers that do not retry, for a procedure that may be retried. */
  lemma RetryIsExact(cfg: Settings, env: Env, inner: seq<Layer>, p: Procedure, s: State)
    requires cfg.Normal() && Draws(env) && Retrying !in inner && (cfg.retry.allowNonIdempotent || !p.idempotencyUnknown)
    ensures var (s1, out) := Call(cfg, env, [Retrying] + inner, p, s);
            RetriedRight(cfg, env, s1.trace, |s.trace|, out, 1, cfg.retry.initial)
  {
    hide RetryFrom, RetriedRight;
    assert ([Retrying] + inner)[1..] == inner;
    RetriesFollow(cfg, env, inner, p, s, 1, cfg.retry.initial);
  }

  /** The preset, when its breaker lets the call through: the trace up to the breaker's record is that of its retry loop. */
  lemma StandaloneRetries(cfg: Settings, env: Env, withAuth: bool, p: Procedure, s: State)
    requires cfg.Normal() && Draws(env) && (cfg.retry.allowNonIdempotent || !p.idempotencyUnknown)
    requires Verdict(cfg, env, s).1.Admitted?
    ensures var (s1, out) := Call(cfg, env, Preset(withAuth), p, s);
            && s.trace < s1.trace && s1.trace[|s1.trace| - 1].Recorded?
            && RetriedRight(cfg, env, s1.trace[..|s1.trace| - 1], |s.trace|, out, 1, cfg.retry.initial)
  {
    hide RetryFrom, B.Acted, B.Allow, B.Record, RetriedRight, Call, Inside;
    PresetUnfolds(cfg, env, withAuth, p, s);
    PresetReachesRetry(cfg, env, withAuth, p, s);
    var s2 := AtRetry(cfg, env, p, s);
    var (s3, out) := Call(cfg, env, [Retrying] + Credentials(withAuth), p, s2);
    RetryIsExact(cfg, env, Credentials(withAuth), p, s2);
    StaysUndisturbed(cfg, env, [Retrying] + Credentials(withAuth), p, s2);
    assert (s3.trace + [Recorded(IsFailure(cfg, out), env.now(|s3.trace|))])[..|s3.trace|] == s3.trace;
    WaitsFrom(cfg, env, s3.trace, |s.trace|, |s2.trace|, out);
  }

  function Credentials(withAuth: bool): seq<Layer> {
    if withAuth then [Auth] else []
  }

  /** The state in which the preset's retry layer is called, once the breaker has let the call through. */
  function AtRetry(cfg: Settings, env: Env, p: Procedure, s: State): State
    requires cfg.Normal()
  {
    var n := |s.trace|;
    var s0 := Log(s.(core := Verdict(cfg, env, s).0), Event.Admitted(env.now(n)));
    if p.safe || s.key != "" then s0 else Log(s0.(key := env.newKey(n + 1)), KeyDrawn(env.newKey(n + 1)))
  }

  lemma PresetReachesRetry(cfg: Settings, env: Env, withAuth: bool, p: Procedure, s: State)
    requires cfg.Normal() && Verdict(cfg, env, s).1.Admitted?
    ensures var (s3, out) := Call(cfg, env, [Retrying] + Credentials(withAuth), p, AtRetry(cfg, env, p, s));
            var whole := Call(cfg, env, [Breaking] + Inside(withAuth), p, s);
            whole.0.trace == s3.trace + [Recorded(IsFailure(cfg, out), env.now(|s3.trace|))] && whole.1 == out
  {
    hide RetryFrom, B.Acted, B.Allow, B.Record, IsFailure, Gated;
    var n := |s.trace|;
    var s0 := Log(s.(core := Verdict(cfg, env, s).0), Event.Admitted(env.now(n)));
    assert ([Breaking] + Inside(withAuth))[1..] == Inside(withAuth);
    assert Inside(withAuth)[1..] == [Retrying] + Credentials(withAuth);
    assert Call(cfg, env, Inside(withAuth), p, s0) ==
           Call(cfg, env, [Retrying] + Credentials(withAuth), p, AtRetry(cfg, env, p, s));
  }

  lemma WaitsFrom(cfg: Settings, env: Env, t: seq<Event>, from: nat, later: nat, out: Outcome)
    requires from <= later <= |t| && forall i | from <= i < later :: !t[i].Waited?
    requires RetriedRight(cfg, env, t, later, out, 1, cfg.retry.initial)
    ensures RetriedRight(cfg, env, t, from, out, 1, cfg.retry.initial)
  {
    WaitsSplit(t, from, later);
    NoWaits(t[..later], from);
    assert Waits(t, from) == Waits(t, later);
    hide R.RightDelay, LastOutcome, RightWait;
  }
}
