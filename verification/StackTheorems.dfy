/** What one logical call does through the preset's stack of interceptors, and through any stack holding the same layers. */
module StackTheorems {
  import opened Stack
  import opened Wrappers
  import B = Breaker
  import R = Retry

  // ---- Layers a stack does not have, and headers already settled ----

  predicate TouchesBreaker(e: Event) {
    e.Admitted? || e.ShortCircuited? || e.Recorded?
  }

  /** Every wire attempt from event `from` on carries this key, and no further key is drawn. */
  ghost predicate OnlyKey(trace: seq<Event>, from: nat, key: string) {
    forall i | from <= i < |trace| :: (trace[i].Wire? ==> trace[i].key == key) && !trace[i].KeyDrawn?
  }

  ghost predicate NoBreakerEvent(trace: seq<Event>, from: nat) {
    forall i | from <= i < |trace| :: !TouchesBreaker(trace[i])
  }

  ghost predicate KeyFixed(s: State, s1: State) {
    s.trace <= s1.trace && s1.key == s.key && OnlyKey(s1.trace, |s.trace|, s.key)
  }

  ghost predicate BreakerFixed(s: State, s1: State) {
    s.trace <= s1.trace && s1.core == s.core && NoBreakerEvent(s1.trace, |s.trace|)
  }

  /** Nothing in the stack will set the key: it is set, or the procedure is safe, or no layer sets keys. */
  ghost predicate KeySettled(stack: seq<Layer>, p: Procedure, s: State) {
    s.key != "" || p.safe || Idempotency !in stack
  }

  ghost predicate Undisturbed(stack: seq<Layer>, p: Procedure, s: State, s1: State) {
    && (KeySettled(stack, p, s) ==> KeyFixed(s, s1))
    && (Breaking !in stack ==> BreakerFixed(s, s1))
    && s.trace <= s1.trace
  }

  lemma {:induction false} StaysUndisturbed(cfg: Settings, env: Env, stack: seq<Layer>, p: Procedure, s: State)
    requires cfg.Normal()
    ensures Undisturbed(stack, p, s, Call(cfg, env, stack, p, s).0)
    decreases |stack|, 0
  {
    var n := |s.trace|;
    hide RetryFrom, B.Acted, B.Allow, B.Record, IsFailure, Gated, RotationGated;
    if stack != [] {
      var inner := stack[1..];
      assert forall l | l in inner :: l in stack;
      match stack[0]
      case Observe => StaysUndisturbed(cfg, env, inner, p, s);
      case Breaking => AdmittedStaysUndisturbed(cfg, env, stack, p, s);
      case Idempotency =>
        StaysUndisturbed(cfg, env, inner, p, s);
        StaysUndisturbed(cfg, env, inner, p, Log(s.(key := env.newKey(n)), KeyDrawn(env.newKey(n))));
      case Retrying =>
        StaysUndisturbed(cfg, env, inner, p, s);
        RetriesStayUndisturbed(cfg, env, inner, p, s, 1, cfg.retry.initial, cfg.retry.initial);
      case Rotation =>
        StaysUndisturbed(cfg, env, inner, p, s);
        StaysUndisturbed(cfg, env, inner, p, Log(Call(cfg, env, inner, p, s).0, Invalidated));
      case Auth =>
        StaysUndisturbed(cfg, env, inner, p, s);
        if env.token(n).Some? {
          StaysUndisturbed(cfg, env, inner, p, WithToken(s, env.token(n).value));
        }
    }
  }

  lemma {:induction false} AdmittedStaysUndisturbed(cfg: Settings, env: Env, stack: seq<Layer>, p: Procedure, s: State)
    requires cfg.Normal() && stack != [] && stack[0].Breaking?
    ensures Undisturbed(stack, p, s, Call(cfg, env, stack, p, s).0)
    decreases |stack| - 1, 1
  {
    hide B.Acted, B.Allow, B.Record;
    var n := |s.trace|;
    var (core, verdict) := B.Allow(cfg.breaker, B.Acted(cfg.breaker, s.core, env.others(n)), env.now(n), env.later(n));
    assert forall l | l in stack[1..] :: l in stack;
    StaysUndisturbed(cfg, env, stack[1..], p, Log(s.(core := core), Event.Admitted(env.now(n))));
  }

  lemma {:induction false} RetriesStayUndisturbed(
      cfg: Settings, env: Env, inner: seq<Layer>, p: Procedure, s: State, attempt: int, ceiling: int, prev: int)
    requires cfg.Normal() && 1 <= attempt <= cfg.retry.maxAttempts
    ensures Undisturbed(inner, p, s, RetryFrom(cfg, env, inner, p, s, attempt, ceiling, prev).0)
    decreases |inner|, 1 + cfg.retry.maxAttempts - attempt
  {
    hide Call, R.NextDelay, R.Grow;
    var (s1, out) := Call(cfg, env, inner, p, s);
    StaysUndisturbed(cfg, env, inner, p, s);
    if IsRetryable(cfg, out) && attempt != cfg.retry.maxAttempts {
      var n := |s1.trace|;
      var delay := R.NextDelay(cfg.retry, out.hint, ceiling, prev, env.jitter(n));
      if env.wakes(n) {
        RetriesStayUndisturbed(cfg, env, inner, p, Log(s1, Waited(delay)), attempt + 1, R.Grow(cfg.retry, ceiling), delay);
      }
    }
  }

  // ---- One key for all attempts, wherever the layer stands ----

  /** Either no attempt has been made and the key is still open, or every attempt carried the key the request now has. */
  ghost predicate CarriesOneKey(s: State, s1: State) {
    && s.trace <= s1.trace
    && forall i | |s.trace| <= i < |s1.trace| && s1.trace[i].Wire? :: s1.trace[i].key == s1.key != ""
  }

  ghost predicate KeysNonempty(env: Env) {
    forall n: nat :: env.newKey(n) != ""
  }

  lemma {:induction false} OneKeyWhateverTheOrder(cfg: Settings, env: Env, stack: seq<Layer>, p: Procedure, s: State)
    requires cfg.Normal() && KeysNonempty(env) && !p.safe
    requires s.key != "" || Idempotency in stack
    ensures CarriesOneKey(s, Call(cfg, env, stack, p, s).0)
    decreases |stack|, 0
  {
    StaysUndisturbed(cfg, env, stack, p, s);
    if s.key == "" {
      var n, inner := |s.trace|, stack[1..];
      hide RetryFrom, B.Acted, B.Allow, B.Record, Undisturbed;
      assert stack[0] != Idempotency ==> Idempotency in inner;
      match stack[0]
      case Observe => OneKeyWhateverTheOrder(cfg, env, inner, p, s);
      case Breaking =>
        var (core, verdict) := B.Allow(cfg.breaker, B.Acted(cfg.breaker, s.core, env.others(n)), env.now(n), env.later(n));
        OneKeyWhateverTheOrder(cfg, env, inner, p, Log(s.(core := core), Event.Admitted(env.now(n))));
      case Idempotency =>
        OneKeyWhateverTheOrder(cfg, env, inner, p, Log(s.(key := env.newKey(n)), KeyDrawn(env.newKey(n))));
      case Retrying =>
        OneKeyWhateverTheOrder(cfg, env, inner, p, s);
        OneKeyInRetries(cfg, env, inner, p, s, 1, cfg.retry.initial, cfg.retry.initial);
      case Rotation =>
        var s1 := Call(cfg, env, inner, p, s).0;
        OneKeyWhateverTheOrder(cfg, env, inner, p, s);
        OneKeyWhateverTheOrder(cfg, env, inner, p, Log(s1, Invalidated));
        SecondCallKeepsKey(cfg, env, inner, p, s, Log(s1, Invalidated));
      case Auth =>
        OneKeyWhateverTheOrder(cfg, env, inner, p, s);
        if env.token(n).Some? {
          OneKeyWhateverTheOrder(cfg, env, inner, p, WithToken(s, env.token(n).value));
        }
    }
  }

  lemma SecondCallKeepsKey(cfg: Settings, env: Env, inner: seq<Layer>, p: Procedure, s: State, s1: State)
    requires cfg.Normal() && CarriesOneKey(s, s1) && CarriesOneKey(s1, Call(cfg, env, inner, p, s1).0)
    ensures CarriesOneKey(s, Call(cfg, env, inner, p, s1).0)
  {
    StaysUndisturbed(cfg, env, inner, p, s1);
    hide Call;
  }

  lemma {:induction false} OneKeyInRetries(
      cfg: Settings, env: Env, inner: seq<Layer>, p: Procedure, s: State, attempt: int, ceiling: int, prev: int)
    requires cfg.Normal() && 1 <= attempt <= cfg.retry.maxAttempts && KeysNonempty(env) && !p.safe
    requires s.key != "" || Idempotency in inner
    ensures CarriesOneKey(s, RetryFrom(cfg, env, inner, p, s, attempt, ceiling, prev).0)
    decreases |inner|, 1 + cfg.retry.maxAttempts - attempt
  {
    hide Call, R.NextDelay, R.Grow, Undisturbed;
    var (s1, out) := Call(cfg, env, inner, p, s);
    OneKeyWhateverTheOrder(cfg, env, inner, p, s);
    SettledKeyPersists(cfg, env, inner, p, s);
    if IsRetryable(cfg, out) && attempt != cfg.retry.maxAttempts {
      var n := |s1.trace|;
      var delay := R.NextDelay(cfg.retry, out.hint, ceiling, prev, env.jitter(n));
      var s2 := Log(s1, Waited(delay));
      if env.wakes(n) {
        var grown := R.Grow(cfg.retry, ceiling);
        OneKeyInRetries(cfg, env, inner, p, s2, attempt + 1, grown, delay);
        RetriesStayUndisturbed(cfg, env, inner, p, s2, attempt + 1, grown, delay);
        RetriesKeepKey(inner, p, s, s2, RetryFrom(cfg, env, inner, p, s2, attempt + 1, grown, delay).0);
      }
    }
  }

  lemma SettledKeyPersists(cfg: Settings, env: Env, inner: seq<Layer>, p: Procedure, s: State)
    requires cfg.Normal()
    ensures s.key != "" ==> Call(cfg, env, inner, p, s).0.key == s.key
  {
    StaysUndisturbed(cfg, env, inner, p, s);
  }

  lemma RetriesKeepKey(inner: seq<Layer>, p: Procedure, s: State, s1: State, s2: State)
    requires CarriesOneKey(s, s1) && CarriesOneKey(s1, s2) && Undisturbed(inner, p, s1, s2)
    ensures CarriesOneKey(s, s2)
  {
  }

  lemma RetriesExtend(
      cfg: Settings, env: Env, inner: seq<Layer>, p: Procedure, s: State, attempt: int, ceiling: int, prev: int)
    requires cfg.Normal() && 1 <= attempt <= cfg.retry.maxAttempts
    ensures Call(cfg, env, inner, p, s).0.trace <= RetryFrom(cfg, env, inner, p, s, attempt, ceiling, prev).0.trace
  {
    hide Call, R.NextDelay, R.Grow;
    var (s1, out) := Call(cfg, env, inner, p, s);
    if out.Err? && attempt != cfg.retry.maxAttempts {
      var n := |s1.trace|;
      var delay := R.NextDelay(cfg.retry, out.hint, ceiling, prev, env.jitter(n));
      RetriesStayUndisturbed(cfg, env, inner, p, Log(s1, Waited(delay)), attempt + 1, R.Grow(cfg.retry, ceiling), delay);
    }
  }

  // ---- A token for every attempt ----

  /** Each wire attempt comes right after a token was drawn for it, and carries that token. */
  ghost predicate OwnTokens(trace: seq<Event>, from: nat) {
    forall i | from <= i < |trace| && trace[i].Wire? ::
      && from < i && trace[i - 1].TokenDrawn? && trace[i - 1].token.Some?
      && trace[i].bearer == "Bearer " + trace[i - 1].token.value
  }

  predicate EndsInAuth(stack: seq<Layer>) {
    stack != [] && stack[|stack| - 1] == Auth
  }

  ghost predicate DrawsTokens(s: State, s1: State) {
    s.trace <= s1.trace && OwnTokens(s1.trace, |s.trace|)
  }

  lemma StillDrawsTokens(s: State, s1: State, e: Event)
    requires !e.Wire? && DrawsTokens(s, s1)
    ensures DrawsTokens(s, Log(s1, e))
  {
  }

  lemma BothDrawTokens(s: State, s1: State, s2: State)
    requires DrawsTokens(s, s1) && DrawsTokens(s1, s2)
    ensures DrawsTokens(s, s2)
  {
  }

  lemma {:induction false} EveryAttemptDrawsItsToken(cfg: Settings, env: Env, stack: seq<Layer>, p: Procedure, s: State)
    requires cfg.Normal() && !p.skipsAuth && EndsInAuth(stack)
    ensures DrawsTokens(s, Call(cfg, env, stack, p, s).0)
    decreases |stack|, 0
  {
    var n, inner := |s.trace|, stack[1..];
    if inner == [] {
      hide B.Acted, B.Allow, B.Record;
    } else {
      hide DrawsTokens, RetryFrom, B.Allow, B.Record;
      match stack[0]
      case Observe => EveryAttemptDrawsItsToken(cfg, env, inner, p, s);
      case Breaking => AdmittedDrawsTokens(cfg, env, stack, p, s);
      case Idempotency =>
        var s0 := s.(key := env.newKey(n));
        EveryAttemptDrawsItsToken(cfg, env, inner, p, s);
        EveryAttemptDrawsItsToken(cfg, env, inner, p, Log(s0, KeyDrawn(env.newKey(n))));
        SameTrace(s, s0, Call(cfg, env, inner, p, Log(s0, KeyDrawn(env.newKey(n)))).0);
      case Retrying =>
        EveryAttemptDrawsItsToken(cfg, env, inner, p, s);
        EveryRetryDrawsItsToken(cfg, env, inner, p, s, 1, cfg.retry.initial, cfg.retry.initial);
      case Rotation =>
        EveryAttemptDrawsItsToken(cfg, env, inner, p, s);
        var s1 := Call(cfg, env, inner, p, s).0;
        EveryAttemptDrawsItsToken(cfg, env, inner, p, Log(s1, Invalidated));
        StillDrawsTokens(s, s1, Invalidated);
        BothDrawTokens(s, Log(s1, Invalidated), Call(cfg, env, inner, p, Log(s1, Invalidated)).0);
      case Auth =>
        var s0 := Log(s, TokenDrawn(env.token(n)));
        StillDrawsTokens(s, s, TokenDrawn(env.token(n)));
        if env.token(n).Some? {
          var s2 := s0.(bearer := "Bearer " + env.token(n).value);
          EveryAttemptDrawsItsToken(cfg, env, inner, p, s2);
          SameTrace(s0, s2, Call(cfg, env, inner, p, s2).0);
          BothDrawTokens(s, s0, Call(cfg, env, inner, p, s2).0);
        }
    }
  }

  lemma SameTrace(s: State, t: State, s1: State)
    requires s.trace == t.trace && DrawsTokens(t, s1)
    ensures DrawsTokens(s, s1)
  {
  }

  lemma {:induction false} AdmittedDrawsTokens(cfg: Settings, env: Env, stack: seq<Layer>, p: Procedure, s: State)
    requires cfg.Normal() && !p.skipsAuth && EndsInAuth(stack) && |stack| > 1 && stack[0].Breaking?
    ensures DrawsTokens(s, Call(cfg, env, stack, p, s).0)
    decreases |stack| - 1, 1
  {
    var n, inner := |s.trace|, stack[1..];
    var (core, verdict) := B.Allow(cfg.breaker, B.Acted(cfg.breaker, s.core, env.others(n)), env.now(n), env.later(n));
    if verdict.Admitted? {
      var s0 := Log(s.(core := core), Event.Admitted(env.now(n)));
      EveryAttemptDrawsItsToken(cfg, env, inner, p, s0);
    }
    hide B.Acted, B.Allow, B.Record;
  }

  lemma {:induction false} EveryRetryDrawsItsToken(
      cfg: Settings, env: Env, inner: seq<Layer>, p: Procedure, s: State, attempt: int, ceiling: int, prev: int)
    requires cfg.Normal() && 1 <= attempt <= cfg.retry.maxAttempts && !p.skipsAuth && EndsInAuth(inner)
    ensures DrawsTokens(s, RetryFrom(cfg, env, inner, p, s, attempt, ceiling, prev).0)
    decreases |inner|, 1 + cfg.retry.maxAttempts - attempt
  {
    hide Call, R.NextDelay, R.Grow, DrawsTokens;
    var (s1, out) := Call(cfg, env, inner, p, s);
    EveryAttemptDrawsItsToken(cfg, env, inner, p, s);
    if IsRetryable(cfg, out) && attempt != cfg.retry.maxAttempts {
      var n := |s1.trace|;
      var delay := R.NextDelay(cfg.retry, out.hint, ceiling, prev, env.jitter(n));
      var s2 := Log(s1, Waited(delay));
      StillDrawsTokens(s, s1, Waited(delay));
      if env.wakes(n) {
        EveryRetryDrawsItsToken(cfg, env, inner, p, s2, attempt + 1, R.Grow(cfg.retry, ceiling), delay);
        BothDrawTokens(s, s2, RetryFrom(cfg, env, inner, p, s2, attempt + 1, R.Grow(cfg.retry, ceiling), delay).0);
      }
    }
  }

  // ---- The preset ----

  datatype AuthOptions = AuthOptions(hasSource: bool)

  /** Absent options select the packages' defaults. */
  datatype StandaloneConfig = StandaloneConfig(
    auth: Option<AuthOptions>,
    breaker: Option<(B.Config, set<Code>)>,
    retry: Option<(R.Config, set<Code>)>)

  const DEADLINE_EXCEEDED: Code := 4
  const RESOURCE_EXHAUSTED: Code := 8
  const ABORTED: Code := 10
  const INTERNAL: Code := 13

  const DEFAULT_BREAKER := B.Config(20, 5, 3, 1, 5_000_000_000)
  const DEFAULT_FAILURE_CODES: set<Code> := {UNAVAILABLE, DEADLINE_EXCEEDED, RESOURCE_EXHAUSTED, INTERNAL}
  const DEFAULT_RETRY := R.Config(R.Full, 4, 100_000_000, 30_000_000_000, 0, 2.0, 3.0, false)
  const DEFAULT_RETRYABLE_CODES: set<Code> := {UNAVAILABLE, RESOURCE_EXHAUSTED, ABORTED, DEADLINE_EXCEEDED}

  const STANDALONE: seq<Layer> := [Observe, Breaking, Idempotency, Retrying]

  /**
   Builds the interceptor slice and the settings its layers end up with; fails when authentication is asked for without
   a source. What it builds meets the assumptions of the theorems, whatever it is given.
   */
  method Standalone(cfg: StandaloneConfig) returns (r: Option<(seq<Layer>, Settings)>)
    ensures r.None? <==> cfg.auth.Some? && !cfg.auth.value.hasSource
    ensures r.Some? ==>
              r.value.0 == [Observe, Breaking, Idempotency, Retrying] + if cfg.auth.Some? then [Auth] else []
    ensures r.Some? ==> r.value.1.Normal()
    ensures r.Some? && cfg.breaker.None? ==>
              && r.value.1.breaker == B.Config(20, 5, 3, 1, 5_000_000_000)
              && r.value.1.failureCodes == {14, 4, 8, 13}
    ensures r.Some? && cfg.breaker.Some? ==>
              (r.value.1.breaker, r.value.1.failureCodes) == (B.Normalised(cfg.breaker.value.0), cfg.breaker.value.1)
    ensures r.Some? && cfg.retry.None? ==>
              && r.value.1.retry == R.Config(R.Full, 4, 100_000_000, 30_000_000_000, 0, 2.0, 3.0, false)
              && r.value.1.retryableCodes == {14, 8, 10, 4}
    ensures r.Some? && cfg.retry.Some? ==>
              (r.value.1.retry, r.value.1.retryableCodes) == (R.Normalised(cfg.retry.value.0), cfg.retry.value.1)
  {
    var ics := [Observe];
    var breaker := (DEFAULT_BREAKER, DEFAULT_FAILURE_CODES);
    if cfg.breaker.Some? {
      breaker := cfg.breaker.value;
    }
    ics := ics + [Breaking];
    ics := ics + [Idempotency];
    var retry := (DEFAULT_RETRY, DEFAULT_RETRYABLE_CODES);
    if cfg.retry.Some? {
      retry := cfg.retry.value;
    }
    var retryConfig := R.Normalise(retry.0);
    ics := ics + [Retrying];
    if cfg.auth.Some? {
      if !cfg.auth.value.hasSource {
        return None;
      }
      ics := ics + [Auth];
    }
    return Some((ics, Settings(B.Normalised(breaker.0), breaker.1, retryConfig, retry.1, false)));
  }

  /** What the breaker says to the call when it comes to it, other callers having acted before. */
  function Verdict(cfg: Settings, env: Env, s: State): (B.Core, B.Verdict)
    requires cfg.Normal()
  {
    B.Allow(cfg.breaker, B.Acted(cfg.breaker, s.core, env.others(|s.trace|)), env.now(|s.trace|), env.later(|s.trace|))
  }

  /**
   A breaker in front of any layers (none of them a breaker). Rejected: nothing inside runs, so nothing reaches the wire
   and no key or token is drawn. Admitted: the first event is the admission, the last is the record of the outcome that
   the caller gets, and nothing between the two touches the breaker, however many attempts are made there.
   */
  lemma BreakerSeesOneOutcome(cfg: Settings, env: Env, rest: seq<Layer>, p: Procedure, s: State)
    requires cfg.Normal() && Breaking !in rest
    ensures var n := |s.trace|;
            var (core, verdict) := Verdict(cfg, env, s);
            var (s1, out) := Call(cfg, env, [Breaking] + rest, p, s);
            var end := |s1.trace| - 1;
            && s.trace < s1.trace
            && (verdict.Rejected? ==> s1 == Log(s.(core := core), ShortCircuited(env.now(n), out)))
            && (verdict.Admitted? ==>
                  && n < end
                  && s1.trace[n] == Event.Admitted(env.now(n))
                  && s1.trace[end] == Recorded(out.Err? && out.code in cfg.failureCodes, env.now(end))
                  && NoBreakerEvent(s1.trace[..end], n + 1)
                  && var met := B.Acted(cfg.breaker, core, env.others(end));
                  s1.core == B.Record(cfg.breaker, met, out.Err? && out.code in cfg.failureCodes, env.now(end)))
    ensures var n := |s.trace|;
            var met := B.Acted(cfg.breaker, s.core, env.others(n));
            var out := Call(cfg, env, [Breaking] + rest, p, s).1;
            var wait := if met.circuit == B.HalfOpen then 100_000_000
                        else cfg.breaker.openDuration - (env.later(n) - met.openedAt);
            && (Verdict(cfg, env, s).1.Admitted? <==>
                  || met.circuit == B.Closed
                  || (met.circuit == B.Open && env.now(n) - met.openedAt >= cfg.breaker.openDuration)
                  || (met.circuit == B.HalfOpen && met.inFlight < cfg.breaker.halfOpenTrials))
            && (Verdict(cfg, env, s).1.Rejected? ==> out == Err(UNAVAILABLE, Some(if wait >= 0 then wait else 0)))
  {
    var n := |s.trace|;
    var (core, verdict) := Verdict(cfg, env, s);
    assert ([Breaking] + rest)[1..] == rest;
    var s0 := Log(s.(core := core), Event.Admitted(env.now(n)));
    StaysUndisturbed(cfg, env, rest, p, s0);
    CallIsAccounted(cfg, env, rest, p, s0);
    var s1 := Call(cfg, env, rest, p, s0).0;
    assert s1.core == core && NoBreakerEvent(s1.trace, n + 1);
    assert forall e: Event :: (s1.trace + [e])[..|s1.trace|] == s1.trace;
  }

  function Preset(withAuth: bool): seq<Layer> {
    STANDALONE + if withAuth then [Auth] else []
  }

  /** The preset inside its breaker. */
  function Inside(withAuth: bool): (rest: seq<Layer>)
    ensures Breaking !in rest
  {
    [Idempotency, Retrying] + if withAuth then [Auth] else []
  }

  lemma PresetUnfolds(cfg: Settings, env: Env, withAuth: bool, p: Procedure, s: State)
    requires cfg.Normal()
    ensures Call(cfg, env, Preset(withAuth), p, s) == Call(cfg, env, [Breaking] + Inside(withAuth), p, s)
    ensures WireBudget(cfg, Preset(withAuth), p) == if Gated(cfg, p) then 1 else cfg.retry.maxAttempts
    ensures WaitBudget(cfg, Preset(withAuth), p) ==
            if Gated(cfg, p) then 0 else (cfg.retry.maxAttempts - 1) * R.LongestDelay(cfg.retry)
  {
    hide RetryFrom, B.Acted, B.Allow, B.Record, IsFailure, R.LongestDelay;
    assert Preset(withAuth)[0] == Observe && Preset(withAuth)[1..] == [Breaking] + Inside(withAuth);
    InsideBudgets(cfg, withAuth, p);
    assert ([Breaking] + Inside(withAuth))[1..] == Inside(withAuth);
    hide Inside, Gated;
    assert WireBudget(cfg, [Breaking] + Inside(withAuth), p) == WireBudget(cfg, Inside(withAuth), p);
    assert WaitBudget(cfg, [Breaking] + Inside(withAuth), p) == WaitBudget(cfg, Inside(withAuth), p);
  }

  lemma InsideBudgets(cfg: Settings, withAuth: bool, p: Procedure)
    requires cfg.Normal()
    ensures WireBudget(cfg, Inside(withAuth), p) == if Gated(cfg, p) then 1 else cfg.retry.maxAttempts
    ensures WaitBudget(cfg, Inside(withAuth), p) ==
            if Gated(cfg, p) then 0 else (cfg.retry.maxAttempts - 1) * R.LongestDelay(cfg.retry)
  {
    hide R.LongestDelay, Gated;
    var tail := if withAuth then [Auth] else [];
    assert Inside(withAuth)[1..] == [Retrying] + tail;
    assert ([Retrying] + tail)[1..] == tail;
    assert withAuth ==> tail[1..] == [];
    assert WireBudget(cfg, [], p) == 1 && WaitBudget(cfg, [], p) == 0;
    assert WireBudget(cfg, tail, p) == 1 && WaitBudget(cfg, tail, p) == 0;
    assert WireBudget(cfg, [Retrying] + tail, p) == if Gated(cfg, p) then 1 else cfg.retry.maxAttempts;
    assert WaitBudget(cfg, [Retrying] + tail, p) ==
      if Gated(cfg, p) then 0 else (cfg.retry.maxAttempts - 1) * R.LongestDelay(cfg.retry);
  }

  lemma {:induction false} CountsWithoutBreaker(t: seq<Event>, from: nat)
    requires from <= |t| && NoBreakerEvent(t, from)
    ensures Records(t) == Records(t[..from])
  {
    if from == |t| {
      assert t[..from] == t;
    } else {
      assert t[..|t| - 1][..from] == t[..from];
      CountsWithoutBreaker(t[..|t| - 1], from);
    }
  }

  lemma AdmittedRecordsOnce(cfg: Settings, env: Env, rest: seq<Layer>, p: Procedure, s: State)
    requires cfg.Normal() && Breaking !in rest && Verdict(cfg, env, s).1.Admitted?
    ensures Records(Call(cfg, env, [Breaking] + rest, p, s).0.trace) == Records(s.trace) + 1
  {
    BreakerSeesOneOutcome(cfg, env, rest, p, s);
    var t := Call(cfg, env, [Breaking] + rest, p, s).0.trace;
    var n, end := |s.trace|, |t| - 1;
    hide Call;
    CountsWithoutBreaker(t[..end], n + 1);
    assert t[..end][..n + 1] == t[..n + 1];
    assert t[..n + 1][..n] == s.trace;
  }

  lemma StandaloneKeys(cfg: Settings, env: Env, withAuth: bool, p: Procedure, s: State)
    requires cfg.Normal() && Verdict(cfg, env, s).1.Admitted?
    ensures var s1 := Call(cfg, env, Preset(withAuth), p, s).0;
            && s1.key == (if p.safe || s.key != "" then s.key else env.newKey(|s.trace| + 1))
            && OnlyKey(s1.trace, if p.safe || s.key != "" then |s.trace| else |s.trace| + 2, s1.key)
  {
    hide Call;
    if p.safe || s.key != "" {
      StaysUndisturbed(cfg, env, Preset(withAuth), p, s);
    } else {
      PresetUnfolds(cfg, env, withAuth, p, s);
      OpenKeyIsDrawn(cfg, env, withAuth, p, s);
    }
  }

  lemma OpenKeyIsDrawn(cfg: Settings, env: Env, withAuth: bool, p: Procedure, s: State)
    requires cfg.Normal() && Verdict(cfg, env, s).1.Admitted? && !p.safe && s.key == ""
    ensures var s1, n := Call(cfg, env, [Breaking] + Inside(withAuth), p, s).0, |s.trace|;
            s1.key == env.newKey(n + 1) && OnlyKey(s1.trace, n + 2, s1.key)
  {
    hide RetryFrom, B.Acted, B.Allow, B.Record, IsFailure, Gated;
    var n, tail := |s.trace|, [Retrying] + if withAuth then [Auth] else [];
    assert ([Breaking] + Inside(withAuth))[1..] == Inside(withAuth) && Inside(withAuth)[1..] == tail;
    var s0 := Log(s.(core := Verdict(cfg, env, s).0), Event.Admitted(env.now(n)));
    var s1 := Log(s0.(key := env.newKey(n + 1)), KeyDrawn(env.newKey(n + 1)));
    StaysUndisturbed(cfg, env, tail, p, s1);
    assert Call(cfg, env, Inside(withAuth), p, s0) == Call(cfg, env, tail, p, s1);
  }

  /**
   One logical call through the preset, whatever the server, the token source, the clock and other callers do. It stays
   within the retry budget of attempts and of waiting (one attempt behind the idempotency gate); a procedure that is not
   safe carries one key on all attempts, drawn at most once; with authentication every attempt carries a token drawn for it.
   */
  lemma StandaloneCall(cfg: Settings, env: Env, withAuth: bool, p: Procedure, s: State)
    requires cfg.Normal()
    ensures var (s1, out) := Call(cfg, env, Preset(withAuth), p, s);
            var once := !cfg.retry.allowNonIdempotent && p.idempotencyUnknown;
            var longest := if cfg.retry.strategy.Full? && cfg.retry.minDelay > cfg.retry.max then cfg.retry.minDelay
                           else cfg.retry.max;
            var mostWait := if once then 0 else (cfg.retry.maxAttempts - 1) * longest;
            && s.trace < s1.trace
            && LastOutcome(s1.trace) == Some(out)
            && (Draws(env) ==> TotalWait(s1.trace) - TotalWait(s.trace) <= mostWait)
            && Wires(s1.trace) - Wires(s.trace) <= (if once then 1 else cfg.retry.maxAttempts)
            && (Verdict(cfg, env, s).1.Rejected? ==>
                  s1.trace == s.trace + [ShortCircuited(env.now(|s.trace|), out)] && s1.key == s.key)
            && (Verdict(cfg, env, s).1.Admitted? ==>
                  && Records(s1.trace) == Records(s.trace) + 1
                  && OnlyKey(s1.trace, if p.safe || s.key != "" then |s.trace| else |s.trace| + 2, s1.key)
                  && s1.key == (if p.safe || s.key != "" then s.key else env.newKey(|s.trace| + 1)))
            && (withAuth && !p.skipsAuth ==> OwnTokens(s1.trace, |s.trace|))
  {
    PresetUnfolds(cfg, env, withAuth, p, s);
    BreakerSeesOneOutcome(cfg, env, Inside(withAuth), p, s);
    CallIsAccounted(cfg, env, Preset(withAuth), p, s);
    if Verdict(cfg, env, s).1.Admitted? {
      StandaloneKeys(cfg, env, withAuth, p, s);
      AdmittedRecordsOnce(cfg, env, Inside(withAuth), p, s);
    }
    if withAuth && !p.skipsAuth {
      EveryAttemptDrawsItsToken(cfg, env, Preset(withAuth), p, s);
    }
    hide Call, Wires, Records, TotalWait, LastOutcome, WireBudget, WaitBudget;
  }
}
