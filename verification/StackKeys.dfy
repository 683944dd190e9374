/**
 For which stacks all attempts of a call carry one key, whatever the environment does: exactly those in which nothing that
 repeats a call stands outside a key layer.
 */
module StackKeys {
  import opened Stack
  import opened StackTheorems
  import opened Wrappers
  import B = Breaker
  import R = Retry

  /** The layer repeats what is inside it, on some outcome. */
  predicate Repeats(cfg: Settings, p: Procedure, layer: Layer) {
    || (layer.Retrying? && !Gated(cfg, p) && cfg.retryableCodes != {})
    || (layer.Rotation? && !RotationGated(cfg, p))
  }

  /** A key layer stands inside a layer that repeats. */
  predicate KeyLayerRepeats(cfg: Settings, p: Procedure, stack: seq<Layer>) {
    stack != [] &&
    ((Repeats(cfg, p, stack[0]) && Idempotency in stack[1..]) || KeyLayerRepeats(cfg, p, stack[1..]))
  }

  /** All wire attempts from event `from` on carry the same key. */
  ghost predicate OneKey(trace: seq<Event>, from: nat) {
    forall i, j | from <= i < |trace| && from <= j < |trace| && trace[i].Wire? && trace[j].Wire? ::
      trace[i].key == trace[j].key
  }

  /**
   One key for all attempts, exactly: it holds in every environment, with key functions that return the empty string too,
   if and only if the procedure is safe, or the caller has set the key, or no key layer stands inside a repeating layer.
   */
  lemma OneKeyIff(cfg: Settings, stack: seq<Layer>, p: Procedure, s: State)
    requires cfg.Normal()
    ensures (forall env :: OneKey(Call(cfg, env, stack, p, s).0.trace, |s.trace|)) <==>
            p.safe || s.key != "" || !KeyLayerRepeats(cfg, p, stack)
  {
    hide Call, OneKey;
    if p.safe || s.key != "" || !KeyLayerRepeats(cfg, p, stack) {
      forall env ensures OneKey(Call(cfg, env, stack, p, s).0.trace, |s.trace|) {
        OneKeyWithoutRepeats(cfg, env, stack, p, s);
      }
    } else {
      var env := KeysSplit(cfg, stack, p, s);
      assert !OneKey(Call(cfg, env, stack, p, s).0.trace, |s.trace|);
    }
  }

  lemma OneKeyWithoutRepeats(cfg: Settings, env: Env, stack: seq<Layer>, p: Procedure, s: State)
    requires cfg.Normal() && (p.safe || s.key != "" || !KeyLayerRepeats(cfg, p, stack))
    ensures OneKey(Call(cfg, env, stack, p, s).0.trace, |s.trace|)
  {
    if p.safe || s.key != "" {
      StaysUndisturbed(cfg, env, stack, p, s);
    } else {
      CarriesFinalKey(cfg, env, stack, p, s);
    }
    hide Call;
  }

  // ---------------------------------------------------------------- no key layer inside a repeating one

  /** Every attempt made carried the key that the request has in the end. */
  ghost predicate AllCarry(s: State, s1: State) {
    && s.trace <= s1.trace
    && forall i | |s.trace| <= i < |s1.trace| && s1.trace[i].Wire? :: s1.trace[i].key == s1.key
  }

  lemma {:induction false} CarriesFinalKey(cfg: Settings, env: Env, stack: seq<Layer>, p: Procedure, s: State)
    requires cfg.Normal() && !KeyLayerRepeats(cfg, p, stack)
    ensures AllCarry(s, Call(cfg, env, stack, p, s).0)
    decreases |stack|
  {
    if stack != [] && Repeats(cfg, p, stack[0]) {
      StaysUndisturbed(cfg, env, stack, p, s);
      hide Call;
    } else {
      hide B.Acted, B.Allow, B.Record;
      var n := |s.trace|;
      if stack != [] {
        var inner := stack[1..];
        match stack[0]
        case Breaking =>
          var (core, verdict) := B.Allow(cfg.breaker, B.Acted(cfg.breaker, s.core, env.others(n)), env.now(n), env.later(n));
          CarriesFinalKey(cfg, env, inner, p, Log(s.(core := core), Event.Admitted(env.now(n))));
        case Idempotency =>
          CarriesFinalKey(cfg, env, inner, p, s);
          CarriesFinalKey(cfg, env, inner, p, Log(s.(key := env.newKey(n)), KeyDrawn(env.newKey(n))));
        case Auth =>
          CarriesFinalKey(cfg, env, inner, p, s);
          if env.token(n).Some? {
            CarriesFinalKey(cfg, env, inner, p, WithToken(s, env.token(n).value));
          }
        case _ => CarriesFinalKey(cfg, env, inner, p, s);
      }
    }
  }

  // ---------------------------------------------------------------- a key layer inside a repeating one

  const KEY := "k"

  /** A clock that moves on by `step` with every event. */
  function Clock(base: int, step: int, n: nat): int {
    if n == 0 then base else Clock(base, step, n - 1) + step
  }

  lemma {:induction false} ClockMoves(base: int, step: int, m: nat, n: nat)
    requires step >= 0 && m <= n
    ensures Clock(base, step, m) <= Clock(base, step, n)
    ensures m < n ==> Clock(base, step, m) + step <= Clock(base, step, n)
  {
    if m < n {
      ClockMoves(base, step, m, n - 1);
    }
  }

  /** The error that the server always answers with, the last event at which no key comes, and the clock. */
  datatype Trouble = Trouble(c: Code, n0: nat, base: int, step: int) {
    function Now(n: nat): int {
      Clock(base, step, n)
    }
  }

  /**
   Every attempt fails, no wait is cut short, and the key function returns the empty string up to event `n0`. Before each
   event another caller reports a failure that is `step` old, so that a breaker is never half-open when asked.
   */
  function Failing(x: Trouble): Env {
    Env(_ => Err(x.c, None), _ => Some(""), n => if n <= x.n0 then "" else KEY,
        (n: nat) => x.Now(n), (n: nat) => x.Now(n), _ => 0.0, _ => true,
        (n: nat) => [B.Reports(true, x.Now(n) - x.step)])
  }

  /** The breaker, if open, will have been so long enough at the next event. */
  predicate Timely(x: Trouble, s: State) {
    s.core.openedAt + x.step <= x.Now(|s.trace|)
  }

  lemma BreakerAdmits(cfg: Settings, x: Trouble, s: State)
    requires cfg.Normal() && x.step == cfg.breaker.openDuration && Timely(x, s)
    ensures var n := |s.trace|;
            var core := B.Acted(cfg.breaker, s.core, [B.Reports(true, x.Now(n) - x.step)]);
            && B.Allow(cfg.breaker, core, x.Now(n), x.Now(n)).1.Admitted?
            && B.Allow(cfg.breaker, core, x.Now(n), x.Now(n)).0.openedAt + x.step <= x.Now(n)
  {
    OneAction(cfg, s.core, B.Reports(true, x.Now(|s.trace|) - x.step));
    hide B.Acted, Clock, B.Failures, B.LastN;
  }

  lemma OneAction(cfg: Settings, core: B.Core, a: B.Action)
    requires cfg.Normal()
    ensures B.Acted(cfg.breaker, core, [a]) == B.Act(cfg.breaker, core, a)
  {
    assert [a][..0] == [];
    assert B.Acted(cfg.breaker, core, []) == core;
  }

  lemma RecordIsTimely(cfg: Settings, x: Trouble, s: State, failed: bool)
    requires cfg.Normal() && x.step == cfg.breaker.openDuration && Timely(x, s)
    ensures var n := |s.trace|;
            var core := B.Acted(cfg.breaker, s.core, [B.Reports(true, x.Now(n) - x.step)]);
            B.Record(cfg.breaker, core, failed, x.Now(n)).openedAt + x.step <= x.Now(n + 1)
  {
    OneAction(cfg, s.core, B.Reports(true, x.Now(|s.trace|) - x.step));
    ClockMoves(x.base, x.step, |s.trace|, |s.trace| + 1);
    hide B.Acted, Clock, B.Failures, B.LastN;
  }

  predicate RepeatsOn(cfg: Settings, p: Procedure, c: Code, layer: Layer) {
    || (layer.Retrying? && !Gated(cfg, p) && c in cfg.retryableCodes)
    || (layer.Rotation? && !RotationGated(cfg, p) && c == UNAUTHENTICATED)
  }

  predicate KeyLayerRepeatsOn(cfg: Settings, p: Procedure, c: Code, stack: seq<Layer>) {
    stack != [] &&
    ((RepeatsOn(cfg, p, c, stack[0]) && Idempotency in stack[1..]) || KeyLayerRepeatsOn(cfg, p, c, stack[1..]))
  }

  lemma WithoutCodes(codes: set<Code>)
    ensures (forall code: Code :: code !in codes) ==> codes == {}
  {
    if forall code: Code :: code !in codes {
      assert codes == {};
    }
  }

  lemma SomeCode(codes: set<Code>) returns (c: Code)
    requires codes != {}
    ensures c in codes
  {
    WithoutCodes(codes);
    c :| c in codes;
  }

  lemma {:induction false} CodeThatRepeats(cfg: Settings, p: Procedure, stack: seq<Layer>) returns (c: Code)
    requires KeyLayerRepeats(cfg, p, stack)
    ensures KeyLayerRepeatsOn(cfg, p, c, stack)
  {
    if Repeats(cfg, p, stack[0]) && Idempotency in stack[1..] {
      if stack[0].Rotation? {
        c := UNAUTHENTICATED;
      } else {
        c := SomeCode(cfg.retryableCodes);
      }
    } else {
      c := CodeThatRepeats(cfg, p, stack[1..]);
    }
  }

  ghost predicate SomeCarries(trace: seq<Event>, from: nat, key: string) {
    exists i :: from <= i < |trace| && trace[i].Wire? && trace[i].key == key
  }

  /** The key is open or the one drawn after event `x.n0`; once it can be drawn, an attempt carries it. */
  ghost predicate FailedCall(x: Trouble, stack: seq<Layer>, s: State, s1: State, out: Outcome) {
    && out == Err(x.c, None) && s.trace <= s1.trace && (s1.key == "" || s1.key == KEY) && Timely(x, s1)
    && (s.key == KEY || (|s.trace| > x.n0 && Idempotency in stack) ==> s1.key == KEY && SomeCarries(s1.trace, |s.trace|, KEY))
  }

  predicate Ready(cfg: Settings, x: Trouble, p: Procedure, s: State) {
    !p.safe && (s.key == "" || s.key == KEY) && x.step == cfg.breaker.openDuration && Timely(x, s)
  }

  lemma StillTimely(x: Trouble, s: State, s1: State)
    requires Timely(x, s) && x.step >= 0 && s1.core == s.core && |s.trace| <= |s1.trace|
    ensures Timely(x, s1)
  {
    ClockMoves(x.base, x.step, |s.trace|, |s1.trace|);
  }

  ghost predicate CallFails(cfg: Settings, x: Trouble, stack: seq<Layer>, p: Procedure, s: State)
    requires cfg.Normal()
  {
    var (s1, out) := Call(cfg, Failing(x), stack, p, s);
    FailedCall(x, stack, s, s1, out)
  }

  lemma ThenFailed(x: Trouble, stack: seq<Layer>, s: State, s0: State, s1: State, out: Outcome)
    requires s.trace <= s0.trace && FailedCall(x, stack, s0, s1, out)
    requires s.key == KEY ==> s0.key == KEY
    ensures out == Err(x.c, None) && s.trace <= s1.trace && (s1.key == "" || s1.key == KEY) && Timely(x, s1)
    ensures s0.key == KEY || (|s.trace| > x.n0 && Idempotency in stack) ==>
              s1.key == KEY && SomeCarries(s1.trace, |s.trace|, KEY)
  {
  }

  lemma {:induction false} FailsAlways(cfg: Settings, x: Trouble, stack: seq<Layer>, p: Procedure, s: State)
    requires cfg.Normal() && Ready(cfg, x, p, s)
    ensures CallFails(cfg, x, stack, p, s)
    decreases |stack|, 0
  {
    var env, n := Failing(x), |s.trace|;
    hide RetryFrom, B.Record, SomeCarries, Clock, Timely;
    if stack == [] {
      WireCarries(s, Wire(s.key, s.bearer, Err(x.c, None)));
      StillTimely(x, s, Log(s, Wire(s.key, s.bearer, Err(x.c, None))));
    } else {
      var inner := stack[1..];
      assert Idempotency in stack <==> stack[0] == Idempotency || Idempotency in inner;
      match stack[0]
      case Observe => FailsAlways(cfg, x, inner, p, s);
      case Breaking => AdmittedFails(cfg, x, stack, p, s);
      case Idempotency =>
        var s0 := Log(s.(key := env.newKey(n)), KeyDrawn(env.newKey(n)));
        StillTimely(x, s, s0);
        FailsAlways(cfg, x, inner, p, s);
        FailsAlways(cfg, x, inner, p, s0);
        if s.key == "" {
          var (s1, out) := Call(cfg, env, inner, p, s0);
          ThenFailed(x, inner, s, s0, s1, out);
        }
      case Retrying =>
        FailsAlways(cfg, x, inner, p, s);
        RetriesFail(cfg, x, inner, p, s, 1, cfg.retry.initial, cfg.retry.initial);
      case Rotation =>
        FailsAlways(cfg, x, inner, p, s);
        var s1 := Call(cfg, env, inner, p, s).0;
        StillTimely(x, s1, Log(s1, Invalidated));
        FailsAlways(cfg, x, inner, p, Log(s1, Invalidated));
        FailedTwice(x, inner, s, s1, Log(s1, Invalidated), Call(cfg, env, inner, p, Log(s1, Invalidated)).0);
      case Auth =>
        StillTimely(x, s, WithToken(s, ""));
        FailsAlways(cfg, x, inner, p, s);
        FailsAlways(cfg, x, inner, p, WithToken(s, ""));
        var (s1, out) := Call(cfg, env, inner, p, WithToken(s, ""));
        ThenFailed(x, inner, s, WithToken(s, ""), s1, out);
    }
  }

  lemma WireCarries(s: State, e: Event)
    requires e.Wire? && e.key == s.key
    ensures SomeCarries(Log(s, e).trace, |s.trace|, s.key)
  {
    assert Log(s, e).trace[|s.trace|] == e;
  }

  lemma FailedTwice(x: Trouble, inner: seq<Layer>, s: State, s1: State, s2: State, s3: State)
    requires FailedCall(x, inner, s, s1, Err(x.c, None)) && FailedCall(x, inner, s2, s3, Err(x.c, None))
    requires s1.trace <= s2.trace && s2.key == s1.key
    ensures FailedCall(x, inner, s, s3, Err(x.c, None))
  {
  }

  lemma {:induction false} AdmittedFails(cfg: Settings, x: Trouble, stack: seq<Layer>, p: Procedure, s: State)
    requires cfg.Normal() && Ready(cfg, x, p, s) && stack != [] && stack[0].Breaking?
    ensures CallFails(cfg, x, stack, p, s)
    decreases |stack| - 1, 1
  {
    hide B.Acted, B.Allow, B.Record, SomeCarries, Clock;
    BreakerAdmits(cfg, x, s);
    var s0 := AfterAdmission(cfg, x, s);
    ClockMoves(x.base, x.step, |s.trace|, |s.trace| + 1);
    FailsAlways(cfg, x, stack[1..], p, s0);
    var (s1, out) := Call(cfg, Failing(x), stack[1..], p, s0);
    ThenFailed(x, stack[1..], s, s0, s1, out);
    RecordIsTimely(cfg, x, s1, IsFailure(cfg, out));
    assert Idempotency in stack <==> Idempotency in stack[1..];
    var s2 := Call(cfg, Failing(x), stack, p, s).0;
    if SomeCarries(s1.trace, |s.trace|, KEY) {
      CarriedLater(s1.trace, s2.trace, |s.trace|);
    }
  }

  /** The state in which the layers inside an admitting breaker are called. */
  function AfterAdmission(cfg: Settings, x: Trouble, s: State): State
    requires cfg.Normal()
  {
    var n := |s.trace|;
    var core := B.Acted(cfg.breaker, s.core, [B.Reports(true, x.Now(n) - x.step)]);
    Log(s.(core := B.Allow(cfg.breaker, core, x.Now(n), x.Now(n)).0), Event.Admitted(x.Now(n)))
  }

  lemma {:induction false} RetriesFail(
      cfg: Settings, x: Trouble, inner: seq<Layer>, p: Procedure, s: State, attempt: int, ceiling: int, prev: int)
    requires cfg.Normal() && Ready(cfg, x, p, s) && 1 <= attempt <= cfg.retry.maxAttempts
    ensures var (s1, out) := RetryFrom(cfg, Failing(x), inner, p, s, attempt, ceiling, prev);
            FailedCall(x, inner, s, s1, out)
    decreases |inner|, 1 + cfg.retry.maxAttempts - attempt
  {
    hide Call, R.NextDelay, R.Grow, SomeCarries, Timely;
    var env := Failing(x);
    FailsAlways(cfg, x, inner, p, s);
    var (s1, out) := Call(cfg, env, inner, p, s);
    if IsRetryable(cfg, out) && attempt != cfg.retry.maxAttempts {
      var delay := R.NextDelay(cfg.retry, out.hint, ceiling, prev, 0.0);
      var s2, grown := Log(s1, Waited(delay)), R.Grow(cfg.retry, ceiling);
      StillTimely(x, s1, s2);
      RetriesFail(cfg, x, inner, p, s2, attempt + 1, grown, delay);
      FailedTwice(x, inner, s, s1, s2, RetryFrom(cfg, env, inner, p, s2, attempt + 1, grown, delay).0);
    }
  }

  /** How many events come before the first wire attempt, with the key open. */
  function Lead(p: Procedure, stack: seq<Layer>): nat {
    if stack == [] then 0
    else
      Lead(p, stack[1..]) +
      match stack[0]
      case Breaking => 1
      case Idempotency => 1
      case Auth => if p.skipsAuth then 0 else 1
      case _ => 0
  }

  /** The first attempt carries no key, and a later one carries a key if the key layer is run again. */
  ghost predicate Split(cfg: Settings, x: Trouble, stack: seq<Layer>, p: Procedure, trace: seq<Event>) {
    && x.n0 < |trace| && trace[x.n0].Wire? && trace[x.n0].key == ""
    && (KeyLayerRepeatsOn(cfg, p, x.c, stack) ==> SomeCarries(trace, x.n0 + 1, KEY))
  }

  lemma SplitLater(cfg: Settings, x: Trouble, stack: seq<Layer>, p: Procedure, t: seq<Event>, t1: seq<Event>)
    requires Split(cfg, x, stack, p, t) && t <= t1
    ensures Split(cfg, x, stack, p, t1)
  {
    if KeyLayerRepeatsOn(cfg, p, x.c, stack) {
      CarriedLater(t, t1, x.n0 + 1);
    }
  }

  lemma CarriedLater(t: seq<Event>, t1: seq<Event>, from: nat)
    requires SomeCarries(t, from, KEY) && t <= t1
    ensures SomeCarries(t1, from, KEY)
  {
    var i :| from <= i < |t| && t[i].Wire? && t[i].key == KEY;
    assert t1[i] == t[i];
  }

  lemma {:induction false} SplitsKeys(cfg: Settings, x: Trouble, stack: seq<Layer>, p: Procedure, s: State)
    requires cfg.Normal() && Ready(cfg, x, p, s) && s.key == "" && |s.trace| + Lead(p, stack) == x.n0
    ensures Split(cfg, x, stack, p, Call(cfg, Failing(x), stack, p, s).0.trace)
    decreases |stack|
  {
    var env, n := Failing(x), |s.trace|;
    hide RetryFrom, B.Acted, B.Allow, B.Record, SomeCarries, Split, Clock;
    if stack == [] {
      FirstWire(cfg, x, p, s);
    } else {
      var inner := stack[1..];
      match stack[0]
      case Observe => SplitsKeys(cfg, x, inner, p, s); SameSplit(cfg, x, stack, p);
      case Breaking =>
        BreakerAdmits(cfg, x, s);
        var s0 := AfterAdmission(cfg, x, s);
        ClockMoves(x.base, x.step, n, n + 1);
        SplitsKeys(cfg, x, inner, p, s0);
        SameSplit(cfg, x, stack, p);
        SplitLater(cfg, x, stack, p, Call(cfg, env, inner, p, s0).0.trace, Call(cfg, env, stack, p, s).0.trace);
      case Idempotency =>
        StillTimely(x, s, Log(s, KeyDrawn("")));
        SplitsKeys(cfg, x, inner, p, Log(s, KeyDrawn("")));
        SameSplit(cfg, x, stack, p);
      case Retrying =>
        SplitsKeys(cfg, x, inner, p, s);
        if Gated(cfg, p) {
          SameSplit(cfg, x, stack, p);
        } else {
          RetriesSplit(cfg, x, stack, p, s);
        }
      case Rotation =>
        SplitsKeys(cfg, x, inner, p, s);
        RotationSplits(cfg, x, stack, p, s);
      case Auth =>
        StillTimely(x, s, WithToken(s, ""));
        SplitsKeys(cfg, x, inner, p, if p.skipsAuth then s else WithToken(s, ""));
        SameSplit(cfg, x, stack, p);
    }
  }

  lemma FirstWire(cfg: Settings, x: Trouble, p: Procedure, s: State)
    requires cfg.Normal() && s.key == "" && |s.trace| == x.n0
    ensures Split(cfg, x, [], p, Call(cfg, Failing(x), [], p, s).0.trace)
  {
  }

  /** A layer that does not repeat leaves the question to the layers inside. */
  lemma SameSplit(cfg: Settings, x: Trouble, stack: seq<Layer>, p: Procedure)
    requires stack != [] && !RepeatsOn(cfg, p, x.c, stack[0])
    ensures forall t :: Split(cfg, x, stack[1..], p, t) ==> Split(cfg, x, stack, p, t)
  {
    hide SomeCarries;
  }

  /** A layer that repeats runs a key layer inside it again, once a key can be drawn. */
  lemma SecondRun(
      cfg: Settings, x: Trouble, stack: seq<Layer>, p: Procedure, s1: State, e: Event, trace: seq<Event>)
    requires cfg.Normal() && Ready(cfg, x, p, s1) && stack != [] && RepeatsOn(cfg, p, x.c, stack[0])
    requires Split(cfg, x, stack[1..], p, s1.trace)
    requires Call(cfg, Failing(x), stack[1..], p, Log(s1, e)).0.trace <= trace
    ensures Split(cfg, x, stack, p, trace)
  {
    var inner, s2 := stack[1..], Log(s1, e);
    StillTimely(x, s1, s2);
    FailsAlways(cfg, x, inner, p, s2);
    var s3 := Call(cfg, Failing(x), inner, p, s2).0;
    hide Call;
    assert s1.trace <= s3.trace <= trace;
    if Idempotency in inner {
      assert SomeCarries(s3.trace, |s2.trace|, KEY);
      CarriedLater(s3.trace, trace, x.n0 + 1);
    } else {
      NoKeyLayer(cfg, p, x.c, inner);
    }
  }

  lemma {:induction false} NoKeyLayer(cfg: Settings, p: Procedure, c: Code, stack: seq<Layer>)
    requires Idempotency !in stack
    ensures !KeyLayerRepeatsOn(cfg, p, c, stack)
  {
    if stack != [] {
      NoKeyLayer(cfg, p, c, stack[1..]);
    }
  }

  lemma RetriesSplit(cfg: Settings, x: Trouble, stack: seq<Layer>, p: Procedure, s: State)
    requires cfg.Normal() && Ready(cfg, x, p, s) && s.key == "" && stack != [] && stack[0].Retrying? && !Gated(cfg, p)
    requires Split(cfg, x, stack[1..], p, Call(cfg, Failing(x), stack[1..], p, s).0.trace)
    ensures Split(cfg, x, stack, p, Call(cfg, Failing(x), stack, p, s).0.trace)
  {
    var env, inner, first := Failing(x), stack[1..], cfg.retry.initial;
    var whole := RetryFrom(cfg, env, inner, p, s, 1, first, first);
    assert Call(cfg, env, stack, p, s) == whole;
    hide Call, Split, R.NextDelay, R.Grow;
    FailsAlways(cfg, x, inner, p, s);
    var (s1, out) := Call(cfg, env, inner, p, s);
    if x.c in cfg.retryableCodes {
      var delay := R.NextDelay(cfg.retry, out.hint, first, first, 0.0);
      RetriesExtend(cfg, env, inner, p, Log(s1, Waited(delay)), 2, R.Grow(cfg.retry, first), delay);
      SecondRun(cfg, x, stack, p, s1, Waited(delay), whole.0.trace);
    } else {
      SameSplit(cfg, x, stack, p);
    }
  }

  lemma RotationSplits(cfg: Settings, x: Trouble, stack: seq<Layer>, p: Procedure, s: State)
    requires cfg.Normal() && Ready(cfg, x, p, s) && s.key == "" && stack != [] && stack[0].Rotation?
    requires Split(cfg, x, stack[1..], p, Call(cfg, Failing(x), stack[1..], p, s).0.trace)
    ensures Split(cfg, x, stack, p, Call(cfg, Failing(x), stack, p, s).0.trace)
  {
    var env, inner := Failing(x), stack[1..];
    var (s1, out) := Call(cfg, env, inner, p, s);
    var whole := Call(cfg, env, stack, p, s);
    assert out == Err(x.c, None) ==>
      whole == if !RotationGated(cfg, p) && x.c == UNAUTHENTICATED then Call(cfg, env, inner, p, Log(s1, Invalidated))
               else (s1, out);
    hide Split, Call, SomeCarries;
    FailsAlways(cfg, x, inner, p, s);
    if !RotationGated(cfg, p) && x.c == UNAUTHENTICATED {
      SecondRun(cfg, x, stack, p, s1, Invalidated, whole.0.trace);
    } else {
      SameSplit(cfg, x, stack, p);
    }
  }

  /** The environment in which two attempts carry different keys. */
  lemma KeysSplit(cfg: Settings, stack: seq<Layer>, p: Procedure, s: State) returns (env: Env)
    requires cfg.Normal() && !p.safe && s.key == "" && KeyLayerRepeats(cfg, p, stack)
    ensures !OneKey(Call(cfg, env, stack, p, s).0.trace, |s.trace|)
  {
    var c := CodeThatRepeats(cfg, p, stack);
    var step := cfg.breaker.openDuration;
    var x := Trouble(c, |s.trace| + Lead(p, stack), s.core.openedAt + step, step);
    ClockMoves(x.base, step, 0, |s.trace|);
    env := Failing(x);
    SplitsKeys(cfg, x, stack, p, s);
    var t := Call(cfg, env, stack, p, s).0.trace;
    hide Call;
    var i :| x.n0 + 1 <= i < |t| && t[i].Wire? && t[i].key == KEY;
    assert t[x.n0].key != t[i].key;
  }
}
