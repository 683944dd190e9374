/**
 Retry with backoff. Durations are whole nanoseconds, factors and jitter draws are reals, and the conversion from one to
 the other truncates toward zero as the source's does.
 */
module Retry {
  import opened Wrappers

  datatype Strategy = Full | Decorrelated

  datatype Config = Config(
    strategy: Strategy, maxAttempts: int, initial: int, max: int, minDelay: int,
    multiplier: real, decorrelationFactor: real, allowNonIdempotent: bool)
  {
    ghost predicate Normal() {
      maxAttempts >= 2 && multiplier >= 1.0 && decorrelationFactor >= 1.0 && 0 < initial <= max
    }
  }

  const MIN_MAX_ATTEMPTS := 2
  const MIN_MULTIPLIER := 1.0
  const DEFAULT_DECORRELATION_FACTOR := 3.0
  const DEFAULT_INITIAL_BACKOFF := 100_000_000

  /** What the interceptor makes of a configuration: each setting out of range is replaced, the others are kept. */
  function Normalised(cfg: Config): (r: Config)
    ensures r.Normal()
    ensures cfg.Normal() ==> r == cfg
  {
    var initial := if cfg.initial <= 0 then DEFAULT_INITIAL_BACKOFF else cfg.initial;
    Config(cfg.strategy, Max(cfg.maxAttempts, MIN_MAX_ATTEMPTS), initial, Max(cfg.max, initial), cfg.minDelay,
           if cfg.multiplier < MIN_MULTIPLIER then MIN_MULTIPLIER else cfg.multiplier,
           if cfg.decorrelationFactor < MIN_MULTIPLIER then DEFAULT_DECORRELATION_FACTOR else cfg.decorrelationFactor,
           cfg.allowNonIdempotent)
  }

  method Normalise(cfg: Config) returns (r: Config)
    ensures r == Normalised(cfg)
    ensures r.Normal() && (cfg.Normal() ==> r == cfg)
    ensures r.multiplier == (if cfg.multiplier < 1.0 then 1.0 else cfg.multiplier)
    ensures r.decorrelationFactor == (if cfg.decorrelationFactor < 1.0 then 3.0 else cfg.decorrelationFactor)
    ensures r.maxAttempts == (if cfg.maxAttempts < 2 then 2 else cfg.maxAttempts)
    ensures r.initial == (if cfg.initial > 0 then cfg.initial else 100_000_000)
    ensures r.max == (if cfg.max < r.initial then r.initial else cfg.max)
    ensures r.strategy == cfg.strategy && r.minDelay == cfg.minDelay && r.allowNonIdempotent == cfg.allowNonIdempotent
  {
    r := cfg;
    if r.maxAttempts < MIN_MAX_ATTEMPTS {
      r := r.(maxAttempts := MIN_MAX_ATTEMPTS);
    }
    if r.multiplier < MIN_MULTIPLIER {
      r := r.(multiplier := MIN_MULTIPLIER);
    }
    if r.decorrelationFactor < MIN_MULTIPLIER {
      r := r.(decorrelationFactor := DEFAULT_DECORRELATION_FACTOR);
    }
    if r.initial <= 0 {
      r := r.(initial := DEFAULT_INITIAL_BACKOFF);
    }
    if r.max < r.initial {
      r := r.(max := r.initial);
    }
  }

  function Min(a: int, b: int): int {
    if a <= b then a else b
  }

  function Max(a: int, b: int): int {
    if a >= b then a else b
  }

  function Truncated(x: real): int {
    if x >= 0.0 then x.Floor else -((-x).Floor)
  }

  /** A factor applied to a duration. */
  function Scaled(factor: real, duration: int): int {
    Truncated(factor * duration as real)
  }

  ghost predicate Draw(jitter: real) {
    0.0 <= jitter < 1.0
  }

  function Grow(cfg: Config, ceiling: int): int {
    Min(Scaled(cfg.multiplier, ceiling), cfg.max)
  }

  function FullDelay(cfg: Config, ceiling: int, jitter: real): int {
    var upper := Min(ceiling, cfg.max);
    if upper <= 0 then 0
    else if cfg.minDelay > 0 then
      if upper <= cfg.minDelay then cfg.minDelay
      else cfg.minDelay + Scaled(jitter, upper - cfg.minDelay)
    else Scaled(jitter, upper)
  }

  function DecorrelatedDelay(cfg: Config, prev: int, jitter: real): int {
    var upper := Min(Scaled(cfg.decorrelationFactor, prev), cfg.max);
    if upper <= cfg.initial then cfg.initial
    else cfg.initial + Scaled(jitter, upper - cfg.initial)
  }

  function NextDelay(cfg: Config, hint: Option<int>, ceiling: int, prev: int, jitter: real): int {
    if hint.Some? && hint.value > 0 then Min(hint.value, cfg.max)
    else match cfg.strategy
      case Decorrelated => DecorrelatedDelay(cfg, prev, jitter)
      case Full => FullDelay(cfg, ceiling, jitter)
  }

  // ---- The jitter draw ----

  /** A draw over a spread of n lands on every whole number below n and on no other. */
  lemma DrawRange(n: int, d: int)
    requires n > 0
    ensures (exists j: real :: Draw(j) && Scaled(j, n) == d) <==> 0 <= d < n
  {
    forall j: real | Draw(j) && Scaled(j, n) == d ensures 0 <= d < n {
      DrawBelow(n, j);
    }
    if 0 <= d < n {
      var j := d as real / n as real;
      assert j * n as real == d as real;
      QuotientIsDraw(n, d);
      assert Draw(j) && Scaled(j, n) == d;
    }
  }

  lemma DrawBelow(n: int, j: real)
    requires n > 0 && Draw(j)
    ensures 0 <= Scaled(j, n) < n
  {
    Fraction(j, n as real);
    TruncatedBelow(j * n as real, n);
  }

  lemma Fraction(j: real, c: real)
    requires 0.0 <= j < 1.0 && c > 0.0
    ensures 0.0 <= j * c < c
  {
    Product(j, 0.0, c);
    Product(1.0, j, c);
    assert 0.0 * c == 0.0 && 1.0 * c == c;
  }

  lemma TruncatedBelow(x: real, n: int)
    requires 0.0 <= x < n as real
    ensures 0 <= Truncated(x) < n
  {
  }

  lemma Product(a: real, b: real, c: real)
    requires c > 0.0
    ensures a >= b ==> a * c >= b * c
    ensures a > b ==> a * c > b * c
  {
    if a > b {
      assert (a - b) * c > 0.0;
    }
  }

  lemma QuotientIsDraw(n: int, d: int)
    requires 0 <= d < n
    ensures Draw(d as real / n as real)
  {
    var q := d as real / n as real;
    assert q * n as real == d as real;
    if q < 0.0 {
      Product(0.0, q, n as real);
    }
    if q >= 1.0 {
      Product(q, 1.0, n as real);
    }
  }

  /**
   The possible full-jitter delays under a positive ceiling, exactly: without a floor every duration below
   min(ceiling, max); with one, every duration from the floor up to that, or the floor alone when it is not below it.
   */
  lemma FullJitterRange(cfg: Config, ceiling: int, d: int)
    requires cfg.Normal() && ceiling > 0
    ensures (exists j: real :: Draw(j) && FullDelay(cfg, ceiling, j) == d) <==>
              if cfg.minDelay <= 0 then 0 <= d < Min(ceiling, cfg.max)
              else d == cfg.minDelay || cfg.minDelay < d < Min(ceiling, cfg.max)
  {
    var upper := Min(ceiling, cfg.max);
    hide Scaled;
    if cfg.minDelay <= 0 {
      DrawRange(upper, d);
      Transfer(cfg, ceiling, d, upper, 0);
    } else if upper <= cfg.minDelay {
      assert forall j: real :: FullDelay(cfg, ceiling, j) == cfg.minDelay;
      assert Draw(0.0);
    } else {
      DrawRange(upper - cfg.minDelay, d - cfg.minDelay);
      Transfer(cfg, ceiling, d, upper - cfg.minDelay, cfg.minDelay);
    }
  }

  lemma Transfer(cfg: Config, ceiling: int, d: int, n: int, base: int)
    requires forall j: real | Draw(j) :: FullDelay(cfg, ceiling, j) == base + Scaled(j, n)
    ensures (exists j: real :: Draw(j) && FullDelay(cfg, ceiling, j) == d) <==>
            (exists j: real :: Draw(j) && Scaled(j, n) == d - base)
  {
    if j: real :| Draw(j) && Scaled(j, n) == d - base {
      assert Draw(j) && FullDelay(cfg, ceiling, j) == d;
    }
  }

  /** Decorrelated delays stay between `initial` and `max` whatever delay, server hint included, came before. */
  lemma DecorrelatedBounds(cfg: Config, prev: int, jitter: real)
    requires cfg.Normal() && Draw(jitter)
    ensures cfg.initial <= DecorrelatedDelay(cfg, prev, jitter) <= cfg.max
    ensures DecorrelatedDelay(cfg, prev, jitter) <= Max(cfg.initial, Scaled(cfg.decorrelationFactor, prev))
  {
    hide Scaled;
    var upper := Min(Scaled(cfg.decorrelationFactor, prev), cfg.max);
    if upper > cfg.initial {
      DrawBelow(upper - cfg.initial, jitter);
    }
  }

  /**
   The possible decorrelated delays after a previous one, exactly: `initial`, and every duration between it and
   min(max, factor * previous).
   */
  lemma DecorrelatedRange(cfg: Config, prev: int, d: int)
    requires cfg.Normal()
    ensures (exists j: real :: Draw(j) && DecorrelatedDelay(cfg, prev, j) == d) <==>
              d == cfg.initial || cfg.initial < d < Min(Scaled(cfg.decorrelationFactor, prev), cfg.max)
  {
    hide Scaled;
    var upper := Min(Scaled(cfg.decorrelationFactor, prev), cfg.max);
    if upper <= cfg.initial {
      assert forall j: real :: DecorrelatedDelay(cfg, prev, j) == cfg.initial;
      assert Draw(0.0);
    } else {
      DrawRange(upper - cfg.initial, d - cfg.initial);
      if j: real :| Draw(j) && Scaled(j, upper - cfg.initial) == d - cfg.initial {
        assert Draw(j) && DecorrelatedDelay(cfg, prev, j) == d;
      }
    }
  }

  lemma FullBounds(cfg: Config, ceiling: int, jitter: real)
    requires cfg.Normal() && Draw(jitter)
    ensures 0 <= FullDelay(cfg, ceiling, jitter) <= Max(cfg.max, cfg.minDelay)
  {
    hide Scaled;
    var upper := Min(ceiling, cfg.max);
    if upper > 0 {
      if cfg.minDelay <= 0 {
        DrawBelow(upper, jitter);
      } else if upper > cfg.minDelay {
        DrawBelow(upper - cfg.minDelay, jitter);
      }
    }
  }

  /** The configured maximum bounds every full-jitter delay exactly when the floor does not exceed it. */
  lemma MaxHoldsIffFloorBelow(cfg: Config)
    requires cfg.Normal()
    ensures (forall ceiling: int, jitter: real | Draw(jitter) :: FullDelay(cfg, ceiling, jitter) <= cfg.max) <==>
            cfg.minDelay <= cfg.max
  {
    if cfg.minDelay <= cfg.max {
      forall ceiling: int, jitter: real | Draw(jitter) ensures FullDelay(cfg, ceiling, jitter) <= cfg.max {
        FullBounds(cfg, ceiling, jitter);
      }
    } else {
      assert Draw(0.0) && FullDelay(cfg, cfg.initial, 0.0) == cfg.minDelay;
    }
  }

  /** Every requested delay is nonnegative and bounded; the bound is `max` alone but for full jitter with a larger floor. */
  lemma DelayBounds(cfg: Config, hint: Option<int>, ceiling: int, prev: int, jitter: real)
    requires cfg.Normal() && Draw(jitter)
    ensures 0 <= NextDelay(cfg, hint, ceiling, prev, jitter) <= LongestDelay(cfg)
  {
    DecorrelatedBounds(cfg, prev, jitter);
    FullBounds(cfg, ceiling, jitter);
  }

  function LongestDelay(cfg: Config): int {
    if cfg.strategy.Full? then Max(cfg.max, cfg.minDelay) else cfg.max
  }

  // ---- The ceiling ----

  /** The ceiling in force after k retries. */
  function Ceiling(cfg: Config, k: nat): int {
    if k == 0 then cfg.initial else Grow(cfg, Ceiling(cfg, k - 1))
  }

  function Power(b: real, k: nat): real {
    if k == 0 then 1.0 else b * Power(b, k - 1)
  }

  /** The documented ceiling, before truncation and cap: initial * multiplier^k. */
  function Ideal(cfg: Config, k: nat): real {
    cfg.initial as real * Power(cfg.multiplier, k)
  }

  /** What truncation can lose over k steps: under one nanosecond in each, multiplied on by the later steps. */
  function Loss(b: real, k: nat): real {
    if k == 0 then 0.0 else b * Loss(b, k - 1) + 1.0
  }

  lemma GrowsOrReachesMax(cfg: Config, c: int)
    requires cfg.Normal() && cfg.initial <= c <= cfg.max
    ensures c <= Grow(cfg, c) <= cfg.max
    ensures Grow(cfg, c) as real <= cfg.multiplier * c as real
    ensures Grow(cfg, c) == cfg.max || Grow(cfg, c) as real > cfg.multiplier * c as real - 1.0
  {
    Product(cfg.multiplier, 1.0, c as real);
    assert cfg.multiplier * c as real >= c as real;
    assert (cfg.multiplier * c as real).Floor >= c;
  }

  lemma {:induction false} CeilingRises(cfg: Config, k: nat)
    requires cfg.Normal()
    ensures cfg.initial <= Ceiling(cfg, k) <= Ceiling(cfg, k + 1) <= cfg.max
  {
    hide Grow;
    if k > 0 {
      CeilingRises(cfg, k - 1);
    }
    GrowsOrReachesMax(cfg, Ceiling(cfg, k));
  }

  /**
   The k-th ceiling follows min(max, initial * multiplier^k): it is never above either, and unless it is already `max` it
   is below the power by no more than the truncations lost.
   */
  lemma {:induction false} CeilingFollowsPower(cfg: Config, k: nat)
    requires cfg.Normal()
    ensures Ceiling(cfg, k) <= cfg.max
    ensures Ceiling(cfg, k) as real <= Ideal(cfg, k)
    ensures Ceiling(cfg, k) == cfg.max || Ceiling(cfg, k) as real >= Ideal(cfg, k) - Loss(cfg.multiplier, k)
  {
    CeilingRises(cfg, k);
    if k > 0 {
      CeilingFollowsPower(cfg, k - 1);
      CeilingRises(cfg, k - 1);
      var c := Ceiling(cfg, k - 1);
      hide Ideal, Grow, Loss;
      GrowsOrReachesMax(cfg, c);
      OneStep(cfg, c, k);
    }
  }

  lemma OneStep(cfg: Config, c: int, k: nat)
    requires cfg.Normal() && k > 0
    ensures c as real <= Ideal(cfg, k - 1) ==> cfg.multiplier * c as real <= Ideal(cfg, k)
    ensures c as real >= Ideal(cfg, k - 1) - Loss(cfg.multiplier, k - 1) ==>
              cfg.multiplier * c as real - 1.0 >= Ideal(cfg, k) - Loss(cfg.multiplier, k)
  {
    var i, m, r := cfg.initial as real, cfg.multiplier, c as real;
    var p, loss := Power(m, k - 1), Loss(m, k - 1);
    assert Ideal(cfg, k - 1) == i * p && Ideal(cfg, k) == i * (m * p);
    assert Loss(m, k) == m * loss + 1.0;
    hide *;
    Associate(i, p, m);
    if r <= i * p {
      Product(i * p, r, m);
      assert r * m == m * r;
    }
    if r >= i * p - loss {
      Product(r, i * p - loss, m);
      Distribute(i * p, loss, m);
      assert r * m == m * r;
    }
  }

  lemma Associate(a: real, b: real, c: real)
    ensures a * (c * b) == a * b * c
  {
  }

  lemma Distribute(a: real, b: real, c: real)
    ensures (a - b) * c == a * c - c * b
  {
  }

  function IntPower(b: nat, k: nat): nat {
    if k == 0 then 1 else b * IntPower(b, k - 1)
  }

  /** A whole multiplier loses nothing: the ceiling is min(max, initial * multiplier^k) on the nose. */
  lemma {:induction false} CeilingExact(cfg: Config, m: nat, k: nat)
    requires cfg.Normal() && cfg.multiplier == m as real
    ensures Ceiling(cfg, k) == Min(cfg.max, cfg.initial * IntPower(m, k))
  {
    hide Grow;
    if k > 0 {
      CeilingExact(cfg, m, k - 1);
      CeilingRises(cfg, k - 1);
      var c, p := Ceiling(cfg, k - 1), cfg.initial * IntPower(m, k - 1);
      GrowsByWhole(cfg, c, m);
      AssociateInt(cfg.initial, IntPower(m, k - 1), m);
      if c != p {
        Dominates(c, p, m);
      }
    }
  }

  lemma GrowsByWhole(cfg: Config, c: int, m: nat)
    requires cfg.Normal() && cfg.multiplier == m as real && c >= 0
    ensures Grow(cfg, c) == Min(c * m, cfg.max)
  {
    assert cfg.multiplier * c as real == (c * m) as real;
    assert c * m >= 0;
  }

  lemma AssociateInt(a: int, b: int, c: int)
    ensures a * (c * b) == a * b * c
  {
  }

  lemma Dominates(c: int, p: int, m: int)
    requires m >= 1 && 0 <= c <= p
    ensures c <= c * m <= p * m
  {
  }

  // ---- The loop ----

  /** What one attempt meets: its outcome, the jitter drawn after it, and whether the wait after it ran to its end. */
  datatype Attempt = Attempt(ok: bool, retryable: bool, hint: Option<int>, jitter: real, wakes: bool)

  /**
   The delay `d` is right before the k-th retry, after an attempt that failed with this hint and a previous delay `prev`.
   A positive hint wins, up to `max`. Without one, full jitter draws below min(max, initial * multiplier^(k-1)), from the
   floor if there is one, and decorrelated jitter between `initial` and min(max, factor * prev).
   */
  ghost predicate RightDelay(cfg: Config, hint: Option<int>, k: nat, prev: int, jitter: real, d: int)
    requires k >= 1
  {
    if hint.Some? && hint.value > 0 then d == if hint.value <= cfg.max then hint.value else cfg.max
    else if cfg.strategy.Full? then
      d == FullDelay(cfg, Ceiling(cfg, k - 1), jitter) && InFullRange(cfg, k, d)
    else
      && d == DecorrelatedDelay(cfg, prev, jitter)
      && (d == cfg.initial || (cfg.initial < d < cfg.max && d as real < cfg.decorrelationFactor * prev as real))
  }

  ghost predicate InFullRange(cfg: Config, k: nat, d: int)
    requires k >= 1
  {
    var below := d < cfg.max && d as real < cfg.initial as real * Power(cfg.multiplier, k - 1);
    if cfg.minDelay <= 0 then 0 <= d && below else d == cfg.minDelay || (cfg.minDelay < d && below)
  }

  lemma NextDelayIsRight(cfg: Config, hint: Option<int>, k: nat, prev: int, jitter: real)
    requires cfg.Normal() && Draw(jitter) && k >= 1
    ensures RightDelay(cfg, hint, k, prev, jitter, NextDelay(cfg, hint, Ceiling(cfg, k - 1), prev, jitter))
  {
    hide Ceiling, FullDelay, DecorrelatedDelay, InFullRange, Scaled;
    FullDelayInRange(cfg, k, jitter);
    DecorrelatedRange(cfg, prev, DecorrelatedDelay(cfg, prev, jitter));
    ScaledBelow(cfg.decorrelationFactor, prev);
  }

  lemma FullDelayInRange(cfg: Config, k: nat, jitter: real)
    requires cfg.Normal() && Draw(jitter) && k >= 1
    ensures InFullRange(cfg, k, FullDelay(cfg, Ceiling(cfg, k - 1), jitter))
  {
    hide Ceiling, FullDelay, Scaled, Power;
    CeilingRises(cfg, k - 1);
    CeilingFollowsPower(cfg, k - 1);
    FullJitterRange(cfg, Ceiling(cfg, k - 1), FullDelay(cfg, Ceiling(cfg, k - 1), jitter));
  }

  lemma ScaledBelow(factor: real, duration: int)
    ensures Scaled(factor, duration) > 0 ==> Scaled(factor, duration) as real <= factor * duration as real
  {
  }

  function Sum(s: seq<int>): int {
    if s == [] then 0 else Sum(s[..|s| - 1]) + s[|s| - 1]
  }

  ghost predicate Draws(env: nat -> Attempt) {
    forall k: nat :: Draw(env(k).jitter)
  }

  /**
   One unary call. `attempts` numbers the attempt whose outcome is returned, `delays` lists the waits asked of the clock.
   */
  method WrapUnary(cfg: Config, idempotencyUnknown: bool, env: nat -> Attempt)
    returns (attempts: nat, delays: seq<int>)
    requires cfg.Normal() && Draws(env)
    ensures !cfg.allowNonIdempotent && idempotencyUnknown ==> attempts == 1 && delays == []
    ensures 1 <= attempts <= cfg.maxAttempts
    ensures forall k: nat | 1 <= k < attempts :: !env(k).ok && env(k).retryable && env(k).wakes
    ensures cfg.allowNonIdempotent || !idempotencyUnknown ==>
              var last := env(attempts);
              var given := !last.ok && last.retryable && attempts < cfg.maxAttempts;
              (given ==> !last.wakes) && |delays| == if given then attempts else attempts - 1
    ensures forall k: nat | 1 <= k <= |delays| ::
              RightDelay(cfg, env(k).hint, k, if k == 1 then cfg.initial else delays[k - 2], env(k).jitter, delays[k - 1])
    ensures 0 <= Sum(delays) <= (cfg.maxAttempts - 1) * LongestDelay(cfg)
  {
    hide NextDelay, RightDelay, LongestDelay, Grow, Sum;
    delays := [];
    attempts := 1;
    SumBounds(cfg, delays);
    if !cfg.allowNonIdempotent && idempotencyUnknown {
      return;
    }
    var ceiling, prev := cfg.initial, cfg.initial;
    while attempts <= cfg.maxAttempts
      invariant 1 <= attempts <= cfg.maxAttempts
      invariant |delays| == attempts - 1
      invariant forall k: nat | 1 <= k < attempts :: !env(k).ok && env(k).retryable && env(k).wakes
      invariant forall k: nat | 1 <= k <= |delays| ::
                  RightDelay(cfg, env(k).hint, k, if k == 1 then cfg.initial else delays[k - 2], env(k).jitter, delays[k - 1])
      invariant ceiling == Ceiling(cfg, attempts - 1)
      invariant prev == if attempts == 1 then cfg.initial else delays[attempts - 2]
      invariant forall i | 0 <= i < |delays| :: 0 <= delays[i] <= LongestDelay(cfg)
      decreases cfg.maxAttempts - attempts
    {
      var a := env(attempts);
      if a.ok || !a.retryable || attempts == cfg.maxAttempts {
        SumBounds(cfg, delays);
        return;
      }
      var delay := NextDelay(cfg, a.hint, ceiling, prev, a.jitter);
      DelayBounds(cfg, a.hint, ceiling, prev, a.jitter);
      NextDelayIsRight(cfg, a.hint, attempts, prev, a.jitter);
      delays := delays + [delay];
      if !a.wakes {
        SumBounds(cfg, delays);
        return;
      }
      prev, ceiling := delay, Grow(cfg, ceiling);
      attempts := attempts + 1;
    }
  }

  lemma {:induction false} SumBounds(cfg: Config, delays: seq<int>)
    requires cfg.Normal() && |delays| <= cfg.maxAttempts - 1
    requires forall i | 0 <= i < |delays| :: 0 <= delays[i] <= LongestDelay(cfg)
    ensures 0 <= Sum(delays) <= (cfg.maxAttempts - 1) * LongestDelay(cfg)
  {
    SumWithin(delays, LongestDelay(cfg));
    Scale(|delays|, cfg.maxAttempts - 1, LongestDelay(cfg));
  }

  lemma SumWithin(s: seq<int>, most: int)
    requires forall i | 0 <= i < |s| :: 0 <= s[i] <= most
    ensures 0 <= Sum(s) <= |s| * most
  {
    if s != [] {
      SumWithin(s[..|s| - 1], most);
      assert |s| * most == (|s| - 1) * most + most;
    }
  }

  lemma Scale(a: int, b: int, c: int)
    requires 0 <= a <= b && c >= 0
    ensures 0 <= a * c <= b * c
  {
  }
}
