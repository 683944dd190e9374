/**
 A unary call through a stack of interceptors, outermost first. Everything the call asks of its environment is an event
 of its trace, and the environment answers the n-th event by number; between two events other callers act on the
 breaker as they like.
 */
module Stack {
  import opened Wrappers
  import B = Breaker
  import R = Retry

  type Code = int

  const UNAUTHENTICATED: Code := 16
  const UNAVAILABLE: Code := 14

  datatype Outcome = Ok | Err(code: Code, hint: Option<int>)

  datatype Procedure = Procedure(safe: bool, idempotencyUnknown: bool, skipsAuth: bool)

  datatype Layer = Observe | Breaking | Idempotency | Retrying | Rotation | Auth

  datatype Settings = Settings(
    breaker: B.Config, failureCodes: set<Code>, retry: R.Config, retryableCodes: set<Code>, rotateNonIdempotent: bool)
  {
    ghost predicate Normal() {
      breaker.Normal() && retry.Normal()
    }
  }

  datatype Event =
    | Admitted(now: int)
    | ShortCircuited(now: int, outcome: Outcome)
    | Recorded(failed: bool, now: int)
    | KeyDrawn(key: string)
    | TokenDrawn(token: Option<string>)
    | Invalidated
    | Waited(delay: int)
    | Wire(key: string, bearer: string, outcome: Outcome)

  /** The request's two headers (empty when unset), the breaker, and what has happened. */
  datatype State = State(key: string, bearer: string, core: B.Core, trace: seq<Event>)

  datatype Env = Env(
    server: nat -> Outcome, token: nat -> Option<string>, newKey: nat -> string,
    now: nat -> int, later: nat -> int, jitter: nat -> real, wakes: nat -> bool, others: nat -> seq<B.Action>)

  function Log(s: State, e: Event): State {
    s.(trace := s.trace + [e])
  }

  function WithToken(s: State, token: string): State {
    Log(s, TokenDrawn(Some(token))).(bearer := "Bearer " + token)
  }

  predicate IsFailure(cfg: Settings, out: Outcome) {
    out.Err? && out.code in cfg.failureCodes
  }

  predicate IsRetryable(cfg: Settings, out: Outcome) {
    out.Err? && out.code in cfg.retryableCodes
  }

  /** Retries pass the gate unless the schema leaves the method's idempotency unknown and the caller has not opted out. */
  predicate Gated(cfg: Settings, p: Procedure) {
    !cfg.retry.allowNonIdempotent && p.idempotencyUnknown
  }

  predicate RotationGated(cfg: Settings, p: Procedure) {
    !cfg.rotateNonIdempotent && p.idempotencyUnknown
  }

  function Call(cfg: Settings, env: Env, stack: seq<Layer>, p: Procedure, s: State): (State, Outcome)
    requires cfg.Normal()
    decreases |stack|, 0
  {
    var n := |s.trace|;
    if stack == [] then (Log(s, Wire(s.key, s.bearer, env.server(n))), env.server(n))
    else
      var inner := stack[1..];
      match stack[0]
      case Observe => Call(cfg, env, inner, p, s)
      case Breaking =>
        var (core, verdict) := B.Allow(cfg.breaker, B.Acted(cfg.breaker, s.core, env.others(n)), env.now(n), env.later(n));
        (match verdict
         case Rejected(retryAfter) =>
           var out := Err(UNAVAILABLE, Some(R.Max(retryAfter, 0)));
           (Log(s.(core := core), ShortCircuited(env.now(n), out)), out)
         case Admitted =>
           var (s1, out) := Call(cfg, env, inner, p, Log(s.(core := core), Event.Admitted(env.now(n))));
           var m, failed := |s1.trace|, IsFailure(cfg, out);
           var core1 := B.Record(cfg.breaker, B.Acted(cfg.breaker, s1.core, env.others(m)), failed, env.now(m));
           (Log(s1.(core := core1), Recorded(failed, env.now(m))), out))
      case Idempotency =>
        if p.safe || s.key != "" then Call(cfg, env, inner, p, s)
        else Call(cfg, env, inner, p, Log(s.(key := env.newKey(n)), KeyDrawn(env.newKey(n))))
      case Retrying =>
        if Gated(cfg, p) then Call(cfg, env, inner, p, s)
        else RetryFrom(cfg, env, inner, p, s, 1, cfg.retry.initial, cfg.retry.initial)
      case Rotation =>
        var (s1, out) := Call(cfg, env, inner, p, s);
        if !RotationGated(cfg, p) && out.Err? && out.code == UNAUTHENTICATED then
          Call(cfg, env, inner, p, Log(s1, Invalidated))
        else (s1, out)
      case Auth =>
        if p.skipsAuth then Call(cfg, env, inner, p, s)
        else
          if env.token(n).None? then (Log(s, TokenDrawn(None)), Err(UNAUTHENTICATED, None))
          else Call(cfg, env, inner, p, WithToken(s, env.token(n).value))
  }

  function RetryFrom(
      cfg: Settings, env: Env, inner: seq<Layer>, p: Procedure, s: State, attempt: int, ceiling: int, prev: int)
    : (State, Outcome)
    requires cfg.Normal() && 1 <= attempt <= cfg.retry.maxAttempts
    decreases |inner|, 1 + cfg.retry.maxAttempts - attempt
  {
    var (s1, out) := Call(cfg, env, inner, p, s);
    if !IsRetryable(cfg, out) || attempt == cfg.retry.maxAttempts then (s1, out)
    else
      var n := |s1.trace|;
      var delay := R.NextDelay(cfg.retry, out.hint, ceiling, prev, env.jitter(n));
      var s2 := Log(s1, Waited(delay));
      if !env.wakes(n) then (s2, out)
      else RetryFrom(cfg, env, inner, p, s2, attempt + 1, R.Grow(cfg.retry, ceiling), delay)
  }

  // ---- Counting ----

  function Wires(t: seq<Event>): nat {
    if t == [] then 0 else Wires(t[..|t| - 1]) + if t[|t| - 1].Wire? then 1 else 0
  }

  function Admissions(t: seq<Event>): nat {
    if t == [] then 0 else Admissions(t[..|t| - 1]) + if t[|t| - 1].Admitted? then 1 else 0
  }

  function Records(t: seq<Event>): nat {
    if t == [] then 0 else Records(t[..|t| - 1]) + if t[|t| - 1].Recorded? then 1 else 0
  }

  /** The sum of the waits asked of the clock. */
  function TotalWait(t: seq<Event>): int {
    if t == [] then 0 else TotalWait(t[..|t| - 1]) + if t[|t| - 1].Waited? then t[|t| - 1].delay else 0
  }

  /** What the last event that decides an outcome says: a reply, a missing token, a short circuit. */
  function LastOutcome(t: seq<Event>): Option<Outcome> {
    if t == [] then None
    else match t[|t| - 1]
      case Wire(_, _, out) => Some(out)
      case ShortCircuited(_, out) => Some(out)
      case TokenDrawn(None) => Some(Err(UNAUTHENTICATED, None))
      case _ => LastOutcome(t[..|t| - 1])
  }

  predicate Decides(e: Event) {
    e.Wire? || e.ShortCircuited? || e == TokenDrawn(None)
  }

  lemma CountsAfter(s: State, e: Event)
    ensures Wires(Log(s, e).trace) == Wires(s.trace) + if e.Wire? then 1 else 0
    ensures Admissions(Log(s, e).trace) == Admissions(s.trace) + if e.Admitted? then 1 else 0
    ensures Records(Log(s, e).trace) == Records(s.trace) + if e.Recorded? then 1 else 0
    ensures TotalWait(Log(s, e).trace) == TotalWait(s.trace) + if e.Waited? then e.delay else 0
    ensures !Decides(e) ==> LastOutcome(Log(s, e).trace) == LastOutcome(s.trace)
    ensures e.Wire? || e.ShortCircuited? ==> LastOutcome(Log(s, e).trace) == Some(e.outcome)
    ensures e == TokenDrawn(None) ==> LastOutcome(Log(s, e).trace) == Some(Err(UNAUTHENTICATED, None))
  {
    assert (s.trace + [e])[..|s.trace|] == s.trace;
  }

  /** How many wire attempts one call through the stack can make. */
  function WireBudget(cfg: Settings, stack: seq<Layer>, p: Procedure): nat
    requires cfg.Normal()
  {
    if stack == [] then 1
    else
      var inner := WireBudget(cfg, stack[1..], p);
      if stack[0].Retrying? && !Gated(cfg, p) then cfg.retry.maxAttempts * inner
      else if stack[0].Rotation? && !RotationGated(cfg, p) then 2 * inner
      else inner
  }

  /** How long one call through the stack can wait between attempts. */
  function WaitBudget(cfg: Settings, stack: seq<Layer>, p: Procedure): int
    requires cfg.Normal()
  {
    if stack == [] then 0
    else
      var inner := WaitBudget(cfg, stack[1..], p);
      if stack[0].Retrying? && !Gated(cfg, p) then
        cfg.retry.maxAttempts * inner + (cfg.retry.maxAttempts - 1) * R.LongestDelay(cfg.retry)
      else if stack[0].Rotation? && !RotationGated(cfg, p) then 2 * inner
      else inner
  }

  ghost predicate Draws(env: Env) {
    forall n: nat :: R.Draw(env.jitter(n))
  }

  /**
   What holds of every call, whatever the stack: it stays within its wire budget and, jitter draws being draws, within
   its wait budget, records once for each admission, and returns what the last deciding event said.
   */
  ghost predicate Accounted(env: Env, s: State, s1: State, out: Outcome, wires: nat, waits: int) {
    && (Draws(env) ==> TotalWait(s.trace) <= TotalWait(s1.trace) <= TotalWait(s.trace) + waits)
    && s.trace <= s1.trace
    && LastOutcome(s1.trace) == Some(out)
    && Wires(s1.trace) <= Wires(s.trace) + wires
    && Records(s1.trace) - Records(s.trace) == Admissions(s1.trace) - Admissions(s.trace)
  }

  lemma {:induction false} CallIsAccounted(cfg: Settings, env: Env, stack: seq<Layer>, p: Procedure, s: State)
    requires cfg.Normal()
    ensures var (s1, out) := Call(cfg, env, stack, p, s);
            Accounted(env, s, s1, out, WireBudget(cfg, stack, p), WaitBudget(cfg, stack, p))
    decreases |stack|, 0
  {
    var n := |s.trace|;
    hide Wires, Admissions, Records, TotalWait, LastOutcome, RetryFrom, B.Acted, B.Allow, B.Record;
    WaitBudgetPositive(cfg, stack, p);
    if stack == [] {
      CountsAfter(s, Wire(s.key, s.bearer, env.server(n)));
    } else {
      var inner := stack[1..];
      match stack[0]
      case Observe => CallIsAccounted(cfg, env, inner, p, s);
      case Breaking =>
        var (core, verdict) := B.Allow(cfg.breaker, B.Acted(cfg.breaker, s.core, env.others(n)), env.now(n), env.later(n));
        if verdict.Rejected? {
          var out := Err(UNAVAILABLE, Some(R.Max(verdict.retryAfter, 0)));
          CountsAfter(s.(core := core), ShortCircuited(env.now(n), out));
        }
        CountsAfter(s.(core := core), Event.Admitted(env.now(n)));
        if verdict.Admitted? {
          var s0 := Log(s.(core := core), Event.Admitted(env.now(n)));
          CallIsAccounted(cfg, env, inner, p, s0);
          var (s1, out) := Call(cfg, env, inner, p, s0);
          var m, failed := |s1.trace|, IsFailure(cfg, out);
          var core1 := B.Record(cfg.breaker, B.Acted(cfg.breaker, s1.core, env.others(m)), failed, env.now(m));
          CountsAfter(s1.(core := core1), Recorded(failed, env.now(m)));
        }
      case Idempotency =>
        if p.safe || s.key != "" {
          CallIsAccounted(cfg, env, inner, p, s);
        } else {
          CountsAfter(s.(key := env.newKey(n)), KeyDrawn(env.newKey(n)));
          CallIsAccounted(cfg, env, inner, p, Log(s.(key := env.newKey(n)), KeyDrawn(env.newKey(n))));
        }
      case Retrying =>
        if Gated(cfg, p) {
          CallIsAccounted(cfg, env, inner, p, s);
        } else {
          RetriesAreAccounted(cfg, env, inner, p, s, 1, cfg.retry.initial, cfg.retry.initial);
        }
      case Rotation =>
        CallIsAccounted(cfg, env, inner, p, s);
        var s1 := Call(cfg, env, inner, p, s).0;
        CountsAfter(s1, Invalidated);
        CallIsAccounted(cfg, env, inner, p, Log(s1, Invalidated));
      case Auth =>
        if p.skipsAuth {
          CallIsAccounted(cfg, env, inner, p, s);
        } else {
          CountsAfter(s, TokenDrawn(env.token(n)));
          if env.token(n).Some? {
            CallIsAccounted(cfg, env, inner, p, WithToken(s, env.token(n).value));
          }
        }
    }
  }

  /** What an attempt and `left` more of them can make and wait. */
  function RetryWires(cfg: Settings, inner: seq<Layer>, p: Procedure, left: nat): nat
    requires cfg.Normal()
  {
    (1 + left) * WireBudget(cfg, inner, p)
  }

  function RetryWaits(cfg: Settings, inner: seq<Layer>, p: Procedure, left: nat): int
    requires cfg.Normal()
  {
    (1 + left) * WaitBudget(cfg, inner, p) + left * R.LongestDelay(cfg.retry)
  }

  lemma RetryBudgets(cfg: Settings, inner: seq<Layer>, p: Procedure, left: nat)
    requires cfg.Normal()
    ensures RetryWires(cfg, inner, p, left) >= WireBudget(cfg, inner, p)
    ensures RetryWaits(cfg, inner, p, left) >= WaitBudget(cfg, inner, p)
    ensures left > 0 ==>
              RetryWires(cfg, inner, p, left) == WireBudget(cfg, inner, p) + RetryWires(cfg, inner, p, left - 1)
    ensures left > 0 ==>
              RetryWaits(cfg, inner, p, left) ==
              WaitBudget(cfg, inner, p) + R.LongestDelay(cfg.retry) + RetryWaits(cfg, inner, p, left - 1)
    ensures left > 0 ==>
              RetryWaits(cfg, inner, p, left) >= WaitBudget(cfg, inner, p) + R.LongestDelay(cfg.retry)
  {
    var budget, waits, longest := WireBudget(cfg, inner, p), WaitBudget(cfg, inner, p), R.LongestDelay(cfg.retry);
    WaitBudgetPositive(cfg, inner, p);
    LongestPositive(cfg);
    hide WireBudget, WaitBudget, R.LongestDelay;
    Budgets(left, budget, waits, longest);
    if left > 0 {
      Budgets(left - 1, budget, waits, longest);
    }
  }

  lemma {:induction false} RetriesAreAccounted(
      cfg: Settings, env: Env, inner: seq<Layer>, p: Procedure, s: State, attempt: int, ceiling: int, prev: int)
    requires cfg.Normal() && 1 <= attempt <= cfg.retry.maxAttempts
    ensures var (s1, out) := RetryFrom(cfg, env, inner, p, s, attempt, ceiling, prev);
            var left := cfg.retry.maxAttempts - attempt;
            Accounted(env, s, s1, out, RetryWires(cfg, inner, p, left), RetryWaits(cfg, inner, p, left))
    decreases |inner|, 1 + cfg.retry.maxAttempts - attempt
  {
    hide Wires, Admissions, Records, TotalWait, LastOutcome, Call, R.NextDelay, R.Grow, R.LongestDelay;
    hide WireBudget, WaitBudget, RetryWires, RetryWaits;
    var (s1, out) := Call(cfg, env, inner, p, s);
    CallIsAccounted(cfg, env, inner, p, s);
    RetryBudgets(cfg, inner, p, cfg.retry.maxAttempts - attempt);
    if IsRetryable(cfg, out) && attempt != cfg.retry.maxAttempts {
      var n := |s1.trace|;
      var delay := R.NextDelay(cfg.retry, out.hint, ceiling, prev, env.jitter(n));
      var s2 := Log(s1, Waited(delay));
      CountsAfter(s1, Waited(delay));
      if Draws(env) {
        R.DelayBounds(cfg.retry, out.hint, ceiling, prev, env.jitter(n));
      }
      if env.wakes(n) {
        RetriesAreAccounted(cfg, env, inner, p, s2, attempt + 1, R.Grow(cfg.retry, ceiling), delay);
      }
    }
  }

  /** One more attempt, with the wait before it. */
  lemma Budgets(left: int, budget: int, waits: int, longest: int)
    requires left >= 0
    ensures (1 + left) * budget == budget + left * budget
    ensures budget >= 0 ==> left * budget >= 0
    ensures (1 + left) * waits == waits + left * waits
    ensures waits >= 0 ==> left * waits >= 0
    ensures longest >= 0 ==> left * longest >= 0
    ensures left * longest == (left - 1) * longest + longest
  {
  }

  lemma LongestPositive(cfg: Settings)
    requires cfg.Normal()
    ensures R.LongestDelay(cfg.retry) >= 0
  {
  }

  lemma {:induction false} WaitBudgetPositive(cfg: Settings, stack: seq<Layer>, p: Procedure)
    requires cfg.Normal()
    ensures WaitBudget(cfg, stack, p) >= 0
  {
    if stack != [] {
      WaitBudgetPositive(cfg, stack[1..], p);
      LongestPositive(cfg);
      var left := cfg.retry.maxAttempts - 1;
      Budgets(left, 0, WaitBudget(cfg, stack[1..], p), R.LongestDelay(cfg.retry));
    }
  }
}
