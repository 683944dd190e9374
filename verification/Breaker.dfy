/**
 The circuit breaker. `Core` is its meaning: the outcomes recorded since it last closed, in full. The class keeps only a
 ring buffer of the last `windowSize` of them and is proved to behave as the core.
 */
module Breaker {
  datatype Circuit = Closed | Open | HalfOpen

  datatype Config = Config(
    windowSize: int, failureThreshold: int, successThreshold: int, halfOpenTrials: int, openDuration: int)
  {
    predicate Normal() {
      windowSize >= 1 && failureThreshold >= 1 && successThreshold >= 1 && halfOpenTrials >= 1 && openDuration > 0
    }
  }

  const DEFAULT_WINDOW_SIZE := 20
  const DEFAULT_FAILURE_THRESHOLD := 5
  const DEFAULT_SUCCESS_THRESHOLD := 3
  const DEFAULT_HALF_OPEN_TRIALS := 1
  const DEFAULT_OPEN_DURATION := 5_000_000_000
  const HALF_OPEN_REJECTION_DELAY := 100_000_000

  function Normalised(c: Config): (r: Config)
    ensures r.Normal()
    ensures c.Normal() ==> r == c
  {
    Config(
      if c.windowSize < 1 then DEFAULT_WINDOW_SIZE else c.windowSize,
      if c.failureThreshold < 1 then DEFAULT_FAILURE_THRESHOLD else c.failureThreshold,
      if c.successThreshold < 1 then DEFAULT_SUCCESS_THRESHOLD else c.successThreshold,
      if c.halfOpenTrials < 1 then DEFAULT_HALF_OPEN_TRIALS else c.halfOpenTrials,
      if c.openDuration <= 0 then DEFAULT_OPEN_DURATION else c.openDuration)
  }

  /** `outcomes` holds true for a success, oldest first, from the last close (or construction) on. */
  datatype Core = Core(circuit: Circuit, openedAt: int, outcomes: seq<bool>, successes: int, inFlight: int)

  datatype Verdict = Admitted | Rejected(retryAfter: int)

  function Failures(s: seq<bool>): nat {
    if s == [] then 0 else (if s[|s| - 1] then 0 else 1) + Failures(s[..|s| - 1])
  }

  /** The last `n` elements, or all when there are fewer. */
  function LastN(s: seq<bool>, n: nat): seq<bool> {
    if |s| <= n then s else s[|s| - n..]
  }

  function Init(): Core {
    Core(Closed, 0, [], 0, 0)
  }

  /** `later` is the clock's second reading, for the advised wait. */
  function Allow(cfg: Config, b: Core, now: int, later: int): (Core, Verdict) {
    match b.circuit
    case Closed => (b, Admitted)
    case Open =>
      if now - b.openedAt >= cfg.openDuration then
        (b.(circuit := HalfOpen, inFlight := 1, successes := 0), Admitted)
      else (b, Rejected(cfg.openDuration - (later - b.openedAt)))
    case HalfOpen =>
      if b.inFlight >= cfg.halfOpenTrials then (b, Rejected(HALF_OPEN_REJECTION_DELAY))
      else (b.(inFlight := b.inFlight + 1), Admitted)
  }

  function Trip(b: Core, now: int): Core {
    b.(circuit := Open, openedAt := now, inFlight := 0, successes := 0)
  }

  function Close(b: Core): Core {
    b.(circuit := Closed, outcomes := [], successes := 0, inFlight := 0)
  }

  function Record(cfg: Config, b: Core, failed: bool, now: int): Core
    requires cfg.Normal()
  {
    match b.circuit
    case Closed =>
      var b' := b.(outcomes := b.outcomes + [!failed]);
      if Failures(LastN(b'.outcomes, cfg.windowSize)) >= cfg.failureThreshold then Trip(b', now) else b'
    case HalfOpen =>
      var b' := if b.inFlight > 0 then b.(inFlight := b.inFlight - 1) else b;
      if failed then Trip(b', now)
      else
        var b'' := b'.(successes := b'.successes + 1);
        if b''.successes >= cfg.successThreshold then Close(b'') else b''
    case Open => b
  }

  /** What a caller does to a breaker it shares with others. */
  datatype Action = Asks(now: int, later: int) | Reports(failed: bool, now: int)

  function Act(cfg: Config, b: Core, a: Action): Core
    requires cfg.Normal()
  {
    match a
    case Asks(now, later) => Allow(cfg, b, now, later).0
    case Reports(failed, now) => Record(cfg, b, failed, now)
  }

  function Acted(cfg: Config, b: Core, actions: seq<Action>): Core
    requires cfg.Normal()
  {
    if actions == [] then b else Act(cfg, Acted(cfg, b, actions[..|actions| - 1]), actions[|actions| - 1])
  }

  lemma {:induction false} FailuresConcat(a: seq<bool>, b: seq<bool>)
    ensures Failures(a + b) == Failures(a) + Failures(b)
  {
    if b == [] {
      assert a + b == a;
    } else {
      assert (a + b)[..|a + b| - 1] == a + b[..|b| - 1];
      FailuresConcat(a, b[..|b| - 1]);
    }
  }

  /**
   How the ring holds the outcomes: before it first fills, they are its first `idx` cells; afterwards the cells before
   `idx` hold the newest outcomes and the cells from `idx` on the ones just before those.
   */
  ghost predicate Holds(ring: seq<bool>, idx: int, filled: bool, outcomes: seq<bool>) {
    && 0 <= idx < |ring|
    && (filled <==> |outcomes| >= |ring|)
    && (!filled ==> |outcomes| == idx && ring[..idx] == outcomes)
    && (filled ==>
          && ring[..idx] == outcomes[|outcomes| - idx..]
          && ring[idx..] == outcomes[|outcomes| - |ring|..|outcomes| - idx])
  }

  /** The cells that the failure count looks at hold exactly the outcomes of the window. */
  lemma RingIsWindow(ring: seq<bool>, idx: int, filled: bool, outcomes: seq<bool>)
    requires Holds(ring, idx, filled, outcomes)
    ensures Failures(ring[..if filled then |ring| else idx]) == Failures(LastN(outcomes, |ring|))
  {
    if filled {
      var newer, older := ring[..idx], ring[idx..];
      assert ring == newer + older && ring[..|ring|] == ring;
      FailuresConcat(newer, older);
      assert LastN(outcomes, |ring|) == older + newer;
      FailuresConcat(older, newer);
    }
  }

  lemma InRing(ring: seq<bool>, idx: int, filled: bool, outcomes: seq<bool>)
    requires Holds(ring, idx, filled, outcomes)
    ensures 0 <= idx < |ring|
  {
  }

  /** Where the next outcome goes after cell `idx` of a ring of `n` cells. */
  function NextCell(idx: int, n: int): (r: int)
    requires 0 <= idx < n
    ensures r == if idx + 1 == n then 0 else idx + 1
  {
    (idx + 1) % n
  }

  lemma RingAdvances(ring: seq<bool>, idx: int, filled: bool, outcomes: seq<bool>, ok: bool)
    requires Holds(ring, idx, filled, outcomes)
    ensures var idx' := NextCell(idx, |ring|);
            Holds(ring[idx := ok], idx', filled || idx' == 0, outcomes + [ok])
  {
    if idx + 1 == |ring| {
      RingWraps(ring, filled, outcomes, ok);
    } else if filled {
      FullRingMoves(ring, idx, outcomes, ok);
    }
  }

  lemma FullRingMoves(ring: seq<bool>, idx: int, outcomes: seq<bool>, ok: bool)
    requires Holds(ring, idx, true, outcomes) && idx + 1 < |ring|
    ensures Holds(ring[idx := ok], idx + 1, true, outcomes + [ok])
  {
    var n := |outcomes|;
    assert ring[idx := ok][..idx + 1] == ring[..idx] + [ok] == (outcomes + [ok])[n + 1 - (idx + 1)..];
    OlderPart(ring, idx, outcomes, ok);
  }

  lemma OlderPart(ring: seq<bool>, idx: int, outcomes: seq<bool>, ok: bool)
    requires 0 <= idx && idx + 1 < |ring| <= |outcomes|
    requires ring[idx..] == outcomes[|outcomes| - |ring|..|outcomes| - idx]
    ensures ring[idx := ok][idx + 1..] == (outcomes + [ok])[|outcomes| + 1 - |ring|..|outcomes| - idx]
  {
    var n := |outcomes|;
    assert ring[idx := ok][idx + 1..] == ring[idx..][1..];
    assert (outcomes + [ok])[n + 1 - |ring|..n - idx] == outcomes[n - |ring|..n - idx][1..];
  }

  lemma RingWraps(ring: seq<bool>, filled: bool, outcomes: seq<bool>, ok: bool)
    requires |ring| > 0 && Holds(ring, |ring| - 1, filled, outcomes)
    ensures Holds(ring[|ring| - 1 := ok], 0, true, outcomes + [ok])
  {
    var n, idx := |outcomes|, |ring| - 1;
    var ring' := ring[idx := ok];
    assert ring' == ring[..idx] + [ok] && ring'[0..] == ring';
    assert ring[..idx] == outcomes[n - idx..];
    assert (outcomes + [ok])[n + 1 - |ring|..n + 1] == outcomes[n - idx..] + [ok];
  }

  class CircuitBreaker {
    const cfg: Config
    const window: array<bool>
    var circuit: Circuit
    var openedAt: int
    var windowIdx: int
    var windowFilled: bool
    var consecutiveSuccesses: int
    var halfOpenInFlight: int
    ghost var outcomes: seq<bool>

    ghost predicate Valid()
      reads this, window
    {
      && cfg.Normal() && window.Length == cfg.windowSize
      && Holds(window[..], windowIdx, windowFilled, outcomes)
    }

    ghost function Meaning(): Core
      reads this
    {
      Core(circuit, openedAt, outcomes, consecutiveSuccesses, halfOpenInFlight)
    }

    constructor (config: Config)
      ensures Valid() && fresh(window) && cfg == Normalised(config)
      ensures cfg.windowSize == (if config.windowSize >= 1 then config.windowSize else 20)
      ensures cfg.failureThreshold == (if config.failureThreshold >= 1 then config.failureThreshold else 5)
      ensures cfg.successThreshold == (if config.successThreshold >= 1 then config.successThreshold else 3)
      ensures cfg.halfOpenTrials == (if config.halfOpenTrials >= 1 then config.halfOpenTrials else 1)
      ensures cfg.openDuration == (if config.openDuration > 0 then config.openDuration else 5_000_000_000)
      ensures Meaning() == Init()
    {
      cfg := Normalised(config);
      window := new bool[Normalised(config).windowSize];
      circuit, openedAt := Closed, 0;
      windowIdx, windowFilled := 0, false;
      consecutiveSuccesses, halfOpenInFlight := 0, 0;
      outcomes := [];
    }

    method AllowCall(now: int, later: int) returns (v: Verdict)
      requires Valid()
      modifies this
      ensures Valid() && (Meaning(), v) == Allow(cfg, old(Meaning()), now, later)
    {
      match circuit
      case Closed => return Admitted;
      case Open =>
        if now - openedAt >= cfg.openDuration {
          circuit := HalfOpen;
          halfOpenInFlight := 1;
          consecutiveSuccesses := 0;
          return Admitted;
        }
        return Rejected(cfg.openDuration - (later - openedAt));
      case HalfOpen =>
        if halfOpenInFlight >= cfg.halfOpenTrials {
          return Rejected(HALF_OPEN_REJECTION_DELAY);
        }
        halfOpenInFlight := halfOpenInFlight + 1;
        return Admitted;
    }

    /** The counting loop over the ring. */
    method FailureCount() returns (fails: nat)
      requires Valid()
      ensures fails == Failures(LastN(outcomes, cfg.windowSize))
    {
      var n := if windowFilled then cfg.windowSize else windowIdx;
      fails := 0;
      for i := 0 to n
        invariant fails == Failures(window[..][..i])
      {
        assert window[..][..i + 1][..i] == window[..][..i];
        if !window[i] {
          fails := fails + 1;
        }
      }
      RingIsWindow(window[..], windowIdx, windowFilled, outcomes);
    }

    /** Overwrites the oldest cell of the ring. */
    method RecordInWindow(failed: bool)
      requires Valid()
      modifies this, window
      ensures Valid() && Meaning() == old(Meaning()).(outcomes := old(outcomes) + [!failed])
    {
      hide NextCell, Holds;
      ghost var ring := window[..];
      InRing(ring, windowIdx, windowFilled, outcomes);
      RingAdvances(ring, windowIdx, windowFilled, outcomes, !failed);
      window[windowIdx] := !failed;
      assert window[..] == ring[windowIdx := !failed];
      windowIdx := NextCell(windowIdx, cfg.windowSize);
      if !windowFilled && windowIdx == 0 {
        windowFilled := true;
      }
      outcomes := outcomes + [!failed];
    }

    method TripOpen(now: int)
      requires Valid()
      modifies this
      ensures Valid() && Meaning() == Trip(old(Meaning()), now)
    {
      circuit := Open;
      openedAt := now;
      halfOpenInFlight := 0;
      consecutiveSuccesses := 0;
    }

    method CloseCircuit()
      requires Valid()
      modifies this, window
      ensures Valid() && Meaning() == Close(old(Meaning()))
    {
      circuit := Closed;
      forall i | 0 <= i < window.Length {
        window[i] := false;
      }
      windowIdx := 0;
      windowFilled := false;
      consecutiveSuccesses := 0;
      halfOpenInFlight := 0;
      outcomes := [];
    }

    method RecordResult(failed: bool, now: int)
      requires Valid()
      modifies this, window
      ensures Valid() && Meaning() == Record(cfg, old(Meaning()), failed, now)
    {
      hide Failures, LastN, Holds;
      match circuit
      case Closed =>
        RecordInWindow(failed);
        var fails := FailureCount();
        if fails >= cfg.failureThreshold {
          TripOpen(now);
        }
      case HalfOpen =>
        if halfOpenInFlight > 0 {
          halfOpenInFlight := halfOpenInFlight - 1;
        }
        if failed {
          TripOpen(now);
        } else {
          consecutiveSuccesses := consecutiveSuccesses + 1;
          if consecutiveSuccesses >= cfg.successThreshold {
            CloseCircuit();
          }
        }
      case Open =>
    }
  }
}
