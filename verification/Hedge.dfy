/**
 The hedged race: staggered attempts, one buffered channel of results, and the first success wins. Timers, attempts and
 cancellation are choices of the environment.
 */
module Hedge {
  import opened Wrappers

  /** Responses and errors are only passed on. */
  datatype Result = Success(resp: int) | Failure(err: int)

  /** The branch that `select` takes. */
  datatype Branch = ResultArrives | TimerFires | ContextDone(err: int)

  /** How the orchestrator returns. */
  datatype Return = Win(resp: int) | AllFailed(err: int) | Cancelled(err: int) | NoResult

  /** The orchestrator's counters. */
  datatype Counters = Counters(launched: nat, completed: nat, lastErr: Option<int>)

  /** One iteration of the loop: the new counters, whether an attempt is fired, and the value returned, if any. */
  function Tick(limit: nat, c: Counters, channel: seq<Result>, b: Branch): (r: (Counters, bool, Option<Return>))
    requires b.ResultArrives? ==> channel != []
  {
    match b
    case ContextDone(err) => (c, false, Some(Cancelled(err)))
    case ResultArrives =>
      (match channel[0]
       case Success(resp) => (c.(completed := c.completed + 1), false, Some(Win(resp)))
       case Failure(err) => (c.(completed := c.completed + 1, lastErr := Some(err)), false, None))
    case TimerFires => (c.(launched := c.launched + 1), true, None)
  }

  /** The orchestrator's state, updated in place; its results channel is a sequence. */
  class HedgeState {
    const limit: nat
    var launched: nat
    var completed: nat
    var lastErr: Option<int>
    var results: seq<Result>
    /** Attempts fired so far, each on its own goroutine. */
    var fired: nat

    constructor (limit: nat)
      ensures this.limit == limit && Meaning() == Counters(1, 0, None) && results == [] && fired == 1
    {
      this.limit := limit;
      launched, completed, lastErr, results, fired := 1, 0, None, [], 1;
    }

    function Meaning(): Counters
      reads this
    {
      Counters(launched, completed, lastErr)
    }

    predicate Continues()
      reads this
    {
      completed < launched || launched < limit
    }

    /** `tick`: the timer exists only below the limit. */
    method TickOnce(b: Branch) returns (final: Option<Return>)
      requires b.ResultArrives? ==> results != []
      requires b.TimerFires? ==> launched < limit
      modifies this
      ensures (Meaning(), fired > old(fired), final) == Tick(limit, old(Meaning()), old(results), b)
      ensures fired <= old(fired) + 1
      ensures results == if b.ResultArrives? then old(results)[1..] else old(results)
      ensures launched - old(launched) == fired - old(fired) == if b.TimerFires? then 1 else 0
      ensures completed - old(completed) == if b.ResultArrives? then 1 else 0
      ensures b.ContextDone? ==> final == Some(Cancelled(b.err)) && lastErr == old(lastErr)
      ensures b.ResultArrives? ==> match old(results)[0]
                                   case Success(resp) => final == Some(Win(resp)) && lastErr == old(lastErr)
                                   case Failure(err) => final == None && lastErr == Some(err)
      ensures b.TimerFires? ==> final == None && lastErr == old(lastErr)
    {
      match b
      case ContextDone(err) => return Some(Cancelled(err));
      case ResultArrives =>
        var r := results[0];
        results := results[1..];
        completed := completed + 1;
        if r.Success? {
          return Some(Win(r.resp));
        }
        lastErr := Some(r.err);
        return None;
      case TimerFires =>
        fired := fired + 1;
        launched := launched + 1;
        return None;
    }

    /** The loop ended without a winner: the last error is returned, and "no result" only if there was none. */
    method Final() returns (r: Return)
      ensures r.AllFailed? ==> lastErr == Some(r.err)
      ensures r.NoResult? <==> lastErr == None
      ensures r.AllFailed? || r.NoResult?
    {
      if lastErr.None? {
        return NoResult;
      }
      return AllFailed(lastErr.value);
    }
  }

  // ---------------------------------------------------------------- the race as a state machine

  /**
   `running` attempts have not sent their result yet, `received` lists the results taken from the channel, and
   `returned` is set once the orchestrator has returned; attempts go on.
   */
  datatype Race = Race(
    counters: Counters, channel: seq<Result>, running: nat, received: seq<Result>, returned: Option<Return>)

  datatype Label = AttemptSends(r: Result) | Select(b: Branch) | LoopEnds

  function Start(): Race {
    Race(Counters(1, 0, None), [], 1, [], None)
  }

  predicate Continues(limit: nat, c: Counters) {
    c.completed < c.launched || c.launched < limit
  }

  predicate CanSelect(limit: nat, s: Race, b: Branch) {
    && s.returned.None? && Continues(limit, s.counters)
    && (b.ResultArrives? ==> s.channel != [])
    && (b.TimerFires? ==> s.counters.launched < limit)
  }

  /** The channel is buffered to `limit`: a send blocks while it is full. */
  predicate CanSend(limit: nat, s: Race) {
    s.running > 0 && |s.channel| < limit
  }

  function Next(limit: nat, s: Race, l: Label): Race {
    match l
    case AttemptSends(r) =>
      if CanSend(limit, s) then s.(channel := s.channel + [r], running := s.running - 1) else s
    case Select(b) =>
      if !CanSelect(limit, s, b) then s
      else
        var (counters, fires, final) := Tick(limit, s.counters, s.channel, b);
        var s' := s.(counters := counters, returned := final, running := s.running + if fires then 1 else 0);
        if b.ResultArrives? then s'.(channel := s.channel[1..], received := s.received + [s.channel[0]]) else s'
    case LoopEnds =>
      if s.returned.Some? || Continues(limit, s.counters) then s
      else s.(returned := Some(if s.counters.lastErr.Some? then AllFailed(s.counters.lastErr.value) else NoResult))
  }

  function Run(limit: nat, ls: seq<Label>): Race {
    if ls == [] then Start() else Next(limit, Run(limit, ls[..|ls| - 1]), ls[|ls| - 1])
  }

  ghost predicate AllFailures(rs: seq<Result>) {
    forall i | 0 <= i < |rs| :: rs[i].Failure?
  }

  /** The winner is the first success taken from the channel. */
  ghost predicate FirstSuccess(received: seq<Result>, resp: int) {
    received != [] && received[|received| - 1] == Success(resp) && AllFailures(received[..|received| - 1])
  }

  ghost predicate LastError(received: seq<Result>, lastErr: Option<int>) {
    if received == [] then lastErr == None else lastErr.Some? && received[|received| - 1] == Failure(lastErr.value)
  }

  ghost predicate Inv(limit: nat, s: Race) {
    && 1 <= s.counters.launched <= limit
    && s.counters.completed + |s.channel| + s.running == s.counters.launched
    && |s.received| == s.counters.completed
    && (s.returned.None? ==> AllFailures(s.received) && LastError(s.received, s.counters.lastErr))
    && match s.returned
       case None => true
       case Some(Win(resp)) => FirstSuccess(s.received, resp)
       case Some(AllFailed(err)) =>
         && AllFailures(s.received) && |s.received| == limit && s.received[limit - 1] == Failure(err)
         && s.running == 0 && s.channel == []
       case Some(Cancelled(_)) => AllFailures(s.received)
       case Some(NoResult) => false
  }

  lemma NextKeeps(limit: nat, s: Race, l: Label)
    requires limit >= 1 && Inv(limit, s)
    ensures Inv(limit, Next(limit, s, l))
  {
    if l.Select? && l.b.ResultArrives? && CanSelect(limit, s, l.b) {
      var received := s.received + [s.channel[0]];
      assert received[..|received| - 1] == s.received;
    }
  }

  lemma {:induction false} RunKeeps(limit: nat, ls: seq<Label>)
    requires limit >= 1
    ensures Inv(limit, Run(limit, ls))
  {
    if ls != [] {
      RunKeeps(limit, ls[..|ls| - 1]);
      NextKeeps(limit, Run(limit, ls[..|ls| - 1]), ls[|ls| - 1]);
    }
  }

  /**
   The race, over all runs: attempts are bounded by the limit; no attempt ever waits to send, not even after the
   orchestrator has returned; a returned success is the first one received; an error is returned for exhaustion only
   when all attempts failed, and it is the last one received; and "no result" is never returned.
   */
  lemma RaceIsSound(limit: nat, ls: seq<Label>)
    requires limit >= 1
    ensures var s := Run(limit, ls);
            && s.counters.completed <= s.counters.launched <= limit
            && (s.running > 0 ==> CanSend(limit, s))
            && (forall resp :: s.returned == Some(Win(resp)) ==> FirstSuccess(s.received, resp))
            && (forall err :: s.returned == Some(AllFailed(err)) ==>
                  AllFailures(s.received) && |s.received| == limit && s.received[limit - 1] == Failure(err))
            && s.returned != Some(NoResult)
  {
    RunKeeps(limit, ls);
  }

  /**
   What each branch does to the race, in every reachable state. A received success is returned at once; a received failure is
   remembered and nothing returned; the timer starts exactly one attempt; a cancelled context returns its own error, and what
   has been launched goes on.
   */
  lemma SelectMoves(limit: nat, ls: seq<Label>, b: Branch)
    requires limit >= 1 && CanSelect(limit, Run(limit, ls), b)
    ensures var s := Run(limit, ls);
            var s' := Next(limit, s, Select(b));
            && s'.counters.launched - s.counters.launched == s'.running - s.running == (if b.TimerFires? then 1 else 0)
            && s'.received == s.received + (if b.ResultArrives? then [s.channel[0]] else [])
            && s.channel == (if b.ResultArrives? then [s.channel[0]] else []) + s'.channel
            && s'.returned == (match b
                               case ResultArrives => if s.channel[0].Success? then Some(Win(s.channel[0].resp)) else None
                               case TimerFires => None
                               case ContextDone(err) => Some(Cancelled(err)))
            && (b.ResultArrives? && s.channel[0].Failure? ==> s'.counters.lastErr == Some(s.channel[0].err))
  {
    RunKeeps(limit, ls);
    hide Run;
  }

  /** Until it returns, the orchestrator is never stuck: a result, a running attempt, a timer or the loop's end is there. */
  lemma NeverStuck(limit: nat, ls: seq<Label>)
    requires limit >= 1 && Run(limit, ls).returned.None?
    ensures var s := Run(limit, ls);
            || CanSelect(limit, s, ResultArrives)
            || CanSelect(limit, s, TimerFires)
            || CanSend(limit, s)
            || Next(limit, s, LoopEnds).returned.Some?
  {
    RunKeeps(limit, ls);
  }

  /** Each tick that does not return uses up one of the `2 * limit` launches and completions. */
  lemma TicksTerminate(limit: nat, ls: seq<Label>, b: Branch)
    requires limit >= 1 && CanSelect(limit, Run(limit, ls), b)
    ensures var s := Run(limit, ls);
            var s' := Next(limit, s, Select(b));
            s'.returned.None? ==>
              0 <= 2 * limit - s'.counters.launched - s'.counters.completed
                 < 2 * limit - s.counters.launched - s.counters.completed
  {
    RunKeeps(limit, ls);
    NextKeeps(limit, Run(limit, ls), Select(b));
  }
}
