/**
 The second hedge race: a failure with nothing else in flight launches the next attempt at once, and the timer runs in
 every iteration, at the limit too.
 */
module HedgeV2Race {
  import opened Wrappers
  import opened Hedge

  function Fire(limit: nat, c: Counters): Counters {
    if c.launched < limit then c.(launched := c.launched + 1) else c
  }

  function Record(limit: nat, c: Counters, r: Result): Counters {
    var c' := c.(completed := c.completed + 1);
    match r
    case Success(_) => c'
    case Failure(err) =>
      var c'' := c'.(lastErr := Some(err));
      if c''.completed == c''.launched then Fire(limit, c'') else c''
  }

  function Final(c: Counters): Return {
    if c.lastErr.Some? then AllFailed(c.lastErr.value) else NoResult
  }

  /** `raceState`, updated in place. `launches` counts the goroutines started through the launch callback. */
  class RaceState {
    const limit: nat
    var launched: nat
    var completed: nat
    var lastErr: Option<int>
    var launches: nat

    constructor (limit: nat)
      ensures this.limit == limit && Meaning() == Counters(0, 0, None) && launches == 0
    {
      this.limit := limit;
      launched, completed, lastErr, launches := 0, 0, None, 0;
    }

    function Meaning(): Counters
      reads this
    {
      Counters(launched, completed, lastErr)
    }

    method FireOne()
      modifies this
      ensures Meaning() == Fire(limit, old(Meaning()))
      ensures launched == old(launched) + (if old(launched) < limit then 1 else 0)
      ensures completed == old(completed) && lastErr == old(lastErr)
      ensures launches - old(launches) == launched - old(launched)
    {
      if launched < limit {
        launches := launches + 1;
        launched := launched + 1;
      }
    }

    method RecordResult(r: Result) returns (won: bool)
      modifies this
      ensures Meaning() == Record(limit, old(Meaning()), r) && won == r.Success?
      ensures completed == old(completed) + 1
      ensures lastErr == if r.Failure? then Some(r.err) else old(lastErr)
      ensures var alone := r.Failure? && old(completed) + 1 == old(launched);
              launched == old(launched) + if alone && old(launched) < limit then 1 else 0
      ensures launches - old(launches) == launched - old(launched)
    {
      completed := completed + 1;
      if r.Success? {
        return true;
      }
      lastErr := Some(r.err);
      if completed == launched {
        FireOne();
      }
      return false;
    }
  }

  // ---------------------------------------------------------------- the race as a state machine

  datatype Step =
    | Sends(r: Result)
    | Takes
    | Timer
    | Done(err: int)
    | Ends

  function Start(limit: nat): Race {
    var c := Fire(limit, Counters(0, 0, None));
    Race(c, [], c.launched, [], None)
  }

  predicate AtLoopHead(limit: nat, s: Race) {
    s.returned.None? && Continues(limit, s.counters)
  }

  function Next(limit: nat, s: Race, l: Step): Race {
    match l
    case Sends(r) =>
      if CanSend(limit, s) then s.(channel := s.channel + [r], running := s.running - 1) else s
    case Takes =>
      if !(AtLoopHead(limit, s) && s.channel != []) then s
      else
        var r := s.channel[0];
        var c := Record(limit, s.counters, r);
        Race(c, s.channel[1..],
             if c.launched > s.counters.launched then s.running + (c.launched - s.counters.launched) else s.running,
             s.received + [r],
             if r.Success? then Some(Win(r.resp)) else None)
    case Timer =>
      if !AtLoopHead(limit, s) then s
      else
        var c := Fire(limit, s.counters);
        s.(counters := c,
           running := if c.launched > s.counters.launched then s.running + 1 else s.running)
    case Done(err) => if AtLoopHead(limit, s) then s.(returned := Some(Cancelled(err))) else s
    case Ends =>
      if s.returned.None? && !Continues(limit, s.counters) then s.(returned := Some(Final(s.counters))) else s
  }

  function Run(limit: nat, ls: seq<Step>): Race {
    if ls == [] then Start(limit) else Next(limit, Run(limit, ls[..|ls| - 1]), ls[|ls| - 1])
  }

  ghost predicate Inv(limit: nat, s: Race) {
    && 1 <= s.counters.launched <= limit
    && s.counters.completed + |s.channel| + s.running == s.counters.launched
    && |s.received| == s.counters.completed
    && (s.returned.None? ==>
          && (s.counters.completed < s.counters.launched || s.counters.launched == limit)
          && AllFailures(s.received) && LastError(s.received, s.counters.lastErr))
    && match s.returned
       case None => true
       case Some(Win(resp)) => FirstSuccess(s.received, resp)
       case Some(AllFailed(err)) =>
         && AllFailures(s.received) && |s.received| == limit && s.received[limit - 1] == Failure(err)
         && s.counters.launched == limit && s.running == 0
       case Some(Cancelled(_)) => AllFailures(s.received)
       case Some(NoResult) => false
  }

  lemma NextKeeps(limit: nat, s: Race, l: Step)
    requires limit >= 1 && Inv(limit, s)
    ensures Inv(limit, Next(limit, s, l))
  {
    if l.Takes? && AtLoopHead(limit, s) && s.channel != [] {
      var received := s.received + [s.channel[0]];
      assert received[..|received| - 1] == s.received;
    }
  }

  lemma {:induction false} RunKeeps(limit: nat, ls: seq<Step>)
    requires limit >= 1
    ensures Inv(limit, Run(limit, ls))
  {
    if ls != [] {
      RunKeeps(limit, ls[..|ls| - 1]);
      NextKeeps(limit, Run(limit, ls[..|ls| - 1]), ls[|ls| - 1]);
    }
  }

  /**
   The race never idles: at every loop head some attempt is in flight, its result buffered or still to be sent without
   waiting; and the loop ends only when all `limit` attempts have failed, with the last received error.
   */
  lemma NeverIdle(limit: nat, ls: seq<Step>)
    requires limit >= 1 && Run(limit, ls).returned.None?
    ensures var s := Run(limit, ls);
            && (Continues(limit, s.counters) <==> s.counters.completed < s.counters.launched)
            && (Continues(limit, s.counters) <==> s.channel != [] || CanSend(limit, s))
            && (!Continues(limit, s.counters) ==>
                  && s.counters.completed == s.counters.launched == limit == |s.received|
                  && AllFailures(s.received) && Final(s.counters).AllFailed?
                  && s.received[limit - 1] == Failure(Final(s.counters).err))
  {
    RunKeeps(limit, ls);
  }

  /**
   When an attempt is launched, over all runs: while there are fewer than `limit`, by the timer, and by a failure received
   with nothing else in flight; never otherwise, and one at a time.
   */
  lemma LaunchesExactly(limit: nat, ls: seq<Step>, l: Step)
    requires limit >= 1
    ensures var s := Run(limit, ls);
            var s' := Next(limit, s, l);
            var more := s'.counters.launched - s.counters.launched;
            && (more == 0 || more == 1)
            && (more == 1 <==>
                  && s.returned.None? && s.counters.launched < limit
                  && (l.Timer? || (l.Takes? && s.running == 0 && |s.channel| == 1 && s.channel[0].Failure?)))
            && s'.running == s.running + more - (if l.Sends? && s.running > 0 then 1 else 0)
  {
    RunKeeps(limit, ls);
    hide Run;
  }

  /** What each step returns, over all runs: a success at once, the last error once all attempts have failed. */
  lemma ReturnsExactly(limit: nat, ls: seq<Step>, l: Step)
    requires limit >= 1 && Run(limit, ls).returned.None?
    ensures var s := Run(limit, ls);
            Next(limit, s, l).returned ==
            match l
            case Takes => if s.channel != [] && s.channel[0].Success? then Some(Win(s.channel[0].resp)) else None
            case Done(err) => if |s.received| < s.counters.launched then Some(Cancelled(err)) else None
            case Ends =>
              if |s.received| == limit && s.received[limit - 1].Failure? then Some(AllFailed(s.received[limit - 1].err))
              else None
            case _ => None
  {
    RunKeeps(limit, ls);
    hide Run;
  }

  /** The winner is the first success received, whatever else is in flight; late attempts can always report. */
  lemma WinnerIsFirstSuccess(limit: nat, ls: seq<Step>)
    requires limit >= 1
    ensures var s := Run(limit, ls);
            && s.counters.completed <= s.counters.launched <= limit
            && (s.running > 0 ==> CanSend(limit, s))
            && (forall resp :: s.returned == Some(Win(resp)) ==> FirstSuccess(s.received, resp))
            && s.returned != Some(NoResult)
  {
    RunKeeps(limit, ls);
  }

  /**
   Every step of the orchestrator that does not return uses up one or two of the `2 * limit` launches and completions,
   except a timer that fires at the limit, which changes nothing.
   */
  lemma StepsTerminate(limit: nat, ls: seq<Step>, l: Step)
    requires limit >= 1 && AtLoopHead(limit, Run(limit, ls))
    requires l.Timer? || (l.Takes? && Run(limit, ls).channel != [])
    ensures var s := Run(limit, ls);
            var s' := Next(limit, s, l);
            if l.Timer? && s.counters.launched == limit then s' == s
            else s'.counters.launched + s'.counters.completed > s.counters.launched + s.counters.completed
                 && s'.counters.launched + s'.counters.completed <= 2 * limit
  {
    RunKeeps(limit, ls);
    NextKeeps(limit, Run(limit, ls), l);
  }
}
