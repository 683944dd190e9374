/**
 The second hedge as a whole: the race decides whose headers and message the caller gets, while the attempts that still
 run go on writing theirs. An attempt that has reported writes no more.
 */
module HedgeV2Whole {
  import opened Wrappers
  import opened HeaderHeap
  import opened HedgeV2Isolation
  import opened HedgeV2Theorems
  import H = Hedge
  import Race = HedgeV2Race

  // ---------------------------------------------------------------- where it starts

  /** A caller with three headers of its own and two messages. */
  function StartState(
      heap: Heap, request: Ref, response: Ref, trailer: Ref, req: int, resp: int, meta: int, withInfo: bool): State {
    State(heap, [req, resp], [Party(request, response, trailer, 0, 1, meta)], withInfo, false,
          map[request := (0, RequestHeader), response := (0, ResponseHeader), trailer := (0, Trailer)],
          [(0, RequestMessage), (0, ResponseMessage)])
  }

  lemma StartMeetsInv(
      heap: Heap, request: Ref, response: Ref, trailer: Ref, req: int, resp: int, meta: int, withInfo: bool)
    requires Separate(heap) && request in heap.headers && response in heap.headers && trailer in heap.headers
    requires request != response && request != trailer && response != trailer
    ensures var s := StartState(heap, request, response, trailer, req, resp, meta, withInfo);
            && Inv(s) && !s.adopted && |s.parties| == 1
            && Meaning(s).parties ==
               [Values3(View(heap, request), View(heap, response), View(heap, trailer), req, resp, meta)]
  {
    hide Separate, View;
    var s := StartState(heap, request, response, trailer, req, resp, meta, withInfo);
    forall i, role | 0 <= i < |s.parties|
      ensures var r := s.parties[i].Header(role); r in s.heap.headers && r in s.owners && s.owners[r] == (i, role)
    {
    }
    forall i, which | 0 <= i < |s.parties|
      ensures var m := s.parties[i].Message(which); m < |s.messages| && s.messageOwners[m] == (i, which)
    {
    }
  }

  // ---------------------------------------------------------------- race and attempts together

  /** An attempt's report: who, with what result, and what its headers and messages were at that moment. */
  datatype Report = Report(attempt: nat, result: H.Result, values: Values3)

  /**
   `running` are the attempts that have not reported, `inChannel` the reports not taken yet, in the order of the race's
   channel, `taken` those taken, and `won` the one adopted.
   */
  datatype Whole = Whole(
    race: H.Race, data: State, running: set<nat>, inChannel: seq<Report>, taken: seq<Report>, won: Option<Report>)

  datatype Step =
    | Writes(l: Label)
    | Sends(attempt: nat, r: H.Result)
    | Takes
    | Timer
    | Done(err: int)
    | Ends

  predicate OwnWriteOf(running: set<nat>, l: Label) {
    !l.Launch? && !l.Adopt? && l.i in running
  }

  ghost function Launched(w: Whole): (w': Whole)
    requires Inv(w.data)
    ensures Inv(w'.data)
  {
    NextRefines(w.data, Launch);
    w.(data := Next(w.data, Launch), running := w.running + {|w.data.parties|})
  }

  ghost function Start(limit: nat, data: State): (w: Whole)
    requires Inv(data)
    ensures Inv(w.data)
  {
    var w := Whole(Race.Start(limit), data, {}, [], [], None);
    if limit > 0 then Launched(w) else w
  }

  ghost function NextTakes(limit: nat, w: Whole): (w': Whole)
    requires Inv(w.data) && w.race.channel != [] && w.inChannel != []
    ensures Inv(w'.data)
  {
    var race, report := Race.Next(limit, w.race, Race.Takes), w.inChannel[0];
    var w1 := w.(race := race, inChannel := w.inChannel[1..], taken := w.taken + [report]);
    if w.race.channel[0].Success? then
      NextRefines(w.data, Adopt(report.attempt));
      w1.(data := Next(w.data, Adopt(report.attempt)), won := Some(report))
    else if race.counters.launched > w.race.counters.launched then Launched(w1)
    else w1
  }

  ghost function NextWhole(limit: nat, w: Whole, l: Step): (w': Whole)
    requires Inv(w.data)
    ensures Inv(w'.data)
  {
    match l
    case Writes(write) =>
      NextRefines(w.data, write);
      if OwnWriteOf(w.running, write) then w.(data := Next(w.data, write)) else w
    case Sends(i, r) =>
      if i in w.running && i < |w.data.parties| && H.CanSend(limit, w.race) then
        w.(race := Race.Next(limit, w.race, Race.Sends(r)), running := w.running - {i},
           inChannel := w.inChannel + [Report(i, r, Meaning(w.data).parties[i])])
      else w
    case Takes =>
      if Race.AtLoopHead(limit, w.race) && w.race.channel != [] && w.inChannel != [] then NextTakes(limit, w) else w
    case Timer =>
      if Race.AtLoopHead(limit, w.race) then
        var w1 := w.(race := Race.Next(limit, w.race, Race.Timer));
        if w1.race.counters.launched > w.race.counters.launched then Launched(w1) else w1
      else w
    case Done(err) => w.(race := Race.Next(limit, w.race, Race.Done(err)))
    case Ends => w.(race := Race.Next(limit, w.race, Race.Ends))
  }

  ghost function Run(limit: nat, data: State, ls: seq<Step>): (w: Whole)
    requires Inv(data)
    ensures Inv(w.data)
  {
    if ls == [] then Start(limit, data) else NextWhole(limit, Run(limit, data, ls[..|ls| - 1]), ls[|ls| - 1])
  }

  // ---------------------------------------------------------------- what every step keeps

  ghost predicate Reports(m: Isolated, running: set<nat>, reports: seq<Report>) {
    forall k | 0 <= k < |reports| ::
      var r := reports[k];
      1 <= r.attempt < |m.parties| && r.attempt !in running && r.values == m.parties[r.attempt]
  }

  /** The caller reads as at the start, or as one adoption of the winner's report makes it. */
  ghost predicate CallerInv(m: Isolated, caller: Values3, won: Option<Report>) {
    && |m.parties| >= 1 && (m.adopted <==> won.Some?)
    && m.parties[0] == if won.Some? then Adopted(caller, won.value.values, m.withInfo) else caller
  }

  /** The race sees the results of these reports. */
  ghost predicate SameResults(results: seq<H.Result>, reports: seq<Report>) {
    |results| == |reports| && forall k | 0 <= k < |reports| :: results[k] == reports[k].result
  }

  ghost predicate WholeInv(limit: nat, w: Whole, caller: Values3) {
    && Inv(w.data) && Race.Inv(limit, w.race)
    && |w.data.parties| == w.race.counters.launched + 1
    && |w.running| == w.race.running && (forall i | i in w.running :: 1 <= i < |w.data.parties|)
    && SameResults(w.race.channel, w.inChannel) && SameResults(w.race.received, w.taken)
    && Reports(Meaning(w.data), w.running, w.inChannel)
    && CallerInv(Meaning(w.data), caller, w.won)
    && (w.won.Some? <==> w.race.returned.Some? && w.race.returned.value.Win?)
    && (w.won.Some? ==> w.taken != [] && w.taken[|w.taken| - 1] == w.won.value)
  }

  lemma LaunchedKeeps(limit: nat, w: Whole, caller: Values3)
    requires Inv(w.data) && |w.data.parties| >= 1
    requires Reports(Meaning(w.data), w.running, w.inChannel) && CallerInv(Meaning(w.data), caller, w.won)
    requires forall i | i in w.running :: 1 <= i < |w.data.parties|
    ensures var w' := Launched(w);
            && |w'.data.parties| == |w.data.parties| + 1 && |w'.running| == |w.running| + 1
            && (forall i | i in w'.running :: 1 <= i < |w'.data.parties|)
            && Reports(Meaning(w'.data), w'.running, w'.inChannel) && CallerInv(Meaning(w'.data), caller, w'.won)
            && w' == w.(data := w'.data, running := w'.running)
  {
    NextRefines(w.data, Launch);
    hide Inv, Next, Meaning;
    assert |w.data.parties| !in w.running;
  }

  lemma OwnWriteKeeps(m: Isolated, l: Label, running: set<nat>, reports: seq<Report>, caller: Values3, won: Option<Report>)
    requires Reports(m, running, reports) && CallerInv(m, caller, won) && OwnWriteOf(running, l)
    ensures Reports(IsolatedNext(m, l), running, reports) && CallerInv(IsolatedNext(m, l), caller, won)
    ensures |IsolatedNext(m, l).parties| == |m.parties|
  {
    hide OwnWrite;
  }

  lemma WritesKeeps(limit: nat, w: Whole, l: Label, caller: Values3)
    requires WholeInv(limit, w, caller)
    ensures WholeInv(limit, NextWhole(limit, w, Writes(l)), caller)
  {
    hide Inv, Next, Meaning, Race.Inv, OwnWrite, Reports, CallerInv, SameResults, IsolatedNext, NextTakes, Launched;
    hide Race.Next;
    NextRefines(w.data, l);
    if OwnWriteOf(w.running, l) {
      OwnWriteKeeps(Meaning(w.data), l, w.running, w.inChannel, caller, w.won);
    }
  }

  lemma SendsKeeps(limit: nat, w: Whole, i: nat, r: H.Result, caller: Values3)
    requires limit >= 1 && WholeInv(limit, w, caller)
    ensures WholeInv(limit, NextWhole(limit, w, Sends(i, r)), caller)
  {
    Race.NextKeeps(limit, w.race, Race.Sends(r));
    hide Inv, Next, Race.Inv, CallerInv;
    if i in w.running {
      assert |w.running - {i}| == |w.running| - 1;
    }
  }

  /** The first report leaves the channel. */
  lemma ReportTaken(w: Whole)
    requires SameResults(w.race.channel, w.inChannel) && SameResults(w.race.received, w.taken) && w.inChannel != []
    requires Inv(w.data) && Reports(Meaning(w.data), w.running, w.inChannel)
    ensures SameResults(w.race.channel[1..], w.inChannel[1..])
    ensures SameResults(w.race.received + [w.race.channel[0]], w.taken + [w.inChannel[0]])
    ensures Reports(Meaning(w.data), w.running, w.inChannel[1..])
  {
    hide Inv, Meaning;
  }

  lemma AdoptKeeps(m: Isolated, report: Report, running: set<nat>, reports: seq<Report>, caller: Values3)
    requires Reports(m, running, reports) && Reports(m, running, [report]) && CallerInv(m, caller, None)
    ensures Reports(IsolatedNext(m, Adopt(report.attempt)), running, reports)
    ensures CallerInv(IsolatedNext(m, Adopt(report.attempt)), caller, Some(report))
  {
    assert [report][0] == report;
    hide Adopted;
  }

  lemma TakesKeeps(limit: nat, w: Whole, caller: Values3)
    requires limit >= 1 && WholeInv(limit, w, caller)
    requires Race.AtLoopHead(limit, w.race) && w.race.channel != [] && w.inChannel != []
    ensures WholeInv(limit, NextTakes(limit, w), caller)
  {
    hide Inv, Next, Meaning, Race.Inv, Race.Next, Launched, CallerInv;
    Race.NextKeeps(limit, w.race, Race.Takes);
    LaunchesByOne(limit, w.race);
    ReportTaken(w);
    var report := w.inChannel[0];
    assert Reports(Meaning(w.data), w.running, [report]);
    var w1 := w.(race := Race.Next(limit, w.race, Race.Takes), inChannel := w.inChannel[1..], taken := w.taken + [report]);
    hide Reports, SameResults;
    if w.race.channel[0].Success? {
      NextRefines(w.data, Adopt(report.attempt));
      AdoptKeeps(Meaning(w.data), report, w.running, w1.inChannel, caller);
    } else if w1.race.counters.launched > w.race.counters.launched {
      LaunchedKeeps(limit, w1, caller);
    }
  }

  lemma LaunchesByOne(limit: nat, race: H.Race)
    requires Race.AtLoopHead(limit, race) && race.channel != []
    ensures var next := Race.Next(limit, race, Race.Takes);
            && race.counters.launched <= next.counters.launched <= race.counters.launched + 1
            && next.running == race.running + (next.counters.launched - race.counters.launched)
            && (race.channel[0].Success? ==>
                  next.counters.launched == race.counters.launched && next.returned == Some(H.Win(race.channel[0].resp)))
            && (race.channel[0].Failure? ==> next.returned.None?)
            && next.received == race.received + [race.channel[0]] && next.channel == race.channel[1..]
  {
  }

  lemma TimerLaunches(limit: nat, race: H.Race)
    ensures var next := Race.Next(limit, race, Race.Timer);
            && race.counters.launched <= next.counters.launched <= race.counters.launched + 1
            && next.running == race.running + (next.counters.launched - race.counters.launched)
            && next.returned == race.returned && next.received == race.received && next.channel == race.channel
  {
  }

  lemma TimerKeeps(limit: nat, w: Whole, caller: Values3)
    requires limit >= 1 && WholeInv(limit, w, caller)
    ensures WholeInv(limit, NextWhole(limit, w, Timer), caller)
  {
    hide Inv, Next, Meaning, Race.Inv, Race.Next, Launched, Reports, CallerInv, SameResults, NextTakes;
    Race.NextKeeps(limit, w.race, Race.Timer);
    TimerLaunches(limit, w.race);
    var w1 := w.(race := Race.Next(limit, w.race, Race.Timer));
    if Race.AtLoopHead(limit, w.race) && w1.race.counters.launched > w.race.counters.launched {
      LaunchedKeeps(limit, w1, caller);
    }
  }

  lemma OtherKeeps(limit: nat, w: Whole, l: Step, caller: Values3)
    requires limit >= 1 && WholeInv(limit, w, caller) && (l.Done? || l.Ends?)
    ensures WholeInv(limit, NextWhole(limit, w, l), caller)
  {
    Race.NextKeeps(limit, w.race, if l.Done? then Race.Done(l.err) else Race.Ends);
    hide Inv, Next, Meaning, Reports, CallerInv, SameResults;
  }

  lemma NextWholeKeeps(limit: nat, w: Whole, l: Step, caller: Values3)
    requires limit >= 1 && WholeInv(limit, w, caller)
    ensures WholeInv(limit, NextWhole(limit, w, l), caller)
  {
    hide NextTakes, Launched, Next, Race.Next;
    match l
    case Writes(write) => WritesKeeps(limit, w, write, caller);
    case Sends(i, r) => SendsKeeps(limit, w, i, r, caller);
    case Takes =>
      if Race.AtLoopHead(limit, w.race) && w.race.channel != [] && w.inChannel != [] {
        TakesKeeps(limit, w, caller);
      }
    case Timer => TimerKeeps(limit, w, caller);
    case _ => OtherKeeps(limit, w, l, caller);
  }

  lemma StartKeeps(limit: nat, data: State)
    requires limit >= 1 && Inv(data) && |data.parties| == 1 && !data.adopted
    ensures WholeInv(limit, Start(limit, data), Meaning(data).parties[0])
  {
    hide Inv, Next, Launched, PartyView;
    var w := Whole(Race.Start(limit), data, {}, [], [], None);
    LaunchedKeeps(limit, w, Meaning(data).parties[0]);
    hide Meaning;
  }

  lemma {:induction false} RunKeeps(limit: nat, data: State, ls: seq<Step>)
    requires limit >= 1 && Inv(data) && |data.parties| == 1 && !data.adopted
    ensures WholeInv(limit, Run(limit, data, ls), Meaning(data).parties[0])
  {
    hide Inv, Meaning, WholeInv, NextWhole, Start;
    if ls == [] {
      StartKeeps(limit, data);
    } else {
      RunKeeps(limit, data, ls[..|ls| - 1]);
      NextWholeKeeps(limit, Run(limit, data, ls[..|ls| - 1]), ls[|ls| - 1], Meaning(data).parties[0]);
    }
  }

  /**
   The hedge as a whole, in every interleaving and at every moment, also long after the return: when a response was
   returned, the caller holds the message, headers and trailers of the attempt whose success was the first to be received,
   as they were when it reported; otherwise the caller holds what it started with.
   */
  lemma CallerGetsFirstSuccess(limit: nat, data: State, ls: seq<Step>)
    requires limit >= 1 && Inv(data) && |data.parties| == 1 && !data.adopted
    ensures var w, caller := Run(limit, data, ls), Meaning(data).parties[0];
            if w.race.returned.Some? && w.race.returned.value.Win? then
              && H.FirstSuccess(w.race.received, w.race.returned.value.resp)
              && |w.taken| == |w.race.received| > 0
              && w.taken[|w.taken| - 1].result == H.Success(w.race.returned.value.resp)
              && var won := w.taken[|w.taken| - 1].values;
              Meaning(w.data).parties[0] ==
              if Meaning(w.data).withInfo then
                Values3(caller.request, caller.response + won.response, caller.trailer + won.trailer,
                        caller.req, won.resp, won.meta)
              else Values3(caller.request, caller.response, caller.trailer, caller.req, won.resp, caller.meta)
            else Meaning(w.data).parties[0] == caller
  {
    hide Inv, Meaning;
    RunKeeps(limit, data, ls);
  }
}
