/**
 Whole runs of the breaker under concurrent calls that begin in one state and report in another.
 */
module BreakerRuns {
  import opened Breaker
  import opened Wrappers

  /**
   `trials` are the outstanding calls admitted in the current half-open period, `others` all other outstanding calls.
   `stragglers` counts the reports made in the period by others, `tried` holds all outcomes reported in it and `seen` all
   that were reported since the circuit was closed last; true is a success. `trippedAt` is the time of the report that
   opened the circuit last, and `told` the wait that the last call was told, if it was rejected.
   */
  datatype System = System(
    core: Core, trials: set<nat>, others: set<nat>, stragglers: nat, tried: seq<bool>, seen: seq<bool>, trippedAt: int,
    told: Option<int>)

  datatype Label = Call(id: nat, now: int, later: int) | Report(id: nat, failed: bool, now: int)

  function Start(): System {
    System(Breaker.Init(), {}, {}, 0, [], [], 0, None)
  }

  function NextCall(cfg: Config, s: System, id: nat, now: int, later: int): System {
    var (core, verdict) := Allow(cfg, s.core, now, later);
    var t := s.(core := core, told := if verdict.Rejected? then Some(verdict.retryAfter) else None);
    if verdict.Rejected? then t
    else if s.core.circuit == Closed then t.(others := s.others + {id})
    else if s.core.circuit == Open then t.(trials := {id}, others := s.others + s.trials, stragglers := 0, tried := [])
    else t.(trials := s.trials + {id})
  }

  function NextReport(cfg: Config, s: System, id: nat, failed: bool, now: int): System
    requires cfg.Normal()
  {
    var core := Record(cfg, s.core, failed, now);
    var t := s.(core := core, others := s.others - {id},
                trippedAt := if s.core.circuit != Open && core.circuit == Open then now else s.trippedAt);
    if s.core.circuit == Closed then t.(seen := s.seen + [!failed])
    else if s.core.circuit == Open then t
    else
      var t' := t.(trials := s.trials - {id}, tried := s.tried + [!failed],
                   stragglers := if id in s.trials then s.stragglers else s.stragglers + 1);
      if core.circuit == HalfOpen then t' else t'.(trials := {}, others := t'.others + t'.trials, seen := [])
  }

  function Next(cfg: Config, s: System, l: Label): System
    requires cfg.Normal()
  {
    match l
    case Call(id, now, later) => if id in s.trials + s.others then s else NextCall(cfg, s, id, now, later)
    case Report(id, failed, now) => if id in s.trials + s.others then NextReport(cfg, s, id, failed, now) else s
  }

  function Run(cfg: Config, ls: seq<Label>): System
    requires cfg.Normal()
  {
    if ls == [] then Start() else Next(cfg, Run(cfg, ls[..|ls| - 1]), ls[|ls| - 1])
  }

  ghost predicate AllTrue(s: seq<bool>) {
    forall i | 0 <= i < |s| :: s[i]
  }

  ghost predicate Inv(cfg: Config, s: System) {
    && cfg.Normal() && s.trials !! s.others
    && (s.core.circuit == HalfOpen ==>
          && 0 <= s.core.inFlight <= cfg.halfOpenTrials
          && s.core.inFlight <= |s.trials| <= s.core.inFlight + s.stragglers
          && AllTrue(s.tried) && s.core.successes == |s.tried| < cfg.successThreshold
          && s.stragglers <= |s.tried|)
    && (s.core.circuit != HalfOpen ==> s.trials == {} && s.core.inFlight == 0)
    && (s.core.circuit == Closed ==>
          s.core.outcomes == s.seen && Failures(LastN(s.seen, cfg.windowSize)) < cfg.failureThreshold)
    && (s.core.circuit == Open ==> s.core.openedAt == s.trippedAt)
    && (cfg.failureThreshold > cfg.windowSize ==> s.core.circuit == Closed)
  }

  lemma {:induction false} FailuresBound(s: seq<bool>)
    ensures Failures(s) <= |s|
  {
    if s != [] {
      FailuresBound(s[..|s| - 1]);
    }
  }

  lemma NextCallKeeps(cfg: Config, s: System, id: nat, now: int, later: int)
    requires cfg.Normal() && Inv(cfg, s) && id !in s.trials + s.others
    ensures Inv(cfg, NextCall(cfg, s, id, now, later))
  {
    if s.core.circuit == HalfOpen {
      assert |s.trials + {id}| == |s.trials| + 1;
    }
  }

  lemma NextReportKeeps(cfg: Config, s: System, id: nat, failed: bool, now: int)
    requires cfg.Normal() && Inv(cfg, s) && id in s.trials + s.others
    ensures Inv(cfg, NextReport(cfg, s, id, failed, now))
  {
    if s.core.circuit == Closed {
      FailuresBound(LastN(s.seen + [!failed], cfg.windowSize));
      hide Failures;
    } else {
      ReportOutsideClosedKeeps(cfg, s, id, failed, now);
    }
  }

  lemma ReportOutsideClosedKeeps(cfg: Config, s: System, id: nat, failed: bool, now: int)
    requires cfg.Normal() && Inv(cfg, s) && id in s.trials + s.others && s.core.circuit != Closed
    ensures Inv(cfg, NextReport(cfg, s, id, failed, now))
  {
    NoFailures(cfg);
    hide Failures, LastN;
    if id in s.trials {
      assert |s.trials - {id}| == |s.trials| - 1;
    } else {
      assert s.trials - {id} == s.trials;
    }
  }

  lemma NoFailures(cfg: Config)
    requires cfg.Normal()
    ensures Failures(LastN([], cfg.windowSize)) == 0
  {
  }

  lemma {:induction false} RunKeeps(cfg: Config, ls: seq<Label>)
    requires cfg.Normal()
    ensures Inv(cfg, Run(cfg, ls))
  {
    if ls != [] {
      var front, last := ls[..|ls| - 1], ls[|ls| - 1];
      RunKeeps(cfg, front);
      var s := Run(cfg, front);
      if last.id in s.trials + s.others {
        if last.Report? { NextReportKeeps(cfg, s, last.id, last.failed, last.now); }
      } else if last.Call? {
        NextCallKeeps(cfg, s, last.id, last.now, last.later);
      }
    }
  }

  /**
   The trial bound, over all runs: the counter stays within the configured trials, and the calls really outstanding in a
   half-open period exceed it by no more than the reports that earlier calls made in that period, and so by less than the
   success threshold. Without such stragglers the counter is exact.
   */
  lemma TrialBound(cfg: Config, ls: seq<Label>)
    requires cfg.Normal()
    ensures var s := Run(cfg, ls);
            && 0 <= s.core.inFlight <= cfg.halfOpenTrials
            && |s.trials| <= cfg.halfOpenTrials + s.stragglers
            && |s.trials| <= cfg.halfOpenTrials + cfg.successThreshold - 1
            && (s.core.circuit == HalfOpen && s.stragglers == 0 ==> |s.trials| == s.core.inFlight)
  {
    RunKeeps(cfg, ls);
  }

  /** The circuit closes again only on the success that completes an unbroken series since it became half-open. */
  lemma ClosesAfterSuccesses(cfg: Config, ls: seq<Label>, l: Label)
    requires cfg.Normal()
    requires Run(cfg, ls).core.circuit != Closed && Next(cfg, Run(cfg, ls), l).core.circuit == Closed
    ensures var s' := Next(cfg, Run(cfg, ls), l);
            && Run(cfg, ls).core.circuit == HalfOpen && s'.seen == []
            && AllTrue(s'.tried) && |s'.tried| == cfg.successThreshold
  {
    RunKeeps(cfg, ls);
  }

  /** One more outcome changes the failures of the window by at most one, and a success adds none. */
  lemma WindowStep(outcomes: seq<bool>, ok: bool, n: nat)
    requires n >= 1
    ensures Failures(LastN(outcomes + [ok], n)) <= Failures(LastN(outcomes, n)) + if ok then 0 else 1
  {
    var all := outcomes + [ok];
    if |all| <= n {
      assert all[..|all| - 1] == outcomes;
    } else {
      var kept := outcomes[|all| - n..];
      assert LastN(all, n) == kept + [ok];
      FailuresConcat(kept, [ok]);
      assert Failures([ok]) == (if ok then 0 else 1) by { assert [ok][..0] == []; }
      var earlier := LastN(outcomes, n);
      assert earlier == earlier[..|earlier| - |kept|] + kept;
      FailuresConcat(earlier[..|earlier| - |kept|], kept);
    }
  }

  /**
   Which calls are let through, over all runs: every one while the circuit is closed; once it is open, the first one that
   comes `openDuration` or more after the report that opened it; then as many as there are trials left. Others are told to
   wait for the rest of that duration, or for 100 ms.
   */
  lemma AdmittedIff(cfg: Config, ls: seq<Label>, id: nat, now: int, later: int)
    requires cfg.Normal()
    requires var s := Run(cfg, ls); id !in s.trials && id !in s.others
    ensures var s := Run(cfg, ls);
            var s' := Next(cfg, s, Call(id, now, later));
            var cooled := s.core.circuit == Open && now - s.trippedAt >= cfg.openDuration;
            && (id in s'.trials <==> cooled || (s.core.circuit == HalfOpen && s.core.inFlight < cfg.halfOpenTrials))
            && (id in s'.others <==> s.core.circuit == Closed)
            && s'.core.circuit == (if cooled then HalfOpen else s.core.circuit)
            && s'.core.inFlight == (if cooled then 1 else if id in s'.trials then s.core.inFlight + 1 else s.core.inFlight)
            && s'.told == (if id in s'.trials || id in s'.others then None
                           else if s.core.circuit == Open then Some(cfg.openDuration - (later - s.trippedAt))
                           else Some(100_000_000))
  {
    hide Run, Inv, Failures, LastN, Record;
    OpenSince(cfg, ls);
  }

  lemma OpenSince(cfg: Config, ls: seq<Label>)
    requires cfg.Normal()
    ensures var s := Run(cfg, ls); s.core.circuit == Open ==> s.core.openedAt == s.trippedAt
  {
    RunKeeps(cfg, ls);
  }

  /**
   Where a report takes the circuit, over all runs. Closed: it opens exactly when the report brings the failures among the
   last `windowSize` outcomes, seen since it was closed, up to the threshold. Half-open: it opens at any failure, and
   closes at the success that completes the series. Open: it stays.
   */
  lemma ReportMoves(cfg: Config, ls: seq<Label>, id: nat, failed: bool, now: int)
    requires cfg.Normal()
    requires var s := Run(cfg, ls); id in s.trials || id in s.others
    ensures var s := Run(cfg, ls);
            var s' := Next(cfg, s, Report(id, failed, now));
            && s'.core.circuit == (match s.core.circuit
                                   case Closed =>
                                     if FailuresAmong(s.seen + [!failed], cfg.windowSize) >= cfg.failureThreshold then Open
                                     else Closed
                                   case HalfOpen =>
                                     if failed then Open
                                     else if |s.tried| + 1 == cfg.successThreshold then Closed
                                     else HalfOpen
                                   case Open => Open)
            && (s'.core.circuit == HalfOpen ==>
                  s'.core.inFlight == if s.core.inFlight > 0 then s.core.inFlight - 1 else 0)
            && (s'.core.circuit == Open ==> s'.trippedAt == if s.core.circuit == Open then s.trippedAt else now)
  {
    RunKeeps(cfg, ls);
    FailuresCounted(Run(cfg, ls).seen + [!failed], cfg.windowSize);
    hide Run, Failures, LastN;
  }

  /**
   In every reachable closed state the failures of the window are below the threshold, and the circuit opens exactly at the
   failure that brings them up to it.
   */
  lemma TripsAtThreshold(cfg: Config, ls: seq<Label>, id: nat, failed: bool, now: int)
    requires cfg.Normal()
    requires var s := Run(cfg, ls); s.core.circuit == Closed && id in s.others
    ensures var s := Run(cfg, ls);
            var s' := Next(cfg, s, Report(id, failed, now));
            && FailuresAmong(s.seen, cfg.windowSize) < cfg.failureThreshold
            && (s'.core.circuit == Open <==>
                  FailuresAmong(s.seen + [!failed], cfg.windowSize) == cfg.failureThreshold)
            && (s'.core.circuit == Open ==> failed && s'.trippedAt == now)
            && (s'.core.circuit == Open || s'.core.circuit == Closed)
  {
    RunKeeps(cfg, ls);
    var seen := Run(cfg, ls).seen;
    WindowStep(seen, !failed, cfg.windowSize);
    FailuresCounted(seen, cfg.windowSize);
    FailuresCounted(seen + [!failed], cfg.windowSize);
    hide Run, FailuresAmong, Failures, LastN;
  }

  /** The failures among the last `n` outcomes. */
  ghost function FailuresAmong(outcomes: seq<bool>, n: int): nat {
    |set i | 0 <= i < |outcomes| && |outcomes| - n <= i && !outcomes[i]|
  }

  lemma FailuresCounted(outcomes: seq<bool>, n: nat)
    ensures Failures(LastN(outcomes, n)) == FailuresAmong(outcomes, n)
  {
    var k := if |outcomes| <= n then 0 else |outcomes| - n;
    assert LastN(outcomes, n) == outcomes[k..];
    FailuresFrom(outcomes, k);
    assert (set i | 0 <= i < |outcomes| && |outcomes| - n <= i && !outcomes[i]) ==
           (set i | k <= i < |outcomes| && !outcomes[i]);
  }

  lemma {:induction false} FailuresFrom(outcomes: seq<bool>, k: nat)
    requires k <= |outcomes|
    ensures Failures(outcomes[k..]) == |set i | k <= i < |outcomes| && !outcomes[i]|
  {
    var all := set i | k <= i < |outcomes| && !outcomes[i];
    if k == |outcomes| {
      assert all == {};
    } else {
      var last := |outcomes| - 1;
      FailuresFrom(outcomes[..last], k);
      assert outcomes[k..][..|outcomes[k..]| - 1] == outcomes[..last][k..];
      var before := set i | k <= i < last && !outcomes[..last][i];
      var failed := if outcomes[last] then {} else {last};
      assert all == before + failed && before !! failed;
      assert |all| == |before| + |failed|;
    }
  }

  // ---------------------------------------------------------------- when "at most HalfOpenTrials trials" is true

  lemma RunSnoc(cfg: Config, ls: seq<Label>, l: Label)
    requires cfg.Normal()
    ensures Run(cfg, ls + [l]) == Next(cfg, Run(cfg, ls), l)
  {
    assert (ls + [l])[..|ls + [l]| - 1] == ls;
  }

  function Below(m: nat): (r: set<nat>)
    ensures forall id: nat :: id in r <==> id < m
  {
    if m == 0 then {} else Below(m - 1) + {m - 1}
  }

  /** After `i` failures have been reported, with calls 0 to `m - 1` still outstanding. */
  ghost predicate Failing(cfg: Config, s: System, m: nat, i: nat) {
    && s.trials == {} && s.others == Below(m)
    && |s.core.outcomes| == Failures(s.core.outcomes) == i
    && s.core.circuit == (if i < cfg.failureThreshold then Closed else Open)
    && (i == cfg.failureThreshold ==> s.core.openedAt == 0)
  }

  lemma FailOnce(cfg: Config, s: System, m: nat, i: nat)
    requires cfg.Normal() && i < cfg.failureThreshold <= cfg.windowSize && Failing(cfg, s, m, i)
    ensures Failing(cfg, Next(cfg, Next(cfg, s, Call(m, 0, 0)), Report(m, true, 0)), m, i + 1)
  {
    var t := Next(cfg, s, Call(m, 0, 0));
    assert t.core == s.core && t.others == Below(m) + {m} && t.trials == {};
    var outcomes := s.core.outcomes + [false];
    assert outcomes[..|outcomes| - 1] == s.core.outcomes;
    assert LastN(outcomes, cfg.windowSize) == outcomes;
    assert Below(m) + {m} - {m} == Below(m);
  }

  /** A run that leaves `m` calls outstanding and reports `i` failures. */
  lemma {:induction false} FailingRounds(cfg: Config, m: nat, i: nat) returns (ls: seq<Label>)
    requires cfg.Normal() && i <= cfg.failureThreshold <= cfg.windowSize
    ensures Failing(cfg, Run(cfg, ls), m, i)
    decreases i, m
  {
    if i > 0 {
      var before := FailingRounds(cfg, m, i - 1);
      FailOnce(cfg, Run(cfg, before), m, i - 1);
      RunSnoc(cfg, before, Call(m, 0, 0));
      RunSnoc(cfg, before + [Call(m, 0, 0)], Report(m, true, 0));
      ls := before + [Call(m, 0, 0)] + [Report(m, true, 0)];
    } else if m > 0 {
      var before := FailingRounds(cfg, m - 1, 0);
      RunSnoc(cfg, before, Call(m - 1, 0, 0));
      ls := before + [Call(m - 1, 0, 0)];
      assert Below(m - 1) + {m - 1} == Below(m);
    } else {
      ls := [];
      assert Below(0) == {};
    }
  }

  /**
   In the half-open period after `m` calls were left outstanding: `k` of them have reported success, `j` of the trials
   are counted, and `j + k` trials are outstanding.
   */
  ghost predicate Trying(s: System, m: nat, k: nat, j: nat) {
    && s.core.circuit == HalfOpen && s.core.inFlight == j && s.core.successes == k <= m
    && s.others == Below(m - k) && |s.trials| == j + k
    && forall id | id in s.trials :: m <= id < m + j + k
  }

  function Ask(cfg: Config, id: nat): Label {
    Call(id, cfg.openDuration, cfg.openDuration)
  }

  lemma AdmitTrial(cfg: Config, s: System, m: nat, k: nat, j: nat)
    requires cfg.Normal() && j < cfg.halfOpenTrials
    requires if k == j == 0 then Failing(cfg, s, m, cfg.failureThreshold) else Trying(s, m, k, j)
    ensures Trying(Next(cfg, s, Ask(cfg, m + j + k)), m, k, j + 1)
  {
    if k == j == 0 {
      FirstTrial(cfg, s, m);
    } else {
      NextTrial(cfg, s, m, k, j);
    }
  }

  lemma FirstTrial(cfg: Config, s: System, m: nat)
    requires cfg.Normal() && Failing(cfg, s, m, cfg.failureThreshold)
    ensures Trying(Next(cfg, s, Ask(cfg, m)), m, 0, 1)
  {
    hide Failures, LastN, Below;
    assert m !in s.trials && m !in s.others;
    assert s.others + s.trials == s.others;
  }

  lemma NextTrial(cfg: Config, s: System, m: nat, k: nat, j: nat)
    requires cfg.Normal() && j < cfg.halfOpenTrials && Trying(s, m, k, j)
    ensures Trying(Next(cfg, s, Ask(cfg, m + j + k)), m, k, j + 1)
  {
    hide Below, Failures, LastN, Record;
    var id := m + j + k;
    assert id !in s.trials && id !in s.others;
    var t := Next(cfg, s, Ask(cfg, id));
    assert t.trials == s.trials + {id} && t.others == s.others;
    assert |t.trials| == |s.trials| + 1;
  }

  lemma StragglerReports(cfg: Config, s: System, m: nat, k: nat, j: nat)
    requires cfg.Normal() && Trying(s, m, k, j) && j > 0 && k < m && k + 1 < cfg.successThreshold
    ensures Trying(Next(cfg, s, Report(m - k - 1, false, cfg.openDuration)), m, k + 1, j - 1)
  {
    hide Failures, LastN;
    var id := m - k - 1;
    assert id in s.others && id !in s.trials;
    assert s.trials - {id} == s.trials;
    assert Below(m - k) - {id} == Below(m - k - 1);
  }

  /** All counted trials admitted. */
  lemma {:induction false} FullTrials(cfg: Config, m: nat, j: nat) returns (ls: seq<Label>)
    requires cfg.Normal() && cfg.failureThreshold <= cfg.windowSize && 1 <= j <= cfg.halfOpenTrials
    ensures Trying(Run(cfg, ls), m, 0, j)
  {
    hide Run, Next, Failing, Trying;
    var before;
    if j == 1 {
      before := FailingRounds(cfg, m, cfg.failureThreshold);
    } else {
      before := FullTrials(cfg, m, j - 1);
    }
    AdmitTrial(cfg, Run(cfg, before), m, 0, j - 1);
    RunSnoc(cfg, before, Ask(cfg, m + j - 1));
    ls := before + [Ask(cfg, m + j - 1)];
  }

  /** A straggler that succeeds frees a slot it never held: each admits one trial too many. */
  lemma {:induction false} StragglersAdmitMore(cfg: Config, m: nat, k: nat) returns (ls: seq<Label>)
    requires cfg.Normal() && cfg.failureThreshold <= cfg.windowSize && k <= m < cfg.successThreshold
    ensures Trying(Run(cfg, ls), m, k, cfg.halfOpenTrials)
  {
    hide Run, Next, Trying;
    var n := cfg.halfOpenTrials;
    if k == 0 {
      ls := FullTrials(cfg, m, n);
    } else {
      var before := StragglersAdmitMore(cfg, m, k - 1);
      var report, ask := Report(m - k, false, cfg.openDuration), Ask(cfg, m + n - 1 + k);
      StragglerReports(cfg, Run(cfg, before), m, k - 1, n);
      RunSnoc(cfg, before, report);
      AdmitTrial(cfg, Run(cfg, before + [report]), m, k, n - 1);
      RunSnoc(cfg, before + [report], ask);
      ls := before + [report] + [ask];
    }
  }

  /** The most trials that are ever outstanding at once: none if the circuit cannot trip. */
  function MostTrials(cfg: Config): int {
    if cfg.failureThreshold > cfg.windowSize then 0 else cfg.halfOpenTrials + cfg.successThreshold - 1
  }

  /** This bound is exact: it holds over all runs, and every configuration that can trip has a run that reaches it. */
  lemma MostTrialsIsExact(cfg: Config, n: int)
    requires cfg.Normal()
    ensures (forall ls :: |Run(cfg, ls).trials| <= n) <==> n >= MostTrials(cfg)
  {
    if n >= MostTrials(cfg) {
      forall ls ensures |Run(cfg, ls).trials| <= n {
        RunKeeps(cfg, ls);
      }
    } else if cfg.failureThreshold > cfg.windowSize {
      assert |Run(cfg, []).trials| > n;
    } else {
      var m := cfg.successThreshold - 1;
      var ls := StragglersAdmitMore(cfg, m, m);
      hide Run;
      assert |Run(cfg, ls).trials| > n;
    }
  }

  /**
   "At most `halfOpenTrials` trials at once" holds over all runs exactly for the configurations in which one success
   closes the circuit, or that can never trip.
   */
  lemma TrialLimitIffNoStragglers(cfg: Config)
    requires cfg.Normal()
    ensures (forall ls :: |Run(cfg, ls).trials| <= cfg.halfOpenTrials)
       <==> cfg.successThreshold == 1 || cfg.failureThreshold > cfg.windowSize
  {
    MostTrialsIsExact(cfg, cfg.halfOpenTrials);
  }

  // ---------------------------------------------------------------- when the circuit ever trips

  /** A threshold above the window is never reached; any other is, by enough failures. */
  lemma NeverTripsIff(cfg: Config)
    requires cfg.Normal()
    ensures (forall ls :: Run(cfg, ls).core.circuit == Closed) <==> cfg.failureThreshold > cfg.windowSize
  {
    if cfg.failureThreshold > cfg.windowSize {
      forall ls ensures Run(cfg, ls).core.circuit == Closed {
        RunKeeps(cfg, ls);
      }
    } else {
      var ls := FailingRounds(cfg, 0, cfg.failureThreshold);
      hide Run;
      assert Run(cfg, ls).core.circuit != Closed;
    }
  }

  // ---------------------------------------------------------------- when closing takes a trial's success

  function RunFrom(cfg: Config, s: System, ls: seq<Label>): System
    requires cfg.Normal()
  {
    if ls == [] then s else Next(cfg, RunFrom(cfg, s, ls[..|ls| - 1]), ls[|ls| - 1])
  }

  /** These labels lead from the start of a half-open period to the end of that period, where the circuit closes. */
  ghost predicate ClosesPeriod(cfg: Config, s: System, ls: seq<Label>)
    requires cfg.Normal()
  {
    && RunFrom(cfg, s, ls).core.circuit == Closed
    && forall k | 0 <= k < |ls| :: RunFrom(cfg, s, ls[..k]).core.circuit == HalfOpen
  }

  /** The successes of trials among those recorded in the period: those that no earlier call reported. */
  function TrialSuccesses(s: System): int {
    |s.tried| - s.stragglers
  }

  /** Earlier calls report at most once each. */
  lemma {:induction false} StragglersBound(cfg: Config, s: System, ls: seq<Label>)
    requires cfg.Normal() && Inv(cfg, s) && s.core.circuit == HalfOpen
    requires forall k | 0 <= k < |ls| :: RunFrom(cfg, s, ls[..k]).core.circuit == HalfOpen
    ensures Inv(cfg, RunFrom(cfg, s, ls))
    ensures var t := RunFrom(cfg, s, ls);
            && t.stragglers <= s.stragglers + |s.others|
            && (t.core.circuit == HalfOpen ==> t.stragglers + |t.others| == s.stragglers + |s.others|)
  {
    if ls != [] {
      var front, l := ls[..|ls| - 1], ls[|ls| - 1];
      forall k | 0 <= k < |front| ensures RunFrom(cfg, s, front[..k]).core.circuit == HalfOpen {
        assert front[..k] == ls[..k];
      }
      StragglersBound(cfg, s, front);
      StragglersStep(cfg, RunFrom(cfg, s, front), l);
    }
  }

  lemma StragglersStep(cfg: Config, s: System, l: Label)
    requires cfg.Normal() && Inv(cfg, s) && s.core.circuit == HalfOpen
    ensures var t := Next(cfg, s, l);
            && Inv(cfg, t)
            && t.stragglers <= s.stragglers + |s.others|
            && (t.core.circuit == HalfOpen ==> t.stragglers + |t.others| == s.stragglers + |s.others|)
  {
    if l.id in s.trials + s.others {
      if l.Report? {
        NextReportKeeps(cfg, s, l.id, l.failed, l.now);
        if l.id in s.others {
          assert |s.others - {l.id}| == |s.others| - 1;
        } else {
          assert s.others - {l.id} == s.others;
        }
      }
    } else if l.Call? {
      NextCallKeeps(cfg, s, l.id, l.now, l.later);
    }
    hide Inv, Failures, LastN;
  }

  /** With enough earlier calls outstanding, their successes close the circuit: no trial has reported. */
  lemma {:induction false} StragglersClose(cfg: Config, s: System) returns (ls: seq<Label>)
    requires cfg.Normal() && Inv(cfg, s) && s.core.circuit == HalfOpen && s.stragglers == |s.tried|
    requires |s.others| >= cfg.successThreshold - s.core.successes
    ensures ClosesPeriod(cfg, s, ls)
    ensures TrialSuccesses(RunFrom(cfg, s, ls)) == 0
    decreases cfg.successThreshold - s.core.successes
  {
    var id :| id in s.others;
    var l := Report(id, false, 0);
    var t := Next(cfg, s, l);
    StragglersStep(cfg, s, l);
    assert id !in s.trials;
    assert |s.others - {id}| == |s.others| - 1;
    if t.core.circuit == Closed {
      ls := [] + [l];
      RunFromOne(cfg, s, l);
      assert forall k | 0 <= k < |ls| :: ls[..k] == [];
    } else {
      hide Inv;
      var rest := StragglersClose(cfg, t);
      ls := [l] + rest;
      ClosesLater(cfg, s, l, rest);
    }
  }

  lemma RunFromOne(cfg: Config, s: System, l: Label)
    requires cfg.Normal()
    ensures RunFrom(cfg, s, [l]) == Next(cfg, s, l)
  {
    assert [l][..0] == [];
    assert RunFrom(cfg, s, []) == s;
  }

  lemma {:induction false} RunFromStep(cfg: Config, s: System, l: Label, rest: seq<Label>)
    requires cfg.Normal()
    ensures RunFrom(cfg, s, [l] + rest) == RunFrom(cfg, Next(cfg, s, l), rest)
  {
    hide Next;
    if rest == [] {
      assert [l] + rest == [l];
      RunFromOne(cfg, s, l);
    } else {
      assert ([l] + rest)[..|rest|] == [l] + rest[..|rest| - 1];
      RunFromStep(cfg, s, l, rest[..|rest| - 1]);
    }
  }

  lemma ClosesLater(cfg: Config, s: System, l: Label, rest: seq<Label>)
    requires cfg.Normal() && s.core.circuit == HalfOpen && ClosesPeriod(cfg, Next(cfg, s, l), rest)
    ensures ClosesPeriod(cfg, s, [l] + rest)
    ensures RunFrom(cfg, s, [l] + rest) == RunFrom(cfg, Next(cfg, s, l), rest)
  {
    hide Next;
    RunFromStep(cfg, s, l, rest);
    var ls := [l] + rest;
    forall k | 0 <= k < |ls| ensures RunFrom(cfg, s, ls[..k]).core.circuit == HalfOpen {
      if k > 0 {
        assert ls[..k] == [l] + rest[..k - 1];
        RunFromStep(cfg, s, l, rest[..k - 1]);
      }
    }
  }

  /**
   Successes of calls admitted before the half-open period count towards closing. From the start of any period that a run
   reaches, closing takes the success of a trial, whatever happens, if and only if fewer earlier calls than the success
   threshold are still outstanding.
   */
  lemma ClosingNeedsTrialIff(cfg: Config, before: seq<Label>)
    requires cfg.Normal()
    requires var s := Run(cfg, before); s.core.circuit == HalfOpen && s.tried == []
    ensures var s := Run(cfg, before);
            (forall ls | ClosesPeriod(cfg, s, ls) :: TrialSuccesses(RunFrom(cfg, s, ls)) >= 1) <==>
            |s.others| < cfg.successThreshold
  {
    RunKeeps(cfg, before);
    var s := Run(cfg, before);
    hide Run, Next;
    if |s.others| < cfg.successThreshold {
      forall ls | ClosesPeriod(cfg, s, ls) ensures TrialSuccesses(RunFrom(cfg, s, ls)) >= 1 {
        ClosingCounts(cfg, s, ls);
      }
    } else {
      var ls := StragglersClose(cfg, s);
      assert TrialSuccesses(RunFrom(cfg, s, ls)) < 1;
    }
  }

  lemma ClosingCounts(cfg: Config, s: System, ls: seq<Label>)
    requires cfg.Normal() && Inv(cfg, s) && s.core.circuit == HalfOpen && s.tried == []
    requires |s.others| < cfg.successThreshold && ClosesPeriod(cfg, s, ls)
    ensures TrialSuccesses(RunFrom(cfg, s, ls)) >= 1
  {
    assert ls != [];
    var front, l := ls[..|ls| - 1], ls[|ls| - 1];
    StragglersBound(cfg, s, ls);
    forall k | 0 <= k < |front| ensures RunFrom(cfg, s, front[..k]).core.circuit == HalfOpen {
      assert front[..k] == ls[..k];
    }
    StragglersBound(cfg, s, front);
    ClosingLength(cfg, RunFrom(cfg, s, front), l);
  }

  lemma ClosingLength(cfg: Config, s: System, l: Label)
    requires cfg.Normal() && Inv(cfg, s) && s.core.circuit == HalfOpen && Next(cfg, s, l).core.circuit == Closed
    ensures |Next(cfg, s, l).tried| == cfg.successThreshold
  {
    hide Failures, LastN;
  }
}
