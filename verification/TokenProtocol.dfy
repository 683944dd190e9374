/**
 Token sources under concurrent calls, with rotation: each call takes a token under the source's mutex, sends its request,
 and on a rejection drops the cached token and tries once more. Steps of all calls interleave freely.
 */
module TokenProtocol {
  import opened Wrappers
  import opened TokenSources

  /** A token that was attached, with the step at which its fetch began and the moment it was attached. */
  datatype Issued = Issued(cached: Cached, begun: nat, fromCache: bool, at: int)

  datatype Held = Held(cached: Cached, begun: nat)

  datatype Phase =
    | Wants              // about to take the lock for a token
    | Checking           // holds the lock
    | Fetching(begun: nat)  // holds the lock
    | Sent(issued: Issued)
    | Rejected(at: nat)  // about to take the lock to invalidate
    | Dropping(at: nat)  // holds the lock
    | Finished

  /**
   `attempt` counts the runs of the inner interceptors, `floor` is the step of the last invalidation that had returned
   when the current token call began, `rejectedAt` the step at which the first attempt was seen rejected.
   */
  datatype Call = Call(rotates: bool, attempt: nat, wire: nat, floor: nat, rejectedAt: Option<nat>, phase: Phase)

  datatype State = State(
    step: nat, now: int, lock: Option<nat>, cache: Option<Held>, invalidated: nat, calls: map<nat, Call>)

  datatype Label =
    | Tick(elapsed: nat)
    | Begin(id: nat, rotates: bool)
    | Acquire(id: nat)
    | Check(id: nat)
    | FetchEnds(id: nat, resp: Option<TokenResponse>)
    | ServerAnswers(id: nat, unauthenticated: bool)
    | AcquireToDrop(id: nat)
    | Drop(id: nat)

  function Init(now: int, initial: Option<Cached>): State {
    State(1, now, None, if initial.Some? then Some(Held(initial.value, 0)) else None, 0, map[])
  }

  function WithCall(s: State, id: nat, call: Call): State {
    s.(calls := s.calls[id := call])
  }

  /** The inner call ended with an unauthenticated error: from the server, or because no token could be had. */
  function AfterFailure(call: Call, step: nat): Call {
    if call.rotates && call.attempt == 1 then call.(phase := Rejected(step), rejectedAt := Some(step))
    else call.(phase := Finished)
  }

  function Effect(policy: Policy, s: State, l: Label): State {
    match l
    case Tick(elapsed) => s.(now := s.now + elapsed)
    case Begin(id, rotates) =>
      if id in s.calls then s else WithCall(s, id, Call(rotates, 1, 0, s.invalidated, None, Wants))
    case Acquire(id) =>
      if id in s.calls && s.calls[id].phase.Wants? && s.lock.None? then
        WithCall(s, id, s.calls[id].(phase := Checking)).(lock := Some(id))
      else s
    case Check(id) =>
      if !(id in s.calls && s.calls[id].phase.Checking?) then s
      else if s.cache.Some? && !policy.Expired(s.cache.value.cached.resp, s.cache.value.cached.asOf, s.now) then
        WithCall(s, id, s.calls[id].(phase := Sent(Issued(s.cache.value.cached, s.cache.value.begun, true, s.now)),
                                     wire := s.calls[id].wire + 1)).(lock := None)
      else WithCall(s, id, s.calls[id].(phase := Fetching(s.step)))
    case FetchEnds(id, resp) =>
      if !(id in s.calls && s.calls[id].phase.Fetching?) then s
      else if resp.None? then WithCall(s, id, AfterFailure(s.calls[id], s.step)).(lock := None)
      else
        var held := Held(Cached(resp.value, s.now), s.calls[id].phase.begun);
        WithCall(s, id, s.calls[id].(phase := Sent(Issued(held.cached, held.begun, false, s.now)),
                                     wire := s.calls[id].wire + 1)).(lock := None, cache := Some(held))
    case ServerAnswers(id, unauthenticated) =>
      if !(id in s.calls && s.calls[id].phase.Sent?) then s
      else WithCall(s, id, if unauthenticated then AfterFailure(s.calls[id], s.step) else s.calls[id].(phase := Finished))
    case AcquireToDrop(id) =>
      if id in s.calls && s.calls[id].phase.Rejected? && s.lock.None? then
        WithCall(s, id, s.calls[id].(phase := Dropping(s.calls[id].phase.at))).(lock := Some(id))
      else s
    case Drop(id) =>
      if !(id in s.calls && s.calls[id].phase.Dropping?) then s
      else WithCall(s, id, s.calls[id].(phase := Wants, attempt := 2, floor := s.step))
           .(lock := None, cache := None, invalidated := s.step)
  }

  /** Every label takes one step. */
  function Next(policy: Policy, s: State, l: Label): State {
    var s' := Effect(policy, s, l);
    s'.(step := s.step + 1)
  }

  function Run(policy: Policy, s: State, ls: seq<Label>): State {
    if ls == [] then s else Next(policy, Run(policy, s, ls[..|ls| - 1]), ls[|ls| - 1])
  }

  ghost predicate CallInv(policy: Policy, s: State, id: nat, call: Call) {
    && call.floor <= s.invalidated
    && 1 <= call.attempt <= 2 && call.wire <= call.attempt
    && (call.attempt == 1 && (call.phase.Wants? || call.phase.Checking? || call.phase.Fetching?) ==> call.wire == 0)
    && (call.attempt == 2 && (call.phase.Wants? || call.phase.Checking? || call.phase.Fetching?) ==> call.wire <= 1)
    && (call.attempt == 2 ==> call.rotates && call.rejectedAt.Some? && call.rejectedAt.value < call.floor)
    && (call.rejectedAt.Some? ==> call.rejectedAt.value < s.step)
    && (call.phase.Checking? || call.phase.Fetching? || call.phase.Dropping? ==> s.lock == Some(id))
    && (call.phase.Rejected? || call.phase.Dropping? ==>
          call.rotates && call.attempt == 1 && call.rejectedAt == Some(call.phase.at))
    && (call.phase.Fetching? ==> s.invalidated <= call.phase.begun)
    && (call.phase.Sent? ==>
          var i := call.phase.issued;
          && call.floor <= i.begun
          && i.cached.asOf <= i.at
          && (i.fromCache ==> !policy.Expired(i.cached.resp, i.cached.asOf, i.at)))
  }

  /** What is cached was fetched after the last invalidation: nobody else can invalidate while a fetch holds the lock. */
  ghost predicate CacheInv(s: State) {
    && s.invalidated < s.step
    && (s.cache.Some? ==> s.invalidated <= s.cache.value.begun && s.cache.value.cached.asOf <= s.now)
  }

  ghost predicate Inv(policy: Policy, s: State) {
    && CacheInv(s)
    && forall id | id in s.calls :: CallInv(policy, s, id, s.calls[id])
  }

  predicate Acts(l: Label, id: nat) {
    !l.Tick? && l.id == id
  }

  /** The steps of one call keep what holds of another: the lock tells their critical sections apart. */
  lemma OtherKeeps(policy: Policy, s: State, l: Label, id: nat)
    requires id in s.calls && CallInv(policy, s, id, s.calls[id])
    requires !l.Tick? && l.id in s.calls ==> CallInv(policy, s, l.id, s.calls[l.id])
    requires s.invalidated < s.step && !Acts(l, id)
    ensures id in Effect(policy, s, l).calls && Effect(policy, s, l).calls[id] == s.calls[id]
    ensures CallInv(policy, Next(policy, s, l), id, s.calls[id])
  {
    match l
    case Tick(_) =>
    case Begin(_, _) =>
    case Acquire(_) =>
    case Check(_) =>
    case FetchEnds(_, _) =>
    case ServerAnswers(_, _) =>
    case AcquireToDrop(_) =>
    case Drop(_) =>
  }

  /** What a step leaves of the acting call and of the cache. */
  ghost predicate ActorInv(policy: Policy, s: State, l: Label, id: nat) {
    var s' := Next(policy, s, l);
    CacheInv(s') && (id in s'.calls ==> CallInv(policy, s', id, s'.calls[id]))
  }

  lemma ActorKeeps(policy: Policy, s: State, l: Label, id: nat)
    requires Acts(l, id) && CacheInv(s)
    requires id in s.calls ==> CallInv(policy, s, id, s.calls[id])
    ensures ActorInv(policy, s, l, id)
  {
    hide Effect, CallInv, CacheInv, ActorInv;
    match l
    case Check(_) => CheckKeeps(policy, s, id);
    case FetchEnds(_, resp) => FetchKeeps(policy, s, id, resp);
    case ServerAnswers(_, _) => AnswerKeeps(policy, s, l, id);
    case Drop(_) => AnswerKeeps(policy, s, l, id);
    case _ => WaitKeeps(policy, s, l, id);
  }

  lemma CheckKeeps(policy: Policy, s: State, id: nat)
    requires CacheInv(s) && (id in s.calls ==> CallInv(policy, s, id, s.calls[id]))
    ensures ActorInv(policy, s, Check(id), id)
  {
    hide Policy.Expired;
  }

  lemma FetchKeeps(policy: Policy, s: State, id: nat, resp: Option<TokenResponse>)
    requires CacheInv(s) && (id in s.calls ==> CallInv(policy, s, id, s.calls[id]))
    ensures ActorInv(policy, s, FetchEnds(id, resp), id)
  {
    hide Policy.Expired;
  }

  lemma AnswerKeeps(policy: Policy, s: State, l: Label, id: nat)
    requires (l.ServerAnswers? || l.Drop?) && l.id == id
    requires CacheInv(s) && (id in s.calls ==> CallInv(policy, s, id, s.calls[id]))
    ensures ActorInv(policy, s, l, id)
  {
    hide Policy.Expired;
  }

  lemma WaitKeeps(policy: Policy, s: State, l: Label, id: nat)
    requires (l.Begin? || l.Acquire? || l.AcquireToDrop?) && l.id == id
    requires CacheInv(s) && (id in s.calls ==> CallInv(policy, s, id, s.calls[id]))
    ensures ActorInv(policy, s, l, id)
  {
    hide Policy.Expired;
  }

  lemma NextKeeps(policy: Policy, s: State, l: Label)
    requires Inv(policy, s)
    ensures Inv(policy, Next(policy, s, l))
  {
    var s' := Next(policy, s, l);
    assert s'.calls == Effect(policy, s, l).calls;
    forall id | id in s'.calls ensures CallInv(policy, s', id, s'.calls[id]) {
      hide CallInv, Effect;
      if Acts(l, id) {
        ActorKeeps(policy, s, l, id);
      } else {
        OtherKeeps(policy, s, l, id);
      }
    }
    if l.Tick? {
      assert CacheInv(s');
    } else {
      hide CallInv, Effect;
      ActorKeeps(policy, s, l, l.id);
    }
  }

  lemma {:induction false} RunKeeps(policy: Policy, start: int, initial: Option<Cached>, ls: seq<Label>)
    requires initial.Some? ==> initial.value.asOf <= start
    ensures Inv(policy, Run(policy, Init(start, initial), ls))
  {
    if ls != [] {
      RunKeeps(policy, start, initial, ls[..|ls| - 1]);
      NextKeeps(policy, Run(policy, Init(start, initial), ls[..|ls| - 1]), ls[|ls| - 1]);
    }
  }

  /**
   Rotation, over all interleavings: no call reaches the wire more than twice, and what its second attempt carries was
   fetched by a request begun after the first attempt had been rejected, whatever other calls fetch or invalidate.
   */
  lemma SecondAttemptIsFresh(policy: Policy, start: int, initial: Option<Cached>, ls: seq<Label>, id: nat)
    requires initial.Some? ==> initial.value.asOf <= start
    requires id in Run(policy, Init(start, initial), ls).calls
    ensures var call := Run(policy, Init(start, initial), ls).calls[id];
            && call.wire <= call.attempt <= 2
            && (!call.rotates ==> call.attempt == 1)
            && (call.phase.Sent? && call.attempt == 2 ==>
                  call.rejectedAt.Some? && call.phase.issued.begun > call.rejectedAt.value)
  {
    RunKeeps(policy, start, initial, ls);
    var s := Run(policy, Init(start, initial), ls);
    assert CallInv(policy, s, id, s.calls[id]);
  }

  /**
   Invalidation, over all interleavings: every token call that begins after an invalidation has returned gets a token
   whose fetch began after it; and a token served from the cache has the life left that its policy promises.
   */
  lemma TokenIsFresh(policy: Policy, start: int, initial: Option<Cached>, ls: seq<Label>, id: nat)
    requires initial.Some? ==> initial.value.asOf <= start
    requires var s := Run(policy, Init(start, initial), ls); id in s.calls && s.calls[id].phase.Sent?
    ensures var call := Run(policy, Init(start, initial), ls).calls[id];
            var i := call.phase.issued;
            && i.begun >= call.floor
            && i.cached.asOf <= i.at
            && (i.fromCache ==> Young(policy, i.cached.resp, i.cached.asOf, i.at))
  {
    RunKeeps(policy, start, initial, ls);
    var s := Run(policy, Init(start, initial), ls);
    assert CallInv(policy, s, id, s.calls[id]);
    var i := s.calls[id].phase.issued;
    ServedTokenIsYoung(policy, i.cached.resp, i.cached.asOf, i.at);
  }

  /** At most one fetch is under way at any moment: concurrent callers wait for it. */
  lemma OneFetchAtATime(policy: Policy, start: int, initial: Option<Cached>, ls: seq<Label>, a: nat, b: nat)
    requires initial.Some? ==> initial.value.asOf <= start
    requires var s := Run(policy, Init(start, initial), ls);
             a in s.calls && b in s.calls && s.calls[a].phase.Fetching? && s.calls[b].phase.Fetching?
    ensures a == b
  {
    RunKeeps(policy, start, initial, ls);
    var s := Run(policy, Init(start, initial), ls);
    assert CallInv(policy, s, a, s.calls[a]) && CallInv(policy, s, b, s.calls[b]);
  }

  /**
   What an answer leads to, in every reachable state: exactly an unauthenticated answer to the first attempt of a call that
   rotates makes the call drop the cached token and try again; anything else ends the call.
   */
  lemma AnswersMove(policy: Policy, start: int, initial: Option<Cached>, ls: seq<Label>, id: nat, unauthenticated: bool)
    requires var s := Run(policy, Init(start, initial), ls); id in s.calls && s.calls[id].phase.Sent?
    ensures var s := Run(policy, Init(start, initial), ls);
            var call, s' := s.calls[id], Next(policy, s, ServerAnswers(id, unauthenticated));
            && s'.cache == s.cache
            && s'.calls[id].phase ==
               if unauthenticated && call.rotates && call.attempt == 1 then Rejected(s.step) else Finished
  {
    hide Run;
  }

  /** The call that was rejected drops the cached token, once it has the lock, and goes on to its second token call. */
  lemma DropsAndTriesAgain(policy: Policy, start: int, initial: Option<Cached>, ls: seq<Label>, id: nat)
    requires var s := Run(policy, Init(start, initial), ls); id in s.calls && s.calls[id].phase.Rejected? && s.lock.None?
    ensures var s := Run(policy, Init(start, initial), ls);
            var s' := Next(policy, Next(policy, s, AcquireToDrop(id)), Drop(id));
            && s'.cache == None && s'.lock == None
            && s'.calls[id].phase == Wants && s'.calls[id].attempt == 2
  {
    hide Run;
  }

  /** A token call under the lock is served the cached token exactly if it is young, and otherwise starts a fetch. */
  lemma ChecksMove(policy: Policy, start: int, initial: Option<Cached>, ls: seq<Label>, id: nat)
    requires var s := Run(policy, Init(start, initial), ls); id in s.calls && s.calls[id].phase.Checking?
    ensures var s := Run(policy, Init(start, initial), ls);
            var s' := Next(policy, s, Check(id));
            && s'.cache == s.cache
            && if s.cache.Some? && Young(policy, s.cache.value.cached.resp, s.cache.value.cached.asOf, s.now) then
                 s'.calls[id].phase.Sent? && s'.calls[id].phase.issued.cached == s.cache.value.cached && s'.lock == None
               else s'.calls[id].phase == Fetching(s.step) && s'.lock == s.lock
  {
    hide Run;
    var s := Run(policy, Init(start, initial), ls);
    if s.cache.Some? {
      ServedTokenIsYoung(policy, s.cache.value.cached.resp, s.cache.value.cached.asOf, s.now);
    }
  }

  function CacheOf(s: State): Option<Cached> {
    if s.cache.Some? then Some(s.cache.value.cached) else None
  }

  /**
   One critical section of the protocol, from the check to the end of its fetch if it makes one, does to the cache what
   one `GetToken` of a source does, and attaches the token that it returns.
   */
  lemma SectionIsGetToken(policy: Policy, s: State, id: nat, reply: Reply, elapsed: nat)
    requires id in s.calls && s.calls[id].phase.Checking?
    requires reply.Granted? ==> reply.at == s.now + elapsed
    ensures var resp := if reply.Granted? then Some(reply.resp) else None;
            var s' := Next(policy, Next(policy, Next(policy, s, Check(id)), Tick(elapsed)), FetchEnds(id, resp));
            var (cache, out) := TokenOutcome(policy, CacheOf(s), s.now, reply);
            && CacheOf(s') == cache
            && id in s'.calls
            && (out.Token? <==> s'.calls[id].phase.Sent?)
            && (out.Token? ==> s'.calls[id].phase.issued.cached.resp.access == out.access)
            && s'.lock == None
            && ServesOrFetches(policy, CacheOf(s), s.now, reply, CacheOf(s'), out)
  {
    TokenOutcomeServes(policy, CacheOf(s), s.now, reply);
    var checked := Next(policy, s, Check(id));
    assert id in checked.calls && (checked.calls[id].phase.Sent? || checked.calls[id].phase.Fetching?);
  }
}
