/**
 The cache-coherence protocol: any number of calls, single flights, background refreshes and invalidations over one
 shared store, in every interleaving. A run is any sequence of labels; a label that is not enabled changes nothing.
 */
module CacheProtocol {
  import opened Wrappers
  import opened CacheEntries
  import opened CacheKeys
  import opened CachingTransport
  import Lru

  /**
   A reply the server gave, when, to which flight's fetch, and the `If-None-Match` of that fetch (empty when unset). The
   URL query is kept apart from the request: the cache never looks at it.
   */
  datatype Reply = Reply(req: Request, query: string, resp: Response, at: int, flight: nat, condition: string)

  datatype Phase =
    | Looking(now: int)
    | Missed(prev: Option<Entry>)
    | Waiting(flight: nat)
    | Served(entry: Entry, fromStore: bool, at: int)
    | Failed

  datatype Caller = Caller(req: Request, query: string, phase: Phase)

  /** A background refresh that was started but has not joined its flight yet. */
  datatype Refresh = Refresh(req: Request, query: string, prev: Entry)

  /** Progress of the one call that a single flight makes. `index` points at its reply in the log. */
  datatype Stage = Sent | Replied(index: nat) | Processed(result: FetchResult)

  datatype Flight = Flight(req: Request, query: string, prev: Option<Entry>, stage: Stage, done: bool)

  datatype State = State(
    now: int,
    store: Lru.Slots,
    callers: map<nat, Caller>,
    refreshes: seq<Refresh>,
    flights: seq<Flight>,
    group: map<Key, nat>,
    log: seq<Reply>)

  datatype Label =
    | Tick(elapsed: nat)
    | Begin(id: nat, req: Request, query: string)
    | Consult(id: nat)
    | Join(id: nat)
    | JoinRefresh(i: nat)
    | ServerReplies(f: nat, resp: Response)
    | TransportFails(f: nat)
    | Process(f: nat)
    | Finish(f: nat)
    | Deliver(id: nat)
    | DropPrefix(prefix: string)

  function Init(now: int): State {
    State(now, [], map[], [], [], map[], [])
  }

  /** Only a previous entry with a tag makes a fetch conditional. */
  function ConditionOf(prev: Option<Entry>): string {
    if prev.Some? then prev.value.etag else ""
  }

  function WithPhase(s: State, id: nat, phase: Phase): State
    requires id in s.callers
  {
    s.(callers := s.callers[id := s.callers[id].(phase := phase)])
  }

  /** `singleflight.Do`: joins the flight of the key, or starts it. Returns the flight too. */
  function JoinGroup(c: Config, s: State, req: Request, query: string, prev: Option<Entry>): (State, nat) {
    var key := c.KeyOf(req);
    if key in s.group then (s, s.group[key])
    else
      var flight := Flight(req, query, prev, Sent, false);
      (s.(flights := s.flights + [flight], group := s.group[key := |s.flights|]), |s.flights|)
  }

  function SetFlight(s: State, f: nat, flight: Flight): State
    requires f < |s.flights|
  {
    s.(flights := s.flights[f := flight])
  }

  predicate Cached(c: Config, req: Request) {
    req.path in c.specs && c.specs[req.path].Cacheable()
  }

  function NextConsult(c: Config, s: State, id: nat): State
    requires id in s.callers && s.callers[id].phase.Looking?
  {
    var caller := s.callers[id];
    var (store, found) := Lru.Get(s.store, c.KeyOf(caller.req), s.now);
    var s' := s.(store := store);
    match Decide(found, caller.phase.now)
    case Hit(e) => WithPhase(s', id, Served(e, true, s.now))
    case StaleHit(e) =>
      WithPhase(s'.(refreshes := s.refreshes + [Refresh(caller.req, caller.query, e)]), id, Served(e, true, s.now))
    case Miss(prev) => WithPhase(s', id, Missed(prev))
  }

  function NextProcess(c: Config, s: State, f: nat): State
    requires f < |s.flights| && s.flights[f].stage.Replied? && s.flights[f].stage.index < |s.log|
    requires Cached(c, s.flights[f].req)
  {
    var flight := s.flights[f];
    var resp, spec := s.log[flight.stage.index].resp, c.specs[flight.req.path];
    var result := ResultOf(spec, flight.prev, resp, s.now, c.MaxBody());
    SetFlight(s, f, flight.(stage := Processed(result)))
    .(store := StoreAfter(s.store, c.KeyOf(flight.req), spec, flight.prev, resp, result, c.limits))
  }

  function Next(c: Config, s: State, l: Label): State {
    match l
    case Tick(elapsed) => s.(now := s.now + elapsed)
    case Begin(id, req, query) =>
      if id !in s.callers && Cached(c, req) && ColonFree(req.scope)
      then s.(callers := s.callers[id := Caller(req, query, Looking(s.now))])
      else s
    case Consult(id) =>
      if id in s.callers && s.callers[id].phase.Looking? then NextConsult(c, s, id) else s
    case Join(id) =>
      if id in s.callers && s.callers[id].phase.Missed? then
        var (s', f) := JoinGroup(c, s, s.callers[id].req, s.callers[id].query, s.callers[id].phase.prev);
        WithPhase(s', id, Waiting(f))
      else s
    case JoinRefresh(i) =>
      if i < |s.refreshes| then
        JoinGroup(c, s.(refreshes := s.refreshes[..i] + s.refreshes[i + 1..]),
                  s.refreshes[i].req, s.refreshes[i].query, Some(s.refreshes[i].prev)).0
      else s
    case ServerReplies(f, resp) =>
      if f < |s.flights| && s.flights[f].stage.Sent? then
        var flight := s.flights[f];
        SetFlight(s, f, flight.(stage := Replied(|s.log|)))
        .(log := s.log + [Reply(flight.req, flight.query, resp, s.now, f, ConditionOf(flight.prev))])
      else s
    case TransportFails(f) =>
      if f < |s.flights| && s.flights[f].stage.Sent? then
        SetFlight(s, f, s.flights[f].(stage := Processed(NotFetched)))
      else s
    case Process(f) =>
      if f < |s.flights| && s.flights[f].stage.Replied? && s.flights[f].stage.index < |s.log|
         && Cached(c, s.flights[f].req)
      then NextProcess(c, s, f)
      else s
    case Finish(f) =>
      if f < |s.flights| && s.flights[f].stage.Processed? && !s.flights[f].done then
        SetFlight(s, f, s.flights[f].(done := true)).(group := s.group - {c.KeyOf(s.flights[f].req)})
      else s
    case Deliver(id) =>
      if id in s.callers && s.callers[id].phase.Waiting? && s.callers[id].phase.flight < |s.flights|
         && s.flights[s.callers[id].phase.flight].done && s.flights[s.callers[id].phase.flight].stage.Processed?
      then
        WithPhase(s, id, match s.flights[s.callers[id].phase.flight].stage.result
                         case Fetched(e) => Served(e, false, s.now)
                         case NotFetched => Failed)
      else s
    case DropPrefix(prefix) => s.(store := Lru.Drop(s.store, Lru.StartingWith(prefix)))
  }

  function Run(c: Config, s: State, ls: seq<Label>): State {
    if ls == [] then s else Next(c, Run(c, s, ls[..|ls| - 1]), ls[|ls| - 1])
  }

  /** A 304 answers only a fetch that carried a tag. */
  predicate HonestStep(s: State, l: Label) {
    l.ServerReplies? && l.f < |s.flights| && l.resp.status == 304 ==> ConditionOf(s.flights[l.f].prev) != ""
  }

  predicate HonestRun(c: Config, s: State, ls: seq<Label>) {
    ls == [] || (HonestRun(c, s, ls[..|ls| - 1]) && HonestStep(Run(c, s, ls[..|ls| - 1]), ls[|ls| - 1]))
  }

  // ---------------------------------------------------------------- where entries come from

  /** The tag of the entry after the last of these confirmations. */
  function TagAfter(log: seq<Reply>, chain: seq<nat>): string
    decreases |chain|
  {
    if chain == [] || chain[|chain| - 1] >= |log| then ""
    else
      var last := log[chain[|chain| - 1]].resp;
      if |chain| == 1 || last.etag != "" then last.etag else TagAfter(log, chain[..|chain| - 1])
  }

  /**
   Replies to `req` in the order of the log: the first gives an entry, and each later one is a 304 to a fetch that
   carried the entry's tag of that moment (none, if the entry has no tag).
   */
  ghost predicate Chain(log: seq<Reply>, req: Request, chain: seq<nat>)
    decreases |chain|
  {
    && chain != []
    && var last := chain[|chain| - 1];
    && last < |log| && log[last].req == req
    && (|chain| > 1 ==>
          var front := chain[..|chain| - 1];
          && Chain(log, req, front) && front[|front| - 1] < last
          && log[last].resp.status == 304 && log[last].condition == TagAfter(log, front))
  }

  /**
   `e` was given by the first reply of the chain, with its status, headers and body, was confirmed by all others, carries
   the tag they leave, and was stamped no earlier than the last of them.
   */
  ghost predicate Origin(log: seq<Reply>, req: Request, e: Entry, chain: seq<nat>) {
    && Chain(log, req, chain) && chain[0] < |log|
    && var given := log[chain[0]].resp;
    && given.status == e.status && given.headers == e.headers && given.body == e.body
    && e.etag == TagAfter(log, chain) && log[chain[|chain| - 1]].at <= e.created
  }

  /**
   Replies from position `from` of the log on, to the fetches of flights from `first` on. An entry is recent by the reply
   that gave it or, with `byLast`, by the last one that confirmed it.
   */
  datatype Since = Since(from: nat, first: nat, byLast: bool)

  const EVER := Since(0, 0, false)

  /** What must hold of an entry for its confirmation to be recent. */
  function Prior(since: Since): Since {
    if since.byLast then EVER else since
  }

  ghost predicate Recent(log: seq<Reply>, chain: seq<nat>, since: Since) {
    && chain != []
    && var k := if since.byLast then chain[|chain| - 1] else chain[0];
    since.from <= k < |log| && since.first <= log[k].flight
  }

  /** `e` was given by the server for `req`, and is recent. */
  ghost predicate Vouched(log: seq<Reply>, req: Request, e: Entry, since: Since) {
    exists chain :: Origin(log, req, e, chain) && Recent(log, chain, since)
  }

  lemma VouchedPrior(log: seq<Reply>, req: Request, e: Entry, since: Since)
    requires Vouched(log, req, e, since)
    ensures Vouched(log, req, e, Prior(since))
  {
    var chain :| Origin(log, req, e, chain) && Recent(log, chain, since);
    assert Recent(log, chain, Prior(since));
  }

  lemma {:induction false} ChainLater(log: seq<Reply>, log': seq<Reply>, req: Request, chain: seq<nat>)
    requires log <= log' && Chain(log, req, chain)
    ensures Chain(log', req, chain) && TagAfter(log', chain) == TagAfter(log, chain)
  {
    if |chain| > 1 {
      ChainLater(log, log', req, chain[..|chain| - 1]);
    }
  }

  lemma VouchedLater(log: seq<Reply>, log': seq<Reply>, req: Request, e: Entry, since: Since)
    requires log <= log' && Vouched(log, req, e, since)
    ensures Vouched(log', req, e, since)
  {
    var chain :| Origin(log, req, e, chain) && Recent(log, chain, since);
    ChainLater(log, log', req, chain);
    assert Origin(log', req, e, chain) && Recent(log', chain, since);
  }

  /** A 304 prolongs the chain of the entry it confirms. */
  lemma ConfirmedOrigin(log: seq<Reply>, index: nat, req: Request, prev: Entry, e: Entry, since: Since)
    requires index < |log| && log[index].req == req && log[index].resp.status == 304
    requires log[index].condition == prev.etag && log[index].at <= e.created
    requires e.etag == PickETag(log[index].resp, prev.etag)
    requires e.status == prev.status && e.headers == prev.headers && e.body == prev.body
    requires since.from <= index && since.first <= log[index].flight
    requires Vouched(log[..index], req, prev, Prior(since))
    ensures Vouched(log, req, e, since)
  {
    var chain :| Origin(log[..index], req, prev, chain) && Recent(log[..index], chain, Prior(since));
    ChainLater(log[..index], log, req, chain);
    var longer := chain + [index];
    assert longer[..|longer| - 1] == chain && longer[0] == chain[0];
    assert Chain(log, req, longer);
    assert Origin(log, req, e, longer) && Recent(log, longer, since);
  }

  lemma GivenOrigin(log: seq<Reply>, index: nat, e: Entry, since: Since)
    requires index < |log| && since.from <= index && since.first <= log[index].flight && log[index].at <= e.created
    requires var r := log[index].resp;
             e.status == r.status && e.headers == r.headers && e.body == r.body && e.etag == r.etag
    ensures Vouched(log, log[index].req, e, since)
  {
    assert Chain(log, log[index].req, [index]);
    assert Origin(log, log[index].req, e, [index]) && Recent(log, [index], since);
  }

  /** A processed reply yields an entry that the log vouches for. */
  lemma ResultVouched(log: seq<Reply>, index: nat, spec: Spec, prev: Option<Entry>, now: int, maxBody: nat, since: Since)
    requires index < |log| && log[index].at <= now && since.from <= index && since.first <= log[index].flight
    requires log[index].condition == ConditionOf(prev)
    requires Revalidates(log[index].resp, prev) ==> Vouched(log[..index], log[index].req, prev.value, Prior(since))
    ensures var r := ResultOf(spec, prev, log[index].resp, now, maxBody);
            r.Fetched? ==> Vouched(log, log[index].req, r.entry, since) && r.entry.created == now
  {
    hide Vouched;
    var r := ResultOf(spec, prev, log[index].resp, now, maxBody);
    if Revalidates(log[index].resp, prev) {
      ConfirmedOrigin(log, index, log[index].req, prev.value, r.entry, since);
    } else if r.Fetched? {
      GivenOrigin(log, index, r.entry, since);
    }
  }

  // ---------------------------------------------------------------- what every step keeps

  ghost predicate CallerWired(c: Config, s: State, caller: Caller) {
    && Cached(c, caller.req) && ColonFree(caller.req.scope)
    && match caller.phase
       case Looking(now) => now <= s.now
       case Missed(prev) => prev == None
       case Waiting(f) => f < |s.flights| && c.KeyOf(s.flights[f].req) == c.KeyOf(caller.req)
       case Served(e, fromStore, at) => fromStore ==> at <= e.HardDeadline()
       case Failed => true
  }

  predicate Answers(reply: Reply, f: nat, flight: Flight) {
    reply.req == flight.req && reply.query == flight.query && reply.flight == f && reply.condition == ConditionOf(flight.prev)
  }

  ghost predicate FlightWired(c: Config, s: State, f: nat)
    requires f < |s.flights|
  {
    var flight := s.flights[f];
    && Cached(c, flight.req) && ColonFree(flight.req.scope)
    && (flight.stage.Replied? ==> flight.stage.index < |s.log| && Answers(s.log[flight.stage.index], f, flight))
    && (flight.done ==> flight.stage.Processed?)
    && (!flight.done ==> c.KeyOf(flight.req) in s.group && s.group[c.KeyOf(flight.req)] == f)
  }

  /** The bookkeeping: keys, flight numbers, times. A key in the group names the one unfinished flight of that key. */
  ghost predicate Wired(c: Config, s: State) {
    && (forall id | id in s.callers :: CallerWired(c, s, s.callers[id]))
    && (forall r | r in s.refreshes :: Cached(c, r.req) && ColonFree(r.req.scope))
    && (forall f | 0 <= f < |s.flights| :: FlightWired(c, s, f))
    && (forall k | k in s.group ::
          s.group[k] < |s.flights| && c.KeyOf(s.flights[s.group[k]].req) == k && !s.flights[s.group[k]].done)
    && (forall i | 0 <= i < |s.log| :: s.log[i].at <= s.now)
  }

  /**
   Which requests an invariant speaks of, and which replies it accepts. `Target` speaks of one path of one scope, and not
   of the calls in `exempt`; with `honest` it speaks of servers that answer 304 only to fetches that carry a tag.
   */
  datatype Focus = Everything | Target(scope: string, path: string, since: Since, exempt: set<nat>, honest: bool) {
    predicate On(req: Request) {
      Everything? || (req.scope == scope && req.path == path)
    }

    function Accepts(): Since {
      if Everything? then EVER else since
    }

    predicate Honest() {
      Target? && honest
    }

    predicate Exempt(id: nat) {
      Target? && id in exempt
    }
  }

  ghost predicate StoreVouched(c: Config, store: Lru.Slots, log: seq<Reply>, focus: Focus) {
    forall slot, req | slot in store && c.KeyOf(req) == slot.key && ColonFree(req.scope) && focus.On(req) ::
      Vouched(log, req, slot.entry, focus.Accepts())
  }

  /** The reply gives no entry: its body is unreadable or too large. */
  predicate Fruitless(c: Config, flight: Flight, resp: Response) {
    Cached(c, flight.req) && ResultOf(c.specs[flight.req.path], flight.prev, resp, 0, c.MaxBody()).NotFetched?
  }

  /** An entry that a fetch may confirm: its confirmation would be recent, or it will not come. */
  ghost predicate PrevVouched(log: seq<Reply>, req: Request, prev: Entry, focus: Focus) {
    (focus.Honest() && prev.etag == "") || Vouched(log, req, prev, Prior(focus.Accepts()))
  }

  ghost predicate FlightVouched(c: Config, log: seq<Reply>, f: nat, flight: Flight, focus: Focus) {
    match flight.stage
    case Sent =>
      && focus.Accepts().first <= f
      && (flight.prev.Some? ==> PrevVouched(log, flight.req, flight.prev.value, focus))
    case Replied(index) =>
      && index < |log|
      && (|| Fruitless(c, flight, log[index].resp)
          || (&& focus.Accepts().from <= index && focus.Accepts().first <= f
              && (Revalidates(log[index].resp, flight.prev) ==>
                    Vouched(log[..index], flight.req, flight.prev.value, Prior(focus.Accepts())))))
    case Processed(result) =>
      result.Fetched? ==> Vouched(log, flight.req, result.entry, focus.Accepts())
  }

  ghost predicate CallerVouched(c: Config, s: State, caller: Caller, focus: Focus) {
    && (caller.phase.Served? ==> Vouched(s.log, caller.req, caller.phase.entry, focus.Accepts()))
    && (caller.phase.Waiting? ==>
          var f := caller.phase.flight; f < |s.flights| && FlightVouched(c, s.log, f, s.flights[f], focus))
  }

  ghost predicate AllVouched(c: Config, s: State, focus: Focus) {
    && focus.Accepts().from <= |s.log| && focus.Accepts().first <= |s.flights|
    && StoreVouched(c, s.store, s.log, focus)
    && (forall id | id in s.callers && focus.On(s.callers[id].req) && !focus.Exempt(id) ::
          CallerVouched(c, s, s.callers[id], focus))
    && (forall r | r in s.refreshes && focus.On(r.req) :: PrevVouched(s.log, r.req, r.prev, focus))
    && (forall f | 0 <= f < |s.flights| && focus.On(s.flights[f].req) && !s.flights[f].done ::
          FlightVouched(c, s.log, f, s.flights[f], focus))
  }

  // ---------------------------------------------------------------- the store

  lemma SetMembers(store: Lru.Slots, key: Key, entry: Entry, limits: Lru.Limits)
    ensures forall slot | slot in Lru.Set(store, key, entry, limits) :: slot == Lru.Slot(key, entry) || slot in store
  {
    Lru.DropMembers(store, Lru.Exactly(key));
  }

  lemma GetMembers(store: Lru.Slots, key: Key, now: int)
    ensures forall slot | slot in Lru.Get(store, key, now).0 :: slot in store
    ensures var found := Lru.Get(store, key, now).1;
            found.Some? ==> Lru.Slot(key, found.value) in store && now <= found.value.HardDeadline()
  {
    Lru.DropMembers(store, Lru.Exactly(key));
    if Lru.Find(store, key).Some? {
      var _ := Lru.FoundAt(store, key);
    }
  }

  // ---------------------------------------------------------------- Wired is kept

  lemma ConsultWired(c: Config, s: State, id: nat)
    requires Wired(c, s) && id in s.callers && s.callers[id].phase.Looking?
    ensures Wired(c, NextConsult(c, s, id))
  {
    GetMembers(s.store, c.KeyOf(s.callers[id].req), s.now);
    assert CallerWired(c, s, s.callers[id]);
    MissHasNoPrevious(s.store, c.KeyOf(s.callers[id].req), s.callers[id].phase.now, s.now);
    var s' := NextConsult(c, s, id);
    assert CallerWired(c, s', s'.callers[id]);
    forall other | other in s'.callers && other != id ensures CallerWired(c, s', s'.callers[other]) {
      assert CallerWired(c, s, s.callers[other]);
    }
    forall f | 0 <= f < |s'.flights| ensures FlightWired(c, s', f) {
      assert FlightWired(c, s, f);
    }
  }

  lemma JoinWired(c: Config, s: State, req: Request, query: string, prev: Option<Entry>)
    requires Wired(c, s) && Cached(c, req) && ColonFree(req.scope)
    ensures var (s', f) := JoinGroup(c, s, req, query, prev);
            && Wired(c, s') && f < |s'.flights| && c.KeyOf(s'.flights[f].req) == c.KeyOf(req)
            && !s'.flights[f].done
            && s.flights <= s'.flights
  {
    var (s', f) := JoinGroup(c, s, req, query, prev);
    if c.KeyOf(req) !in s.group {
      forall id | id in s'.callers ensures CallerWired(c, s', s'.callers[id]) {
        assert CallerWired(c, s, s.callers[id]);
      }
      forall g | 0 <= g < |s'.flights| ensures FlightWired(c, s', g) {
        if g < |s.flights| {
          assert FlightWired(c, s, g);
        }
      }
    }
  }

  /** Changing one flight without changing its request. */
  lemma FlightStepWired(c: Config, s: State, f: nat, s': State)
    requires Wired(c, s) && f < |s.flights| && |s'.flights| == |s.flights|
    requires s'.now == s.now && s'.callers == s.callers && s'.refreshes == s.refreshes
    requires s.log <= s'.log && forall i | |s.log| <= i < |s'.log| :: s'.log[i].at <= s.now
    requires s'.flights == s.flights[f := s'.flights[f]] && s'.flights[f].req == s.flights[f].req
    requires FlightWired(c, s', f)
    requires if s'.flights[f].done then !s.flights[f].done && s'.group == s.group - {c.KeyOf(s.flights[f].req)}
             else s'.group == s.group
    ensures Wired(c, s')
  {
    forall id | id in s'.callers ensures CallerWired(c, s', s'.callers[id]) {
      assert CallerWired(c, s, s.callers[id]);
    }
    assert FlightWired(c, s, f);
    forall g | 0 <= g < |s'.flights| ensures FlightWired(c, s', g) {
      assert FlightWired(c, s, g);
    }
  }

  lemma WithPhaseWired(c: Config, s: State, id: nat, phase: Phase)
    requires Wired(c, s) && id in s.callers && CallerWired(c, s, s.callers[id].(phase := phase))
    ensures Wired(c, WithPhase(s, id, phase))
  {
    var s' := WithPhase(s, id, phase);
    forall other | other in s'.callers ensures CallerWired(c, s', s'.callers[other]) {
      if other != id {
        assert CallerWired(c, s, s.callers[other]);
      }
    }
    forall f | 0 <= f < |s'.flights| ensures FlightWired(c, s', f) {
      assert FlightWired(c, s, f);
    }
  }

  lemma NextWired(c: Config, s: State, l: Label)
    requires Wired(c, s)
    ensures Wired(c, Next(c, s, l))
  {
    hide Wired;
    match l
    case JoinRefresh(_) => RefreshLabelWired(c, s, l);
    case ServerReplies(_, _) => FlightLabelWired(c, s, l);
    case TransportFails(_) => FlightLabelWired(c, s, l);
    case Process(_) => FlightLabelWired(c, s, l);
    case Finish(_) => FlightLabelWired(c, s, l);
    case Tick(_) => SameWired(c, s, Next(c, s, l));
    case DropPrefix(_) => SameWired(c, s, Next(c, s, l));
    case _ => CallLabelWired(c, s, l);
  }

  lemma CallLabelWired(c: Config, s: State, l: Label)
    requires Wired(c, s) && (l.Begin? || l.Consult? || l.Join? || l.Deliver?)
    ensures Wired(c, Next(c, s, l))
  {
    CallersWired(c, s, l.id);
    hide Wired, CallerWired;
    if Next(c, s, l) != s {
      match l
      case Begin(id, req, query) => BeginWired(c, s, id, req, query);
      case Consult(id) => ConsultWired(c, s, id);
      case Join(id) =>
        JoinWired(c, s, s.callers[id].req, s.callers[id].query, s.callers[id].phase.prev);
        var (t, f) := JoinGroup(c, s, s.callers[id].req, s.callers[id].query, s.callers[id].phase.prev);
        WithPhaseWired(c, t, id, Waiting(f));
      case Deliver(id) => WithPhaseWired(c, s, id, Next(c, s, l).callers[id].phase);
    }
  }

  lemma CallersWired(c: Config, s: State, id: nat)
    requires Wired(c, s)
    ensures id in s.callers ==> CallerWired(c, s, s.callers[id])
  {
  }

  lemma RefreshLabelWired(c: Config, s: State, l: Label)
    requires Wired(c, s) && l.JoinRefresh?
    ensures Wired(c, Next(c, s, l))
  {
    if l.i < |s.refreshes| {
      var t := s.(refreshes := s.refreshes[..l.i] + s.refreshes[l.i + 1..]);
      assert s.refreshes[l.i] in s.refreshes;
      assert forall r | r in t.refreshes :: r in s.refreshes;
      SameWired(c, s, t);
      JoinWired(c, t, s.refreshes[l.i].req, s.refreshes[l.i].query, Some(s.refreshes[l.i].prev));
    }
  }

  lemma FlightLabelWired(c: Config, s: State, l: Label)
    requires Wired(c, s) && (l.ServerReplies? || l.TransportFails? || l.Process? || l.Finish?)
    ensures Wired(c, Next(c, s, l))
  {
    var s' := Next(c, s, l);
    if s' != s {
      assert FlightWired(c, s, l.f);
      FlightStepWired(c, s, l.f, s');
    }
  }

  /** Time may pass, the store may change and refreshes may go. */
  lemma SameWired(c: Config, s: State, s': State)
    requires Wired(c, s) && s.now <= s'.now && s'.callers == s.callers && s'.flights == s.flights
    requires s'.group == s.group && s'.log == s.log && forall r | r in s'.refreshes :: r in s.refreshes
    ensures Wired(c, s')
  {
    forall id | id in s'.callers ensures CallerWired(c, s', s'.callers[id]) {
      assert CallerWired(c, s, s.callers[id]);
    }
    forall f | 0 <= f < |s'.flights| ensures FlightWired(c, s', f) {
      assert FlightWired(c, s, f);
    }
  }

  lemma BeginWired(c: Config, s: State, id: nat, req: Request, query: string)
    requires Wired(c, s) && Cached(c, req) && ColonFree(req.scope)
    ensures Wired(c, s.(callers := s.callers[id := Caller(req, query, Looking(s.now))]))
  {
    var s' := s.(callers := s.callers[id := Caller(req, query, Looking(s.now))]);
    forall other | other in s'.callers ensures CallerWired(c, s', s'.callers[other]) {
      if other != id {
        assert CallerWired(c, s, s.callers[other]);
      }
    }
    forall f | 0 <= f < |s'.flights| ensures FlightWired(c, s', f) {
      assert FlightWired(c, s, f);
    }
  }
}
