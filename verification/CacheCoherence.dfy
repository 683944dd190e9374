/**
 Theorems about every run of the cache protocol: what a caller is served was said by the server in answer to the same
 request; nothing said before an invalidation is served after it, unless a fetch was in flight across it.
 */
module CacheCoherence {
  import opened Wrappers
  import opened CacheEntries
  import opened CacheKeys
  import opened CachingTransport
  import opened CacheProtocol
  import Lru

  lemma SameKeySameRequest(c: Config, a: Request, b: Request)
    requires GoodDigest(c.digest) && ColonFree(a.scope) && ColonFree(b.scope) && c.KeyOf(a) == c.KeyOf(b)
    ensures a == b
  {
    KeyInjective(c.digest, a.scope, a.path, a.body, b.scope, b.path, b.body);
  }

  // ---------------------------------------------------------------- every step keeps every entry vouched for

  lemma ConsultVouched(c: Config, s: State, id: nat, focus: Focus)
    requires Wired(c, s) && AllVouched(c, s, focus)
    requires id in s.callers && s.callers[id].phase.Looking?
    ensures AllVouched(c, NextConsult(c, s, id), focus)
  {
    hide Lru.Get, Vouched, Entry.Expired, Entry.Stale, Entry.HardDeadline;
    var caller := s.callers[id];
    assert CallerWired(c, s, caller);
    var key := c.KeyOf(caller.req);
    var found := Lru.Get(s.store, key, s.now).1;
    GetMembers(s.store, key, s.now);
    MissHasNoPrevious(s.store, key, caller.phase.now, s.now);
    if found.Some? && focus.On(caller.req) {
      var slot := Lru.Slot(key, found.value);
      assert slot in s.store;
      assert Vouched(s.log, caller.req, slot.entry, focus.Accepts());
    }
    var s' := NextConsult(c, s, id);
    hide FlightVouched;
    forall r | r in s'.refreshes && focus.On(r.req) ensures PrevVouched(s'.log, r.req, r.prev, focus) {
      if r !in s.refreshes {
        VouchedPrior(s.log, caller.req, found.value, focus.Accepts());
      }
      assert r in s.refreshes || r == Refresh(caller.req, caller.query, found.value);
    }
  }

  lemma JoinVouched(c: Config, s: State, req: Request, query: string, prev: Option<Entry>, focus: Focus)
    requires GoodDigest(c.digest) && Wired(c, s) && AllVouched(c, s, focus) && ColonFree(req.scope)
    requires prev.Some? && focus.On(req) ==> PrevVouched(s.log, req, prev.value, focus)
    ensures var (s', f) := JoinGroup(c, s, req, query, prev);
            && AllVouched(c, s', focus) && f < |s'.flights|
            && (focus.On(req) ==> FlightVouched(c, s'.log, f, s'.flights[f], focus))
  {
    hide Vouched;
    var (s', f) := JoinGroup(c, s, req, query, prev);
    if c.KeyOf(req) in s.group {
      assert FlightWired(c, s, f);
      SameKeySameRequest(c, req, s.flights[f].req);
    } else {
      assert focus.On(req) ==> FlightVouched(c, s'.log, f, s'.flights[f], focus);
      hide FlightVouched;
      forall id | id in s'.callers && focus.On(s'.callers[id].req) && !focus.Exempt(id)
        ensures CallerVouched(c, s', s'.callers[id], focus)
      {
        assert CallerVouched(c, s, s.callers[id], focus);
      }
    }
  }

  /** When a result comes does not matter to whether there is one. */
  lemma FruitlessResult(c: Config, flight: Flight, resp: Response, now: int)
    requires Cached(c, flight.req)
    ensures Fruitless(c, flight, resp) <==>
            ResultOf(c.specs[flight.req.path], flight.prev, resp, now, c.MaxBody()).NotFetched?
  {
  }

  lemma ProcessedFlight(c: Config, s: State, f: nat, focus: Focus)
    requires Wired(c, s) && f < |s.flights| && FlightVouched(c, s.log, f, s.flights[f], focus)
    requires s.flights[f].stage.Replied? && s.flights[f].stage.index < |s.log| && Cached(c, s.flights[f].req)
    ensures var flight, resp := s.flights[f], s.log[s.flights[f].stage.index].resp;
            var result := ResultOf(c.specs[flight.req.path], flight.prev, resp, s.now, c.MaxBody());
            result.Fetched? ==> Vouched(s.log, flight.req, result.entry, focus.Accepts())
  {
    hide Vouched;
    var flight := s.flights[f];
    assert FlightWired(c, s, f);
    var index, spec := flight.stage.index, c.specs[flight.req.path];
    FruitlessResult(c, flight, s.log[index].resp, s.now);
    hide ResultOf;
    if !Fruitless(c, flight, s.log[index].resp) {
      ResultVouched(s.log, index, spec, flight.prev, s.now, c.MaxBody(), focus.Accepts());
    }
  }

  lemma ProcessVouched(c: Config, s: State, f: nat, focus: Focus)
    requires GoodDigest(c.digest) && Wired(c, s) && AllVouched(c, s, focus)
    requires f < |s.flights| && s.flights[f].stage.Replied? && s.flights[f].stage.index < |s.log|
    requires Cached(c, s.flights[f].req)
    ensures AllVouched(c, NextProcess(c, s, f), focus)
  {
    hide Vouched, ResultOf, Lru.Set;
    var flight := s.flights[f];
    assert FlightWired(c, s, f);
    var spec, key, resp := c.specs[flight.req.path], c.KeyOf(flight.req), s.log[flight.stage.index].resp;
    var result := ResultOf(spec, flight.prev, resp, s.now, c.MaxBody());
    if focus.On(flight.req) {
      ProcessedFlight(c, s, f, focus);
    }
    var s' := NextProcess(c, s, f);
    assert focus.On(flight.req) ==> FlightVouched(c, s'.log, f, s'.flights[f], focus);
    ProcessedStore(c, s, s', flight, result, focus);
    hide FlightVouched, StoreVouched;
    forall id | id in s'.callers && focus.On(s'.callers[id].req) && !focus.Exempt(id)
      ensures CallerVouched(c, s', s'.callers[id], focus)
    {
      var caller := s.callers[id];
      assert CallerVouched(c, s, caller, focus);
      if caller.phase.Waiting? && caller.phase.flight == f {
        assert CallerWired(c, s, caller);
        SameKeySameRequest(c, caller.req, flight.req);
      }
    }
  }

  lemma ProcessedStore(c: Config, s: State, s': State, flight: Flight, result: FetchResult, focus: Focus)
    requires GoodDigest(c.digest) && ColonFree(flight.req.scope) && s'.log == s.log
    requires StoreVouched(c, s.store, s.log, focus)
    requires s'.store == s.store ||
             (result.Fetched? && s'.store == Lru.Set(s.store, c.KeyOf(flight.req), result.entry, c.limits))
    requires focus.On(flight.req) && result.Fetched? ==> Vouched(s.log, flight.req, result.entry, focus.Accepts())
    ensures StoreVouched(c, s'.store, s'.log, focus)
  {
    hide Vouched, Lru.Set;
    if s'.store != s.store {
      SetMembers(s.store, c.KeyOf(flight.req), result.entry, c.limits);
    }
    forall slot, req | slot in s'.store && c.KeyOf(req) == slot.key && ColonFree(req.scope) && focus.On(req)
      ensures Vouched(s'.log, req, slot.entry, focus.Accepts())
    {
      if slot !in s.store {
        SameKeySameRequest(c, req, flight.req);
      }
    }
  }

  lemma ReplyVouched(c: Config, s: State, f: nat, resp: Response, focus: Focus)
    requires GoodDigest(c.digest) && Wired(c, s) && AllVouched(c, s, focus)
    requires f < |s.flights| && s.flights[f].stage.Sent?
    requires focus.Honest() ==> HonestStep(s, ServerReplies(f, resp))
    ensures AllVouched(c, Next(c, s, ServerReplies(f, resp)), focus)
  {
    hide Vouched;
    var s' := Next(c, s, ServerReplies(f, resp));
    assert FlightWired(c, s, f);
    assert s.log <= s'.log && s'.log[..|s.log|] == s.log;
    assert FlightVouched(c, s.log, f, s.flights[f], focus) ==> FlightVouched(c, s'.log, f, s'.flights[f], focus);
    hide FlightVouched;
    forall slot, req | slot in s'.store && c.KeyOf(req) == slot.key && ColonFree(req.scope) && focus.On(req)
      ensures Vouched(s'.log, req, slot.entry, focus.Accepts())
    {
      VouchedLater(s.log, s'.log, req, slot.entry, focus.Accepts());
    }
    forall r | r in s'.refreshes && focus.On(r.req) ensures PrevVouched(s'.log, r.req, r.prev, focus) {
      PrevLater(s.log, s'.log, r.req, r.prev, focus);
    }
    forall g | 0 <= g < |s'.flights| && FlightVouched(c, s.log, g, s.flights[g], focus)
      ensures FlightVouched(c, s'.log, g, s'.flights[g], focus)
    {
      if g != f {
        FlightLater(c, s.log, s'.log, g, s.flights[g], focus);
      }
    }
    forall id | id in s'.callers && focus.On(s'.callers[id].req) && !focus.Exempt(id)
      ensures CallerVouched(c, s', s'.callers[id], focus)
    {
      var caller := s.callers[id];
      assert CallerVouched(c, s, caller, focus);
      if caller.phase.Served? {
        VouchedLater(s.log, s'.log, caller.req, caller.phase.entry, focus.Accepts());
      }
    }
  }

  lemma PrevLater(log: seq<Reply>, log': seq<Reply>, req: Request, prev: Entry, focus: Focus)
    requires log <= log' && PrevVouched(log, req, prev, focus)
    ensures PrevVouched(log', req, prev, focus)
  {
    hide Vouched;
    if !(focus.Honest() && prev.etag == "") {
      VouchedLater(log, log', req, prev, Prior(focus.Accepts()));
    }
  }

  lemma FlightLater(c: Config, log: seq<Reply>, log': seq<Reply>, f: nat, flight: Flight, focus: Focus)
    requires log <= log' && FlightVouched(c, log, f, flight, focus)
    ensures FlightVouched(c, log', f, flight, focus)
  {
    hide Vouched;
    match flight.stage
    case Sent => if flight.prev.Some? { PrevLater(log, log', flight.req, flight.prev.value, focus); }
    case Replied(index) => assert log'[..index] == log[..index];
    case Processed(result) =>
      if result.Fetched? { VouchedLater(log, log', flight.req, result.entry, focus.Accepts()); }
  }

  lemma DeliverVouched(c: Config, s: State, id: nat, focus: Focus)
    requires GoodDigest(c.digest) && Wired(c, s) && AllVouched(c, s, focus)
    ensures AllVouched(c, Next(c, s, Deliver(id)), focus)
  {
    hide Vouched;
    var s' := Next(c, s, Deliver(id));
    if s' != s {
      var caller := s.callers[id];
      assert CallerWired(c, s, caller);
      var f := caller.phase.flight;
      assert FlightWired(c, s, f);
      SameKeySameRequest(c, caller.req, s.flights[f].req);
      if focus.On(caller.req) && !focus.Exempt(id) {
        assert CallerVouched(c, s, caller, focus);
        assert CallerVouched(c, s', s'.callers[id], focus);
      }
      hide FlightVouched;
      forall other | other in s'.callers && focus.On(s'.callers[other].req) && !focus.Exempt(other)
        ensures CallerVouched(c, s', s'.callers[other], focus)
      {
        if other != id {
          assert CallerVouched(c, s, s.callers[other], focus);
        }
      }
    }
  }

  lemma CallJoinsVouched(c: Config, s: State, id: nat, focus: Focus)
    requires GoodDigest(c.digest) && Wired(c, s) && AllVouched(c, s, focus)
    ensures AllVouched(c, Next(c, s, Join(id)), focus)
  {
    if id in s.callers && s.callers[id].phase.Missed? {
      assert CallerWired(c, s, s.callers[id]);
      var req, query, prev := s.callers[id].req, s.callers[id].query, s.callers[id].phase.prev;
      JoinVouched(c, s, req, query, prev, focus);
      hide FlightVouched, Vouched;
      WaitingVouched(c, JoinGroup(c, s, req, query, prev).0, id, JoinGroup(c, s, req, query, prev).1, focus);
    }
  }

  lemma WaitingVouched(c: Config, s: State, id: nat, f: nat, focus: Focus)
    requires AllVouched(c, s, focus) && id in s.callers && f < |s.flights|
    requires focus.On(s.callers[id].req) ==> FlightVouched(c, s.log, f, s.flights[f], focus)
    ensures AllVouched(c, WithPhase(s, id, Waiting(f)), focus)
  {
    hide FlightVouched, Vouched;
    var s' := WithPhase(s, id, Waiting(f));
    forall other | other in s'.callers && focus.On(s'.callers[other].req) && !focus.Exempt(other)
      ensures CallerVouched(c, s', s'.callers[other], focus)
    {
      if other != id {
        assert CallerVouched(c, s, s.callers[other], focus);
      }
    }
  }

  lemma RefreshJoinsVouched(c: Config, s: State, i: nat, focus: Focus)
    requires GoodDigest(c.digest) && Wired(c, s) && AllVouched(c, s, focus)
    ensures AllVouched(c, Next(c, s, JoinRefresh(i)), focus)
  {
    hide Vouched, FlightVouched, JoinGroup;
    if i < |s.refreshes| {
      var t := s.(refreshes := s.refreshes[..i] + s.refreshes[i + 1..]);
      assert s.refreshes[i] in s.refreshes;
      assert forall r | r in t.refreshes :: r in s.refreshes;
      SameWired(c, s, t);
      JoinVouched(c, t, s.refreshes[i].req, s.refreshes[i].query, Some(s.refreshes[i].prev), focus);
    }
  }

  lemma OtherStepVouched(c: Config, s: State, l: Label, focus: Focus)
    requires l.Tick? || l.Begin? || l.DropPrefix?
    requires AllVouched(c, s, focus)
    ensures AllVouched(c, Next(c, s, l), focus)
  {
    hide Vouched, FlightVouched;
    if l.DropPrefix? {
      Lru.DropMembers(s.store, Lru.StartingWith(l.prefix));
    }
    var s' := Next(c, s, l);
    forall id | id in s'.callers && focus.On(s'.callers[id].req) && !focus.Exempt(id)
      ensures CallerVouched(c, s', s'.callers[id], focus)
    {
      if id in s.callers {
        assert CallerVouched(c, s, s.callers[id], focus);
      }
    }
  }

  /** A failed fetch gives nothing, and the end of a flight changes nothing of what it gave. */
  lemma EndingVouched(c: Config, s: State, l: Label, focus: Focus)
    requires l.TransportFails? || l.Finish?
    requires AllVouched(c, s, focus)
    ensures AllVouched(c, Next(c, s, l), focus)
  {
    hide Vouched;
    var s' := Next(c, s, l);
    if s' != s {
      assert forall g | 0 <= g < |s'.flights| && FlightVouched(c, s.log, g, s.flights[g], focus) ::
          FlightVouched(c, s'.log, g, s'.flights[g], focus);
      hide FlightVouched;
      forall id | id in s'.callers && focus.On(s'.callers[id].req) && !focus.Exempt(id)
        ensures CallerVouched(c, s', s'.callers[id], focus)
      {
        assert CallerVouched(c, s, s.callers[id], focus);
      }
    }
  }

  lemma NextVouched(c: Config, s: State, l: Label, focus: Focus)
    requires GoodDigest(c.digest) && Wired(c, s) && AllVouched(c, s, focus)
    requires focus.Honest() ==> HonestStep(s, l)
    ensures AllVouched(c, Next(c, s, l), focus)
  {
    hide AllVouched, Wired, NextConsult, NextProcess, JoinGroup;
    match l
    case Consult(id) => if Next(c, s, l) != s { ConsultVouched(c, s, id, focus); }
    case Join(id) => CallJoinsVouched(c, s, id, focus);
    case JoinRefresh(i) => RefreshJoinsVouched(c, s, i, focus);
    case ServerReplies(f, resp) => if Next(c, s, l) != s { ReplyVouched(c, s, f, resp, focus); }
    case Process(f) => if Next(c, s, l) != s { ProcessVouched(c, s, f, focus); }
    case Deliver(id) => DeliverVouched(c, s, id, focus);
    case TransportFails(_) => EndingVouched(c, s, l, focus);
    case Finish(_) => EndingVouched(c, s, l, focus);
    case _ => OtherStepVouched(c, s, l, focus);
  }

  lemma {:induction false} RunVouched(c: Config, s: State, ls: seq<Label>, focus: Focus)
    requires GoodDigest(c.digest) && Wired(c, s) && AllVouched(c, s, focus)
    requires focus.Honest() ==> HonestRun(c, s, ls)
    ensures Wired(c, Run(c, s, ls)) && AllVouched(c, Run(c, s, ls), focus)
  {
    if ls != [] {
      var front := ls[..|ls| - 1];
      RunVouched(c, s, front, focus);
      NextWired(c, Run(c, s, front), ls[|ls| - 1]);
      NextVouched(c, Run(c, s, front), ls[|ls| - 1], focus);
    }
  }

  // ---------------------------------------------------------------- theorems

  /**
   Safety over all runs. Whatever a caller is served, from the store or from a flight, has the status, headers and body
   of a reply of the server to that very scope, path and body, given, or confirmed by 304s to fetches that carried its tag,
   no later than the entry's stamp; and what is served from the store is within its TTL plus its stale window then.
   */
  lemma ServedIsVouched(c: Config, start: int, ls: seq<Label>, id: nat)
    requires GoodDigest(c.digest)
    requires var s := Run(c, Init(start), ls); id in s.callers && s.callers[id].phase.Served?
    ensures var s := Run(c, Init(start), ls);
            var caller := s.callers[id];
            && Vouched(s.log, caller.req, caller.phase.entry, EVER)
            && (caller.phase.fromStore ==>
                  caller.phase.at <= caller.phase.entry.created + caller.phase.entry.ttl + caller.phase.entry.swr)
  {
    RunVouched(c, Init(start), ls, Everything);
    var s := Run(c, Init(start), ls);
    assert CallerWired(c, s, s.callers[id]);
    assert CallerVouched(c, s, s.callers[id], Everything);
  }

  /** A call that reaches the single flight never carries a previous entry: only refreshes revalidate. */
  lemma CallsNeverRevalidate(c: Config, start: int, ls: seq<Label>, id: nat)
    requires GoodDigest(c.digest)
    requires var s := Run(c, Init(start), ls); id in s.callers && s.callers[id].phase.Missed?
    ensures Run(c, Init(start), ls).callers[id].phase.prev == None
  {
    RunVouched(c, Init(start), ls, Everything);
    var s := Run(c, Init(start), ls);
    assert CallerWired(c, s, s.callers[id]);
  }

  /** At most one fetch per key is under way, over all runs. */
  lemma OneFlightPerKey(c: Config, start: int, ls: seq<Label>, f: nat, g: nat)
    requires GoodDigest(c.digest)
    requires var s := Run(c, Init(start), ls);
             f < |s.flights| && g < |s.flights| && !s.flights[f].done && !s.flights[g].done &&
             s.flights[f].req == s.flights[g].req
    ensures f == g
  {
    RunVouched(c, Init(start), ls, Everything);
    var s := Run(c, Init(start), ls);
    assert FlightWired(c, s, f) && FlightWired(c, s, g);
  }
}
