/**
 Read after write: what an invalidation achieves in a given state, exactly. The calls served afterwards see nothing older
 if and only if nothing older is still on its way.
 */
module CacheInvalidation {
  import opened Wrappers
  import opened CacheEntries
  import opened CacheKeys
  import opened CachingTransport
  import opened CacheProtocol
  import opened CacheCoherence
  import Lru
  import LruRuns

  // ---------------------------------------------------------------- runs

  lemma RunOne(c: Config, s: State, l: Label)
    ensures Run(c, s, [l]) == Next(c, s, l)
  {
    hide Next;
    assert Run(c, s, [l][..0]) == s;
  }

  lemma {:induction false} RunConcat(c: Config, s: State, a: seq<Label>, b: seq<Label>)
    ensures Run(c, s, a + b) == Run(c, Run(c, s, a), b)
  {
    hide Next;
    if b == [] {
      assert a + b == a;
    } else {
      assert (a + b)[..|a + b| - 1] == a + b[..|b| - 1];
      RunConcat(c, s, a, b[..|b| - 1]);
    }
  }

  lemma RunThree(c: Config, s: State, l0: Label, l1: Label, l2: Label)
    ensures Run(c, s, [l0, l1, l2]) == Next(c, Next(c, Next(c, s, l0), l1), l2)
  {
    hide Next;
    assert [l0, l1, l2] == [l0] + ([l1] + [l2]);
    RunConcat(c, s, [l0], [l1] + [l2]);
    RunConcat(c, Next(c, s, l0), [l1], [l2]);
    RunOne(c, s, l0);
    RunOne(c, Next(c, s, l0), l1);
    RunOne(c, Next(c, Next(c, s, l0), l1), l2);
  }

  // ---------------------------------------------------------------- what may still be on its way

  /**
   How freshness after an invalidation is read. Entries must come from fetches of flights from `first` on. They are as
   recent as the reply that gave them or, with `byLast`, as the last one that confirmed them. With `honest`, only servers
   are considered that answer 304 to nothing but fetches carrying a tag.
   */
  datatype Reading = Reading(first: nat, byLast: bool, honest: bool) {
    function After(position: nat): Since {
      Since(position, first, byLast)
    }

    /** A fetch that carries this entry cannot bring it back as something older. */
    predicate Tolerates(prev: Entry) {
      byLast || (honest && prev.etag == "")
    }
  }

  /**
   A flight that cannot serve anything older: its fetch is recent enough, with no entry to be confirmed but a tolerated
   one, or it is known already to end without an entry.
   */
  ghost predicate Harmless(c: Config, s: State, f: nat, reading: Reading)
    requires f < |s.flights|
  {
    match s.flights[f].stage
    case Sent => reading.first <= f && (s.flights[f].prev.Some? ==> reading.Tolerates(s.flights[f].prev.value))
    case Replied(index) => index < |s.log| && Fruitless(c, s.flights[f], s.log[index].resp)
    case Processed(result) => result.NotFetched?
  }

  /**
   Pending refreshes of the path carry only tolerated entries, and its flights that are under way, or still awaited, are
   harmless.
   */
  ghost predicate Settled(c: Config, s: State, scope: string, path: string, reading: Reading) {
    && (forall r | r in s.refreshes && r.req.scope == scope && r.req.path == path :: reading.Tolerates(r.prev))
    && (forall f | 0 <= f < |s.flights| && s.flights[f].req.scope == scope && s.flights[f].req.path == path ::
          s.flights[f].done || Harmless(c, s, f, reading))
    && (forall id | id in s.callers && s.callers[id].req.scope == scope && s.callers[id].req.path == path
                    && s.callers[id].phase.Waiting? && s.callers[id].phase.flight < |s.flights| ::
          Harmless(c, s, s.callers[id].phase.flight, reading))
  }

  /** After `after`, call `id`, unless it had been served before, is not served the path from an older reply. */
  ghost predicate ReadsFresh(
      c: Config, s: State, scope: string, path: string, reading: Reading, after: seq<Label>, id: nat) {
    var t := Next(c, s, DropPrefix(InvalidationPrefix(scope, path)));
    var s' := Run(c, t, after);
    (reading.honest ==> HonestRun(c, t, after))
    && id in s'.callers && s'.callers[id].phase.Served?
    && s'.callers[id].req.scope == scope && s'.callers[id].req.path == path
    && !(id in s.callers && s.callers[id].phase.Served?)
    ==> Vouched(s'.log, s'.callers[id].req, s'.callers[id].phase.entry, reading.After(|s.log|))
  }

  /**
   Read after write, exactly. Take any reachable state, invalidate a path there, and run on in any way. Every call of that
   path not served before is served only what the server replied after the invalidation, to fetches of flights from
   `first` on, if and only if the state is settled. With `first == 0` this is about all replies given after the
   invalidation; with `first == |s.flights|` about replies to fetches of flights started after it. Each way to read
   freshness has its own condition, which `Tolerates` gives.
   */
  lemma InvalidationHoldsIff(c: Config, start: int, before: seq<Label>, scope: string, path: string, reading: Reading)
    requires GoodDigest(c.digest) && ColonFree(scope) && ColonFree(path)
    requires reading.first <= |Run(c, Init(start), before).flights|
    ensures var s := Run(c, Init(start), before);
            Settled(c, s, scope, path, reading) <==> forall after, id :: ReadsFresh(c, s, scope, path, reading, after, id)
  {
    hide Run, Next, Init, Settled, ReadsFresh, Wired, AllVouched, ColonFree;
    StartVouched(c, start);
    RunVouched(c, Init(start), before, Everything);
    var s := Run(c, Init(start), before);
    if Settled(c, s, scope, path, reading) {
      forall after, id ensures ReadsFresh(c, s, scope, path, reading, after, id) {
        SettledReadsFresh(c, s, scope, path, reading, after, id);
      }
    } else {
      var after, id := UnsettledServesOld(c, s, scope, path, reading);
      assert !ReadsFresh(c, s, scope, path, reading, after, id);
    }
  }

  lemma StartVouched(c: Config, start: int)
    ensures Wired(c, Init(start)) && AllVouched(c, Init(start), Everything)
  {
  }

  // ---------------------------------------------------------------- settled, hence fresh

  lemma SettledReadsFresh(
      c: Config, s: State, scope: string, path: string, reading: Reading, after: seq<Label>, id: nat)
    requires GoodDigest(c.digest) && ColonFree(scope) && ColonFree(path) && Wired(c, s)
    requires AllVouched(c, s, Everything) && reading.first <= |s.flights|
    requires Settled(c, s, scope, path, reading)
    ensures ReadsFresh(c, s, scope, path, reading, after, id)
  {
    hide Run, Next, Vouched, Wired, Settled, FlightVouched;
    var t := Next(c, s, DropPrefix(InvalidationPrefix(scope, path)));
    NextWired(c, s, DropPrefix(InvalidationPrefix(scope, path)));
    var served := set other | other in s.callers && s.callers[other].phase.Served?;
    var focus := Target(scope, path, reading.After(|s.log|), served, reading.honest);
    InvalidatedState(c, s, focus, reading);
    var s' := Run(c, t, after);
    if reading.honest ==> HonestRun(c, t, after) {
      RunVouched(c, t, after, focus);
      hide HonestRun;
    }
    assert AllVouched(c, s', focus) && id in s'.callers && focus.On(s'.callers[id].req) && !focus.Exempt(id) ==>
        CallerVouched(c, s', s'.callers[id], focus);
  }

  /** Right after the invalidation of a settled state, the invariant holds for replies from now on. */
  lemma InvalidatedState(c: Config, s: State, focus: Focus, reading: Reading)
    requires GoodDigest(c.digest) && focus.Target? && ColonFree(focus.scope) && ColonFree(focus.path) && Wired(c, s)
    requires AllVouched(c, s, Everything)
    requires focus.since == reading.After(|s.log|) && focus.honest == reading.honest && reading.first <= |s.flights|
    requires Settled(c, s, focus.scope, focus.path, reading)
    requires focus.exempt == set other | other in s.callers && s.callers[other].phase.Served?
    ensures AllVouched(c, Next(c, s, DropPrefix(InvalidationPrefix(focus.scope, focus.path))), focus)
  {
    hide Vouched, StoreVouched, Lru.Drop;
    InvalidatedStore(c, s.store, s.log, focus);
    var s' := Next(c, s, DropPrefix(InvalidationPrefix(focus.scope, focus.path)));
    forall f | 0 <= f < |s.flights| && Harmless(c, s, f, reading)
               && FlightVouched(c, s.log, f, s.flights[f], Everything)
      ensures FlightVouched(c, s'.log, f, s'.flights[f], focus)
    {
    }
    hide Harmless, FlightVouched;
    forall r | r in s'.refreshes && focus.On(r.req) ensures PrevVouched(s'.log, r.req, r.prev, focus) {
      assert PrevVouched(s.log, r.req, r.prev, Everything);
    }
    forall id | id in s'.callers && focus.On(s'.callers[id].req) && !focus.Exempt(id)
      ensures CallerVouched(c, s', s'.callers[id], focus)
    {
      assert CallerWired(c, s, s.callers[id]);
      assert CallerVouched(c, s, s.callers[id], Everything);
    }
  }

  lemma InvalidatedStore(c: Config, store: Lru.Slots, log: seq<Reply>, focus: Focus)
    requires GoodDigest(c.digest) && focus.Target? && ColonFree(focus.scope) && ColonFree(focus.path)
    ensures StoreVouched(c, Lru.Drop(store, Lru.StartingWith(InvalidationPrefix(focus.scope, focus.path))), log, focus)
  {
    hide Vouched;
    var prefix := InvalidationPrefix(focus.scope, focus.path);
    Lru.DropMembers(store, Lru.StartingWith(prefix));
    forall slot, req | slot in Lru.Drop(store, Lru.StartingWith(prefix)) && c.KeyOf(req) == slot.key &&
                       ColonFree(req.scope)
      ensures !focus.On(req)
    {
      PrefixExact(c.digest, focus.scope, focus.path, focus.scope, focus.path, req.body);
    }
  }

  // ---------------------------------------------------------------- not settled, hence not fresh

  /** The call with this number was not there at `s`; it is served, from a flight, something older. */
  ghost predicate ServedOld(s: State, s': State, id: nat, req: Request, since: Since) {
    && id in s'.callers && s'.callers[id].req == req && s'.callers[id].phase.Served?
    && !(id in s.callers && s.callers[id].phase.Served?)
    && !Vouched(s'.log, req, s'.callers[id].phase.entry, since)
  }

  ghost predicate OldFlight(c: Config, s: State, scope: string, path: string, reading: Reading, f: nat) {
    && f < |s.flights| && s.flights[f].req.scope == scope && s.flights[f].req.path == path
    && !s.flights[f].done && !Harmless(c, s, f, reading)
  }

  ghost predicate OldWaiter(c: Config, s: State, scope: string, path: string, reading: Reading, id: nat) {
    && id in s.callers && s.callers[id].req.scope == scope && s.callers[id].req.path == path
    && s.callers[id].phase.Waiting? && s.callers[id].phase.flight < |s.flights|
    && !Harmless(c, s, s.callers[id].phase.flight, reading)
  }

  ghost predicate OldRefresh(s: State, scope: string, path: string, reading: Reading, r: Refresh) {
    r in s.refreshes && r.req.scope == scope && r.req.path == path && !reading.Tolerates(r.prev)
  }

  lemma UnsettledCases(c: Config, s: State, scope: string, path: string, reading: Reading)
    requires !Settled(c, s, scope, path, reading)
    ensures (exists f: nat :: OldFlight(c, s, scope, path, reading, f))
         || (exists id: nat :: OldWaiter(c, s, scope, path, reading, id))
         || (exists r :: OldRefresh(s, scope, path, reading, r))
  {
    hide Harmless;
    if f: nat :| f < |s.flights| && s.flights[f].req.scope == scope && s.flights[f].req.path == path
                 && !(s.flights[f].done || Harmless(c, s, f, reading)) {
      assert OldFlight(c, s, scope, path, reading, f);
    } else if id: nat :| id in s.callers && OldWaiter(c, s, scope, path, reading, id) {
    } else {
      var r :| r in s.refreshes && r.req.scope == scope && r.req.path == path && !reading.Tolerates(r.prev);
      assert OldRefresh(s, scope, path, reading, r);
    }
  }

  lemma UnsettledServesOld(c: Config, s: State, scope: string, path: string, reading: Reading)
    returns (after: seq<Label>, id: nat)
    requires GoodDigest(c.digest) && ColonFree(scope) && ColonFree(path) && Wired(c, s)
    requires !Settled(c, s, scope, path, reading)
    ensures !ReadsFresh(c, s, scope, path, reading, after, id)
  {
    hide Run, Wired, Vouched, Harmless, Next;
    var drop := DropPrefix(InvalidationPrefix(scope, path));
    var t := Next(c, s, drop);
    NextWired(c, s, drop);
    Dropped(c, s, scope, path);
    UnsettledCases(c, s, scope, path, reading);
    hide Settled;
    if f: nat :| OldFlight(c, s, scope, path, reading, f) {
      SameHarm(c, s, t, f, reading);
      after, id := FlightServesOld(c, t, f, reading);
    } else if other: nat :| OldWaiter(c, s, scope, path, reading, other) {
      id := other;
      SameHarm(c, s, t, s.callers[id].phase.flight, reading);
      after := DeliveryServesOld(c, t, id, reading);
    } else {
      var r :| OldRefresh(s, scope, path, reading, r);
      forall f | 0 <= f < |s.flights| && s.flights[f].req.scope == scope && s.flights[f].req.path == path
        ensures s.flights[f].done || Harmless(c, t, f, reading)
      {
        assert !OldFlight(c, s, scope, path, reading, f);
        SameHarm(c, s, t, f, reading);
      }
      after, id := RefreshServesOld(c, t, r, reading);
    }
  }

  /** The invalidation touches only the store, and leaves nothing of the path there. */
  lemma Dropped(c: Config, s: State, scope: string, path: string)
    requires GoodDigest(c.digest) && ColonFree(scope) && ColonFree(path)
    ensures var t := Next(c, s, DropPrefix(InvalidationPrefix(scope, path)));
            && t == s.(store := t.store)
            && NotStored(c, t, scope, path)
  {
    var prefix := InvalidationPrefix(scope, path);
    Lru.DropMembers(s.store, Lru.StartingWith(prefix));
    forall req: Request | req.scope == scope && req.path == path
      ensures Lru.Find(Lru.Drop(s.store, Lru.StartingWith(prefix)), c.KeyOf(req)).None?
    {
      PrefixExact(c.digest, scope, path, scope, path, req.body);
      LruRuns.FindInDrop(s.store, Lru.StartingWith(prefix), c.KeyOf(req));
    }
  }

  ghost predicate NotStored(c: Config, s: State, scope: string, path: string) {
    forall req: Request | req.scope == scope && req.path == path :: Lru.Find(s.store, c.KeyOf(req)).None?
  }

  lemma SameHarm(c: Config, s: State, t: State, f: nat, reading: Reading)
    requires f < |s.flights| && t == s.(store := t.store)
    ensures Harmless(c, s, f, reading) <==> Harmless(c, t, f, reading)
  {
  }

  lemma {:induction false} FreshId(ids: set<nat>) returns (id: nat)
    ensures forall other | other in ids :: other < id
    decreases |ids|
  {
    id := 0;
    if ids != {} {
      var one :| one in ids;
      var above := FreshId(ids - {one});
      id := if above > one then above else one + 1;
      assert forall other | other in ids :: other == one || other in ids - {one};
    }
  }

  /** A new call for the request of a flight under way finds nothing stored and waits for that flight. */
  lemma CallWaits(c: Config, t: State, f: nat, id: nat, query: string)
    requires Wired(c, t) && f < |t.flights| && !t.flights[f].done && id !in t.callers
    requires Lru.Find(t.store, c.KeyOf(t.flights[f].req)).None?
    ensures Run(c, t, [Begin(id, t.flights[f].req, query), Consult(id), Join(id)]) ==
            t.(callers := t.callers[id := Caller(t.flights[f].req, query, Waiting(f))])
  {
    assert FlightWired(c, t, f);
    hide Wired, Run, Next;
    var req := t.flights[f].req;
    RunThree(c, t, Begin(id, req, query), Consult(id), Join(id));
    var t1 := t.(callers := t.callers[id := Caller(req, query, Looking(t.now))]);
    CallMisses(c, t1, id);
    assert t1.callers[id := Caller(req, query, Missed(None))] == t.callers[id := Caller(req, query, Missed(None))];
    var t2 := t.(callers := t.callers[id := Caller(req, query, Missed(None))]);
    assert t2.callers[id := Caller(req, query, Waiting(f))] == t.callers[id := Caller(req, query, Waiting(f))];
  }

  lemma CallMisses(c: Config, t: State, id: nat)
    requires id in t.callers && t.callers[id].phase.Looking?
    requires Lru.Find(t.store, c.KeyOf(t.callers[id].req)).None?
    ensures Next(c, t, Consult(id)) == t.(callers := t.callers[id := Caller(t.callers[id].req, t.callers[id].query, Missed(None))])
  {
  }

  /** How a flight that is not harmless ends with an older entry, all else unchanged but for the store and the log. */
  lemma EndsOld(c: Config, t: State, f: nat, reading: Reading) returns (ls: seq<Label>)
    requires Wired(c, t) && f < |t.flights| && !t.flights[f].done && !Harmless(c, t, f, reading)
    ensures var u := Run(c, t, ls);
            && u.callers == t.callers && f < |u.flights| && u.flights[f].done
            && u.flights[f].req == t.flights[f].req
            && u.flights[f].stage.Processed? && u.flights[f].stage.result.Fetched?
            && !Vouched(u.log, t.flights[f].req, u.flights[f].stage.result.entry, reading.After(|t.log|))
    ensures reading.honest ==> HonestRun(c, t, ls)
  {
    assert FlightWired(c, t, f);
    hide Run, Wired, Vouched;
    match t.flights[f].stage
    case Processed(result) =>
      ls := [Finish(f)];
      QuietHonest(c, t, ls);
      RunOne(c, t, Finish(f));
      NothingBeyond(t.log, t.flights[f].req, result.entry, reading);
    case Replied(index) =>
      ls := [Process(f), Finish(f)];
      QuietHonest(c, t, ls);
      RunTwo(c, t, Process(f), Finish(f));
      FruitlessResult(c, t.flights[f], t.log[index].resp, t.now);
      var u := Next(c, t, Process(f));
      NothingBeyond(t.log, t.flights[f].req, u.flights[f].stage.result.entry, reading);
    case Sent =>
      var resp := OldReply(t.flights[f].prev, f, reading.first);
      ls := [ServerReplies(f, resp), Process(f), Finish(f)];
      ReplyHonest(c, t, f, resp, [Process(f), Finish(f)], reading);
      assert ls == [ServerReplies(f, resp)] + [Process(f), Finish(f)];
      RunThree(c, t, ServerReplies(f, resp), Process(f), Finish(f));
      RepliedOld(c, t, f, reading);
  }

  /** A plain success for a fetch that is too old, or else a confirmation of what there is, with a body of its own. */
  function OldReply(prev: Option<Entry>, f: nat, first: nat): Response {
    if f < first || prev.None? then Response(200, [], "", [], true)
    else Response(304, [], "", prev.value.body + [0], true)
  }

  /** Only replies can be dishonest. */
  lemma {:induction false} QuietHonest(c: Config, s: State, ls: seq<Label>)
    requires forall i | 0 <= i < |ls| :: !ls[i].ServerReplies?
    ensures HonestRun(c, s, ls)
  {
    hide Run;
    if ls != [] {
      QuietHonest(c, s, ls[..|ls| - 1]);
    }
  }

  lemma {:induction false} HonestConcat(c: Config, s: State, a: seq<Label>, b: seq<Label>)
    requires HonestRun(c, s, a) && HonestRun(c, Run(c, s, a), b)
    ensures HonestRun(c, s, a + b)
  {
    hide Run, HonestStep;
    if b == [] {
      assert a + b == a;
    } else {
      assert (a + b)[..|a + b| - 1] == a + b[..|b| - 1];
      HonestConcat(c, s, a, b[..|b| - 1]);
      RunConcat(c, s, a, b[..|b| - 1]);
    }
  }

  lemma ReplyHonest(c: Config, t: State, f: nat, resp: Response, rest: seq<Label>, reading: Reading)
    requires f < |t.flights| && t.flights[f].stage.Sent? && !Harmless(c, t, f, reading)
    requires resp == OldReply(t.flights[f].prev, f, reading.first)
    requires forall i | 0 <= i < |rest| :: !rest[i].ServerReplies?
    ensures reading.honest ==> HonestRun(c, t, [ServerReplies(f, resp)] + rest)
  {
    if reading.honest {
      assert [ServerReplies(f, resp)][..0] == [];
      assert Run(c, t, []) == t;
      assert HonestRun(c, t, [ServerReplies(f, resp)]);
      hide Run;
      QuietHonest(c, Run(c, t, [ServerReplies(f, resp)]), rest);
      HonestConcat(c, t, [ServerReplies(f, resp)], rest);
    }
  }

  lemma RepliedOld(c: Config, t: State, f: nat, reading: Reading)
    requires Wired(c, t) && f < |t.flights| && t.flights[f].stage.Sent? && !t.flights[f].done
    requires !Harmless(c, t, f, reading)
    ensures var v := Next(c, Next(c, t, ServerReplies(f, OldReply(t.flights[f].prev, f, reading.first))), Process(f));
            && v.callers == t.callers && |v.flights| == |t.flights|
            && v.flights[f].req == t.flights[f].req && !v.flights[f].done
            && v.flights[f].stage.Processed? && v.flights[f].stage.result.Fetched?
            && !Vouched(v.log, t.flights[f].req, v.flights[f].stage.result.entry, reading.After(|t.log|))
  {
    assert FlightWired(c, t, f);
    hide Wired, Vouched, Lru.Set;
    var flight, resp := t.flights[f], OldReply(t.flights[f].prev, f, reading.first);
    var u := Next(c, t, ServerReplies(f, resp));
    assert u.flights[f] == flight.(stage := Replied(|t.log|)) && u.log == t.log + [u.log[|t.log|]];
    var v := Next(c, u, Process(f));
    assert v.log == u.log && v.flights[f].stage.Processed?;
    var e := v.flights[f].stage.result.entry;
    OneReplyNotVouched(t.log, u.log[|t.log|], flight.req, e, reading);
  }

  lemma OneReplyNotVouched(log: seq<Reply>, reply: Reply, req: Request, e: Entry, reading: Reading)
    requires reply.flight < reading.first || (!reading.byLast && reply.resp.body != e.body)
    ensures !Vouched(log + [reply], req, e, reading.After(|log|))
  {
    forall chain: seq<nat> | Origin(log + [reply], req, e, chain)
      ensures !Recent(log + [reply], chain, reading.After(|log|))
    {
      assert (log + [reply])[|log|] == reply;
    }
  }

  lemma NothingBeyond(log: seq<Reply>, req: Request, e: Entry, reading: Reading)
    ensures !Vouched(log, req, e, reading.After(|log|))
  {
  }

  lemma RunTwo(c: Config, s: State, l0: Label, l1: Label)
    ensures Run(c, s, [l0, l1]) == Next(c, Next(c, s, l0), l1)
  {
    hide Next;
    assert [l0, l1] == [l0] + [l1];
    RunConcat(c, s, [l0], [l1]);
    RunOne(c, s, l0);
    RunOne(c, Next(c, s, l0), l1);
  }

  /** Another call joins the flight and is served the older entry. */
  lemma FlightServesOld(c: Config, t: State, f: nat, reading: Reading) returns (after: seq<Label>, id: nat)
    requires Wired(c, t) && f < |t.flights| && !t.flights[f].done && !Harmless(c, t, f, reading)
    requires Lru.Find(t.store, c.KeyOf(t.flights[f].req)).None?
    ensures ServedOld(t, Run(c, t, after), id, t.flights[f].req, reading.After(|t.log|))
    ensures reading.honest ==> HonestRun(c, t, after)
  {
    hide Run, Wired, Harmless, Vouched;
    id := FreshId(t.callers.Keys);
    var calls := [Begin(id, t.flights[f].req, ""), Consult(id), Join(id)];
    CallWaits(c, t, f, id, "");
    RunWired(c, t, calls);
    var u := Run(c, t, calls);
    SameHarmAfterCall(c, t, u, f, reading);
    var ending := EndsOld(c, u, f, reading);
    var v := Run(c, u, ending);
    DeliverServes(c, v, id);
    RunOne(c, v, Deliver(id));
    RunConcat(c, t, calls, ending);
    RunConcat(c, t, calls + ending, [Deliver(id)]);
    after := calls + ending + [Deliver(id)];
    QuietHonest(c, t, calls);
    QuietHonest(c, v, [Deliver(id)]);
    if reading.honest {
      HonestConcat(c, t, calls, ending);
      HonestConcat(c, t, calls + ending, [Deliver(id)]);
    }
  }

  lemma SameHarmAfterCall(c: Config, s: State, t: State, f: nat, reading: Reading)
    requires f < |s.flights| && t.flights == s.flights && t.log == s.log
    ensures Harmless(c, s, f, reading) <==> Harmless(c, t, f, reading)
  {
  }

  lemma DeliverServes(c: Config, v: State, id: nat)
    requires id in v.callers && v.callers[id].phase.Waiting? && v.callers[id].phase.flight < |v.flights|
    requires var flight := v.flights[v.callers[id].phase.flight];
             flight.done && flight.stage.Processed? && flight.stage.result.Fetched?
    ensures var w := Next(c, v, Deliver(id));
            && w.log == v.log && id in w.callers
            && w.callers[id].req == v.callers[id].req && w.callers[id].query == v.callers[id].query
            && w.callers[id].phase.Served?
            && w.callers[id].phase.entry == v.flights[v.callers[id].phase.flight].stage.result.entry
  {
  }

  lemma {:induction false} RunWired(c: Config, s: State, ls: seq<Label>)
    requires Wired(c, s)
    ensures Wired(c, Run(c, s, ls))
  {
    hide Next, Wired;
    if ls != [] {
      RunWired(c, s, ls[..|ls| - 1]);
      NextWired(c, Run(c, s, ls[..|ls| - 1]), ls[|ls| - 1]);
    }
  }

  /** A waiting call is served the older entry once its flight has ended. */
  lemma DeliveryServesOld(c: Config, t: State, id: nat, reading: Reading) returns (after: seq<Label>)
    requires GoodDigest(c.digest) && Wired(c, t) && id in t.callers && t.callers[id].phase.Waiting?
    requires t.callers[id].phase.flight < |t.flights| && !Harmless(c, t, t.callers[id].phase.flight, reading)
    ensures ServedOld(t, Run(c, t, after), id, t.callers[id].req, reading.After(|t.log|))
    ensures reading.honest ==> HonestRun(c, t, after)
  {
    var f := t.callers[id].phase.flight;
    assert CallerWired(c, t, t.callers[id]) && FlightWired(c, t, f);
    SameKeySameRequest(c, t.callers[id].req, t.flights[f].req);
    hide Run, Wired, Vouched;
    var ending := [];
    if t.flights[f].done {
      assert Run(c, t, ending) == t by { RunNone(c, t); }
      QuietHonest(c, t, ending);
      NothingBeyond(t.log, t.flights[f].req, t.flights[f].stage.result.entry, reading);
    } else {
      ending := EndsOld(c, t, f, reading);
    }
    var v := Run(c, t, ending);
    hide Harmless;
    DeliverServes(c, v, id);
    RunOne(c, v, Deliver(id));
    RunConcat(c, t, ending, [Deliver(id)]);
    after := ending + [Deliver(id)];
    QuietHonest(c, v, [Deliver(id)]);
    if reading.honest {
      HonestConcat(c, t, ending, [Deliver(id)]);
    }
  }

  lemma RunNone(c: Config, s: State)
    ensures Run(c, s, []) == s
  {
  }

  /** Ends a harmless flight, leaving calls, refreshes, store and log alone. */
  lemma EndsEmpty(c: Config, t: State, f: nat, reading: Reading) returns (ls: seq<Label>)
    requires Wired(c, t) && f < |t.flights| && !t.flights[f].done && Harmless(c, t, f, reading)
    ensures var u := Run(c, t, ls);
            && u == t.(flights := u.flights, group := t.group - {c.KeyOf(t.flights[f].req)})
            && |u.flights| == |t.flights|
    ensures forall i | 0 <= i < |ls| :: !ls[i].ServerReplies?
  {
    assert FlightWired(c, t, f);
    hide Run, Wired, Lru.Set, Vouched, NextProcess;
    match t.flights[f].stage
    case Sent =>
      ls := [TransportFails(f), Finish(f)];
      RunTwo(c, t, TransportFails(f), Finish(f));
    case Replied(index) =>
      ls := [Process(f), Finish(f)];
      RunTwo(c, t, Process(f), Finish(f));
      FruitlessProcess(c, t, f);
    case Processed(_) =>
      ls := [Finish(f)];
      RunOne(c, t, Finish(f));
  }

  lemma FruitlessProcess(c: Config, t: State, f: nat)
    requires f < |t.flights| && t.flights[f].stage.Replied? && t.flights[f].stage.index < |t.log|
    requires Fruitless(c, t.flights[f], t.log[t.flights[f].stage.index].resp)
    ensures Next(c, t, Process(f)) == SetFlight(t, f, t.flights[f].(stage := Processed(NotFetched)))
  {
    FruitlessResult(c, t.flights[f], t.log[t.flights[f].stage.index].resp, t.now);
    hide ResultOf, Lru.Set;
  }

  /** A pending refresh starts a conditional fetch, whose confirmation brings the older entry back. */
  lemma RefreshServesOld(c: Config, t: State, r: Refresh, reading: Reading) returns (after: seq<Label>, id: nat)
    requires GoodDigest(c.digest) && Wired(c, t) && r in t.refreshes && !reading.Tolerates(r.prev)
    requires Lru.Find(t.store, c.KeyOf(r.req)).None?
    requires forall f | 0 <= f < |t.flights| && t.flights[f].req == r.req :: t.flights[f].done || Harmless(c, t, f, reading)
    ensures ServedOld(t, Run(c, t, after), id, r.req, reading.After(|t.log|))
    ensures reading.honest ==> HonestRun(c, t, after)
  {
    hide Run, Harmless, Vouched;
    var clearing := [];
    if c.KeyOf(r.req) in t.group {
      var g := t.group[c.KeyOf(r.req)];
      assert FlightWired(c, t, g);
      SameKeySameRequest(c, t.flights[g].req, r.req);
      clearing := EndsEmpty(c, t, g, reading);
    } else {
      RunNone(c, t);
    }
    RunWired(c, t, clearing);
    var u := Run(c, t, clearing);
    hide Wired;
    var i: nat :| i < |u.refreshes| && u.refreshes[i] == r;
    RunOne(c, u, JoinRefresh(i));
    RefreshStarts(c, u, i, reading);
    RunWired(c, u, [JoinRefresh(i)]);
    var w := Run(c, u, [JoinRefresh(i)]);
    var serving;
    serving, id := FlightServesOld(c, w, |u.flights|, reading);
    RunConcat(c, t, clearing, [JoinRefresh(i)]);
    RunConcat(c, t, clearing + [JoinRefresh(i)], serving);
    after := clearing + [JoinRefresh(i)] + serving;
    QuietHonest(c, t, clearing + [JoinRefresh(i)]);
    if reading.honest {
      HonestConcat(c, t, clearing + [JoinRefresh(i)], serving);
    }
  }

  lemma RefreshStarts(c: Config, u: State, i: nat, reading: Reading)
    requires i < |u.refreshes| && c.KeyOf(u.refreshes[i].req) !in u.group && !reading.Tolerates(u.refreshes[i].prev)
    ensures var w := Next(c, u, JoinRefresh(i));
            && w.callers == u.callers && w.store == u.store && w.log == u.log
            && |w.flights| == |u.flights| + 1 && w.flights[|u.flights|].req == u.refreshes[i].req
            && !w.flights[|u.flights|].done && !Harmless(c, w, |u.flights|, reading)
  {
  }

  /**
   The store forgets nothing by itself: whatever the request and the storable reply, a fetch whose reply is older than
   the invalidation stores it afterwards, and the next call is served that older reply from the store.
   */
  lemma InFlightFetchRestores(c: Config, start: int, req: Request, query: string, resp: Response)
    requires Cached(c, req) && ColonFree(req.scope) && c.limits.capacity >= 1
    requires c.specs[req.path].ttl + c.specs[req.path].swr >= 0
    requires Success(resp.status) && resp.readable && |resp.body| <= c.MaxBody()
    ensures var s := Run(c, Init(start), [Begin(0, req, query), Consult(0), Join(0)] + [ServerReplies(0, resp)]);
            var t := Next(c, s, DropPrefix(InvalidationPrefix(req.scope, req.path)));
            var s' := Run(c, t, [Process(0), Begin(1, req, query), Consult(1)]);
            && 1 in s'.callers && s'.callers[1].req == req
            && s'.callers[1].phase.Served? && s'.callers[1].phase.fromStore
            && !Vouched(s'.log, req, s'.callers[1].phase.entry, Since(|s.log|, 0, false))
  {
    hide Next, Init, Run, Vouched;
    var s := Run(c, Init(start), [Begin(0, req, query), Consult(0), Join(0)] + [ServerReplies(0, resp)]);
    var l := DropPrefix(InvalidationPrefix(req.scope, req.path));
    ReplyInFlight(c, start, req, query, resp);
    RunThree(c, Next(c, s, l), Process(0), Begin(1, req, query), Consult(1));
    OldReplyIsServed(c, Next(c, s, l), req, query, resp);
    var s' := Run(c, Next(c, s, l), [Process(0), Begin(1, req, query), Consult(1)]);
    NothingBeyond(s'.log, req, s'.callers[1].phase.entry, Reading(0, false, false));
  }

  lemma ReplyInFlight(c: Config, start: int, req: Request, query: string, resp: Response)
    requires Cached(c, req) && ColonFree(req.scope)
    ensures var s := Run(c, Init(start), [Begin(0, req, query), Consult(0), Join(0)] + [ServerReplies(0, resp)]);
            var t := Next(c, s, DropPrefix(InvalidationPrefix(req.scope, req.path)));
            && t.store == [] && t.flights == [Flight(req, query, None, Replied(0), false)] && 1 !in t.callers
            && |s.log| == |t.log| == 1 && t.log[0].resp == resp
  {
    hide Next, Init, Run;
    RunThree(c, Init(start), Begin(0, req, query), Consult(0), Join(0));
    var s3 := Next(c, Next(c, Next(c, Init(start), Begin(0, req, query)), Consult(0)), Join(0));
    RunConcat(c, Init(start), [Begin(0, req, query), Consult(0), Join(0)], [ServerReplies(0, resp)]);
    RunOne(c, s3, ServerReplies(0, resp));
    FirstCallJoins(c, start, req, query);
    ReplyThenDrop(c, s3, req, query, resp);
  }

  lemma FirstCallJoins(c: Config, start: int, req: Request, query: string)
    requires Cached(c, req) && ColonFree(req.scope)
    ensures var s := Next(c, Next(c, Next(c, Init(start), Begin(0, req, query)), Consult(0)), Join(0));
            s.store == [] && s.flights == [Flight(req, query, None, Sent, false)] && 1 !in s.callers && s.log == []
  {
    var s2 := Next(c, Next(c, Init(start), Begin(0, req, query)), Consult(0));
    assert s2.store == [] && s2.callers[0].phase == Missed(None);
  }

  lemma ReplyThenDrop(c: Config, s: State, req: Request, query: string, resp: Response)
    requires s.store == [] && s.flights == [Flight(req, query, None, Sent, false)] && 1 !in s.callers && s.log == []
    ensures var s' := Next(c, s, ServerReplies(0, resp));
            var t := Next(c, s', DropPrefix(InvalidationPrefix(req.scope, req.path)));
            && t.store == [] && t.flights == [Flight(req, query, None, Replied(0), false)] && 1 !in t.callers
            && |s'.log| == |t.log| == 1 && t.log[0].resp == resp
  {
  }

  lemma OldReplyIsServed(c: Config, t: State, req: Request, query: string, resp: Response)
    requires Cached(c, req) && ColonFree(req.scope) && c.limits.capacity >= 1
    requires c.specs[req.path].ttl + c.specs[req.path].swr >= 0
    requires Success(resp.status) && resp.readable && |resp.body| <= c.MaxBody()
    requires t.store == [] && t.flights == [Flight(req, query, None, Replied(0), false)] && 1 !in t.callers
    requires |t.log| == 1 && t.log[0].resp == resp
    ensures var s' := Next(c, Next(c, Next(c, t, Process(0)), Begin(1, req, query)), Consult(1));
            && s'.log == t.log && 1 in s'.callers && s'.callers[1].req == req
            && s'.callers[1].phase.Served? && s'.callers[1].phase.fromStore
  {
    var spec, key := c.specs[req.path], c.KeyOf(req);
    var e := Entry(resp.headers, resp.etag, t.now, resp.body, spec.ttl, spec.swr, resp.status);
    var u := Next(c, t, Process(0));
    assert Lru.Pushed([], key, e) == [Lru.Slot(key, e)];
    assert u.store == [Lru.Slot(key, e)];
    var v := Next(c, u, Begin(1, req, query));
    assert v.callers[1] == Caller(req, query, Looking(t.now));
    assert Lru.Get(v.store, key, v.now).1 == Some(e);
  }
}
