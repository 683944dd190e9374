/**
 How long entries live, over every run of the protocol: which replies are stored and for how long, when a call is served
 from the store, and when that starts a refresh. Everything here is said in times and in what the schema declares.
 */
module CacheLifetimes {
  import opened Wrappers
  import opened CacheEntries
  import opened CacheKeys
  import opened CachingTransport
  import opened CacheProtocol
  import opened CacheCoherence
  import opened CacheInvalidation
  import Lru

  // ---------------------------------------------------------------- what is stored

  /** A 404 lives as long as declared for misses and has no stale window; a success has the declared pair. */
  predicate Declared(spec: Spec, e: Entry) {
    if e.status == 404 then spec.negativeTtl > 0 && e.ttl == spec.negativeTtl && e.swr == 0
    else 200 <= e.status < 300 && e.ttl == spec.ttl && e.swr == spec.swr
  }

  /** The entry could have been stored for this request. */
  predicate DeclaredFor(c: Config, req: Request, e: Entry) {
    req.path in c.specs && c.specs[req.path].ttl > 0 && Declared(c.specs[req.path], e)
  }

  ghost predicate StoreDeclared(c: Config, store: Lru.Slots, now: int) {
    forall slot, req | slot in store && c.KeyOf(req) == slot.key && ColonFree(req.scope) ::
      DeclaredFor(c, req, slot.entry) && slot.entry.created <= now
  }

  predicate Confirmable(prev: Entry) {
    200 <= prev.status < 300
  }

  /** Only successes are ever asked to be confirmed: a stored 404 has no stale window. */
  ghost predicate LifetimesKept(c: Config, s: State) {
    && StoreDeclared(c, s.store, s.now)
    && (forall r | r in s.refreshes :: Confirmable(r.prev))
    && (forall f | 0 <= f < |s.flights| && s.flights[f].prev.Some? :: Confirmable(s.flights[f].prev.value))
    && (forall id | id in s.callers && s.callers[id].phase.Served? && s.callers[id].phase.fromStore ::
          DeclaredFor(c, s.callers[id].req, s.callers[id].phase.entry))
  }

  lemma ConsultKeeps(c: Config, s: State, id: nat)
    requires Wired(c, s) && LifetimesKept(c, s) && id in s.callers && s.callers[id].phase.Looking?
    ensures LifetimesKept(c, NextConsult(c, s, id))
  {
    var caller := s.callers[id];
    var key := c.KeyOf(caller.req);
    GetMembers(s.store, key, s.now);
    assert CallerWired(c, s, caller);
    MissHasNoPrevious(s.store, key, caller.phase.now, s.now);
    hide Lru.Get, Wired;
    var found := Lru.Get(s.store, key, s.now).1;
    if found.Some? {
      assert Lru.Slot(key, found.value) in s.store;
      assert DeclaredFor(c, caller.req, Lru.Slot(key, found.value).entry);
    }
  }

  lemma ProcessKeeps(c: Config, s: State, f: nat)
    requires GoodDigest(c.digest) && Wired(c, s) && LifetimesKept(c, s)
    requires f < |s.flights| && s.flights[f].stage.Replied? && s.flights[f].stage.index < |s.log|
    requires Cached(c, s.flights[f].req)
    ensures LifetimesKept(c, NextProcess(c, s, f))
  {
    var flight := s.flights[f];
    assert FlightWired(c, s, f);
    hide Wired;
    var resp, spec, key := s.log[flight.stage.index].resp, c.specs[flight.req.path], c.KeyOf(flight.req);
    var result := ResultOf(spec, flight.prev, resp, s.now, c.MaxBody());
    var s' := NextProcess(c, s, f);
    if s'.store != s.store {
      SetMembers(s.store, key, result.entry, c.limits);
      assert DeclaredFor(c, flight.req, result.entry) && result.entry.created == s.now;
      hide ResultOf, Lru.Set, Declared;
      forall slot, req | slot in s'.store && c.KeyOf(req) == slot.key && ColonFree(req.scope)
        ensures DeclaredFor(c, req, slot.entry) && slot.entry.created <= s'.now
      {
        if slot !in s.store {
          SameKeySameRequest(c, req, flight.req);
        }
      }
    }
  }

  lemma OtherStepKeeps(c: Config, s: State, l: Label)
    requires Wired(c, s) && LifetimesKept(c, s) && !l.Consult? && !l.Process?
    ensures LifetimesKept(c, Next(c, s, l))
  {
    if l.DropPrefix? {
      Lru.DropMembers(s.store, Lru.StartingWith(l.prefix));
    }
    if l.JoinRefresh? && l.i < |s.refreshes| {
      assert s.refreshes[l.i] in s.refreshes;
    }
    hide Declared, DeclaredFor, Wired;
  }

  lemma {:induction false} RunKeepsLifetimes(c: Config, start: int, ls: seq<Label>)
    requires GoodDigest(c.digest)
    ensures Wired(c, Run(c, Init(start), ls)) && LifetimesKept(c, Run(c, Init(start), ls))
  {
    RunWired(c, Init(start), ls);
    hide Wired, LifetimesKept;
    if ls == [] {
      InitKeeps(c, start);
    } else {
      var s, l := Run(c, Init(start), ls[..|ls| - 1]), ls[|ls| - 1];
      RunKeepsLifetimes(c, start, ls[..|ls| - 1]);
      hide Run, NextConsult, NextProcess;
      if Next(c, s, l) != s {
        match l
        case Consult(id) => ConsultKeeps(c, s, id);
        case Process(f) => ProcessKeeps(c, s, f);
        case _ => OtherStepKeeps(c, s, l);
      }
    }
  }

  lemma InitKeeps(c: Config, start: int)
    ensures LifetimesKept(c, Init(start))
  {
  }

  /**
   Whatever is stored for a request, at any moment of any run, is the answer to a cacheable method; it is a success with
   the declared TTL and stale window, or a 404 with the declared TTL for misses and no stale window. No other status is ever
   stored, a 304 confirming successes only.
   */
  lemma StoredIsDeclared(c: Config, start: int, ls: seq<Label>, req: Request, e: Entry)
    requires GoodDigest(c.digest) && ColonFree(req.scope)
    requires Lru.Slot(c.KeyOf(req), e) in Run(c, Init(start), ls).store
    ensures req.path in c.specs && c.specs[req.path].ttl > 0
    ensures var spec := c.specs[req.path];
            if e.status == 404 then spec.negativeTtl > 0 && e.ttl == spec.negativeTtl && e.swr == 0
            else 200 <= e.status < 300 && e.ttl == spec.ttl && e.swr == spec.swr
    ensures e.created <= Run(c, Init(start), ls).now
  {
    RunKeepsLifetimes(c, start, ls);
    hide Wired, Run;
    assert DeclaredFor(c, req, Lru.Slot(c.KeyOf(req), e).entry);
  }

  /**
   What processing a reply does, in every reachable state: a 304 to a fetch with a previous entry renews that entry; a 404 of
   a method that declares it, and a success, are stored if their body can be read and is not too large; any other reply is
   handed on and not stored.
   */
  lemma ProcessStores(c: Config, start: int, ls: seq<Label>, f: nat)
    requires GoodDigest(c.digest)
    requires var s := Run(c, Init(start), ls); f < |s.flights| && s.flights[f].stage.Replied?
    ensures var s := Run(c, Init(start), ls);
            && s.flights[f].stage.index < |s.log| && s.flights[f].req.path in c.specs
            && var s', flight, spec := Next(c, s, Process(f)), s.flights[f], c.specs[s.flights[f].req.path];
            var resp := s.log[flight.stage.index].resp;
            var whole := resp.readable && |resp.body| <= if c.maxBody > 0 then c.maxBody else 1_048_576;
            var given := Entry(resp.headers, resp.etag, s.now, resp.body, 0, 0, resp.status);
            var e :=
              if resp.status == 304 && flight.prev.Some? then
                Some(flight.prev.value.(
                     created := s.now, ttl := spec.ttl, swr := spec.swr,
                     etag := if resp.etag != "" then resp.etag else flight.prev.value.etag))
              else if !whole then None
              else if resp.status == 404 && spec.negativeTtl > 0 then Some(given.(ttl := spec.negativeTtl))
              else if 200 <= resp.status < 300 then Some(given.(ttl := spec.ttl, swr := spec.swr))
              else None;
            && s'.store == (if e.None? then s.store else Lru.Set(s.store, c.KeyOf(flight.req), e.value, c.limits))
            && s'.flights[f].stage == Processed(if e.Some? then Fetched(e.value)
                                                else if whole then Fetched(given)
                                                else NotFetched)
  {
    hide Run, Lru.Set;
    RunWired(c, Init(start), ls);
    assert FlightWired(c, Run(c, Init(start), ls), f);
    hide Wired;
  }

  // ---------------------------------------------------------------- what is served

  /**
   What a lookup does, in every reachable state. The call that began at `now` is served the entry that the store has for its
   key, if that is within its TTL at `now`, or within TTL plus stale window of a method that has one, and the store has not
   yet given it up. Exactly in the second case it starts a refresh of its own request.
   */
  lemma ConsultMoves(c: Config, start: int, ls: seq<Label>, id: nat)
    requires var s := Run(c, Init(start), ls); id in s.callers && s.callers[id].phase.Looking?
    ensures var s := Run(c, Init(start), ls);
            var caller, s' := s.callers[id], Next(c, s, Consult(id));
            var now, found := caller.phase.now, Lru.Find(s.store, c.KeyOf(caller.req));
            var alive := found.Some? && s.now <= found.value.created + found.value.ttl + found.value.swr;
            var young := alive && now <= found.value.created + found.value.ttl;
            var stale := alive && found.value.created + found.value.ttl < now && found.value.swr > 0;
            && s'.callers[id].phase == (if young || stale then Served(found.value, true, s.now) else Missed(None))
            && s'.refreshes ==
               s.refreshes + (if stale then [Refresh(caller.req, caller.query, found.value)] else [])
            && s'.flights == s.flights && s'.group == s.group && s'.log == s.log
  {
    RunWired(c, Init(start), ls);
    var s := Run(c, Init(start), ls);
    assert CallerWired(c, s, s.callers[id]);
    hide Wired, Run, Lru.Find, Lru.Pushed, Lru.Drop;
  }

  /**
   The age of what is served. Without starting a refresh: a success no older than the declared TTL of the path, a 404 no older
   than the declared TTL for misses. With one: a success older than its TTL, and within its stale window.
   */
  lemma ServedIsYoung(c: Config, start: int, ls: seq<Label>, id: nat)
    requires GoodDigest(c.digest)
    requires var s := Run(c, Init(start), ls); id in s.callers && s.callers[id].phase.Looking?
    requires Next(c, Run(c, Init(start), ls), Consult(id)).callers[id].phase.Served?
    ensures var s := Run(c, Init(start), ls);
            var s' := Next(c, s, Consult(id));
            var req, e := s.callers[id].req, s'.callers[id].phase.entry;
            var age := s.callers[id].phase.now - e.created;
            && req.path in c.specs
            && var spec := c.specs[req.path];
            && (e.status == 404 || 200 <= e.status < 300)
            && (s'.refreshes == s.refreshes ==> age <= if e.status == 404 then spec.negativeTtl else spec.ttl)
            && (s'.refreshes != s.refreshes ==> e.status != 404 && spec.ttl < age <= spec.ttl + spec.swr)
  {
    ConsultMoves(c, start, ls, id);
    RunKeepsLifetimes(c, start, ls);
    var s := Run(c, Init(start), ls);
    var key := c.KeyOf(s.callers[id].req);
    assert CallerWired(c, s, s.callers[id]);
    hide Run, Wired, Next, Lru.Find;
    var i := Lru.FoundAt(s.store, key);
    assert s.store[i] in s.store;
  }

  /** What was served from the store earlier in a run was, at that moment, within TTL plus stale window of its path. */
  lemma ServedWithinLifetime(c: Config, start: int, ls: seq<Label>, id: nat)
    requires GoodDigest(c.digest)
    requires var s := Run(c, Init(start), ls);
             id in s.callers && s.callers[id].phase.Served? && s.callers[id].phase.fromStore
    ensures var caller := Run(c, Init(start), ls).callers[id];
            && caller.req.path in c.specs
            && var spec, e := c.specs[caller.req.path], caller.phase.entry;
            caller.phase.at - e.created <= if e.status == 404 then spec.negativeTtl else spec.ttl + spec.swr
  {
    RunKeepsLifetimes(c, start, ls);
    var s := Run(c, Init(start), ls);
    assert CallerWired(c, s, s.callers[id]);
    hide Run, Wired;
  }

  // ---------------------------------------------------------------- who asks the server

  ghost predicate UnderWay(s: State, req: Request, f: nat) {
    f < |s.flights| && s.flights[f].req == req && !s.flights[f].done
  }

  lemma GroupIsUnderWay(c: Config, s: State, req: Request)
    requires GoodDigest(c.digest) && Wired(c, s) && ColonFree(req.scope)
    ensures c.KeyOf(req) in s.group <==> exists f: nat :: UnderWay(s, req, f)
    ensures c.KeyOf(req) in s.group ==> UnderWay(s, req, s.group[c.KeyOf(req)])
  {
    if c.KeyOf(req) in s.group {
      var f := s.group[c.KeyOf(req)];
      assert FlightWired(c, s, f);
      SameKeySameRequest(c, req, s.flights[f].req);
      assert UnderWay(s, req, f);
    }
    if f: nat :| UnderWay(s, req, f) {
      assert FlightWired(c, s, f);
    }
  }

  /**
   A refresh asks the server exactly when no fetch for its request is under way, and then under the tag of the entry that it
   refreshes.
   */
  lemma RefreshAsks(c: Config, start: int, ls: seq<Label>, i: nat, resp: Response)
    requires GoodDigest(c.digest) && i < |Run(c, Init(start), ls).refreshes|
    ensures var s := Run(c, Init(start), ls);
            var r, s', f := s.refreshes[i], Next(c, s, JoinRefresh(i)), |s.flights|;
            if exists f: nat :: UnderWay(s, r.req, f) then s'.flights == s.flights
            else Next(c, s', ServerReplies(f, resp)).log ==
                 s.log + [Reply(r.req, r.query, resp, s.now, f, r.prev.etag)]
  {
    hide Run, UnderWay;
    RunWired(c, Init(start), ls);
    var s := Run(c, Init(start), ls);
    assert s.refreshes[i] in s.refreshes;
    GroupIsUnderWay(c, s, s.refreshes[i].req);
    hide Wired;
  }

  /** A call that missed waits for the fetch for its request that is under way; exactly if there is none it asks the server. */
  lemma MissAsks(c: Config, start: int, ls: seq<Label>, id: nat, resp: Response)
    requires GoodDigest(c.digest)
    requires var s := Run(c, Init(start), ls); id in s.callers && s.callers[id].phase.Missed?
    ensures var s := Run(c, Init(start), ls);
            var caller, s', f := s.callers[id], Next(c, s, Join(id)), |s.flights|;
            && s'.callers[id].phase.Waiting?
            && if exists f: nat :: UnderWay(s, caller.req, f) then
                 s'.flights == s.flights && UnderWay(s, caller.req, s'.callers[id].phase.flight)
               else
                 && s'.callers[id].phase.flight == f
                 && Next(c, s', ServerReplies(f, resp)).log ==
                    s.log + [Reply(caller.req, caller.query, resp, s.now, f, "")]
  {
    hide Run, UnderWay;
    RunWired(c, Init(start), ls);
    var s := Run(c, Init(start), ls);
    assert CallerWired(c, s, s.callers[id]);
    GroupIsUnderWay(c, s, s.callers[id].req);
    hide Wired;
  }

  /** A call of a cacheable method begins by reading the clock; one of another method does not come here. */
  lemma CallsBeginNow(c: Config, start: int, ls: seq<Label>, id: nat, req: Request, query: string)
    requires var s := Run(c, Init(start), ls); id !in s.callers && ColonFree(req.scope)
    ensures var s := Run(c, Init(start), ls);
            var s' := Next(c, s, Begin(id, req, query));
            if req.path in c.specs && c.specs[req.path].ttl > 0 then
              s'.callers == s.callers[id := Caller(req, query, Looking(s.now))]
            else s' == s
  {
    hide Run;
  }

  /** When the flight a call waits for has ended, the call gets its result, or fails with it. */
  lemma ResultsAreDelivered(c: Config, start: int, ls: seq<Label>, id: nat)
    requires GoodDigest(c.digest)
    requires var s := Run(c, Init(start), ls); id in s.callers && s.callers[id].phase.Waiting?
    ensures var s := Run(c, Init(start), ls);
            var f := s.callers[id].phase.flight;
            && f < |s.flights| && s.flights[f].req == s.callers[id].req
            && Next(c, s, Deliver(id)).callers[id].phase ==
               if !s.flights[f].done then s.callers[id].phase
               else match s.flights[f].stage
                 case Processed(Fetched(e)) => Served(e, false, s.now)
                 case _ => Failed
  {
    hide Run;
    RunWired(c, Init(start), ls);
    var s := Run(c, Init(start), ls);
    assert CallerWired(c, s, s.callers[id]);
    assert FlightWired(c, s, s.callers[id].phase.flight);
    SameKeySameRequest(c, s.callers[id].req, s.flights[s.callers[id].phase.flight].req);
    hide Wired;
  }

  /** The labels by which a call that missed gets its answer, and another call comes `elapsed` later. */
  function Asking(id: nat, f: nat, resp: Response): seq<Label> {
    [Join(id), ServerReplies(f, resp), Process(f)]
  }

  function Answered(id: nat, f: nat, elapsed: nat): seq<Label> {
    [Finish(f), Deliver(id), Tick(elapsed)]
  }

  /**
   What the cache is for. In every reachable state, when a call that missed asks the server and a readable success of
   admissible size comes, that call is served it, and so is a call for the same request within the declared TTL, from the
   store: the server is asked once.
   */
  lemma ReplyIsReused(c: Config, start: int, ls: seq<Label>, id: nat, resp: Response, next: nat, query: string, elapsed: nat)
    requires GoodDigest(c.digest) && c.limits.capacity >= 1
    requires var s := Run(c, Init(start), ls);
             && id in s.callers && s.callers[id].phase.Missed? && next !in s.callers
             && !(exists f: nat :: UnderWay(s, s.callers[id].req, f))
             && Cached(c, s.callers[id].req)
             && var spec := c.specs[s.callers[id].req.path];
             elapsed <= spec.ttl && elapsed <= spec.ttl + spec.swr
    requires 200 <= resp.status < 300 && resp.readable && |resp.body| <= c.MaxBody()
    ensures var s := Run(c, Init(start), ls);
            var f, req := |s.flights|, s.callers[id].req;
            var t := Run(c, s, Asking(id, f, resp) + Answered(id, f, elapsed) + [Begin(next, req, query), Consult(next)]);
            var spec := c.specs[req.path];
            var e := Entry(resp.headers, resp.etag, s.now, resp.body, spec.ttl, spec.swr, resp.status);
            && id in t.callers && t.callers[id].phase == Served(e, false, s.now)
            && next in t.callers && t.callers[next].phase == Served(e, true, s.now + elapsed)
            && |t.log| == |s.log| + 1 && t.refreshes == s.refreshes
  {
    RunWired(c, Init(start), ls);
    var s := Run(c, Init(start), ls);
    var f, req := |s.flights|, s.callers[id].req;
    assert CallerWired(c, s, s.callers[id]);
    GroupIsUnderWay(c, s, req);
    hide Run, Wired, UnderWay, Next;
    ReusedFrom(c, s, id, resp, next, query, elapsed);
  }

  lemma ReusedFrom(c: Config, s: State, id: nat, resp: Response, next: nat, query: string, elapsed: nat)
    requires c.limits.capacity >= 1 && id in s.callers && s.callers[id].phase == Missed(None) && next !in s.callers
    requires Cached(c, s.callers[id].req) && ColonFree(s.callers[id].req.scope) && c.KeyOf(s.callers[id].req) !in s.group
    requires var spec := c.specs[s.callers[id].req.path]; elapsed <= spec.ttl && elapsed <= spec.ttl + spec.swr
    requires 200 <= resp.status < 300 && resp.readable && |resp.body| <= c.MaxBody()
    ensures var f, req := |s.flights|, s.callers[id].req;
            var t := Run(c, s, Asking(id, f, resp) + Answered(id, f, elapsed) + [Begin(next, req, query), Consult(next)]);
            var spec := c.specs[req.path];
            var e := Entry(resp.headers, resp.etag, s.now, resp.body, spec.ttl, spec.swr, resp.status);
            && id in t.callers && t.callers[id].phase == Served(e, false, s.now)
            && next in t.callers && t.callers[next].phase == Served(e, true, s.now + elapsed)
            && |t.log| == |s.log| + 1 && t.refreshes == s.refreshes
  {
    hide Run, Next, Lru.Find;
    var f, req := |s.flights|, s.callers[id].req;
    RunThree(c, s, Join(id), ServerReplies(f, resp), Process(f));
    var t1 := Run(c, s, Asking(id, f, resp));
    ReplyIsStored(c, s, id, resp);
    RunThree(c, t1, Finish(f), Deliver(id), Tick(elapsed));
    var t2 := Run(c, t1, Answered(id, f, elapsed));
    var spec := c.specs[req.path];
    var e := Entry(resp.headers, resp.etag, s.now, resp.body, spec.ttl, spec.swr, resp.status);
    CallIsAnswered(c, t1, id, f, e, elapsed);
    RunTwo(c, t2, Begin(next, req, query), Consult(next));
    StoredIsServed(c, t2, next, req, query, e);
    RunConcat(c, s, Asking(id, f, resp), Answered(id, f, elapsed));
    RunConcat(c, s, Asking(id, f, resp) + Answered(id, f, elapsed), [Begin(next, req, query), Consult(next)]);
  }

  lemma ReplyIsStored(c: Config, s: State, id: nat, resp: Response)
    requires c.limits.capacity >= 1 && id in s.callers && s.callers[id].phase == Missed(None)
    requires Cached(c, s.callers[id].req) && c.KeyOf(s.callers[id].req) !in s.group
    requires 200 <= resp.status < 300 && resp.readable && |resp.body| <= c.MaxBody()
    ensures var req, f := s.callers[id].req, |s.flights|;
            var t := Next(c, Next(c, Next(c, s, Join(id)), ServerReplies(f, resp)), Process(f));
            var spec := c.specs[req.path];
            var e := Entry(resp.headers, resp.etag, s.now, resp.body, spec.ttl, spec.swr, resp.status);
            && t.callers == s.callers[id := s.callers[id].(phase := Waiting(f))] && t.now == s.now
            && |t.flights| == f + 1 && t.flights[f].stage == Processed(Fetched(e)) && !t.flights[f].done
            && Lru.Find(t.store, c.KeyOf(req)) == Some(e) && |t.log| == |s.log| + 1 && t.refreshes == s.refreshes
  {
    var req, f := s.callers[id].req, |s.flights|;
    var spec := c.specs[req.path];
    var e := Entry(resp.headers, resp.etag, s.now, resp.body, spec.ttl, spec.swr, resp.status);
    NewestIsFound(s.store, c.KeyOf(req), e, c.limits);
    hide Lru.Set, Lru.Find;
  }

  lemma NewestIsFound(store: Lru.Slots, key: Key, e: Entry, limits: Lru.Limits)
    requires limits.capacity >= 1
    ensures Lru.Find(Lru.Set(store, key, e, limits), key) == Some(e)
  {
    Lru.TrimIsLongestFit(Lru.Pushed(store, key, e), limits);
  }

  lemma CallIsAnswered(c: Config, t: State, id: nat, f: nat, e: Entry, elapsed: nat)
    requires id in t.callers && t.callers[id].phase == Waiting(f) && f < |t.flights| && !t.flights[f].done
    requires t.flights[f].stage == Processed(Fetched(e))
    ensures var u := Next(c, Next(c, Next(c, t, Finish(f)), Deliver(id)), Tick(elapsed));
            && u.callers == t.callers[id := t.callers[id].(phase := Served(e, false, t.now))]
            && u.now == t.now + elapsed && u.store == t.store && u.log == t.log && u.refreshes == t.refreshes
  {
  }

  lemma StoredIsServed(c: Config, t: State, id: nat, req: Request, query: string, e: Entry)
    requires id !in t.callers && Cached(c, req) && ColonFree(req.scope) && Lru.Find(t.store, c.KeyOf(req)) == Some(e)
    requires t.now <= e.created + e.ttl && t.now <= e.created + e.ttl + e.swr
    ensures var u := Next(c, Next(c, t, Begin(id, req, query)), Consult(id));
            && u.callers == t.callers[id := Caller(req, query, Served(e, true, t.now))]
            && u.log == t.log && u.refreshes == t.refreshes
  {
    hide Lru.Find, Lru.Pushed;
  }
}
