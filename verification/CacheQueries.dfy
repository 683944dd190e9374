/**
 Requests whose URL queries differ. The cache never looks at the query, so in Connect's GET mode, which carries the message
 there, one message can be answered with the reply to another: exactly when two cacheable requests differ in nothing else.
 */
module CacheQueries {
  import opened Wrappers
  import opened CacheEntries
  import opened CacheKeys
  import opened CachingTransport
  import opened CacheProtocol
  import opened CacheCoherence
  import opened CacheInvalidation
  import Lru

  predicate Cacheable(c: Config, a: HttpRequest) {
    Cached(c, a.target) && ColonFree(a.target.scope)
  }

  /** All calls of the run come from these requests. */
  predicate OnlyIssues(ls: seq<Label>, issued: set<HttpRequest>) {
    forall i | 0 <= i < |ls| && ls[i].Begin? :: HttpRequest(ls[i].req, ls[i].query) in issued
  }

  /** No two cacheable requests of the set differ in their query alone. */
  ghost predicate QueriesSettled(c: Config, issued: set<HttpRequest>) {
    forall a, b | a in issued && b in issued && Cacheable(c, a) && a.target == b.target :: a.query == b.query
  }

  /** If the call has been served, then from replies to its own message. */
  ghost predicate OwnMessage(s: State, id: nat) {
    id in s.callers && s.callers[id].phase.Served? ==>
      AnswersOf(s.log, s.callers[id].req, s.callers[id].query, s.callers[id].phase.entry)
  }

  ghost predicate AnswersOf(log: seq<Reply>, req: Request, query: string, e: Entry) {
    exists chain :: Origin(log, req, e, chain) && AllTo(log, query, chain)
  }

  ghost predicate AllTo(log: seq<Reply>, query: string, chain: seq<nat>) {
    forall k | 0 <= k < |chain| :: chain[k] < |log| && log[chain[k]].query == query
  }

  /**
   Over all runs that issue only these requests, every call is served from replies to its own message, if and only if no
   two cacheable ones of them have the same scope, path and body but different queries.
   */
  lemma QueriesMatterIff(c: Config, start: int, issued: set<HttpRequest>)
    requires GoodDigest(c.digest)
    ensures (forall ls, id | OnlyIssues(ls, issued) :: OwnMessage(Run(c, Init(start), ls), id)) <==>
            QueriesSettled(c, issued)
  {
    hide Run, Init, OwnMessage, OnlyIssues;
    if QueriesSettled(c, issued) {
      forall ls, id | OnlyIssues(ls, issued) ensures OwnMessage(Run(c, Init(start), ls), id) {
        ServedOwnMessage(c, start, issued, ls, id);
      }
    } else {
      var a, b :| a in issued && b in issued && Cacheable(c, a) && a.target == b.target && a.query != b.query;
      var ls := OtherMessageServed(c, start, a, b);
      TheseIssued(ls, issued, a, b);
      assert !OwnMessage(Run(c, Init(start), ls), 1);
    }
  }

  // ---------------------------------------------------------------- one query for each target

  predicate FromIssued(c: Config, issued: set<HttpRequest>, req: Request, query: string) {
    HttpRequest(req, query) in issued && Cacheable(c, HttpRequest(req, query))
  }

  ghost predicate IssuedInv(c: Config, s: State, issued: set<HttpRequest>) {
    && (forall id | id in s.callers :: FromIssued(c, issued, s.callers[id].req, s.callers[id].query))
    && (forall r | r in s.refreshes :: FromIssued(c, issued, r.req, r.query))
    && (forall f | 0 <= f < |s.flights| :: FromIssued(c, issued, s.flights[f].req, s.flights[f].query))
    && (forall i | 0 <= i < |s.log| :: FromIssued(c, issued, s.log[i].req, s.log[i].query))
  }

  lemma NextIssued(c: Config, s: State, l: Label, issued: set<HttpRequest>)
    requires IssuedInv(c, s, issued)
    requires l.Begin? ==> HttpRequest(l.req, l.query) in issued
    ensures IssuedInv(c, Next(c, s, l), issued)
  {
    hide IssuedInv, Next, FromIssued;
    match l
    case Begin(_, _, _) => BeginIssued(c, s, l, issued);
    case Consult(_) => CallIssued(c, s, l, issued);
    case Join(_) => CallIssued(c, s, l, issued);
    case Deliver(_) => CallIssued(c, s, l, issued);
    case JoinRefresh(i) => RefreshIssued(c, s, i, issued);
    case _ => FlightIssued(c, s, l, issued);
  }

  lemma CallIssued(c: Config, s: State, l: Label, issued: set<HttpRequest>)
    requires IssuedInv(c, s, issued) && (l.Consult? || l.Join? || l.Deliver?)
    ensures IssuedInv(c, Next(c, s, l), issued)
  {
    hide Lru.Get, Decide, FromIssued;
  }

  lemma RefreshIssued(c: Config, s: State, i: nat, issued: set<HttpRequest>)
    requires IssuedInv(c, s, issued)
    ensures IssuedInv(c, Next(c, s, JoinRefresh(i)), issued)
  {
    hide FromIssued;
    if i < |s.refreshes| {
      assert s.refreshes[i] in s.refreshes;
      assert forall r | r in s.refreshes[..i] + s.refreshes[i + 1..] :: r in s.refreshes;
    }
  }

  lemma FlightIssued(c: Config, s: State, l: Label, issued: set<HttpRequest>)
    requires IssuedInv(c, s, issued)
    requires !l.Begin? && !l.Consult? && !l.Join? && !l.Deliver? && !l.JoinRefresh?
    ensures IssuedInv(c, Next(c, s, l), issued)
  {
    hide Lru.Set, Lru.Drop, ResultOf, FromIssued;
  }

  lemma BeginIssued(c: Config, s: State, l: Label, issued: set<HttpRequest>)
    requires IssuedInv(c, s, issued) && l.Begin? && HttpRequest(l.req, l.query) in issued
    ensures IssuedInv(c, Next(c, s, l), issued)
  {
  }

  lemma {:induction false} RunIssued(c: Config, start: int, ls: seq<Label>, issued: set<HttpRequest>)
    requires OnlyIssues(ls, issued)
    ensures IssuedInv(c, Run(c, Init(start), ls), issued)
  {
    hide Next;
    if ls != [] {
      RunIssued(c, start, ls[..|ls| - 1], issued);
      hide IssuedInv;
      NextIssued(c, Run(c, Init(start), ls[..|ls| - 1]), ls[|ls| - 1], issued);
    }
  }

  lemma {:induction false} ChainReplies(log: seq<Reply>, req: Request, chain: seq<nat>)
    requires Chain(log, req, chain)
    ensures forall k | 0 <= k < |chain| :: chain[k] < |log| && log[chain[k]].req == req
  {
    if |chain| > 1 {
      ChainReplies(log, req, chain[..|chain| - 1]);
      assert forall k | 0 <= k < |chain| - 1 :: chain[..|chain| - 1][k] == chain[k];
    }
  }

  lemma ServedOwnMessage(c: Config, start: int, issued: set<HttpRequest>, ls: seq<Label>, id: nat)
    requires GoodDigest(c.digest) && OnlyIssues(ls, issued) && QueriesSettled(c, issued)
    ensures OwnMessage(Run(c, Init(start), ls), id)
  {
    RunIssued(c, start, ls, issued);
    var s := Run(c, Init(start), ls);
    if id in s.callers && s.callers[id].phase.Served? {
      ServedIsVouched(c, start, ls, id);
      hide Run, Init;
      var caller := s.callers[id];
      var chain :| Origin(s.log, caller.req, caller.phase.entry, chain) && Recent(s.log, chain, EVER);
      ChainReplies(s.log, caller.req, chain);
      hide Origin, Recent;
      forall k | 0 <= k < |chain| ensures s.log[chain[k]].query == caller.query {
        SameQuery(c, s, issued, caller, chain[k]);
      }
      assert AllTo(s.log, caller.query, chain);
    }
  }

  lemma SameQuery(c: Config, s: State, issued: set<HttpRequest>, caller: Caller, i: nat)
    requires QueriesSettled(c, issued) && IssuedInv(c, s, issued) && i < |s.log| && s.log[i].req == caller.req
    requires FromIssued(c, issued, caller.req, caller.query)
    ensures s.log[i].query == caller.query
  {
    var a, b := HttpRequest(s.log[i].req, s.log[i].query), HttpRequest(caller.req, caller.query);
    assert FromIssued(c, issued, s.log[i].req, s.log[i].query);
    assert a.target == b.target;
  }

  // ---------------------------------------------------------------- two queries for one target

  /** The second call joins the flight of the first and is served the reply to the first one's message. */
  function JoinedCalls(a: HttpRequest, b: HttpRequest): seq<Label> {
    [Begin(0, a.target, a.query), Consult(0), Join(0)] + [Begin(1, a.target, b.query), Consult(1), Join(1)] +
    [ServerReplies(0, Response(200, [], "", [], true)), Process(0), Finish(0)] + [Deliver(1)]
  }

  lemma TheseIssued(ls: seq<Label>, issued: set<HttpRequest>, a: HttpRequest, b: HttpRequest)
    requires a in issued && b in issued && a.target == b.target && ls == JoinedCalls(a, b)
    ensures OnlyIssues(ls, issued)
  {
  }

  lemma OtherMessageServed(c: Config, start: int, a: HttpRequest, b: HttpRequest) returns (ls: seq<Label>)
    requires GoodDigest(c.digest) && Cacheable(c, a) && a.target == b.target && a.query != b.query
    ensures ls == JoinedCalls(a, b) && !OwnMessage(Run(c, Init(start), ls), 1)
  {
    hide Run, Next, Init, AnswersOf;
    var first := [Begin(0, a.target, a.query), Consult(0), Join(0)];
    var second := [Begin(1, a.target, b.query), Consult(1), Join(1)];
    var reply := Response(200, [], "", [], true);
    ls := JoinedCalls(a, b);
    RunThree(c, Init(start), first[0], first[1], first[2]);
    FirstCallJoins(c, start, a.target, a.query);
    var s := Run(c, Init(start), first);
    StartWired(c, start);
    RunWired(c, Init(start), first);
    CallWaits(c, s, 0, 1, b.query);
    RunConcat(c, Init(start), first, second);
    var t := Run(c, Init(start), first + second);
    FlightAnswers(c, t, reply, a);
    RunThree(c, t, ServerReplies(0, reply), Process(0), Finish(0));
    RunConcat(c, Init(start), first + second, [ServerReplies(0, reply), Process(0), Finish(0)]);
    var u := Run(c, t, [ServerReplies(0, reply), Process(0), Finish(0)]);
    DeliverServes(c, u, 1);
    RunOne(c, u, Deliver(1));
    RunConcat(c, Init(start), first + second + [ServerReplies(0, reply), Process(0), Finish(0)], [Deliver(1)]);
    var w := Next(c, u, Deliver(1));
    OnlyReplyToOther(w.log, w.callers[1].req, b.query, w.callers[1].phase.entry);
  }

  lemma StartWired(c: Config, start: int)
    ensures Wired(c, Init(start))
  {
  }

  /** The only flight is answered, with one reply in the log. */
  lemma FlightAnswers(c: Config, t: State, reply: Response, a: HttpRequest)
    requires t.log == [] && t.flights == [Flight(a.target, a.query, None, Sent, false)] && Cacheable(c, a)
    requires reply == Response(200, [], "", [], true)
    ensures var u := Next(c, Next(c, Next(c, t, ServerReplies(0, reply)), Process(0)), Finish(0));
            && u.callers == t.callers && |u.log| == 1 && u.log[0].query == a.query
            && |u.flights| == 1 && u.flights[0].done && u.flights[0].stage.Processed?
            && u.flights[0].stage.result.Fetched?
  {
    hide Lru.Set;
  }

  lemma OnlyReplyToOther(log: seq<Reply>, req: Request, query: string, e: Entry)
    requires |log| == 1 && log[0].query != query
    ensures !AnswersOf(log, req, query, e)
  {
    forall chain: seq<nat> | Origin(log, req, e, chain) ensures !AllTo(log, query, chain) {
      assert chain[0] == 0;
    }
  }
}
