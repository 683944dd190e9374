/**
 The prefetching iterator: a producer and a consumer over a bounded channel, in every interleaving, with external
 cancellation and early stop. A run is any sequence of labels; a label that is not enabled changes nothing.
 */
module Prefetch {
  import opened Wrappers
  import opened Pagination

  /** `bad` marks the error page that a fetch may return once its context is cancelled. */
  datatype Producer =
    | Fetching(k: nat, token: string)
    | Sending(k: nat, page: Page, bad: bool)
    | Closed

  datatype Outcome = Exhausted | GotError | Stopped

  datatype Consumer = Receiving | Yielding(items: seq<Value>) | Done(how: Outcome)

  datatype State = State(
    producer: Producer,
    channel: seq<Page>,
    consumer: Consumer,
    cancelled: bool,
    external: bool,
    out: seq<Event>,
    started: nat,
    received: nat)

  datatype Label =
    | FetchReturns(spoiled: Option<Failure>)
    | Send
    | GiveUp
    | Receive
    | RangeEnds
    | Yield(stop: bool)
    | Cancel

  function Init(): State {
    State(Fetching(0, ""), [], Receiving, false, false, [], 1, 0)
  }

  /** The consumer returns, which cancels the producer's context. */
  function Return(s: State, how: Outcome): State {
    s.(consumer := Done(how), cancelled := true)
  }

  function Next(fetch: Fetch, lookahead: nat, s: State, l: Label): State {
    match l
    case FetchReturns(spoiled) =>
      if !s.producer.Fetching? then s
      else if spoiled.Some? && s.cancelled then
        s.(producer := Sending(s.producer.k, Page([], "", spoiled), true))
      else
        s.(producer := Sending(s.producer.k, fetch(s.producer.k, s.producer.token), false))
    case Send =>
      if !(s.producer.Sending? && |s.channel| < lookahead) then s
      else
        var s' := s.(channel := s.channel + [s.producer.page]);
        if Ends(s.producer.page) then s'.(producer := Closed)
        else s'.(producer := Fetching(s.producer.k + 1, s.producer.page.next), started := s.started + 1)
    case GiveUp =>
      if s.producer.Sending? && s.cancelled then s.(producer := Closed) else s
    case Receive =>
      if !(s.consumer.Receiving? && s.channel != []) then s
      else
        var p := s.channel[0];
        var s' := s.(channel := s.channel[1..], received := s.received + 1);
        if p.err.Some? then Return(s'.(out := s.out + [Error(p.err.value)]), GotError)
        else s'.(consumer := Yielding(p.items))
    case RangeEnds =>
      if s.consumer.Receiving? && s.channel == [] && s.producer.Closed? then Return(s, Exhausted) else s
    case Yield(stop) =>
      if !s.consumer.Yielding? then s
      else if s.consumer.items == [] then s.(consumer := Receiving)
      else
        var s' := s.(out := s.out + [Item(s.consumer.items[0])]);
        if stop then Return(s', Stopped) else s'.(consumer := Yielding(s.consumer.items[1..]))
    case Cancel => s.(cancelled := true, external := true)
  }

  function Run(fetch: Fetch, lookahead: nat, s: State, ls: seq<Label>): State {
    if ls == [] then s else Next(fetch, lookahead, Run(fetch, lookahead, s, ls[..|ls| - 1]), ls[|ls| - 1])
  }

  // ---------------------------------------------------------------- conservation

  function Flat(pages: seq<Page>): seq<Event> {
    if pages == [] then [] else PageEvents(pages[0]) + Flat(pages[1..])
  }

  lemma {:induction false} FlatSnoc(pages: seq<Page>, p: Page)
    ensures Flat(pages + [p]) == Flat(pages) + PageEvents(p)
  {
    if pages == [] {
      assert pages + [p] == [p];
    } else {
      assert (pages + [p])[1..] == pages[1..] + [p];
      FlatSnoc(pages[1..], p);
    }
  }

  function Pending(c: Consumer): seq<Event> {
    if c.Yielding? then Items(c.items) else []
  }

  function InHand(p: Producer): seq<Event> {
    if p.Sending? then PageEvents(p.page) else []
  }

  /** Everything yielded, being yielded, buffered or about to be sent. */
  function Stream(s: State): seq<Event> {
    s.out + (Pending(s.consumer) + (Flat(s.channel) + InHand(s.producer)))
  }

  /**
   `all` is what the first `n` pages yield, possibly followed by one error, which takes a cancelled context. `whole`
   says that these are all the pages there are.
   */
  ghost predicate Faithful(fetch: Fetch, all: seq<Event>, n: nat, whole: bool, cancelled: bool) {
    && (if whole then LastPage(fetch, n) else Unfinished(fetch, n))
    && (all == Yields(fetch, n) ||
        (cancelled && |all| > 0 && all[|all| - 1].Error? && all[..|all| - 1] == Yields(fetch, n)))
  }

  /** What a consumer that has returned saw: the beginning of some faithful stream. */
  ghost predicate FaithfulStart(fetch: Fetch, out: seq<Event>, cancelled: bool) {
    exists all, n, whole :: out <= all && Faithful(fetch, all, n, whole, cancelled)
  }

  /** The producer has ended: nothing is missing, unless the context was cancelled. */
  ghost predicate AllSent(fetch: Fetch, stream: seq<Event>, external: bool) {
    exists n, whole :: Faithful(fetch, stream, n, whole, external) && (whole || external)
  }

  ghost predicate ProducerInv(fetch: Fetch, s: State) {
    match s.producer
    case Fetching(k, token) =>
      && token == Token(fetch, k) && Unfinished(fetch, k)
      && s.started == k + 1 && s.received + |s.channel| == k
    case Sending(k, page, bad) =>
      && Unfinished(fetch, k) && s.started == k + 1 && s.received + |s.channel| == k
      && (if bad then s.cancelled && page.items == [] && page.next == "" && page.err.Some? else page == PageAt(fetch, k))
    case Closed =>
      s.started <= s.received + |s.channel| + 1
  }

  /** While the consumer is at work, nothing is lost, repeated or reordered. */
  ghost predicate StreamInv(fetch: Fetch, s: State) {
    match s.producer
    case Fetching(k, _) => Stream(s) == Yields(fetch, k)
    case Sending(k, page, bad) => Stream(s) == Yields(fetch, k) + PageEvents(page)
    case Closed => AllSent(fetch, Stream(s), s.external)
  }

  ghost predicate Inv(fetch: Fetch, lookahead: nat, s: State) {
    && lookahead >= 1 && |s.channel| <= lookahead
    && ProducerInv(fetch, s)
    && (s.cancelled <==> s.external || s.consumer.Done?)
    && (if s.consumer.Done? then FaithfulStart(fetch, s.out, s.external) else StreamInv(fetch, s))
    && (s.consumer.Done? && s.consumer.how != Stopped && !s.external ==> Complete(fetch, s.out))
  }

  ghost predicate Complete(fetch: Fetch, out: seq<Event>) {
    exists n :: LastPage(fetch, n) && out == Yields(fetch, n)
  }
}
