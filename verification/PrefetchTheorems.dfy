/**
 Theorems about every schedule of the prefetching iterator: it yields what the sequential iterator yields, it never gets
 stuck, it terminates when the pages do, and it runs at most `lookahead + 1` pages ahead.
 */
module PrefetchTheorems {
  import opened Wrappers
  import opened Pagination
  import opened Prefetch

  lemma StreamFaithful(fetch: Fetch, lookahead: nat, s: State) returns (n: nat, whole: bool)
    requires Inv(fetch, lookahead, s) && !s.consumer.Done?
    ensures Faithful(fetch, Stream(s), n, whole, s.external)
    ensures s.producer.Closed? || (s.producer.Sending? && Ends(s.producer.page)) ==> whole || s.external
  {
    hide PageAt, Stream, Token;
    match s.producer
    case Fetching(k, _) => n, whole := k, false;
    case Sending(k, page, bad) =>
      if bad {
        n, whole := k, false;
      } else {
        n, whole := k + 1, Ends(page);
      }
    case Closed =>
      n, whole :| Faithful(fetch, Stream(s), n, whole, s.external) && (whole || s.external);
  }

  lemma StartOf(fetch: Fetch, out: seq<Event>, all: seq<Event>, n: nat, whole: bool, cancelled: bool)
    requires out <= all && Faithful(fetch, all, n, whole, cancelled)
    ensures FaithfulStart(fetch, out, cancelled)
  {
  }

  /** An error among the events of the pages is the last event of the last page. */
  lemma ErrorEndsPages(fetch: Fetch, out: seq<Event>, e: Event, n: nat, whole: bool)
    requires if whole then LastPage(fetch, n) else Unfinished(fetch, n)
    requires e.Error? && out + [e] <= Yields(fetch, n)
    ensures LastPage(fetch, n) && out + [e] == Yields(fetch, n)
  {
    var m := if whole then n - 1 else n;
    YieldsOnlyItems(fetch, m);
    assert Yields(fetch, n)[|out|] == e;
  }

  // ---------------------------------------------------------------- every step keeps the invariant

  lemma FetchKeeps(fetch: Fetch, lookahead: nat, s: State, spoiled: Option<Failure>)
    requires Inv(fetch, lookahead, s)
    ensures Inv(fetch, lookahead, Next(fetch, lookahead, s, FetchReturns(spoiled)))
  {
    hide Token, Yields, Ends, FaithfulStart, Complete, AllSent, Unfinished, Items, Stream;
    if s.producer.Fetching? {
      var s' := Next(fetch, lookahead, s, FetchReturns(spoiled));
      StreamWithPage(s, s');
    }
  }

  lemma StreamWithPage(s: State, s': State)
    requires s.producer.Fetching? && s'.producer.Sending?
    requires s'.out == s.out && s'.consumer == s.consumer && s'.channel == s.channel
    ensures Stream(s') == Stream(s) + PageEvents(s'.producer.page)
  {
  }

  lemma SendKeeps(fetch: Fetch, lookahead: nat, s: State)
    requires Inv(fetch, lookahead, s)
    ensures Inv(fetch, lookahead, Next(fetch, lookahead, s, Send))
  {
    hide FaithfulStart, Complete, LastPage, Items, PageEvents, Stream;
    var s' := Next(fetch, lookahead, s, Send);
    if s' != s && !s.consumer.Done? {
      StreamAfterSend(s, s');
      if s'.producer.Closed? {
        var n, whole := StreamFaithful(fetch, lookahead, s);
        assert Faithful(fetch, Stream(s'), n, whole, s'.external) && (whole || s'.external);
      }
    }
  }

  lemma StreamAfterSend(s: State, s': State)
    requires s.producer.Sending? && s'.channel == s.channel + [s.producer.page] && !s'.producer.Sending?
    requires s'.out == s.out && s'.consumer == s.consumer
    ensures Stream(s') == Stream(s)
  {
    FlatSnoc(s.channel, s.producer.page);
  }

  lemma SameFront(a: seq<Event>, b: seq<Event>, tail: seq<Event>)
    requires a + tail == b + tail
    ensures a == b
  {
    assert |a| == |b|;
    assert a == (a + tail)[..|a|] == (b + tail)[..|b|] == b;
  }

  lemma GiveUpKeeps(fetch: Fetch, lookahead: nat, s: State)
    requires Inv(fetch, lookahead, s)
    ensures Inv(fetch, lookahead, Next(fetch, lookahead, s, GiveUp))
  {
    hide PageAt, FaithfulStart, Complete, Unfinished, PageEvents, LastPage, Stream;
    var s' := Next(fetch, lookahead, s, GiveUp);
    if s' != s && !s.consumer.Done? {
      StreamWithoutPage(s, s');
      SameFront(Stream(s'), Yields(fetch, s.producer.k), PageEvents(s.producer.page));
      hide Yields;
      assert Faithful(fetch, Stream(s'), s.producer.k, false, s'.external);
    }
  }

  lemma StreamWithoutPage(s: State, s': State)
    requires s.producer.Sending? && s' == s.(producer := Closed)
    ensures Stream(s) == Stream(s') + PageEvents(s.producer.page)
  {
  }

  lemma StreamSplits(s: State)
    requires s.consumer.Receiving? && s.channel != []
    ensures Stream(s) == (s.out + PageEvents(s.channel[0])) + (Flat(s.channel[1..]) + InHand(s.producer))
  {
    Regroup(s.out, PageEvents(s.channel[0]), Flat(s.channel[1..]), InHand(s.producer));
  }

  lemma Regroup(a: seq<Event>, b: seq<Event>, c: seq<Event>, d: seq<Event>)
    ensures a + ([] + ((b + c) + d)) == (a + b) + (c + d)
  {
  }

  lemma ReceiveKeeps(fetch: Fetch, lookahead: nat, s: State)
    requires Inv(fetch, lookahead, s)
    ensures Inv(fetch, lookahead, Next(fetch, lookahead, s, Receive))
  {
    hide PageAt, Yields, Ends, FaithfulStart, Complete, AllSent, Unfinished, Items, PageEvents, Stream;
    var s' := Next(fetch, lookahead, s, Receive);
    if s' != s {
      if s.channel[0].err.Some? {
        ReceivedError(fetch, lookahead, s);
      } else {
        StreamAfterReceive(s, s');
      }
    }
  }

  lemma StreamAfterReceive(s: State, s': State)
    requires s.consumer.Receiving? && s.channel != [] && s.channel[0].err.None?
    requires s' == s.(channel := s.channel[1..], consumer := Yielding(s.channel[0].items), received := s.received + 1)
    ensures Stream(s') == Stream(s)
  {
    StreamSplits(s);
    hide Items, Flat;
  }

  lemma ReceivedError(fetch: Fetch, lookahead: nat, s: State)
    requires Inv(fetch, lookahead, s) && s.consumer.Receiving? && s.channel != [] && s.channel[0].err.Some?
    ensures var out := s.out + [Error(s.channel[0].err.value)];
            FaithfulStart(fetch, out, s.external) && (!s.external ==> Complete(fetch, out))
  {
    StreamSplits(s);
    var n, whole := StreamFaithful(fetch, lookahead, s);
    hide Inv;
    var e := Error(s.channel[0].err.value);
    assert s.out + [e] <= Stream(s);
    StartOf(fetch, s.out + [e], Stream(s), n, whole, s.external);
    if !s.external {
      ErrorEndsPages(fetch, s.out, e, n, whole);
    }
  }

  lemma RangeEndsKeeps(fetch: Fetch, lookahead: nat, s: State)
    requires Inv(fetch, lookahead, s)
    ensures Inv(fetch, lookahead, Next(fetch, lookahead, s, RangeEnds))
  {
    var s' := Next(fetch, lookahead, s, RangeEnds);
    if s' != s {
      assert Stream(s) == s.out;
      var n, whole := StreamFaithful(fetch, lookahead, s);
      StartOf(fetch, s.out, s.out, n, whole, s.external);
    }
  }

  lemma YieldKeepsStream(s: State, s': State)
    requires s.consumer.Yielding? && s.channel == s'.channel && s.producer == s'.producer
    requires if s.consumer.items == [] then s'.consumer.Receiving? && s'.out == s.out
             else s'.consumer == Yielding(s.consumer.items[1..]) && s'.out == s.out + [Item(s.consumer.items[0])]
    ensures Stream(s') == Stream(s)
  {
  }

  lemma YieldKeeps(fetch: Fetch, lookahead: nat, s: State, stop: bool)
    requires Inv(fetch, lookahead, s)
    ensures Inv(fetch, lookahead, Next(fetch, lookahead, s, Yield(stop)))
  {
    if s.consumer.Yielding? {
      var on := Next(fetch, lookahead, s, Yield(false));
      YieldKeepsStream(s, on);
      if stop && s.consumer.items != [] {
        var n, whole := StreamFaithful(fetch, lookahead, s);
        assert on.out <= Stream(on);
        StartOf(fetch, on.out, Stream(s), n, whole, s.external);
      }
    }
  }

  lemma CancelKeeps(fetch: Fetch, lookahead: nat, s: State)
    requires Inv(fetch, lookahead, s)
    ensures Inv(fetch, lookahead, Next(fetch, lookahead, s, Cancel))
  {
    var s' := Next(fetch, lookahead, s, Cancel);
    if s.consumer.Done? {
      var all, n, whole :| s.out <= all && Faithful(fetch, all, n, whole, s.external);
      StartOf(fetch, s.out, all, n, whole, s'.external);
    } else {
      var n, whole := StreamFaithful(fetch, lookahead, s);
      assert Faithful(fetch, Stream(s'), n, whole, s'.external);
    }
  }

  lemma {:induction false} RunKeeps(fetch: Fetch, lookahead: nat, ls: seq<Label>)
    requires lookahead >= 1
    ensures Inv(fetch, lookahead, Run(fetch, lookahead, Init(), ls))
  {
    if ls != [] {
      RunKeeps(fetch, lookahead, ls[..|ls| - 1]);
      NextKeeps(fetch, lookahead, Run(fetch, lookahead, Init(), ls[..|ls| - 1]), ls[|ls| - 1]);
    } else {
      assert Stream(Init()) == [] == Yields(fetch, 0);
    }
  }

  lemma NextKeeps(fetch: Fetch, lookahead: nat, s: State, l: Label)
    requires Inv(fetch, lookahead, s)
    ensures Inv(fetch, lookahead, Next(fetch, lookahead, s, l))
  {
    hide Inv, Next;
    match l
    case FetchReturns(spoiled) => FetchKeeps(fetch, lookahead, s, spoiled);
    case Send => SendKeeps(fetch, lookahead, s);
    case GiveUp => GiveUpKeeps(fetch, lookahead, s);
    case Receive => ReceiveKeeps(fetch, lookahead, s);
    case RangeEnds => RangeEndsKeeps(fetch, lookahead, s);
    case Yield(stop) => YieldKeeps(fetch, lookahead, s, stop);
    case Cancel => CancelKeeps(fetch, lookahead, s);
  }

  // ---------------------------------------------------------------- what is yielded

  lemma OutIsFaithful(fetch: Fetch, lookahead: nat, ls: seq<Label>)
    requires lookahead >= 1
    ensures var s := Run(fetch, lookahead, Init(), ls); FaithfulStart(fetch, s.out, s.external)
  {
    RunKeeps(fetch, lookahead, ls);
    var s := Run(fetch, lookahead, Init(), ls);
    if !s.consumer.Done? {
      var n, whole := StreamFaithful(fetch, lookahead, s);
      StartOf(fetch, s.out, Stream(s), n, whole, s.external);
    }
  }

  /**
   Every schedule over every listing, endless ones too, at every moment, also under external cancellation: what has been
   yielded is the beginning of what the sequential iterator yields from `n` pages, none before the last of which ends the
   listing, except that after a cancellation one last event may be an error.
   */
  lemma YieldsAPrefix(fetch: Fetch, lookahead: nat, ls: seq<Label>) returns (n: nat)
    requires lookahead >= 1
    ensures n >= 1 && Unfinished(fetch, n - 1)
    ensures var s := Run(fetch, lookahead, Init(), ls);
            || s.out <= Yields(fetch, n)
            || (s.external && s.out != [] && s.out[|s.out| - 1].Error? && s.out[..|s.out| - 1] <= Yields(fetch, n))
  {
    hide *;
    OutIsFaithful(fetch, lookahead, ls);
    var s := Run(fetch, lookahead, Init(), ls);
    n := PagesOf(fetch, s.out, s.external);
  }

  lemma PagesOf(fetch: Fetch, out: seq<Event>, external: bool) returns (n: nat)
    requires FaithfulStart(fetch, out, external)
    ensures n >= 1 && Unfinished(fetch, n - 1)
    ensures out <= Yields(fetch, n) ||
            (external && out != [] && out[|out| - 1].Error? && out[..|out| - 1] <= Yields(fetch, n))
  {
    hide PageAt, Yields, Ends;
    var all, m: nat, whole :| out <= all && Faithful(fetch, all, m, whole, external);
    n := if m == 0 then 1 else m;
    YieldsGrow(fetch, m, n);
    PrefixOrError(out, all, Yields(fetch, m), Yields(fetch, n));
  }

  lemma PrefixOrError(out: seq<Event>, all: seq<Event>, pages: seq<Event>, total: seq<Event>)
    requires out <= all && pages <= total
    ensures all == pages ==> out <= total
    ensures |all| > 0 && all[|all| - 1].Error? && all[..|all| - 1] == pages ==>
              out <= total || (out != [] && out[|out| - 1].Error? && out[..|out| - 1] <= total)
  {
    if |all| > 0 {
      if |out| < |all| {
        assert out <= all[..|all| - 1];
      } else {
        assert out == all;
      }
    }
  }

  /**
   Refinement, over every listing. Without external cancellation, a consumer that ran to the end saw exactly what the
   sequential iterator yields, and one that stopped after some events saw exactly what the sequential iterator yields to
   a consumer that stops there.
   */
  lemma YieldsWhatIterYields(fetch: Fetch, lookahead: nat, ls: seq<Label>, unused: Failure) returns (n: nat)
    requires lookahead >= 1
    requires var s := Run(fetch, lookahead, Init(), ls); !s.external && s.consumer.Done?
    ensures var s := Run(fetch, lookahead, Init(), ls);
            var stop := if s.consumer.how == Stopped then Some(|s.out|) else None;
            && (stop.Some? ==> stop.value >= 1)
            && Suffices(fetch, n, stop, None)
            && s.out == Seen(Total(fetch, n, None, unused), stop)
  {
    var s := Run(fetch, lookahead, Init(), ls);
    if s.consumer.how == Stopped {
      hide *;
      StoppedAfterItem(fetch, lookahead, ls);
      n := YieldsAPrefix(fetch, lookahead, ls);
    } else {
      RunKeeps(fetch, lookahead, ls);
      hide Run, Yields, PageAt, LastPage;
      n :| LastPage(fetch, n) && s.out == Yields(fetch, n);
    }
  }

  /** A consumer stops at an item. */
  lemma {:induction false} StoppedAfterItem(fetch: Fetch, lookahead: nat, ls: seq<Label>)
    ensures var s := Run(fetch, lookahead, Init(), ls);
            s.consumer.Done? && s.consumer.how == Stopped ==> s.out != []
  {
    if ls != [] {
      StoppedAfterItem(fetch, lookahead, ls[..|ls| - 1]);
      hide Run;
    }
  }

  // ---------------------------------------------------------------- progress

  /** In every reachable state either both sides have finished or some step other than a cancellation is enabled. */
  lemma NeverStuck(fetch: Fetch, lookahead: nat, ls: seq<Label>) returns (l: Label)
    requires lookahead >= 1
    requires var s := Run(fetch, lookahead, Init(), ls); !(s.consumer.Done? && s.producer.Closed?)
    ensures !l.Cancel?
    ensures var s := Run(fetch, lookahead, Init(), ls); Next(fetch, lookahead, s, l) != s
  {
    RunKeeps(fetch, lookahead, ls);
    var s := Run(fetch, lookahead, Init(), ls);
    l := if s.consumer.Yielding? then Yield(false)
         else if s.consumer.Receiving? && s.channel != [] then Receive
         else if s.producer.Fetching? then FetchReturns(None)
         else if s.producer.Closed? then RangeEnds
         else if s.cancelled then GiveUp
         else Send;
    var s' := Next(fetch, lookahead, s, l);
    if l.Receive? {
      assert |s'.channel| < |s.channel|;
    }
  }

  /** Steps that a page still costs once it is in the channel. */
  function Cost(p: Page): nat {
    |p.items| + 2
  }

  function ChannelCost(pages: seq<Page>): nat {
    if pages == [] then 0 else Cost(pages[0]) + ChannelCost(pages[1..])
  }

  function FutureCost(fetch: Fetch, k: nat, last: nat): nat
    decreases last - k
  {
    if k >= last then 0 else Cost(PageAt(fetch, k)) + 2 + FutureCost(fetch, k + 1, last)
  }

  lemma {:induction false} ChannelCostSnoc(pages: seq<Page>, p: Page)
    ensures ChannelCost(pages + [p]) == ChannelCost(pages) + Cost(p)
  {
    if pages == [] {
      assert pages + [p] == [p];
    } else {
      assert (pages + [p])[1..] == pages[1..] + [p];
      ChannelCostSnoc(pages[1..], p);
    }
  }

  function ProducerCost(fetch: Fetch, p: Producer, last: nat): nat {
    match p
    case Fetching(k, _) => FutureCost(fetch, k, last) + 1
    case Sending(k, page, _) => Cost(page) + 1 + FutureCost(fetch, k + 1, last) + 1
    case Closed => 0
  }

  function ConsumerCost(c: Consumer): nat {
    match c
    case Receiving => 1
    case Yielding(items) => |items| + 2
    case Done(_) => 0
  }

  function Measure(fetch: Fetch, s: State, last: nat): nat {
    ProducerCost(fetch, s.producer, last) + ChannelCost(s.channel) + ConsumerCost(s.consumer)
  }

  /** When the pages end, so does every schedule: each step that changes the state uses some of a finite measure up. */
  lemma StepsTerminate(fetch: Fetch, lookahead: nat, ls: seq<Label>, l: Label, last: nat)
    requires lookahead >= 1 && LastPage(fetch, last) && !l.Cancel?
    requires var s := Run(fetch, lookahead, Init(), ls); Next(fetch, lookahead, s, l) != s
    ensures var s := Run(fetch, lookahead, Init(), ls);
            Measure(fetch, Next(fetch, lookahead, s, l), last) < Measure(fetch, s, last)
  {
    RunKeeps(fetch, lookahead, ls);
    hide Inv, Next, Measure;
    var s := Run(fetch, lookahead, Init(), ls);
    if l.FetchReturns? && s.producer.Fetching? {
      FetchCosts(fetch, lookahead, s, l.spoiled, last);
    } else {
      OtherCosts(fetch, lookahead, s, l, last);
    }
  }

  lemma FetchCosts(fetch: Fetch, lookahead: nat, s: State, spoiled: Option<Failure>, last: nat)
    requires s.producer.Fetching? && s.producer.k < last && s.producer.token == Token(fetch, s.producer.k)
    ensures Measure(fetch, Next(fetch, lookahead, s, FetchReturns(spoiled)), last) < Measure(fetch, s, last)
  {
  }

  lemma OtherCosts(fetch: Fetch, lookahead: nat, s: State, l: Label, last: nat)
    requires !l.Cancel? && !(l.FetchReturns? && s.producer.Fetching?)
    requires Next(fetch, lookahead, s, l) != s
    ensures Measure(fetch, Next(fetch, lookahead, s, l), last) < Measure(fetch, s, last)
  {
    hide FutureCost, PageAt, Token, Items;
    if l.Send? {
      ChannelCostSnoc(s.channel, s.producer.page);
    }
  }

  // ---------------------------------------------------------------- how far ahead

  /** Completed fetches: those whose page is in hand, in the channel or received. */
  function Completed(s: State): nat {
    if s.producer.Fetching? && s.started > 0 then s.started - 1 else s.started
  }

  /** The producer is at most `lookahead + 1` pages ahead of the consumer. */
  lemma PrefetchIsBounded(fetch: Fetch, lookahead: nat, ls: seq<Label>)
    requires lookahead >= 1
    ensures var s := Run(fetch, lookahead, Init(), ls); Completed(s) <= s.received + lookahead + 1
  {
    RunKeeps(fetch, lookahead, ls);
  }

  /** The producer runs ahead while the consumer has received nothing: `m` pages are in the channel. */
  ghost predicate AheadBy(fetch: Fetch, s: State, m: nat) {
    && s.producer == Fetching(m, Token(fetch, m)) && |s.channel| == m && s.received == 0 && s.started == m + 1
    && s.consumer.Receiving? && !s.cancelled
  }

  lemma OnePageAhead(fetch: Fetch, lookahead: nat, s: State, m: nat)
    requires m < lookahead && AheadBy(fetch, s, m) && !Ends(PageAt(fetch, m))
    ensures AheadBy(fetch, Next(fetch, lookahead, Next(fetch, lookahead, s, FetchReturns(None)), Send), m + 1)
  {
    assert Token(fetch, m + 1) == PageAt(fetch, m).next;
  }

  lemma RunMore(fetch: Fetch, lookahead: nat, s: State, ls: seq<Label>, l: Label)
    ensures Run(fetch, lookahead, s, ls + [l]) == Next(fetch, lookahead, Run(fetch, lookahead, s, ls), l)
  {
    assert (ls + [l])[..|ls + [l]| - 1] == ls;
  }

  lemma {:induction false} RunsAhead(fetch: Fetch, lookahead: nat, m: nat) returns (ls: seq<Label>)
    requires m <= lookahead && Unfinished(fetch, m)
    ensures AheadBy(fetch, Run(fetch, lookahead, Init(), ls), m)
  {
    if m == 0 {
      ls := [];
    } else {
      var before := RunsAhead(fetch, lookahead, m - 1);
      OnePageAhead(fetch, lookahead, Run(fetch, lookahead, Init(), before), m - 1);
      hide Run, AheadBy;
      RunMore(fetch, lookahead, Init(), before, FetchReturns(None));
      RunMore(fetch, lookahead, Init(), before + [FetchReturns(None)], Send);
      ls := before + [FetchReturns(None)] + [Send];
    }
  }

  /** The bound is exact: on every listing that goes on for long enough some schedule reaches it. */
  lemma PrefetchBoundIsExact(fetch: Fetch, lookahead: nat, n: int)
    requires lookahead >= 1 && Unfinished(fetch, lookahead)
    ensures (forall ls :: (var s := Run(fetch, lookahead, Init(), ls); Completed(s) - s.received <= n)) <==> n >= lookahead + 1
  {
    hide Unfinished;
    if n >= lookahead + 1 {
      forall ls ensures (var s := Run(fetch, lookahead, Init(), ls); Completed(s) - s.received <= n) {
        PrefetchIsBounded(fetch, lookahead, ls);
      }
    } else {
      var before := RunsAhead(fetch, lookahead, lookahead);
      RunMore(fetch, lookahead, Init(), before, FetchReturns(None));
      var ls := before + [FetchReturns(None)];
      var s := Run(fetch, lookahead, Init(), ls);
      hide Run;
      assert Completed(s) - s.received == lookahead + 1;
    }
  }

  /** Once the consumer has returned, the producer starts no more fetches than the channel had free slots. */
  lemma {:induction false} ProducerDrains(fetch: Fetch, lookahead: nat, before: seq<Label>, after: seq<Label>)
    requires lookahead >= 1 && Run(fetch, lookahead, Init(), before).consumer.Done?
    ensures var s := Run(fetch, lookahead, Init(), before);
            var s' := Run(fetch, lookahead, s, after);
            && s'.started - s.started <= |s'.channel| - |s.channel|
            && |s'.channel| <= lookahead && s'.consumer == s.consumer && s'.out == s.out
  {
    if after == [] {
      RunKeeps(fetch, lookahead, before);
      hide Next, Inv;
    } else {
      ProducerDrains(fetch, lookahead, before, after[..|after| - 1]);
      var s := Run(fetch, lookahead, Init(), before);
      DrainStep(fetch, lookahead, Run(fetch, lookahead, s, after[..|after| - 1]), after[|after| - 1]);
      hide Next, Inv;
    }
  }

  lemma DrainStep(fetch: Fetch, lookahead: nat, s: State, l: Label)
    requires s.consumer.Done?
    ensures var s' := Next(fetch, lookahead, s, l);
            && s'.started - s.started <= |s'.channel| - |s.channel|
            && (|s.channel| <= lookahead ==> |s'.channel| <= lookahead)
            && s'.consumer == s.consumer && s'.out == s.out
  {
  }

  // ---------------------------------------------------------------- the producer ends

  /** Steps left to the producer once nobody receives: each page it still sends takes a free slot of the channel. */
  function DrainMeasure(lookahead: nat, s: State): int {
    2 * (lookahead - |s.channel|) +
    (match s.producer
     case Fetching(_, _) => 2
     case Sending(_, _, _) => 1
     case Closed => 0)
  }

  /** How many of the steps change anything, further cancellations aside. */
  function Effective(fetch: Fetch, lookahead: nat, s: State, ls: seq<Label>): nat {
    if ls == [] then 0
    else
      var front, l := ls[..|ls| - 1], ls[|ls| - 1];
      var before := Run(fetch, lookahead, s, front);
      Effective(fetch, lookahead, s, front) +
      if !l.Cancel? && Next(fetch, lookahead, before, l) != before then 1 else 0
  }

  lemma DrainCosts(fetch: Fetch, lookahead: nat, s: State, l: Label)
    requires s.consumer.Done? && s.cancelled && |s.channel| <= lookahead
    ensures var s' := Next(fetch, lookahead, s, l);
            && s'.consumer.Done? && s'.cancelled && |s'.channel| <= lookahead
            && DrainMeasure(lookahead, s') + (if !l.Cancel? && s' != s then 1 else 0) <= DrainMeasure(lookahead, s)
  {
  }

  /**
   Once the consumer has returned, the producer ends, whatever the listing: at most `2 * lookahead + 2` further steps do
   anything, and until it has closed the channel one of its steps is enabled.
   */
  lemma ProducerEnds(fetch: Fetch, lookahead: nat, before: seq<Label>, after: seq<Label>)
    requires lookahead >= 1 && Run(fetch, lookahead, Init(), before).consumer.Done?
    ensures var s := Run(fetch, lookahead, Init(), before);
            var s' := Run(fetch, lookahead, s, after);
            && Effective(fetch, lookahead, s, after) <= 2 * lookahead + 2
            && (|| s'.producer.Closed?
                || Next(fetch, lookahead, s', FetchReturns(None)) != s'
                || Next(fetch, lookahead, s', GiveUp) != s')
  {
    RunKeeps(fetch, lookahead, before);
    var s := Run(fetch, lookahead, Init(), before);
    assert s.cancelled && |s.channel| <= lookahead;
    hide Run, Inv;
    DrainRun(fetch, lookahead, s, after);
  }

  lemma {:induction false} DrainRun(fetch: Fetch, lookahead: nat, s: State, after: seq<Label>)
    requires s.consumer.Done? && s.cancelled && |s.channel| <= lookahead
    ensures var s' := Run(fetch, lookahead, s, after);
            && s'.consumer.Done? && s'.cancelled && |s'.channel| <= lookahead
            && Effective(fetch, lookahead, s, after) + DrainMeasure(lookahead, s') <= DrainMeasure(lookahead, s)
  {
    if after != [] {
      hide Next, DrainMeasure;
      DrainRun(fetch, lookahead, s, after[..|after| - 1]);
      DrainCosts(fetch, lookahead, Run(fetch, lookahead, s, after[..|after| - 1]), after[|after| - 1]);
    }
  }
}
