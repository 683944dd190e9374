/**
 Paging: the sequential iterator, and what it yields as a function of the fetch function. A yield is an item or an
 error; both iterators call `fetch` one page at a time, so the k-th call is numbered.
 */
module Pagination {
  import opened Wrappers

  /** Items and errors are only passed on, never looked at. */
  datatype Value = Value(id: int)

  datatype Failure = Failure(id: int)

  datatype Page = Page(items: seq<Value>, next: string, err: Option<Failure>)

  datatype Event = Item(item: Value) | Error(err: Failure)

  /** The k-th call of `fetch`, with the token it is given. */
  type Fetch = (nat, string) -> Page

  /** The token of the k-th call. */
  function Token(fetch: Fetch, k: nat): string {
    if k == 0 then "" else fetch(k - 1, Token(fetch, k - 1)).next
  }

  function PageAt(fetch: Fetch, k: nat): Page {
    fetch(k, Token(fetch, k))
  }

  predicate Ends(p: Page) {
    p.err.Some? || p.next == ""
  }

  function Items(items: seq<Value>): (r: seq<Event>)
    ensures |r| == |items| && forall i | 0 <= i < |r| :: r[i] == Item(items[i])
  {
    if items == [] then [] else [Item(items[0])] + Items(items[1..])
  }

  /** What one page yields: its items, or only its error. */
  function PageEvents(p: Page): seq<Event> {
    if p.err.Some? then [Error(p.err.value)] else Items(p.items)
  }

  /** What the first `n` pages yield. */
  function Yields(fetch: Fetch, n: nat): seq<Event> {
    if n == 0 then [] else Yields(fetch, n - 1) + PageEvents(PageAt(fetch, n - 1))
  }

  /** No page before the k-th ends the sequence. */
  ghost predicate Unfinished(fetch: Fetch, k: nat) {
    forall j | 0 <= j < k :: !Ends(PageAt(fetch, j))
  }

  /** The sequence of pages has exactly `n` pages. */
  ghost predicate LastPage(fetch: Fetch, n: nat) {
    n >= 1 && Unfinished(fetch, n - 1) && Ends(PageAt(fetch, n - 1))
  }

  /**
   The sequential iterator gets by with `n` pages: none before the n-th ends the sequence, and the n-th does, or the
   consumer stops within them, or the check before one of their fetches finds the context cancelled. An endless
   listing has such an `n` when the consumer stops or the context is cancelled.
   */
  ghost predicate Suffices(fetch: Fetch, n: nat, stop: Option<nat>, cancelAt: Option<nat>) {
    && n >= 1 && Unfinished(fetch, n - 1)
    && (|| Ends(PageAt(fetch, n - 1))
        || (stop.Some? && stop.value <= |Yields(fetch, n)|)
        || (cancelAt.Some? && cancelAt.value < n))
  }

  lemma {:induction false} YieldsGrow(fetch: Fetch, m: nat, n: nat)
    requires m <= n
    ensures Yields(fetch, m) <= Yields(fetch, n)
  {
    if m < n {
      YieldsGrow(fetch, m, n - 1);
    }
  }

  /** What a consumer that stops after `stop` events sees of `events`; without a stop, all. */
  function Seen(events: seq<Event>, stop: Option<nat>): seq<Event> {
    match stop
    case None => events
    case Some(n) => if n < |events| then events[..n] else events
  }

  /**
   All that the sequential iterator has to say about `last` pages, when the check before call `cancelAt` finds the context
   cancelled.
   */
  ghost function Total(fetch: Fetch, last: nat, cancelAt: Option<nat>, cancelled: Failure): seq<Event> {
    if cancelAt.Some? && cancelAt.value < last then Yields(fetch, cancelAt.value) + [Error(cancelled)]
    else Yields(fetch, last)
  }

  lemma PageWithinTotal(fetch: Fetch, last: nat, cancelAt: Option<nat>, cancelled: Failure, k: nat)
    requires k < last && (cancelAt.Some? ==> k < cancelAt.value)
    ensures Yields(fetch, k) + PageEvents(PageAt(fetch, k)) <= Total(fetch, last, cancelAt, cancelled)
  {
    YieldsGrow(fetch, k + 1, if cancelAt.Some? && cancelAt.value < last then cancelAt.value else last);
  }

  lemma SeenPrefix(out: seq<Event>, all: seq<Event>, stop: Option<nat>)
    requires out <= all && (stop == Some(|out|) || (out == all && (stop.Some? ==> |out| < stop.value)))
    ensures Seen(all, stop) == out
  {
  }

  /** The loop over one page's items, for a consumer that has seen `before` and stops at its `stop`-th event. */
  method YieldItems(items: seq<Value>, before: seq<Event>, stop: Option<nat>) returns (out: seq<Event>, stopped: bool)
    requires stop.Some? ==> |before| < stop.value
    ensures stopped ==> stop == Some(|out|) && out <= before + Items(items)
    ensures !stopped ==> out == before + Items(items) && (stop.Some? ==> |out| < stop.value)
  {
    hide Items;
    out := before;
    for i := 0 to |items|
      invariant out == before + Items(items)[..i]
      invariant stop.Some? ==> |out| < stop.value
    {
      out := out + [Item(items[i])];
      assert out == before + Items(items)[..i + 1];
      if stop == Some(|out|) {
        return out, true;
      }
    }
    assert Items(items)[..|items|] == Items(items);
    return out, false;
  }

  /**
   The sequential iterator, for a consumer whose `yield` returns false at the `stop`-th event and a context that is seen
   cancelled first by the check before call `cancelAt`, with error `cancelled`. `last` is any number of pages that
   suffices; without one the loop goes on for ever.
   */
  method Iter(fetch: Fetch, stop: Option<nat>, cancelAt: Option<nat>, cancelled: Failure, ghost last: nat)
    returns (out: seq<Event>)
    requires Suffices(fetch, last, stop, cancelAt) && (stop.Some? ==> stop.value >= 1)
    ensures out == Seen(Total(fetch, last, cancelAt, cancelled), stop)
    ensures out <= Total(fetch, last, cancelAt, cancelled)
    ensures |out| == (var most := |Total(fetch, last, cancelAt, cancelled)|;
                      if stop.Some? && stop.value <= most then stop.value else most)
  {
    hide Yields, Total, Seen, Suffices, Items;
    ghost var total := Total(fetch, last, cancelAt, cancelled);
    NoPages(fetch, last, stop, cancelAt);
    out := [];
    var token, k := "", 0;
    while true
      invariant k < last && token == Token(fetch, k)
      invariant cancelAt.Some? ==> k <= cancelAt.value
      invariant out == Yields(fetch, k) && (stop.Some? ==> |out| < stop.value)
      decreases last - k
    {
      if cancelAt == Some(k) {
        CancelledTotal(fetch, last, k, cancelled);
        out := out + [Error(cancelled)];
        SeenEnd(out, total, stop);
        return;
      }
      var page := fetch(k, token);
      ghost var before := out;
      PageWithinTotal(fetch, last, cancelAt, cancelled, k);
      if page.err.Some? {
        out := out + [Error(page.err.value)];
        EndOfPages(fetch, last, stop, cancelAt, cancelled, k);
        SeenEnd(out, total, stop);
        return;
      }
      var stopped;
      out, stopped := YieldItems(page.items, out, stop);
      if stopped {
        SeenPrefix(out, total, stop);
        return;
      }
      if page.next == "" {
        EndOfPages(fetch, last, stop, cancelAt, cancelled, k);
        SeenPrefix(out, total, stop);
        return;
      }
      NotTheEnd(fetch, last, stop, cancelAt, k);
      token, k := page.next, k + 1;
    }
  }

  lemma SeenEnd(out: seq<Event>, all: seq<Event>, stop: Option<nat>)
    requires out == all && (stop.Some? ==> |out| <= stop.value)
    ensures Seen(all, stop) == out
  {
  }

  lemma NoPages(fetch: Fetch, last: nat, stop: Option<nat>, cancelAt: Option<nat>)
    requires Suffices(fetch, last, stop, cancelAt)
    ensures Yields(fetch, 0) == [] && last >= 1
  {
  }

  lemma CancelledTotal(fetch: Fetch, last: nat, k: nat, cancelled: Failure)
    requires k < last
    ensures Total(fetch, last, Some(k), cancelled) == Yields(fetch, k) + [Error(cancelled)]
  {
  }

  lemma EndOfPages(
      fetch: Fetch, last: nat, stop: Option<nat>, cancelAt: Option<nat>, cancelled: Failure, k: nat)
    requires Suffices(fetch, last, stop, cancelAt) && k < last && Ends(PageAt(fetch, k))
    requires cancelAt.Some? ==> k < cancelAt.value
    ensures Total(fetch, last, cancelAt, cancelled) == Yields(fetch, k) + PageEvents(PageAt(fetch, k))
  {
    hide PageAt, Ends, PageEvents;
    assert k == last - 1;
    assert Yields(fetch, last) == Yields(fetch, k) + PageEvents(PageAt(fetch, k));
    hide Yields;
  }

  lemma NotTheEnd(fetch: Fetch, last: nat, stop: Option<nat>, cancelAt: Option<nat>, k: nat)
    requires Suffices(fetch, last, stop, cancelAt) && k < last && !Ends(PageAt(fetch, k))
    requires stop.Some? ==> |Yields(fetch, k) + PageEvents(PageAt(fetch, k))| < stop.value
    requires cancelAt.Some? ==> k < cancelAt.value
    ensures k + 1 < last
    ensures Yields(fetch, k + 1) == Yields(fetch, k) + PageEvents(PageAt(fetch, k))
  {
    hide PageAt, Ends, PageEvents;
  }

  /** The bound is no restriction: without one, no page ever ends the loop, no stop is reached, no check is cancelled. */
  lemma {:induction false} WithoutBoundEndless(fetch: Fetch, stop: Option<nat>, cancelAt: Option<nat>, k: nat)
    requires forall n :: !Suffices(fetch, n, stop, cancelAt)
    requires stop.Some? ==> stop.value >= 1
    ensures Unfinished(fetch, k)
    ensures stop.Some? ==> |Yields(fetch, k)| < stop.value
    ensures cancelAt.Some? ==> k <= cancelAt.value
  {
    if k > 0 {
      WithoutBoundEndless(fetch, stop, cancelAt, k - 1);
      assert !Suffices(fetch, k, stop, cancelAt);
    }
  }

  /** Which sufficient number of pages is taken makes no difference to what the consumer sees. */
  lemma BoundsAgree(
      fetch: Fetch, m: nat, n: nat, stop: Option<nat>, cancelAt: Option<nat>, cancelled: Failure)
    requires m <= n && Suffices(fetch, m, stop, cancelAt) && Suffices(fetch, n, stop, cancelAt)
    ensures Seen(Total(fetch, m, cancelAt, cancelled), stop) == Seen(Total(fetch, n, cancelAt, cancelled), stop)
  {
    hide PageAt, Ends, PageEvents, Yields;
    if m < n && !(cancelAt.Some? && cancelAt.value < m) {
      assert !Ends(PageAt(fetch, m - 1));
      var upto := if cancelAt.Some? && cancelAt.value < n then cancelAt.value else n;
      YieldsGrow(fetch, m, upto);
      assert Yields(fetch, m) <= Total(fetch, n, cancelAt, cancelled);
    }
  }

  /** The items of some pages, in order. */
  function AllItems(pages: seq<Page>): seq<Value> {
    if pages == [] then [] else AllItems(pages[..|pages| - 1]) + pages[|pages| - 1].items
  }

  /** Page `j` is what the server gives for the token of the page before. */
  predicate FetchedNext(fetch: Fetch, pages: seq<Page>, j: nat)
    requires j < |pages|
  {
    pages[j] == fetch(j, if j == 0 then "" else pages[j - 1].next)
  }

  /** These are the first pages of the listing. */
  ghost predicate Fetched(fetch: Fetch, pages: seq<Page>) {
    forall j: nat | j < |pages| :: FetchedNext(fetch, pages, j)
  }

  /** These pages came without an error, and each has a page after it. */
  ghost predicate GoesOn(pages: seq<Page>) {
    forall j | 0 <= j < |pages| :: pages[j].err.None? && pages[j].next != ""
  }

  lemma {:induction false} FetchedAt(fetch: Fetch, pages: seq<Page>, k: nat)
    requires Fetched(fetch, pages) && k < |pages|
    ensures Token(fetch, k) == (if k == 0 then "" else pages[k - 1].next) && PageAt(fetch, k) == pages[k]
  {
    assert FetchedNext(fetch, pages, k);
    if k > 0 {
      FetchedAt(fetch, pages, k - 1);
    }
  }

  lemma FetchedPart(fetch: Fetch, pages: seq<Page>, n: nat)
    requires Fetched(fetch, pages) && n <= |pages|
    ensures Fetched(fetch, pages[..n])
  {
    forall j: nat | j < n ensures FetchedNext(fetch, pages[..n], j) {
      assert FetchedNext(fetch, pages, j);
    }
  }

  lemma {:induction false} YieldsTheItems(fetch: Fetch, pages: seq<Page>)
    requires Fetched(fetch, pages) && forall j | 0 <= j < |pages| :: pages[j].err.None?
    ensures Yields(fetch, |pages|) == Items(AllItems(pages))
  {
    if pages != [] {
      var front, last := pages[..|pages| - 1], pages[|pages| - 1];
      FetchedAt(fetch, pages, |pages| - 1);
      FetchedPart(fetch, pages, |pages| - 1);
      hide Fetched, PageAt;
      YieldsTheItems(fetch, front);
      ItemsConcat(AllItems(front), last.items);
      hide Items;
    }
  }

  lemma ItemsConcat(a: seq<Value>, b: seq<Value>)
    ensures Items(a + b) == Items(a) + Items(b)
  {
  }

  lemma GoesOnUnfinished(fetch: Fetch, pages: seq<Page>, n: nat)
    requires Fetched(fetch, pages) && n <= |pages| && GoesOn(pages[..n])
    ensures Unfinished(fetch, n)
  {
    forall j | 0 <= j < n ensures !Ends(PageAt(fetch, j)) {
      FetchedAt(fetch, pages, j);
      assert pages[..n][j] == pages[j];
    }
  }

  /**
   What the iterator says, in terms of the pages that the server gives: every item of every page in order, up to the page that
   has no successor, or up to a fetch that fails, whose error comes last and whose items do not count.
   */
  lemma ListingIsYielded(fetch: Fetch, pages: seq<Page>, cancelled: Failure)
    requires pages != [] && Fetched(fetch, pages) && GoesOn(pages[..|pages| - 1])
    requires var last := pages[|pages| - 1]; last.err.Some? || last.next == ""
    ensures LastPage(fetch, |pages|) && Suffices(fetch, |pages|, None, None)
    ensures var last := pages[|pages| - 1];
            Total(fetch, |pages|, None, cancelled) == Yields(fetch, |pages|) ==
            if last.err.Some? then Items(AllItems(pages[..|pages| - 1])) + [Error(last.err.value)]
            else Items(AllItems(pages))
  {
    hide Items, AllItems, Token, Unfinished, Yields, PageAt;
    ListingEnds(fetch, pages);
    if pages[|pages| - 1].err.Some? {
      FailureIsYielded(fetch, pages);
    } else {
      assert forall j | 0 <= j < |pages| - 1 :: pages[..|pages| - 1][j] == pages[j];
      YieldsTheItems(fetch, pages);
    }
  }

  lemma ListingEnds(fetch: Fetch, pages: seq<Page>)
    requires pages != [] && Fetched(fetch, pages) && GoesOn(pages[..|pages| - 1])
    requires var last := pages[|pages| - 1]; last.err.Some? || last.next == ""
    ensures Unfinished(fetch, |pages| - 1) && Ends(PageAt(fetch, |pages| - 1))
  {
    GoesOnUnfinished(fetch, pages, |pages| - 1);
    FetchedAt(fetch, pages, |pages| - 1);
    hide Fetched, GoesOn, Unfinished, Token;
  }

  lemma FailureIsYielded(fetch: Fetch, pages: seq<Page>)
    requires pages != [] && Fetched(fetch, pages) && GoesOn(pages[..|pages| - 1]) && pages[|pages| - 1].err.Some?
    ensures Yields(fetch, |pages|) == Items(AllItems(pages[..|pages| - 1])) + [Error(pages[|pages| - 1].err.value)]
  {
    hide Items, AllItems, Token;
    var n := |pages| - 1;
    FetchedAt(fetch, pages, n);
    FetchedPart(fetch, pages, n);
    hide Fetched, PageAt;
    YieldsTheItems(fetch, pages[..n]);
  }

  /** A context cancelled before the next fetch: the items of the pages so far, and the context's error. */
  lemma CancelledListingIsYielded(fetch: Fetch, pages: seq<Page>, cancelled: Failure)
    requires Fetched(fetch, pages) && GoesOn(pages)
    ensures var k := |pages|;
            && Suffices(fetch, k + 1, None, Some(k))
            && Total(fetch, k + 1, Some(k), cancelled) == Items(AllItems(pages)) + [Error(cancelled)]
  {
    assert pages[..|pages|] == pages;
    GoesOnUnfinished(fetch, pages, |pages|);
    YieldsTheItems(fetch, pages);
  }

  ghost predicate OnlyItems(events: seq<Event>) {
    forall i | 0 <= i < |events| :: events[i].Item?
  }

  lemma {:induction false} YieldsOnlyItems(fetch: Fetch, n: nat)
    requires forall k | 0 <= k < n :: PageAt(fetch, k).err.None?
    ensures OnlyItems(Yields(fetch, n))
  {
    hide PageAt, Items;
    if n > 0 {
      YieldsOnlyItems(fetch, n - 1);
      assert OnlyItems(PageEvents(PageAt(fetch, n - 1)));
    }
  }

  /** Only the last event can be an error. */
  lemma ErrorComesLast(fetch: Fetch, last: nat, cancelAt: Option<nat>, cancelled: Failure)
    requires last >= 1 && Unfinished(fetch, last - 1)
    ensures var t := Total(fetch, last, cancelAt, cancelled);
            t == [] || OnlyItems(t[..|t| - 1])
  {
    var n := if cancelAt.Some? && cancelAt.value < last then cancelAt.value else last - 1;
    YieldsOnlyItems(fetch, n);
  }

  /** Everything up to the first error, and that error: which together are all the iterator has to say. */
  method Collect(fetch: Fetch, cancelAt: Option<nat>, cancelled: Failure, ghost last: nat)
    returns (all: seq<Value>, err: Option<Failure>)
    requires Suffices(fetch, last, None, cancelAt)
    ensures Total(fetch, last, cancelAt, cancelled) ==
            Items(all) + if err.Some? then [Error(err.value)] else []
  {
    var events := Iter(fetch, None, cancelAt, cancelled, last);
    ErrorComesLast(fetch, last, cancelAt, cancelled);
    all := [];
    for i := 0 to |events|
      invariant events[..i] == Items(all)
    {
      if events[i].Error? {
        assert i == |events| - 1 && events == events[..i] + [events[i]];
        return all, Some(events[i].err);
      }
      ItemsSnoc(all, events[i].item);
      all := all + [events[i].item];
    }
    assert events[..|events|] == events;
    return all, None;
  }

  lemma ItemsSnoc(items: seq<Value>, item: Value)
    ensures Items(items + [item]) == Items(items) + [Item(item)]
  {
  }
}
