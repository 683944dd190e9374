/**
 LRU inclusion under a byte budget, exactly. `InclusionIff` says for which capacities and budgets every hit of the
 smaller cache is, over all runs, the same hit of the larger one; `BudgetCrowdsOut` builds the run for all the others.
 */
module LruBudget {
  import opened Wrappers
  import opened CacheEntries
  import opened CacheKeys
  import opened Lru
  import opened LruRuns
  import opened LruInclusion

  /** Over every run, a hit of the cache of capacity `n` is the same hit of the one of capacity `N`. */
  ghost predicate HitIncluded(ops: seq<Op>, n: nat, N: nat, maxBytes: nat, key: Key, now: int) {
    var small := Get(Run(ops, Limits(n, maxBytes)), key, now).1;
    small.Some? ==> Get(Run(ops, Limits(N, maxBytes)), key, now).1 == small
  }

  /** This many different keys can be held at once within the byte budget. */
  ghost predicate CanHold(count: nat, maxBytes: nat) {
    exists c: Slots :: Distinct(c) && |c| == count && TotalSize(c) <= maxBytes
  }

  /**
   Inclusion under a byte budget, exactly: it holds over all runs if and only if the smaller capacity is one, or the two
   capacities are equal, or the budget never lets the smaller capacity be exceeded.
   */
  lemma InclusionIff(n: nat, N: nat, maxBytes: nat)
    requires 1 <= n <= N
    ensures (forall ops, key, now :: HitIncluded(ops, n, N, maxBytes, key, now)) <==>
            n == 1 || n == N || !CanHold(n + 1, maxBytes)
  {
    hide HitIncluded;
    if n == 1 || n == N || !CanHold(n + 1, maxBytes) {
      forall ops, key, now ensures HitIncluded(ops, n, N, maxBytes, key, now) {
        IncludedWhen(ops, n, N, maxBytes, key, now);
      }
    } else {
      var held: Slots :| Distinct(held) && |held| == n + 1 && TotalSize(held) <= maxBytes;
      hide CanHold;
      var ops, key := BudgetCrowdsOut(held, N, maxBytes);
      assert !HitIncluded(ops, n, N, maxBytes, key, 0);
    }
  }

  lemma IncludedWhen(ops: seq<Op>, n: nat, N: nat, maxBytes: nat, key: Key, now: int)
    requires 1 <= n <= N && (n == 1 || n == N || !CanHold(n + 1, maxBytes))
    ensures HitIncluded(ops, n, N, maxBytes, key, now)
  {
    if n == 1 {
      OneSlotRuns(ops, N, maxBytes);
      hide Run;
    } else if n != N {
      RunsEqual(ops, n, N, maxBytes);
    }
  }

  // One slot: whatever was set last is in front of both, and moves of other slots do not touch the small cache.

  ghost predicate OneSlot(small: Slots, large: Slots) {
    |small| <= 1 && forall i | 0 <= i < |small| :: Find(large, small[i].key) == Some(small[i].entry)
  }

  lemma OneSlotGet(small: Slots, large: Slots, key: Key, now: int)
    requires OneSlot(small, large)
    ensures OneSlot(Get(small, key, now).0, Get(large, key, now).0)
  {
    if small != [] {
      FindInDrop(large, Exactly(key), small[0].key);
      if Find(large, key).Some? {
        FindInPushed(large, key, Find(large, key).value, small[0].key);
      }
    }
  }

  lemma OneSlotSet(small: Slots, large: Slots, key: Key, entry: Entry, N: nat, maxBytes: nat)
    requires N >= 1
    ensures OneSlot(Set(small, key, entry, Limits(1, maxBytes)), Set(large, key, entry, Limits(N, maxBytes)))
  {
    TrimIsLongestFit(Pushed(small, key, entry), Limits(1, maxBytes));
    TrimIsLongestFit(Pushed(large, key, entry), Limits(N, maxBytes));
    assert Pushed(small, key, entry)[0] == Pushed(large, key, entry)[0] == Slot(key, entry);
    hide Trim, Pushed;
  }

  lemma OneSlotDrop(small: Slots, large: Slots, p: Pattern)
    requires OneSlot(small, large)
    ensures OneSlot(Drop(small, p), Drop(large, p))
  {
    if small != [] {
      assert small[1..] == [];
      FindInDrop(large, p, small[0].key);
    }
  }

  lemma {:induction false} OneSlotRuns(ops: seq<Op>, N: nat, maxBytes: nat)
    requires N >= 1
    ensures OneSlot(Run(ops, Limits(1, maxBytes)), Run(ops, Limits(N, maxBytes)))
  {
    if ops != [] {
      OneSlotRuns(Front(ops), N, maxBytes);
      var small, large := Run(Front(ops), Limits(1, maxBytes)), Run(Front(ops), Limits(N, maxBytes));
      hide OneSlot, Get, Set;
      match Last(ops)
      case DoGet(key, now) => OneSlotGet(small, large, key, now);
      case DoSet(key, entry) => OneSlotSet(small, large, key, entry, N, maxBytes);
      case DoDelete(key) => OneSlotDrop(small, large, Exactly(key));
      case DoDeleteMatching(prefix) => OneSlotDrop(small, large, StartingWith(prefix));
    }
  }

  // A budget that never lets the smaller capacity be exceeded: both caches are always equal.

  lemma {:induction false} TrimsEqual(c: Slots, n: nat, N: nat, maxBytes: nat)
    requires 1 <= n <= N && Distinct(c) && !CanHold(n + 1, maxBytes)
    ensures Trim(c, Limits(n, maxBytes)) == Trim(c, Limits(N, maxBytes))
  {
    if c != [] {
      TrimsEqual(c[..|c| - 1], n, N, maxBytes);
      if |c| > n {
        assert Distinct(c[..n + 1]);
        SizeOfPrefix(c, n + 1);
      }
    }
  }

  lemma SizeOfPrefix(c: Slots, k: nat)
    requires k <= |c|
    ensures TotalSize(c[..k]) <= TotalSize(c)
  {
    assert c == c[..k] + c[k..];
    SizeConcat(c[..k], c[k..]);
  }

  lemma {:induction false} RunsEqual(ops: seq<Op>, n: nat, N: nat, maxBytes: nat)
    requires 1 <= n <= N && !CanHold(n + 1, maxBytes)
    ensures Run(ops, Limits(n, maxBytes)) == Run(ops, Limits(N, maxBytes))
  {
    hide CanHold;
    if ops != [] {
      RunsEqual(Front(ops), n, N, maxBytes);
      if Last(ops).DoSet? {
        var c := Run(Front(ops), Limits(n, maxBytes));
        RunDistinct(Front(ops), Limits(n, maxBytes));
        PushedDistinct(c, Last(ops).key, Last(ops).entry);
        TrimsEqual(Pushed(c, Last(ops).key, Last(ops).entry), n, N, maxBytes);
      }
    }
  }

  // Otherwise: what the larger cache keeps by count crowds out, by bytes, a slot that the smaller one still holds.

  function Sized(n: nat): Entry {
    Entry([], "", 0, seq(n, _ => 0), 10, 0, 200)
  }

  lemma SizeOfSized(key: Key, n: nat)
    ensures EntrySize(key, Sized(n)) == |key.text| + n
  {
  }

  /** The same keys with empty, living entries. */
  function Bare(c: Slots): (r: Slots)
    ensures |r| == |c| && forall i | 0 <= i < |r| :: r[i] == Slot(c[i].key, Sized(0))
  {
    if c == [] then [] else [Slot(c[0].key, Sized(0))] + Bare(c[1..])
  }

  lemma {:induction false} BareFits(c: Slots)
    ensures TotalSize(Bare(c)) <= TotalSize(c)
  {
    if c != [] {
      BareFits(c[1..]);
      SizeOfSized(c[0].key, 0);
      assert Bare(c)[1..] == Bare(c[1..]);
    }
  }

  /** Slots to fill the caches with: distinct, alive at time 0, and the last one of some size. */
  ghost predicate Filling(c: Slots, maxBytes: nat) {
    && Distinct(c) && |c| >= 2 && TotalSize(c) <= maxBytes
    && (forall i | 0 <= i < |c| :: c[i].entry == Sized(0))
    && |c[|c| - 1].key.text| > 0
  }

  lemma SomeFilling(held: Slots, maxBytes: nat) returns (c: Slots)
    requires Distinct(held) && |held| >= 2 && TotalSize(held) <= maxBytes
    ensures Filling(c, maxBytes) && |c| == |held|
  {
    BareFits(held);
    hide TotalSize;
    if |held[|held| - 1].key.text| > 0 {
      c := Bare(held);
    } else {
      c := Rotated(Bare(held), maxBytes);
    }
  }

  /** The last slot in front: the one before it has a key that is not empty. */
  lemma Rotated(bare: Slots, maxBytes: nat) returns (c: Slots)
    requires Distinct(bare) && |bare| >= 2 && TotalSize(bare) <= maxBytes
    requires forall i | 0 <= i < |bare| :: bare[i].entry == Sized(0)
    requires bare[|bare| - 1].key.text == ""
    ensures Filling(c, maxBytes) && |c| == |bare|
  {
    var front, last := bare[..|bare| - 1], [bare[|bare| - 1]];
    c := last + front;
    assert bare == front + last;
    SizeConcat(front, last);
    SizeConcat(last, front);
    hide TotalSize;
    EmptyTextOnce(bare[|bare| - 1].key, bare[|bare| - 2].key);
    RotationDistinct(bare);
  }

  lemma RotationDistinct(c: Slots)
    requires Distinct(c) && |c| >= 2
    ensures Distinct([c[|c| - 1]] + c[..|c| - 1])
  {
  }

  lemma EmptyTextOnce(a: Key, b: Key)
    requires a != b && a.text == ""
    ensures |b.text| > 0
  {
    if b.text == [] {
      assert b.text == a.text;
    }
  }

  /** Sets the slots from the last to the first. */
  function Fill(c: Slots): seq<Op> {
    if c == [] then [] else Fill(c[1..]) + [DoSet(c[0].key, c[0].entry)]
  }

  lemma {:induction false} FillRun(c: Slots, limits: Limits)
    requires Distinct(c) && TotalSize(c) <= limits.maxBytes
    ensures Run(Fill(c), limits) == ByCount(c, limits.capacity)
  {
    if c != [] {
      assert TotalSize(c[1..]) <= TotalSize(c);
      hide TotalSize;
      FillRun(c[1..], limits);
      var ops, rest := Fill(c), ByCount(c[1..], limits.capacity);
      assert Front(ops) == Fill(c[1..]) && Last(ops) == DoSet(c[0].key, c[0].entry);
      DropNothing(rest, Exactly(c[0].key));
      var pushed := [c[0]] + rest;
      assert Pushed(rest, c[0].key, c[0].entry) == pushed;
      assert ByCount(pushed, limits.capacity) == ByCount(c, limits.capacity);
      SizeOfPrefix(c, if |c| > limits.capacity then limits.capacity else |c|);
      assert c[..|c|] == c;
      TrimByCount(pushed, limits);
    }
  }

  /** The run: fill both, use the slot that only the larger one holds, and enlarge the first slot to the budget. */
  function Crowding(c: Slots, extra: nat): seq<Op>
    requires |c| >= 2
  {
    Fill(c) + [DoGet(c[|c| - 1].key, 0)] + [DoSet(c[0].key, Sized(extra))]
  }

  lemma CrowdingRun(c: Slots, extra: nat, limits: Limits)
    requires |c| >= 2 && Distinct(c) && TotalSize(c) <= limits.maxBytes
    ensures Run(Crowding(c, extra), limits) ==
            Set(Get(ByCount(c, limits.capacity), c[|c| - 1].key, 0).0, c[0].key, Sized(extra), limits)
  {
    hide Get, Set, TotalSize;
    var ops := Fill(c) + [DoGet(c[|c| - 1].key, 0)];
    assert Front(ops) == Fill(c) && Front(Crowding(c, extra)) == ops;
    FillRun(c, limits);
    hide Fill;
  }

  lemma CrowdingSmall(c: Slots, extra: nat, maxBytes: nat)
    requires Filling(c, maxBytes) && |c| >= 3
    requires |c[0].key.text| + extra + TotalSize(c[1..|c| - 1]) == maxBytes
    ensures var n := |c| - 1; Run(Crowding(c, extra), Limits(n, maxBytes)) == [Slot(c[0].key, Sized(extra))] + c[1..n]
  {
    var n, limits := |c| - 1, Limits(|c| - 1, maxBytes);
    CrowdingRun(c, extra, limits);
    hide Run;
    PushFirst(c[..n], Sized(extra));
    assert c[..n][1..] == c[1..n];
    var pushed := [Slot(c[0].key, Sized(extra))] + c[1..n];
    SizeOfSized(c[0].key, extra);
    assert pushed[1..] == c[1..n];
    hide Drop, Find;
    TrimByCount(pushed, limits);
  }

  lemma PushFirst(c: Slots, entry: Entry)
    requires Distinct(c) && c != []
    ensures Pushed(c, c[0].key, entry) == [Slot(c[0].key, entry)] + c[1..]
  {
    DropNothing(c[1..], Exactly(c[0].key));
  }

  /** The last slot, used again, stands in front. */
  lemma UseLast(c: Slots)
    requires Distinct(c) && c != [] && c[|c| - 1].entry == Sized(0)
    ensures Get(c, c[|c| - 1].key, 0).0 == [c[|c| - 1]] + c[..|c| - 1]
  {
    var n := |c| - 1;
    FindAt(c, n);
    DropAt(c, n);
    assert c[..n] + c[n + 1..] == c[..n];
    hide Find, Drop;
  }

  lemma PushSecond(c: Slots, entry: Entry)
    requires Distinct(c) && |c| >= 2
    ensures Pushed(c, c[1].key, entry) == [Slot(c[1].key, entry)] + ([c[0]] + c[2..])
  {
    DropAt(c, 1);
    assert c[..1] == [c[0]];
  }

  lemma CrowdingLarge(c: Slots, extra: nat, N: nat, maxBytes: nat)
    requires Filling(c, maxBytes) && |c| >= 3 && N >= |c|
    requires |c[0].key.text| + extra + TotalSize(c[1..|c| - 1]) == maxBytes
    ensures var n := |c| - 1; Find(Run(Crowding(c, extra), Limits(N, maxBytes)), c[n - 1].key).None?
  {
    hide Run, Find, Crowding, TotalSize, Fill;
    var n, limits := |c| - 1, Limits(N, maxBytes);
    CrowdingRun(c, extra, limits);
    UseLast(c);
    var used := [c[n]] + c[..n];
    RotationDistinct(c);
    PushSecond(used, Sized(extra));
    assert used[1] == c[0] && used[2..] == c[1..n];
    var pushed := [Slot(c[0].key, Sized(extra))] + ([c[n]] + c[1..n]);
    hide Pushed, Get;
    OverBytes(c, extra, maxBytes, pushed);
    assert Set(used, c[0].key, Sized(extra), limits) == Trim(pushed, limits) == Trim(pushed[..|pushed| - 1], limits);
    TrimmedMisses(c, pushed, limits);
  }

  lemma OverBytes(c: Slots, extra: nat, maxBytes: nat, pushed: Slots)
    requires Filling(c, maxBytes) && |c| >= 3
    requires |c[0].key.text| + extra + TotalSize(c[1..|c| - 1]) == maxBytes
    requires pushed == [Slot(c[0].key, Sized(extra))] + ([c[|c| - 1]] + c[1..|c| - 1])
    ensures TotalSize(pushed) > maxBytes
  {
    var n := |c| - 1;
    SizeOfSized(c[0].key, extra);
    SizeOfSized(c[n].key, 0);
    assert pushed[1..] == [c[n]] + c[1..n] && ([c[n]] + c[1..n])[1..] == c[1..n];
  }

  lemma TrimmedMisses(c: Slots, pushed: Slots, limits: Limits)
    requires Distinct(c) && |c| >= 3 && |pushed| == |c|
    requires forall i | 0 <= i < |c| ::
               pushed[i].key == if i == 0 then c[0].key else if i == 1 then c[|c| - 1].key else c[i - 1].key
    ensures Find(Trim(pushed[..|pushed| - 1], limits), c[|c| - 2].key).None?
  {
    var kept := Trim(pushed[..|pushed| - 1], limits);
    assert kept <= pushed[..|pushed| - 1];
    hide Trim;
    forall i | 0 <= i < |kept| ensures kept[i].key != c[|c| - 2].key {
      assert kept[i] == pushed[i];
    }
  }

  /** How much the first slot can grow until the others but the last leave no byte of the budget. */
  lemma Growth(c: Slots, maxBytes: nat) returns (extra: nat)
    requires Filling(c, maxBytes)
    ensures |c[0].key.text| + extra + TotalSize(c[1..|c| - 1]) == maxBytes
  {
    var n := |c| - 1;
    SizeOfSized(c[0].key, 0);
    SizeOfPrefix(c, n);
    assert c[..n][1..] == c[1..n] && c[..n][0] == c[0];
    extra := maxBytes - |c[0].key.text| - TotalSize(c[1..n]);
  }

  lemma SmallHits(c: Slots, extra: nat, maxBytes: nat)
    requires Filling(c, maxBytes) && |c| >= 3
    ensures var n := |c| - 1;
            var small := [Slot(c[0].key, Sized(extra))] + c[1..n];
            Get(small, c[n - 1].key, 0).1.Some?
  {
    var n := |c| - 1;
    var small := [Slot(c[0].key, Sized(extra))] + c[1..n];
    hide TotalSize;
    assert forall i | 1 <= i < n :: small[i] == c[i];
    assert Distinct(small);
    FindAt(small, n - 1);
  }

  /** From any slots that the larger capacity and the budget can hold, and the smaller capacity cannot. */
  lemma BudgetCrowdsOut(held: Slots, N: nat, maxBytes: nat) returns (ops: seq<Op>, key: Key)
    requires 3 <= |held| <= N && Distinct(held) && TotalSize(held) <= maxBytes
    ensures !HitIncluded(ops, |held| - 1, N, maxBytes, key, 0)
  {
    hide Run, Filling, TotalSize, Fill;
    var n := |held| - 1;
    var c := SomeFilling(held, maxBytes);
    var extra := Growth(c, maxBytes);
    ops, key := Crowding(c, extra), c[n - 1].key;
    CrowdingSmall(c, extra, maxBytes);
    CrowdingLarge(c, extra, N, maxBytes);
    SmallHits(c, extra, maxBytes);
  }
}
