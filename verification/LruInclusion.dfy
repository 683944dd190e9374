/**
 LRU inclusion. Run on the same operations, a cache of capacity `n` holds a subsequence of what a cache of capacity
 `N >= n` holds, so every hit in the small one is the same hit in the large one, as long as the byte budget evicts
 nothing in the large cache. `LruBudget` says for which capacities and budgets the hits are included over all runs.
 */
module LruInclusion {
  import opened Wrappers
  import opened CacheEntries
  import opened CacheKeys
  import opened Lru
  import opened LruRuns

  /** The slots of `c` whose key is in `keys`, in order. */
  function Keep(c: Slots, keys: set<Key>): (r: Slots)
    ensures |r| <= |c|
  {
    if c == [] then []
    else if c[0].key in keys then [c[0]] + Keep(c[1..], keys)
    else Keep(c[1..], keys)
  }

  lemma {:induction false} KeepConcat(a: Slots, b: Slots, keys: set<Key>)
    ensures Keep(a + b, keys) == Keep(a, keys) + Keep(b, keys)
  {
    if a == [] {
      assert a + b == b;
    } else {
      assert (a + b)[1..] == a[1..] + b;
      KeepConcat(a[1..], b, keys);
    }
  }

  /** Deleting commutes with keeping, and deletes no more from the part than from the whole. */
  lemma {:induction false} KeepDrop(c: Slots, keys: set<Key>, p: Pattern)
    ensures Keep(Drop(c, p), keys) == Drop(Keep(c, keys), p)
    ensures |Drop(c, p)| - |Drop(Keep(c, keys), p)| <= |c| - |Keep(c, keys)|
  {
    if c != [] {
      KeepDrop(c[1..], keys, p);
      if c[0].key in keys {
        assert Keep(c, keys)[1..] == Keep(c[1..], keys);
      }
      if !p.Matches(c[0].key) {
        assert Drop(c, p)[1..] == Drop(c[1..], p);
      }
    }
  }

  lemma {:induction false} KeepSame(c: Slots, keys: set<Key>, keys': set<Key>)
    requires forall i | 0 <= i < |c| :: c[i].key in keys <==> c[i].key in keys'
    ensures Keep(c, keys) == Keep(c, keys')
  {
    if c != [] {
      KeepSame(c[1..], keys, keys');
    }
  }

  lemma {:induction false} SizeOfKeep(c: Slots, keys: set<Key>)
    ensures TotalSize(Keep(c, keys)) <= TotalSize(c)
  {
    if c != [] {
      SizeOfKeep(c[1..], keys);
      if c[0].key in keys {
        assert Keep(c, keys)[1..] == Keep(c[1..], keys);
      }
    }
  }

  lemma {:induction false} FindInKeep(c: Slots, keys: set<Key>, key: Key)
    ensures Find(Keep(c, keys), key) == if key in keys then Find(c, key) else None
  {
    if c != [] {
      FindInKeep(c[1..], keys, key);
      if c[0].key in keys {
        assert Keep(c, keys)[1..] == Keep(c[1..], keys);
      }
    }
  }

  /** `small` is what `large` holds for `keys`, and lacks at most `slack` slots. */
  ghost predicate Within(small: Slots, large: Slots, keys: set<Key>, slack: nat) {
    && small == Keep(large, keys)
    && |large| - |small| <= slack
  }

  lemma PushedWithin(small: Slots, large: Slots, keys: set<Key>, slack: nat, key: Key, entry: Entry)
    requires Within(small, large, keys, slack)
    ensures Within(Pushed(small, key, entry), Pushed(large, key, entry), keys + {key}, slack)
  {
    var rest := Drop(large, Exactly(key));
    KeepDrop(large, keys, Exactly(key));
    DropMembers(large, Exactly(key));
    forall i | 0 <= i < |rest| ensures rest[i].key in keys <==> rest[i].key in keys + {key} {
      assert rest[i] in rest;
    }
    KeepSame(rest, keys, keys + {key});
    assert Pushed(large, key, entry)[1..] == rest;
  }

  /** A hit in the large cache alone only moves a slot that the small one lacks. */
  lemma ReorderedWithin(small: Slots, large: Slots, keys: set<Key>, slack: nat, key: Key)
    requires Within(small, large, keys, slack) && Distinct(large)
    requires Find(small, key).None? && Find(large, key).Some?
    ensures Within(small, Pushed(large, key, Find(large, key).value), keys - {key}, slack)
  {
    FindInKeep(large, keys, key);
    var rest := Drop(large, Exactly(key));
    KeepDrop(large, keys, Exactly(key));
    DropNothing(small, Exactly(key));
    PushedSize(large, key);
    KeepSame(rest, keys, keys - {key});
    assert Pushed(large, key, Find(large, key).value)[1..] == rest;
  }

  function ByCount(c: Slots, n: nat): Slots {
    if |c| > n then c[..n] else c
  }

  /** When the newest `capacity` slots fit the byte budget, eviction is by count alone. */
  lemma {:induction false} TrimByCount(c: Slots, limits: Limits)
    requires TotalSize(ByCount(c, limits.capacity)) <= limits.maxBytes
    ensures Trim(c, limits) == ByCount(c, limits.capacity)
  {
    if |c| > limits.capacity {
      var shorter := c[..|c| - 1];
      assert ByCount(shorter, limits.capacity) == ByCount(c, limits.capacity);
      TrimByCount(shorter, limits);
    }
  }

  lemma {:induction false} KeepWithout(c: Slots, keys: set<Key>, key: Key)
    ensures Keep(c, keys - {key}) == Drop(Keep(c, keys), Exactly(key))
  {
    if c != [] {
      KeepWithout(c[1..], keys, key);
      if c[0].key in keys {
        assert Keep(c, keys)[1..] == Keep(c[1..], keys);
      }
    }
  }

  /** Dropping the last slot of the small cache is forgetting its key. */
  lemma CutSmall(small: Slots, large: Slots, keys: set<Key>) returns (keys': set<Key>)
    requires small != [] && small == Keep(large, keys) && Distinct(small)
    ensures keys' == keys - {Last(small).key}
    ensures Keep(large, keys') == Front(small)
  {
    keys' := keys - {Last(small).key};
    KeepWithout(large, keys, Last(small).key);
    DropAt(small, |small| - 1);
    assert small[..|small| - 1] + small[|small|..] == Front(small);
  }

  /** Evicting by count in both keeps the small cache inside the large one. */
  lemma CountedWithin(small: Slots, large: Slots, keys: set<Key>, n: nat, N: nat) returns (keys': set<Key>)
    requires n <= N && |small| <= n + 1 && |large| <= N + 1
    requires Within(small, large, keys, N - n) && Distinct(small)
    ensures Within(ByCount(small, n), ByCount(large, N), keys', N - n)
  {
    keys' := keys;
    if |small| > n {
      keys' := CutSmall(small, large, keys);
    }
    if |large| > N {
      var front, last := large[..N], large[N];
      assert large == front + [last];
      KeepConcat(front, [last], keys);
      KeepConcat(front, [last], keys');
      assert last.key in keys ==> Last(small) == last;
    }
  }

  /** The byte budget evicts nothing from this cache in the whole run. */
  ghost predicate BytesNeverBind(ops: seq<Op>, limits: Limits) {
    ops == [] ||
    (BytesNeverBind(Front(ops), limits) &&
     (Last(ops).DoSet? ==>
        var pushed := Pushed(Run(Front(ops), limits), Last(ops).key, Last(ops).entry);
        TotalSize(ByCount(pushed, limits.capacity)) <= limits.maxBytes))
  }

  lemma StepGet(small: Slots, large: Slots, keys: set<Key>, slack: nat, key: Key, now: int) returns (keys': set<Key>)
    requires Within(small, large, keys, slack) && Distinct(large)
    ensures Within(Get(small, key, now).0, Get(large, key, now).0, keys', slack)
  {
    FindInKeep(large, keys, key);
    keys' := keys;
    if Find(large, key).Some? {
      var e := Find(large, key).value;
      KeepDrop(large, keys, Exactly(key));
      if now > e.HardDeadline() {
        if Find(small, key).None? {
          DropNothing(small, Exactly(key));
        }
      } else if Find(small, key).Some? {
        PushedWithin(small, large, keys, slack, key, e);
        keys' := keys + {key};
      } else {
        ReorderedWithin(small, large, keys, slack, key);
        keys' := keys - {key};
      }
    }
  }

  lemma StepSet(small: Slots, large: Slots, keys: set<Key>, n: nat, N: nat, maxBytes: nat, key: Key, entry: Entry)
    returns (keys': set<Key>)
    requires 1 <= n <= N && |small| <= n && |large| <= N
    requires Within(small, large, keys, N - n) && Distinct(small) && Distinct(large)
    requires TotalSize(ByCount(Pushed(large, key, entry), N)) <= maxBytes
    ensures Within(Set(small, key, entry, Limits(n, maxBytes)), Set(large, key, entry, Limits(N, maxBytes)), keys', N - n)
  {
    PushedWithin(small, large, keys, N - n, key, entry);
    PushedDistinct(small, key, entry);
    keys' := CountedWithin(Pushed(small, key, entry), Pushed(large, key, entry), keys + {key}, n, N);
    SizeOfKeep(ByCount(Pushed(large, key, entry), N), keys');
    TrimByCount(Pushed(small, key, entry), Limits(n, maxBytes));
    TrimByCount(Pushed(large, key, entry), Limits(N, maxBytes));
  }

  lemma {:induction false} RunsWithin(ops: seq<Op>, n: nat, N: nat, maxBytes: nat) returns (keys: set<Key>)
    requires 1 <= n <= N && BytesNeverBind(ops, Limits(N, maxBytes))
    ensures Within(Run(ops, Limits(n, maxBytes)), Run(ops, Limits(N, maxBytes)), keys, N - n)
  {
    keys := {};
    if ops != [] {
      var was := RunsWithin(Front(ops), n, N, maxBytes);
      var small, large := Run(Front(ops), Limits(n, maxBytes)), Run(Front(ops), Limits(N, maxBytes));
      RunDistinct(Front(ops), Limits(n, maxBytes));
      RunDistinct(Front(ops), Limits(N, maxBytes));
      RunWithinLimits(Front(ops), Limits(n, maxBytes));
      RunWithinLimits(Front(ops), Limits(N, maxBytes));
      keys := was;
      match Last(ops)
      case DoGet(key, now) => keys := StepGet(small, large, was, N - n, key, now);
      case DoSet(key, entry) => keys := StepSet(small, large, was, n, N, maxBytes, key, entry);
      case DoDelete(key) => KeepDrop(large, was, Exactly(key));
      case DoDeleteMatching(prefix) => KeepDrop(large, was, StartingWith(prefix));
    }
  }

  /** Every hit of the small cache is a hit of the large one, with the same entry. */
  lemma SmallHitIsLargeHit(ops: seq<Op>, n: nat, N: nat, maxBytes: nat, key: Key, now: int)
    requires 1 <= n <= N && BytesNeverBind(ops, Limits(N, maxBytes))
    ensures var small := Get(Run(ops, Limits(n, maxBytes)), key, now).1;
            small.Some? ==> Get(Run(ops, Limits(N, maxBytes)), key, now).1 == small
  {
    var keys := RunsWithin(ops, n, N, maxBytes);
    FindInKeep(Run(ops, Limits(N, maxBytes)), keys, key);
  }

  // ---------------------------------------------------------------- when the byte budget never binds

  predicate SetsAtMost(ops: seq<Op>, most: nat) {
    forall i | 0 <= i < |ops| && ops[i].DoSet? :: EntrySize(ops[i].key, ops[i].entry) <= most
  }

  ghost predicate SlotsAtMost(c: Slots, most: nat) {
    forall i | 0 <= i < |c| :: EntrySize(c[i].key, c[i].entry) <= most
  }

  lemma {:induction false} DropAtMost(c: Slots, p: Pattern, most: nat)
    requires SlotsAtMost(c, most)
    ensures SlotsAtMost(Drop(c, p), most)
  {
    if c != [] {
      DropAtMost(c[1..], p, most);
    }
  }

  lemma {:induction false} RunAtMost(ops: seq<Op>, limits: Limits, most: nat)
    requires SetsAtMost(ops, most)
    ensures SlotsAtMost(Run(ops, limits), most)
  {
    if ops != [] {
      RunAtMost(Front(ops), limits, most);
      var c := Run(Front(ops), limits);
      match Last(ops)
      case DoGet(key, _) =>
        DropAtMost(c, Exactly(key), most);
        if Find(c, key).Some? { var _ := FoundAt(c, key); }
      case DoSet(key, entry) => PushedAtMost(c, key, entry, most);
      case DoDelete(key) => DropAtMost(c, Exactly(key), most);
      case DoDeleteMatching(prefix) => DropAtMost(c, StartingWith(prefix), most);
    }
  }

  lemma PushedAtMost(c: Slots, key: Key, entry: Entry, most: nat)
    requires SlotsAtMost(c, most) && EntrySize(key, entry) <= most
    ensures SlotsAtMost(Pushed(c, key, entry), most)
  {
    DropAtMost(c, Exactly(key), most);
  }

  lemma {:induction false} SizeAtMost(c: Slots, most: nat)
    requires SlotsAtMost(c, most)
    ensures TotalSize(c) <= |c| * most
  {
    if c != [] {
      SizeAtMost(c[1..], most);
      assert |c| * most == |c[1..]| * most + most;
    }
  }

  /** The byte budget never binds when it holds as many entries of the largest size as the capacity allows. */
  lemma {:induction false} LargeBudgetNeverBinds(ops: seq<Op>, limits: Limits, most: nat)
    requires SetsAtMost(ops, most) && limits.capacity * most <= limits.maxBytes
    ensures BytesNeverBind(ops, limits)
  {
    if ops != [] {
      LargeBudgetNeverBinds(Front(ops), limits, most);
      if Last(ops).DoSet? {
        RunAtMost(Front(ops), limits, most);
        var pushed := Pushed(Run(Front(ops), limits), Last(ops).key, Last(ops).entry);
        PushedAtMost(Run(Front(ops), limits), Last(ops).key, Last(ops).entry, most);
        var kept := ByCount(pushed, limits.capacity);
        SizeAtMost(kept, most);
        assert |kept| * most <= limits.capacity * most by {
          Scaled(|kept|, limits.capacity, most);
        }
      }
    }
  }

  lemma Scaled(a: nat, b: nat, c: nat)
    requires a <= b
    ensures a * c <= b * c
  {
  }

  /** So capacity alone decides, and inclusion holds, for entries that a caller knows to be small enough. */
  lemma SmallEntriesInclude(ops: seq<Op>, n: nat, N: nat, maxBytes: nat, most: nat, key: Key, now: int)
    requires 1 <= n <= N && SetsAtMost(ops, most) && N * most <= maxBytes
    ensures var small := Get(Run(ops, Limits(n, maxBytes)), key, now).1;
            small.Some? ==> Get(Run(ops, Limits(N, maxBytes)), key, now).1 == small
  {
    LargeBudgetNeverBinds(ops, Limits(N, maxBytes), most);
    SmallHitIsLargeHit(ops, n, N, maxBytes, key, now);
  }
}
