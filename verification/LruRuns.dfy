/**
 Whole runs of the reference cache: a hit is always the latest `Set` of its key, and without eviction every living entry
 is hit.
 */
module LruRuns {
  import opened Wrappers
  import opened CacheEntries
  import opened Lru

  datatype Op =
    | DoGet(key: Key, now: int)
    | DoSet(key: Key, entry: Entry)
    | DoDelete(key: Key)
    | DoDeleteMatching(prefix: string)

  function Apply(c: Slots, op: Op, limits: Limits): Slots {
    match op
    case DoGet(key, now) => Get(c, key, now).0
    case DoSet(key, entry) => Set(c, key, entry, limits)
    case DoDelete(key) => Drop(c, Exactly(key))
    case DoDeleteMatching(prefix) => if prefix == "" then c else Drop(c, StartingWith(prefix))
  }

  function Front<T>(s: seq<T>): seq<T>
    requires s != []
  {
    s[..|s| - 1]
  }

  function Last<T>(s: seq<T>): T
    requires s != []
  {
    s[|s| - 1]
  }

  function Run(ops: seq<Op>, limits: Limits): Slots {
    if ops == [] then [] else Apply(Run(Front(ops), limits), Last(ops), limits)
  }

  /** The entry of the latest `Set` of a key that no later deletion covers. */
  function LatestSet(ops: seq<Op>, key: Key): Option<Entry> {
    if ops == [] then None
    else match Last(ops)
      case DoSet(k, e) => if k == key then Some(e) else LatestSet(Front(ops), key)
      case DoDelete(k) => if k == key then None else LatestSet(Front(ops), key)
      case DoDeleteMatching(prefix) =>
        if prefix != "" && StartingWith(prefix).Matches(key) then None else LatestSet(Front(ops), key)
      case DoGet(_, _) => LatestSet(Front(ops), key)
  }

  lemma {:induction false} RunDistinct(ops: seq<Op>, limits: Limits)
    ensures Distinct(Run(ops, limits))
  {
    if ops != [] {
      RunDistinct(Front(ops), limits);
      var c := Run(Front(ops), limits);
      match Last(ops)
      case DoGet(key, now) =>
        DropDistinct(c, Exactly(key));
        if Find(c, key).Some? { PushedDistinct(c, key, Find(c, key).value); }
      case DoSet(key, entry) => PushedDistinct(c, key, entry); TrimDistinct(Pushed(c, key, entry), limits);
      case DoDelete(key) => DropDistinct(c, Exactly(key));
      case DoDeleteMatching(prefix) => DropDistinct(c, StartingWith(prefix));
    }
  }

  lemma {:induction false} FindInDrop(c: Slots, p: Pattern, key: Key)
    ensures Find(Drop(c, p), key) == if p.Matches(key) then None else Find(c, key)
  {
    if c != [] {
      FindInDrop(c[1..], p, key);
      if !p.Matches(c[0].key) {
        assert Drop(c, p)[1..] == Drop(c[1..], p);
      }
    }
  }

  lemma FindInPushed(c: Slots, key: Key, entry: Entry, k: Key)
    ensures Find(Pushed(c, key, entry), k) == if k == key then Some(entry) else Find(c, k)
  {
    FindInDrop(c, Exactly(key), k);
    assert Pushed(c, key, entry)[1..] == Drop(c, Exactly(key));
  }

  lemma {:induction false} FindInPrefix(a: Slots, b: Slots, key: Key)
    requires a <= b
    ensures Find(a, key) == None || Find(a, key) == Find(b, key)
  {
    if a != [] {
      FindInPrefix(a[1..], b[1..], key);
    }
  }

  /** What one operation does to one key: it may lose the key, but never holds an entry that was not there. */
  ghost predicate EffectOnKey(op: Op, key: Key, before: Option<Entry>, after: Option<Entry>) {
    match op
    case DoGet(k, now) =>
      after == before ||
      (after == None && k == key && before.Some? && now > before.value.HardDeadline())
    case DoSet(k, e) =>
      after == None || after == (if k == key then Some(e) else before)
    case DoDelete(k) => after == (if k == key then None else before)
    case DoDeleteMatching(prefix) =>
      after == (if prefix != "" && StartingWith(prefix).Matches(key) then None else before)
  }

  lemma ApplyFind(c: Slots, op: Op, limits: Limits, key: Key)
    ensures EffectOnKey(op, key, Find(c, key), Find(Apply(c, op, limits), key))
  {
    match op
    case DoGet(k, now) =>
      FindInDrop(c, Exactly(k), key);
      if Find(c, k).Some? { FindInPushed(c, k, Find(c, k).value, key); }
    case DoSet(k, e) =>
      FindInPushed(c, k, e, key);
      FindInPrefix(Set(c, k, e, limits), Pushed(c, k, e), key);
    case DoDelete(k) => FindInDrop(c, Exactly(k), key);
    case DoDeleteMatching(prefix) => FindInDrop(c, StartingWith(prefix), key);
  }

  /** Over every sequence of operations, the cache holds for a key its latest `Set` or nothing. */
  lemma {:induction false} HoldsLatestSet(ops: seq<Op>, limits: Limits, key: Key)
    ensures Find(Run(ops, limits), key) == None || Find(Run(ops, limits), key) == LatestSet(ops, key)
  {
    if ops != [] {
      HoldsLatestSet(Front(ops), limits, key);
      ApplyFind(Run(Front(ops), limits), Last(ops), limits, key);
    }
  }

  /** A hit returns the latest `Set` of the key, alive at the time of the call. */
  lemma HitIsLatestSet(ops: seq<Op>, limits: Limits, key: Key, now: int)
    requires Get(Run(ops, limits), key, now).1.Some?
    ensures Get(Run(ops, limits), key, now).1 == LatestSet(ops, key)
    ensures now <= LatestSet(ops, key).value.HardDeadline()
  {
    HoldsLatestSet(ops, limits, key);
  }

  /**
   What a lookup leaves, after any operations: a slot past its lifetime is gone, one that is alive is in front, and the other
   slots stay as they are, in their order.
   */
  lemma LookupLeaves(ops: seq<Op>, limits: Limits, key: Key, now: int)
    ensures var c := Run(ops, limits);
            var (c', r) := Get(c, key, now);
            var found := Find(c, key);
            && r == (if found.Some? && now <= found.value.created + found.value.ttl + found.value.swr then found else None)
            && Find(c', key) == r
            && (r.Some? ==> c' != [] && c'[0] == Slot(key, r.value))
            && Drop(c', Exactly(key)) == Drop(c, Exactly(key))
  {
    var c := Run(ops, limits);
    FindInDrop(c, Exactly(key), key);
    DropTwice(c, key);
    if Find(c, key).Some? {
      assert Pushed(c, key, Find(c, key).value)[1..] == Drop(c, Exactly(key));
    } else {
      DropNothing(c, Exactly(key));
    }
  }

  lemma DropTwice(c: Slots, key: Key)
    ensures Drop(Drop(c, Exactly(key)), Exactly(key)) == Drop(c, Exactly(key))
  {
    DropMembers(c, Exactly(key));
    var rest := Drop(c, Exactly(key));
    forall i | 0 <= i < |rest| ensures rest[i].key != key {
      assert rest[i] in rest;
    }
    DropNothing(rest, Exactly(key));
  }

  /**
   What a store leaves, after any operations: the new slot in front of the others in their order, cut from the back to the
   longest prefix that fits, or to the new slot alone.
   */
  lemma StoreLeaves(ops: seq<Op>, limits: Limits, key: Key, entry: Entry)
    requires limits.capacity >= 1
    ensures var all := [Slot(key, entry)] + Drop(Run(ops, limits), Exactly(key));
            var c' := Set(Run(ops, limits), key, entry, limits);
            && c' != [] && c' <= all
            && ((|c'| <= limits.capacity && TotalSize(c') <= limits.maxBytes) || |c'| == 1)
            && forall k | |c'| < k <= |all| :: k > limits.capacity || TotalSize(all[..k]) > limits.maxBytes
  {
    var all := Pushed(Run(ops, limits), key, entry);
    TrimIsLongestFit(all, limits);
    hide Run, Trim;
    forall k | |Trim(all, limits)| < k <= |all| ensures k > limits.capacity || TotalSize(all[..k]) > limits.maxBytes {
      assert Trim(all, limits) < all[..k] <= all && !Fits(all[..k], limits);
    }
  }

  /** Every slot of a run fits the limits, or is alone. */
  lemma {:induction false} RunWithinLimits(ops: seq<Op>, limits: Limits)
    requires limits.capacity >= 1
    ensures var c := Run(ops, limits); Fits(c, limits) || |c| == 1
  {
    if ops != [] {
      RunWithinLimits(Front(ops), limits);
      RunDistinct(Front(ops), limits);
      var c := Run(Front(ops), limits);
      match Last(ops)
      case DoGet(key, now) => PushedSize(c, key); SizeOfDrop(c, Exactly(key));
      case DoSet(key, entry) => TrimIsLongestFit(Pushed(c, key, entry), limits);
      case DoDelete(key) => SizeOfDrop(c, Exactly(key));
      case DoDeleteMatching(prefix) => SizeOfDrop(c, StartingWith(prefix));
    }
  }

  lemma PushedSize(c: Slots, key: Key)
    requires Distinct(c)
    ensures |Drop(c, Exactly(key))| == if Find(c, key).Some? then |c| - 1 else |c|
    ensures Find(c, key).Some? ==> var r := Pushed(c, key, Find(c, key).value);
                                   |r| == |c| && TotalSize(r) == TotalSize(c)
  {
    if Find(c, key).Some? {
      var i := FoundAt(c, key);
      DropAt(c, i);
      PushAt(c, i);
    } else {
      DropNothing(c, Exactly(key));
    }
  }

  // ---------------------------------------------------------------- no eviction: misses are exact too

  /** Times of the lookups never decrease and none exceeds `now`. */
  ghost predicate Monotone(ops: seq<Op>, now: int) {
    ops == [] ||
    match Last(ops)
    case DoGet(_, t) => t <= now && Monotone(Front(ops), t)
    case _ => Monotone(Front(ops), now)
  }

  /** The limits evict nothing in the whole run. */
  ghost predicate NeverEvicts(ops: seq<Op>, limits: Limits) {
    ops == [] ||
    (NeverEvicts(Front(ops), limits) &&
     (Last(ops).DoSet? ==>
        !OverBudget(Pushed(Run(Front(ops), limits), Last(ops).key, Last(ops).entry), limits)))
  }

  lemma {:induction false} LosesOnlyTheDead(ops: seq<Op>, limits: Limits, key: Key, now: int)
    requires Monotone(ops, now) && NeverEvicts(ops, limits)
    ensures var r := Find(Run(ops, limits), key);
            r == LatestSet(ops, key) ||
            (r == None && LatestSet(ops, key).Some? && now > LatestSet(ops, key).value.HardDeadline())
  {
    if ops != [] {
      var t := if Last(ops).DoGet? then Last(ops).now else now;
      LosesOnlyTheDead(Front(ops), limits, key, t);
      var c := Run(Front(ops), limits);
      ApplyFind(c, Last(ops), limits, key);
      if Last(ops).DoSet? {
        FindInPushed(c, Last(ops).key, Last(ops).entry, key);
      }
    }
  }

  /** With a monotone clock and nothing evicted, a lookup hits exactly when the latest `Set` is still alive. */
  lemma HitsExactlyTheLiving(ops: seq<Op>, limits: Limits, key: Key, now: int)
    requires Monotone(ops, now) && NeverEvicts(ops, limits)
    ensures Get(Run(ops, limits), key, now).1 ==
            if LatestSet(ops, key).Some? && now <= LatestSet(ops, key).value.HardDeadline()
            then LatestSet(ops, key) else None
  {
    LosesOnlyTheDead(ops, limits, key, now);
  }
}
