/**
 The reference cache: one sequence of slots, most recently used first, with a bound on its length and a bound on
 the bytes it holds. `MemoryCache` is proved to behave as this sequence.
 */
module Lru {
  import opened Wrappers
  import opened CacheEntries
  import opened CacheKeys

  datatype Slot = Slot(key: Key, entry: Entry)

  type Slots = seq<Slot>

  datatype Limits = Limits(capacity: nat, maxBytes: nat)

  /** What a deletion removes. */
  datatype Pattern = Exactly(key: Key) | StartingWith(prefix: string) {
    predicate Matches(k: Key) {
      match this
      case Exactly(key) => k == key
      case StartingWith(prefix) => HasPrefix(k.text, prefix)
    }
  }

  ghost predicate Distinct(c: Slots) {
    forall i, j | 0 <= i < j < |c| :: c[i].key != c[j].key
  }

  function Find(c: Slots, key: Key): (r: Option<Entry>)
    ensures r.None? <==> forall i | 0 <= i < |c| :: c[i].key != key
  {
    if c == [] then None
    else if c[0].key == key then Some(c[0].entry)
    else Find(c[1..], key)
  }

  function Drop(c: Slots, p: Pattern): (r: Slots)
    ensures |r| <= |c|
  {
    if c == [] then []
    else if p.Matches(c[0].key) then Drop(c[1..], p)
    else [c[0]] + Drop(c[1..], p)
  }

  function TotalSize(c: Slots): nat {
    if c == [] then 0 else EntrySize(c[0].key, c[0].entry) + TotalSize(c[1..])
  }

  predicate OverBudget(c: Slots, limits: Limits) {
    |c| > limits.capacity || (TotalSize(c) > limits.maxBytes && |c| > 1)
  }

  /** Evict from the back until within budget. */
  function Trim(c: Slots, limits: Limits): (r: Slots)
    ensures r <= c
  {
    if c != [] && OverBudget(c, limits) then Trim(c[..|c| - 1], limits) else c
  }

  function Pushed(c: Slots, key: Key, entry: Entry): Slots {
    [Slot(key, entry)] + Drop(c, Exactly(key))
  }

  function Set(c: Slots, key: Key, entry: Entry, limits: Limits): Slots {
    Trim(Pushed(c, key, entry), limits)
  }

  /** A hit moves the slot to the front; a slot past its hard deadline is evicted. */
  function Get(c: Slots, key: Key, now: int): (r: (Slots, Option<Entry>)) {
    match Find(c, key)
    case None => (c, None)
    case Some(e) =>
      if now > e.HardDeadline() then (Drop(c, Exactly(key)), None)
      else (Pushed(c, key, e), Some(e))
  }

  lemma {:induction false} DropMembers(c: Slots, p: Pattern)
    ensures forall s :: s in Drop(c, p) <==> s in c && !p.Matches(s.key)
  {
    if c != [] {
      DropMembers(c[1..], p);
    }
  }

  lemma {:induction false} FindAt(c: Slots, i: nat)
    requires Distinct(c) && i < |c|
    ensures Find(c, c[i].key) == Some(c[i].entry)
  {
    if i > 0 {
      FindAt(c[1..], i - 1);
    }
  }

  lemma {:induction false} FoundAt(c: Slots, key: Key) returns (i: nat)
    requires Find(c, key).Some?
    ensures i < |c| && c[i] == Slot(key, Find(c, key).value)
  {
    if c[0].key == key {
      i := 0;
    } else {
      var j := FoundAt(c[1..], key);
      i := j + 1;
    }
  }

  /** Deleting the key of one slot removes that slot and no other. */
  lemma {:induction false} DropAt(c: Slots, i: nat)
    requires Distinct(c) && i < |c|
    ensures Drop(c, Exactly(c[i].key)) == c[..i] + c[i + 1..]
    ensures TotalSize(c) == TotalSize(c[..i] + c[i + 1..]) + EntrySize(c[i].key, c[i].entry)
  {
    if i == 0 {
      DropNothing(c[1..], Exactly(c[0].key));
      assert c[..0] + c[1..] == c[1..];
    } else {
      var rest := c[1..];
      DropAt(rest, i - 1);
      assert c[..i] + c[i + 1..] == [c[0]] + (rest[..i - 1] + rest[i..]);
    }
  }

  lemma {:induction false} DropDistinct(c: Slots, p: Pattern)
    requires Distinct(c)
    ensures Distinct(Drop(c, p))
  {
    if c != [] {
      var rest := c[1..];
      DropDistinct(rest, p);
      DropMembers(rest, p);
      var d := Drop(rest, p);
      forall i | 0 <= i < |d| ensures d[i].key != c[0].key {
        assert d[i] in rest;
      }
    }
  }

  lemma {:induction false} DropNothing(c: Slots, p: Pattern)
    requires forall i | 0 <= i < |c| :: !p.Matches(c[i].key)
    ensures Drop(c, p) == c
  {
    if c != [] {
      DropNothing(c[1..], p);
    }
  }

  lemma {:induction false} DropConcat(a: Slots, b: Slots, p: Pattern)
    ensures Drop(a + b, p) == Drop(a, p) + Drop(b, p)
  {
    if a == [] {
      assert a + b == b;
    } else {
      assert (a + b)[1..] == a[1..] + b;
      DropConcat(a[1..], b, p);
    }
  }

  lemma {:induction false} DropAgain(c: Slots, p: Pattern, q: Pattern)
    requires forall k :: q.Matches(k) ==> p.Matches(k)
    ensures Drop(Drop(c, q), p) == Drop(c, p)
  {
    if c != [] {
      DropAgain(c[1..], p, q);
      if !q.Matches(c[0].key) {
        assert Drop(c, q)[1..] == Drop(c[1..], q);
      }
    }
  }

  lemma {:induction false} SizeConcat(a: Slots, b: Slots)
    ensures TotalSize(a + b) == TotalSize(a) + TotalSize(b)
  {
    if a == [] {
      assert a + b == b;
    } else {
      assert (a + b)[1..] == a[1..] + b;
      SizeConcat(a[1..], b);
    }
  }

  lemma SizeOfOne(s: Slot)
    ensures TotalSize([s]) == EntrySize(s.key, s.entry)
  {
  }

  /** Updating a slot in place and then moving it to the front is one push of the new entry. */
  lemma Replaced(c: Slots, i: nat, entry: Entry)
    requires Distinct(c) && i < |c|
    ensures var u := c[i := Slot(c[i].key, entry)];
            && Distinct(u)
            && Pushed(u, c[i].key, entry) == Pushed(c, c[i].key, entry)
            && TotalSize(u) == TotalSize(c) - EntrySize(c[i].key, c[i].entry) + EntrySize(c[i].key, entry)
  {
    var u := c[i := Slot(c[i].key, entry)];
    DropAt(c, i);
    DropAt(u, i);
    assert u[..i] + u[i + 1..] == c[..i] + c[i + 1..];
  }

  lemma {:induction false} SizeOfDrop(c: Slots, p: Pattern)
    ensures TotalSize(Drop(c, p)) <= TotalSize(c)
  {
    if c != [] {
      SizeOfDrop(c[1..], p);
      if !p.Matches(c[0].key) {
        assert Drop(c, p)[1..] == Drop(c[1..], p);
      }
    }
  }

  lemma PushAt(c: Slots, i: nat)
    requires Distinct(c) && i < |c|
    ensures var r := [c[i]] + (c[..i] + c[i + 1..]);
            Pushed(c, c[i].key, c[i].entry) == r && TotalSize(r) == TotalSize(c)
  {
    DropAt(c, i);
    SizeConcat([c[i]], c[..i] + c[i + 1..]);
  }

  lemma TrimStep(c: Slots, limits: Limits)
    requires Distinct(c) && c != [] && OverBudget(c, limits)
    ensures Trim(c, limits) == Trim(Drop(c, Exactly(c[|c| - 1].key)), limits)
  {
    DropAt(c, |c| - 1);
    assert c[..|c| - 1] + c[|c|..] == c[..|c| - 1];
  }

  lemma TrimDistinct(c: Slots, limits: Limits)
    requires Distinct(c)
    ensures Distinct(Trim(c, limits))
  {
  }

  lemma PushedDistinct(c: Slots, key: Key, entry: Entry)
    requires Distinct(c)
    ensures Distinct(Pushed(c, key, entry))
  {
    DropDistinct(c, Exactly(key));
    DropMembers(c, Exactly(key));
    var d := Drop(c, Exactly(key));
    forall i | 0 <= i < |d| ensures d[i].key != key {
      assert d[i] in d;
    }
  }

  ghost predicate Fits(c: Slots, limits: Limits) {
    |c| <= limits.capacity && TotalSize(c) <= limits.maxBytes
  }

  /**
   What eviction leaves: the longest prefix of the recency order that fits both bounds, or the newest slot alone
   when it exceeds the byte budget by itself.
   */
  lemma {:induction false} TrimIsLongestFit(c: Slots, limits: Limits)
    requires c != [] && limits.capacity >= 1
    ensures var r := Trim(c, limits);
            && r != [] && r <= c
            && (Fits(r, limits) || |r| == 1)
            && (forall q | r < q <= c :: !Fits(q, limits))
  {
    if OverBudget(c, limits) {
      var shorter := c[..|c| - 1];
      TrimIsLongestFit(shorter, limits);
      forall q | Trim(c, limits) < q <= c ensures !Fits(q, limits) {
        if |q| < |c| {
          assert q <= shorter;
        } else {
          assert q == c;
        }
      }
    }
  }
}
