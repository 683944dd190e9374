/**
 The in-process cache: a map from keys to list nodes and a recency list of the same nodes, updated in place,
 plus a running byte total. Every method is proved to act on `contents` as the reference cache does.
 */
module MemoryCaches {
  import opened Wrappers
  import opened CacheEntries
  import CacheKeys
  import Lru

  const DEFAULT_CAPACITY: nat := 1024
  const DEFAULT_MAX_BYTES: nat := 0x400_0000

  class MemoryNode {
    const key: Key
    var entry: Entry

    constructor (key: Key, entry: Entry)
      ensures this.key == key && this.entry == entry
    {
      this.key, this.entry := key, entry;
    }
  }

  /** The slots that a list of nodes stands for. */
  ghost predicate StandsFor(nodes: seq<MemoryNode>, slots: Lru.Slots)
    reads nodes
    ensures StandsFor(nodes, slots) ==> |slots| == |nodes|
  {
    && |slots| == |nodes|
    && forall i | 0 <= i < |nodes| :: slots[i] == Lru.Slot(nodes[i].key, nodes[i].entry)
  }

  function Position(nodes: seq<MemoryNode>, n: MemoryNode): (i: nat)
    requires n in nodes
    ensures i < |nodes| && nodes[i] == n
  {
    if nodes[0] == n then 0 else 1 + Position(nodes[1..], n)
  }

  /** List and map hold the same nodes, once each. Keys never change, so this does not depend on the heap. */
  ghost predicate Linked(order: seq<MemoryNode>, items: map<Key, MemoryNode>) {
    && (forall i, j | 0 <= i < j < |order| :: order[i].key != order[j].key)
    && (forall i | 0 <= i < |order| :: order[i].key in items && items[order[i].key] == order[i])
    && (forall k | k in items :: items[k] in order && items[k].key == k)
  }

  lemma Unlinked(order: seq<MemoryNode>, items: map<Key, MemoryNode>, i: nat)
    requires Linked(order, items) && i < |order|
    ensures Linked(order[..i] + order[i + 1..], items - {order[i].key})
  {
    var shorter, fewer := order[..i] + order[i + 1..], items - {order[i].key};
    forall k | k in fewer ensures fewer[k] in shorter && fewer[k].key == k {
      var j := Position(order, items[k]);
      assert shorter[if j < i then j else j - 1] == items[k];
    }
  }

  lemma PushedFront(order: seq<MemoryNode>, items: map<Key, MemoryNode>, n: MemoryNode)
    requires Linked(order, items) && n.key !in items
    ensures Linked([n] + order, items[n.key := n])
  {
    var longer, more := [n] + order, items[n.key := n];
    forall k | k in more ensures more[k] in longer && more[k].key == k {
      if k != n.key {
        var j := Position(order, items[k]);
        assert longer[j + 1] == items[k];
      }
    }
  }

  lemma MovedToFront(order: seq<MemoryNode>, items: map<Key, MemoryNode>, i: nat)
    requires Linked(order, items) && i < |order|
    ensures Linked([order[i]] + (order[..i] + order[i + 1..]), items)
  {
    Unlinked(order, items, i);
    var shorter, fewer := order[..i] + order[i + 1..], items - {order[i].key};
    PushedFront(shorter, fewer, order[i]);
    assert fewer[order[i].key := order[i]] == items;
  }

  lemma StandsForWithout(nodes: seq<MemoryNode>, slots: Lru.Slots, i: nat)
    requires StandsFor(nodes, slots) && i < |nodes|
    ensures StandsFor(nodes[..i] + nodes[i + 1..], slots[..i] + slots[i + 1..])
  {
  }

  lemma StandsForFronted(n: MemoryNode, nodes: seq<MemoryNode>, slots: Lru.Slots)
    requires StandsFor(nodes, slots)
    ensures StandsFor([n] + nodes, [Lru.Slot(n.key, n.entry)] + slots)
  {
  }

  class MemoryCache {
    const capacity: nat
    const maxBytes: nat
    var order: seq<MemoryNode>
    var items: map<Key, MemoryNode>
    var bytes: int
    ghost var contents: Lru.Slots

    ghost function Limits(): Lru.Limits {
      Lru.Limits(capacity, maxBytes)
    }

    ghost predicate Accounted()
      reads this, order
    {
      && Linked(order, items)
      && StandsFor(order, contents)
      && bytes == Lru.TotalSize(contents)
    }

    ghost predicate Valid()
      reads this, order
    {
      && capacity >= 1 && maxBytes >= 1
      && Accounted()
      && |order| <= capacity
      && (bytes <= maxBytes || |order| <= 1)
    }

    constructor (capacity: int, maxBytes: int)
      ensures Valid() && contents == []
      ensures this.capacity == if capacity <= 0 then 1024 else capacity
      ensures this.maxBytes == if maxBytes <= 0 then 67_108_864 else maxBytes
    {
      this.capacity := if capacity <= 0 then DEFAULT_CAPACITY else capacity;
      this.maxBytes := if maxBytes <= 0 then DEFAULT_MAX_BYTES else maxBytes;
      order, items, bytes, contents := [], map[], 0, [];
    }

    /** The map finds exactly what a search of the recency order finds. */
    lemma MapAgrees(key: Key)
      requires Linked(order, items) && StandsFor(order, contents)
      ensures key in items ==> items[key] in order && items[key].key == key
      ensures key in items ==> Lru.Find(contents, key) == Some(items[key].entry)
      ensures key !in items ==> Lru.Find(contents, key) == None
      ensures key !in items ==> Lru.Drop(contents, Lru.Exactly(key)) == contents
    {
      if key in items {
        Lru.FindAt(contents, Position(order, items[key]));
      } else {
        Lru.DropNothing(contents, Lru.Exactly(key));
      }
    }

    lemma SlotOf(elem: MemoryNode) returns (i: nat)
      requires Linked(order, items) && StandsFor(order, contents) && elem in order
      ensures Lru.Distinct(contents) && i < |contents| == |order|
      ensures i == Position(order, elem) && contents[i] == Lru.Slot(elem.key, elem.entry)
      ensures elem.key in items && items[elem.key] == elem
    {
      i := Position(order, elem);
    }

    /** Removes one node from both structures and releases its bytes: the clamp at zero changes nothing. */
    method EvictElement(elem: MemoryNode)
      requires Accounted() && elem in order
      modifies this
      ensures Accounted()
      ensures |order| == |old(order)| - 1 && forall n | n in order :: n in old(order)
      ensures items == old(items) - {elem.key}
      ensures contents == Lru.Drop(old(contents), Lru.Exactly(elem.key))
      ensures bytes == old(bytes) - EntrySize(elem.key, elem.entry)
    {
      hide Linked, StandsFor, Lru.Distinct, Lru.TotalSize, Lru.Drop;
      ghost var at := SlotOf(elem);
      Unlinked(order, items, at);
      Lru.DropAt(contents, at);
      StandsForWithout(order, contents, at);
      var size := ComputeEntrySize(elem.key, elem.entry);
      var i := Position(order, elem);
      order, items, bytes := order[..i] + order[i + 1..], items - {elem.key},
        if bytes - size < 0 then 0 else bytes - size;
      contents := contents[..at] + contents[at + 1..];
    }

    /** `list.MoveToFront`. */
    method MoveToFront(elem: MemoryNode)
      requires Accounted() && elem in order
      modifies this
      ensures Accounted()
      ensures |order| == |old(order)| && bytes == old(bytes) && forall n | n in order :: n in old(order)
      ensures contents == Lru.Pushed(old(contents), elem.key, elem.entry)
    {
      hide Linked, StandsFor, Lru.Distinct, Lru.TotalSize, Lru.Drop;
      var i := Position(order, elem);
      ghost var at := SlotOf(elem);
      MovedToFront(order, items, at);
      Lru.PushAt(contents, at);
      StandsForWithout(order, contents, at);
      StandsForFronted(elem, order[..at] + order[at + 1..], contents[..at] + contents[at + 1..]);
      order := [elem] + (order[..i] + order[i + 1..]);
      contents := [contents[at]] + (contents[..at] + contents[at + 1..]);
    }

    method EvictToBudget()
      requires Accounted() && capacity >= 1 && maxBytes >= 1
      modifies this
      ensures Valid()
      ensures forall n | n in order :: n in old(order)
      ensures contents == Lru.Trim(old(contents), Limits())
    {
      hide Linked, Lru.Distinct, Lru.TotalSize, Lru.Drop;
      while |order| > capacity || (bytes > maxBytes && |order| > 1)
        invariant Accounted()
        invariant forall n | n in order :: n in old(order)
        invariant Lru.Trim(contents, Limits()) == Lru.Trim(old(contents), Limits())
        decreases |order|
      {
        var oldest := order[|order| - 1];
        ghost var at := SlotOf(oldest);
        Lru.TrimStep(contents, Limits());
        EvictElement(oldest);
      }
    }

    /** Returns the entry if it is present and alive; a dead entry is evicted on the way. */
    method Get(key: Key, now: int) returns (entry: Option<Entry>)
      requires Valid()
      modifies this
      ensures Valid() && forall n | n in order :: n in old(order)
      ensures (contents, entry) == Lru.Get(old(contents), key, now)
    {
      MapAgrees(key);
      if key !in items {
        return None;
      }
      var elem := items[key];
      if now > elem.entry.HardDeadline() {
        EvictElement(elem);
        return None;
      }
      MoveToFront(elem);
      return Some(elem.entry);
    }

    method Set(key: Key, entry: Entry)
      requires Valid()
      modifies this, order
      ensures Valid() && fresh((set n | n in order) - (set n | n in old(order)))
      ensures contents == Lru.Set(old(contents), key, entry, Limits())
    {
      hide Linked, Lru.Distinct, Lru.TotalSize, Lru.Drop;
      MapAgrees(key);
      var newSize := ComputeEntrySize(key, entry);
      if key in items {
        var node := items[key];
        var oldSize := ComputeEntrySize(key, node.entry);
        ghost var i := SlotOf(node);
        Lru.Replaced(contents, i, entry);
        bytes := bytes + newSize - oldSize;
        node.entry := entry;
        contents := contents[i := Lru.Slot(key, entry)];
        MoveToFront(node);
      } else {
        PushNew(key, entry, newSize);
      }
      EvictToBudget();
    }

    /** The insertion branch of `Set`, before eviction. */
    method PushNew(key: Key, entry: Entry, size: nat)
      requires Accounted() && key !in items && size == EntrySize(key, entry)
      modifies this
      ensures Accounted()
      ensures |order| == |old(order)| + 1 && fresh(order[0]) && order[1..] == old(order)
      ensures contents == Lru.Pushed(old(contents), key, entry)
    {
      hide Linked, StandsFor, Lru.Distinct, Lru.TotalSize, Lru.Drop;
      MapAgrees(key);
      Lru.SizeConcat([Lru.Slot(key, entry)], contents);
      Lru.SizeOfOne(Lru.Slot(key, entry));
      var node := new MemoryNode(key, entry);
      PushedFront(order, items, node);
      StandsForFronted(node, order, contents);
      order, items, bytes := [node] + order, items[key := node], bytes + size;
      contents := [Lru.Slot(key, entry)] + contents;
    }

    method Delete(key: Key)
      requires Valid()
      modifies this
      ensures Valid() && forall n | n in order :: n in old(order)
      ensures contents == Lru.Drop(old(contents), Lru.Exactly(key))
    {
      MapAgrees(key);
      if key !in items {
        return;
      }
      EvictElement(items[key]);
    }

    /**
     Visits the map in any order, deleting as it goes. The empty prefix is refused and deletes nothing.
     */
    method DeleteMatching(prefix: string) returns (ok: bool)
      requires Valid()
      modifies this
      ensures Valid() && forall n | n in order :: n in old(order)
      ensures ok <==> prefix != ""
      ensures contents == if ok then Lru.Drop(old(contents), Lru.StartingWith(prefix)) else old(contents)
    {
      if prefix == "" {
        return false;
      }
      var unvisited := items.Keys;
      while unvisited != {}
        invariant Valid() && unvisited <= items.Keys
        invariant forall n | n in order :: n in old(order)
        invariant forall k | k in items.Keys - unvisited :: !CacheKeys.HasPrefix(k.text, prefix)
        invariant Lru.Drop(contents, Lru.StartingWith(prefix)) == Lru.Drop(old(contents), Lru.StartingWith(prefix))
        decreases unvisited
      {
        var key :| key in unvisited;
        unvisited := unvisited - {key};
        if CacheKeys.HasPrefix(key.text, prefix) {
          ghost var was := contents;
          EvictElement(items[key]);
          Lru.DropAgain(was, Lru.StartingWith(prefix), Lru.Exactly(key));
        }
      }
      Lru.DropNothing(contents, Lru.StartingWith(prefix));
      return true;
    }
  }
}
