/**
 The caching transport: what one call does with the store, and how a reply of the server becomes an entry.
 The interleavings of many calls are in `CacheProtocol`, which uses the functions of this module.
 */
module CachingTransport {
  import opened Wrappers
  import opened CacheEntries
  import opened CacheKeys
  import opened MemoryCaches
  import Lru

  const DEFAULT_MAX_BODY: nat := 0x10_0000

  datatype Spec = Spec(invalidates: seq<string>, ttl: int, swr: int, negativeTtl: int) {
    predicate Cacheable() {
      ttl > 0
    }
  }

  datatype Request = Request(scope: string, path: string, body: Bytes)

  /** A reply of the server; reading its body may fail. */
  datatype Response = Response(status: int, headers: Headers, etag: string, body: seq<bv8>, readable: bool)

  datatype Config = Config(specs: map<string, Spec>, digest: Digest, limits: Lru.Limits, maxBody: int) {
    function KeyOf(req: Request): Key {
      Key(BuildKey(digest, req.scope, req.path, req.body))
    }

    function MaxBody(): nat {
      if maxBody > 0 then maxBody else DEFAULT_MAX_BODY
    }
  }

  /** A request as HTTP carries it: the key sees the target, and never the query. */
  datatype HttpRequest = HttpRequest(target: Request, query: string)

  /**
   Two requests share a cache entry exactly when scope, path and body agree; so keys tell two requests apart exactly when
   not their queries alone do. With messages sent in the query, as Connect's GET mode does, all messages of a method share
   one entry.
   */
  lemma KeysIgnoreQueries(config: Config, a: HttpRequest, b: HttpRequest)
    requires GoodDigest(config.digest) && ColonFree(a.target.scope) && ColonFree(b.target.scope)
    ensures config.KeyOf(a.target) == config.KeyOf(b.target) <==> a.target == b.target
    ensures (config.KeyOf(a.target) == config.KeyOf(b.target) ==> a == b) <==>
            (a.target == b.target ==> a.query == b.query)
  {
    var s, t := a.target, b.target;
    if config.KeyOf(s) == config.KeyOf(t) {
      KeyInjective(config.digest, s.scope, s.path, s.body, t.scope, t.path, t.body);
    }
  }

  datatype FetchResult = Fetched(entry: Entry) | NotFetched

  predicate Success(status: int) {
    200 <= status < 300
  }

  function Buffer(resp: Response, ttl: int, swr: int, now: int, maxBody: nat): FetchResult {
    if !resp.readable || |resp.body| > maxBody then NotFetched
    else Fetched(Entry(resp.headers, resp.etag, now, resp.body, ttl, swr, resp.status))
  }

  function PickETag(resp: Response, fallback: string): string {
    if resp.etag != "" then resp.etag else fallback
  }

  predicate Revalidates(resp: Response, prev: Option<Entry>) {
    resp.status == 304 && prev.Some?
  }

  /** The entry that a reply turns into. */
  function ResultOf(spec: Spec, prev: Option<Entry>, resp: Response, now: int, maxBody: nat): FetchResult {
    if Revalidates(resp, prev) then
      var p := prev.value;
      Fetched(Entry(p.headers, PickETag(resp, p.etag), now, p.body, spec.ttl, spec.swr, p.status))
    else if resp.status == 404 && spec.negativeTtl > 0 then Buffer(resp, spec.negativeTtl, 0, now, maxBody)
    else if Success(resp.status) then Buffer(resp, spec.ttl, spec.swr, now, maxBody)
    else Buffer(resp, 0, 0, now, maxBody)
  }

  /** Which replies are stored: confirmations, declared misses and successes, never other errors. */
  predicate Storable(spec: Spec, prev: Option<Entry>, resp: Response) {
    Revalidates(resp, prev) || (resp.status == 404 && spec.negativeTtl > 0) || Success(resp.status)
  }

  function StoreAfter(
    store: Lru.Slots, key: Key, spec: Spec, prev: Option<Entry>, resp: Response, result: FetchResult, limits: Lru.Limits)
    : Lru.Slots
  {
    if Storable(spec, prev, resp) && result.Fetched? then Lru.Set(store, key, result.entry, limits) else store
  }

  /** What the first half of a call decides. */
  datatype Decision = Hit(entry: Entry) | StaleHit(entry: Entry) | Miss(prev: Option<Entry>)

  function Decide(found: Option<Entry>, now: int): Decision {
    match found
    case Some(e) =>
      if !e.Expired(now) then Hit(e)
      else if e.Stale(now) then StaleHit(e)
      else Miss(found)
    case None => Miss(None)
  }

  /**
   Looking up with a clock that does not run ahead of the store's, a miss never has a previous entry: whatever the
   store returns is served at once.
   */
  lemma MissHasNoPrevious(store: Lru.Slots, key: Key, now: int, storeNow: int)
    requires now <= storeNow
    ensures var d := Decide(Lru.Get(store, key, storeNow).1, now); d.Miss? ==> d.prev == None
  {
  }

  /** With two unrelated clocks, exactly when a lookup falls through to a fetch that carries a previous entry. */
  lemma MissHasPrevious(store: Lru.Slots, key: Key, now: int, storeNow: int)
    ensures var d := Decide(Lru.Get(store, key, storeNow).1, now);
            d.Miss? && d.prev.Some? <==>
            (var found := Lru.Find(store, key);
             && found.Some?
             && storeNow <= found.value.HardDeadline()
             && (if found.value.swr > 0 then now > found.value.HardDeadline()
                 else now > found.value.created + found.value.ttl))
  {
  }

  /** The invalidation targets of a write, as prefixes, in the order the transport deletes them. */
  function Prefixes(scope: string, writePath: string, targets: seq<string>): seq<string> {
    if targets == [] then []
    else Prefixes(scope, writePath, targets[..|targets| - 1]) +
         [InvalidationPrefix(scope, ServiceFromMethod(writePath) + targets[|targets| - 1])]
  }

  function DropAll(store: Lru.Slots, prefixes: seq<string>): Lru.Slots {
    if prefixes == [] then store
    else Lru.Drop(DropAll(store, prefixes[..|prefixes| - 1]), Lru.StartingWith(prefixes[|prefixes| - 1]))
  }

  class Transport {
    const config: Config
    const store: MemoryCache

    constructor (config: Config, store: MemoryCache)
      ensures this.config == config && this.store == store
    {
      this.config, this.store := config, store;
    }

    /** The cached half of a call: read the clock, then the store. */
    method Lookup(req: Request, now: int, storeNow: int) returns (d: Decision)
      requires store.Valid()
      modifies store
      ensures store.Valid() && forall n | n in store.order :: n in old(store.order)
      ensures d == Decide(Lru.Get(old(store.contents), config.KeyOf(req), storeNow).1, now)
      ensures var found := Lru.Find(old(store.contents), config.KeyOf(req));
              var alive := found.Some? && storeNow <= found.value.created + found.value.ttl + found.value.swr;
              && (d.Hit? <==> alive && now <= found.value.created + found.value.ttl)
              && (d.StaleHit? <==> alive && found.value.swr > 0 &&
                                   found.value.created + found.value.ttl < now <=
                                   found.value.created + found.value.ttl + found.value.swr)
              && (d.Miss? ==> d.prev == if alive then found else None)
              && (!d.Miss? ==> d.entry == found.value)
      ensures store.contents == Lru.Get(old(store.contents), config.KeyOf(req), storeNow).0
    {
      var found := store.Get(config.KeyOf(req), storeNow);
      if found.Some? {
        if !found.value.Expired(now) {
          return Hit(found.value);
        }
        if found.value.Stale(now) {
          return StaleHit(found.value);
        }
      }
      return Miss(found);
    }

    method ProcessResponse(key: Key, spec: Spec, prev: Option<Entry>, resp: Response, now: int)
      returns (result: FetchResult)
      requires store.Valid()
      modifies store, store.order
      ensures store.Valid() && fresh((set n | n in store.order) - (set n | n in old(store.order)))
      ensures result == ResultOf(spec, prev, resp, now, config.MaxBody())
      ensures store.contents == StoreAfter(old(store.contents), key, spec, prev, resp, result, store.Limits())
      ensures result.Fetched? <==>
              || (resp.status == 304 && prev.Some?)
              || (resp.readable && |resp.body| <= if config.maxBody > 0 then config.maxBody else 1_048_576)
      ensures store.contents ==
              if || (resp.status == 304 && prev.Some?)
                 || (result.Fetched? && ((resp.status == 404 && spec.negativeTtl > 0) || 200 <= resp.status < 300))
              then Lru.Set(old(store.contents), key, result.entry, store.Limits()) else old(store.contents)
      ensures resp.status == 304 && prev.Some? ==>
                result.entry == prev.value.(created := now, ttl := spec.ttl, swr := spec.swr,
                                            etag := if resp.etag != "" then resp.etag else prev.value.etag)
      ensures result.Fetched? && !(resp.status == 304 && prev.Some?) ==>
                result.entry == Entry(resp.headers, resp.etag, now, resp.body,
                                      if resp.status == 404 && spec.negativeTtl > 0 then spec.negativeTtl
                                      else if 200 <= resp.status < 300 then spec.ttl else 0,
                                      if 200 <= resp.status < 300 then spec.swr else 0, resp.status)
    {
      if resp.status == 304 && prev.Some? {
        var p := prev.value;
        var refreshed := Entry(p.headers, PickETag(resp, p.etag), now, p.body, spec.ttl, spec.swr, p.status);
        store.Set(key, refreshed);
        return Fetched(refreshed);
      }
      if resp.status == 404 && spec.negativeTtl > 0 {
        result := Buffer(resp, spec.negativeTtl, 0, now, config.MaxBody());
      } else if Success(resp.status) {
        result := Buffer(resp, spec.ttl, spec.swr, now, config.MaxBody());
      } else {
        return Buffer(resp, 0, 0, now, config.MaxBody());
      }
      if result.Fetched? {
        store.Set(key, result.entry);
      }
    }

    /** After a successful write, one anchored deletion per listed target; after any other reply, none. */
    method Invalidate(scope: string, writePath: string, spec: Spec, status: int)
      requires store.Valid()
      modifies store
      ensures store.Valid() && forall n | n in store.order :: n in old(store.order)
      ensures store.contents ==
              if 200 <= status < 300 then DropAll(old(store.contents), Prefixes(scope, writePath, spec.invalidates))
              else old(store.contents)
    {
      hide MemoryCache.Valid, DropAll, Prefixes, Lru.Drop;
      if !Success(status) {
        return;
      }
      var service := ServiceFromMethod(writePath);
      NoTargets(store.contents, scope, writePath, spec.invalidates);
      for i := 0 to |spec.invalidates|
        invariant store.Valid() && forall n | n in store.order :: n in old(store.order)
        invariant store.contents == DropAll(old(store.contents), Prefixes(scope, writePath, spec.invalidates[..i]))
      {
        var prefix := InvalidationPrefix(scope, service + spec.invalidates[i]);
        var _ := store.DeleteMatching(prefix);
        OneMoreTarget(old(store.contents), scope, writePath, spec.invalidates, i);
      }
      assert spec.invalidates[..|spec.invalidates|] == spec.invalidates;
    }
  }

  lemma NoTargets(store: Lru.Slots, scope: string, writePath: string, targets: seq<string>)
    ensures DropAll(store, Prefixes(scope, writePath, targets[..0])) == store
  {
  }

  lemma OneMoreTarget(store: Lru.Slots, scope: string, writePath: string, targets: seq<string>, i: nat)
    requires i < |targets|
    ensures DropAll(store, Prefixes(scope, writePath, targets[..i + 1])) ==
            Lru.Drop(DropAll(store, Prefixes(scope, writePath, targets[..i])),
                     Lru.StartingWith(InvalidationPrefix(scope, ServiceFromMethod(writePath) + targets[i])))
  {
    var before, after := Prefixes(scope, writePath, targets[..i]), Prefixes(scope, writePath, targets[..i + 1]);
    assert targets[..i + 1][..i] == targets[..i];
    assert after[..|after| - 1] == before;
  }

  lemma {:induction false} DropAllKeeps(store: Lru.Slots, prefixes: seq<string>, slot: Lru.Slot)
    ensures slot in DropAll(store, prefixes) <==>
            slot in store && forall i | 0 <= i < |prefixes| :: !HasPrefix(slot.key.text, prefixes[i])
  {
    if prefixes != [] {
      var front, last := prefixes[..|prefixes| - 1], prefixes[|prefixes| - 1];
      DropAllKeeps(store, front, slot);
      Lru.DropMembers(DropAll(store, front), Lru.StartingWith(last));
      assert forall i | 0 <= i < |front| :: front[i] == prefixes[i];
    }
  }

  lemma {:induction false} PrefixesAt(scope: string, writePath: string, targets: seq<string>)
    ensures var r := Prefixes(scope, writePath, targets);
            && |r| == |targets|
            && forall i | 0 <= i < |r| :: r[i] == InvalidationPrefix(scope, ServiceFromMethod(writePath) + targets[i])
  {
    if targets != [] {
      PrefixesAt(scope, writePath, targets[..|targets| - 1]);
    }
  }

  /**
   Write invalidation is exact: of the entries stored for a request, a successful write removes those of its own
   scope whose path is one of the listed siblings, whatever their body, and no entry of any other scope or path.
   */
  lemma InvalidationExact(config: Config, store: Lru.Slots, scope: string, writePath: string, targets: seq<string>,
                          req: Request, entry: Entry)
    requires GoodDigest(config.digest) && ColonFree(scope) && ColonFree(req.scope) && ColonFree(req.path)
    ensures var slot := Lru.Slot(config.KeyOf(req), entry);
            slot in DropAll(store, Prefixes(scope, writePath, targets)) <==>
            slot in store && !(req.scope == scope &&
                               exists i :: 0 <= i < |targets| && req.path == ServiceFromMethod(writePath) + targets[i])
  {
    var prefixes := Prefixes(scope, writePath, targets);
    DropAllKeeps(store, prefixes, Lru.Slot(config.KeyOf(req), entry));
    PrefixesAt(scope, writePath, targets);
    forall i | 0 <= i < |targets|
      ensures HasPrefix(config.KeyOf(req).text, prefixes[i]) <==>
              req.scope == scope && req.path == ServiceFromMethod(writePath) + targets[i]
    {
      PrefixExact(config.digest, scope, ServiceFromMethod(writePath) + targets[i], req.scope, req.path, req.body);
    }
  }
}
