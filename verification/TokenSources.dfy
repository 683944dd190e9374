/**
 Token sources: four caches of one token, guarded by a mutex that is held through the fetch. Each method here is one
 critical section; `TokenProtocol` interleaves them. A fetch and the clock after it are given by the environment.
 */
module TokenSources {
  import opened Wrappers

  const SECOND: int := 1_000_000_000
  const SKEW_WINDOW: int := 30 * SECOND
  const BROKER_CACHE_MAX: int := 30 * SECOND

  datatype TokenResponse = TokenResponse(access: string, expiresIn: int, refresh: string)

  /** When a cached token is too old to serve. `External` leaves the test to a token type of another library. */
  datatype Policy = Skewed | Capped(maxCacheDuration: int) | External(valid: (TokenResponse, int, int) -> bool) {
    function Lifetime(expiresIn: int): int
      requires Capped?
    {
      var cap := if maxCacheDuration <= 0 then BROKER_CACHE_MAX else maxCacheDuration;
      if expiresIn > 0 && expiresIn * SECOND < cap then expiresIn * SECOND else cap
    }

    predicate Expired(resp: TokenResponse, asOf: int, now: int) {
      match this
      case Skewed => resp.expiresIn > 0 && now + SKEW_WINDOW > asOf + resp.expiresIn * SECOND
      case Capped(_) => now > asOf + Lifetime(resp.expiresIn)
      case External(valid) => !valid(resp, asOf, now)
    }
  }

  /**
   What a served token still has. With the skew window: at least 30 seconds, or no expiry at all. With a cap: an age
   within the cap, and within the broker's own expiry when it gives one. With an external test: its approval.
   */
  predicate Young(policy: Policy, resp: TokenResponse, asOf: int, now: int) {
    match policy
    case Skewed => resp.expiresIn <= 0 || asOf + resp.expiresIn * SECOND - now >= 30 * SECOND
    case Capped(cap) =>
      && now - asOf <= (if cap <= 0 then 30 * SECOND else cap)
      && (resp.expiresIn > 0 ==> now - asOf <= resp.expiresIn * SECOND)
    case External(valid) => valid(resp, asOf, now)
  }

  /** The expiry test serves exactly the young tokens. */
  lemma ServedTokenIsYoung(policy: Policy, resp: TokenResponse, asOf: int, now: int)
    ensures !policy.Expired(resp, asOf, now) <==> Young(policy, resp, asOf, now)
  {
  }

  datatype Cached = Cached(resp: TokenResponse, asOf: int)

  /** The reply of the token endpoint, and the clock after it. */
  datatype Reply = Granted(resp: TokenResponse, at: int) | Refused

  datatype Outcome = Token(access: string) | Failed | ReauthenticationRequired

  function TokenOutcome(policy: Policy, cache: Option<Cached>, now: int, reply: Reply): (Option<Cached>, Outcome) {
    if cache.Some? && !policy.Expired(cache.value.resp, cache.value.asOf, now) then
      (cache, Token(cache.value.resp.access))
    else match reply
      case Granted(resp, at) => (Some(Cached(resp, at)), Token(resp.access))
      case Refused => (cache, Failed)
  }

  /** What a token call comes to: a young cached token, or else the fetched one; a refused fetch leaves the cache alone. */
  ghost predicate ServesOrFetches(
    policy: Policy, before: Option<Cached>, now: int, reply: Reply, after: Option<Cached>, out: Outcome)
  {
    if before.Some? && Young(policy, before.value.resp, before.value.asOf, now) then
      after == before && out == Token(before.value.resp.access)
    else if reply.Granted? then
      after == Some(Cached(reply.resp, reply.at)) && out == Token(reply.resp.access)
    else
      after == before && out == Failed
  }

  lemma TokenOutcomeServes(policy: Policy, cache: Option<Cached>, now: int, reply: Reply)
    ensures var (after, out) := TokenOutcome(policy, cache, now, reply);
            ServesOrFetches(policy, cache, now, reply, after, out)
  {
    if cache.Some? {
      ServedTokenIsYoung(policy, cache.value.resp, cache.value.asOf, now);
    }
  }

  class ClientCredentialsSource {
    var cache: Option<TokenResponse>
    var asOf: int

    constructor ()
      ensures Meaning() == None
    {
      cache, asOf := None, 0;
    }

    ghost function Meaning(): Option<Cached>
      reads this
    {
      if cache.Some? then Some(Cached(cache.value, asOf)) else None
    }

    method Refresh(reply: Reply) returns (out: Outcome)
      modifies this
      ensures reply.Granted? ==> Meaning() == Some(Cached(reply.resp, reply.at)) && out == Token(reply.resp.access)
      ensures reply.Refused? ==> Meaning() == old(Meaning()) && out == Failed
    {
      if reply.Refused? {
        return Failed;
      }
      cache, asOf := Some(reply.resp), reply.at;
      return Token(reply.resp.access);
    }

    method GetToken(now: int, reply: Reply) returns (out: Outcome)
      modifies this
      ensures (Meaning(), out) == TokenOutcome(Skewed, old(Meaning()), now, reply)
      ensures ServesOrFetches(Skewed, old(Meaning()), now, reply, Meaning(), out)
    {
      TokenOutcomeServes(Skewed, Meaning(), now, reply);
      if cache.Some? && !Skewed.Expired(cache.value, asOf, now) {
        return Token(cache.value.access);
      }
      out := Refresh(reply);
    }

    method Invalidate()
      modifies this
      ensures Meaning() == None
    {
      cache := None;
    }
  }

  /** The source built on another library's token type, whose validity test is given. */
  class CachingOAuth2Source {
    const valid: (TokenResponse, int, int) -> bool
    var tok: Option<TokenResponse>
    var asOf: int

    constructor (valid: (TokenResponse, int, int) -> bool)
      ensures this.valid == valid && Meaning() == None
    {
      this.valid := valid;
      tok, asOf := None, 0;
    }

    ghost function Meaning(): Option<Cached>
      reads this
    {
      if tok.Some? then Some(Cached(tok.value, asOf)) else None
    }

    method GetToken(now: int, reply: Reply) returns (out: Outcome)
      modifies this
      ensures (Meaning(), out) == TokenOutcome(External(valid), old(Meaning()), now, reply)
      ensures ServesOrFetches(External(valid), old(Meaning()), now, reply, Meaning(), out)
    {
      TokenOutcomeServes(External(valid), Meaning(), now, reply);
      if tok.Some? && valid(tok.value, asOf, now) {
        return Token(tok.value.access);
      }
      if reply.Refused? {
        return Failed;
      }
      tok, asOf := Some(reply.resp), reply.at;
      return Token(reply.resp.access);
    }

    method Invalidate()
      modifies this
      ensures Meaning() == None
    {
      tok := None;
    }
  }

  class BrokerSource {
    const maxCacheDuration: int
    var cache: Option<TokenResponse>
    var asOf: int

    constructor (maxCacheDuration: int)
      ensures this.maxCacheDuration == maxCacheDuration && Meaning() == None
    {
      this.maxCacheDuration := maxCacheDuration;
      cache, asOf := None, 0;
    }

    ghost function Meaning(): Option<Cached>
      reads this
    {
      if cache.Some? then Some(Cached(cache.value, asOf)) else None
    }

    method Expired(now: int) returns (expired: bool)
      requires cache.Some?
      ensures expired == Capped(maxCacheDuration).Expired(cache.value, asOf, now)
    {
      var maxDur := maxCacheDuration;
      if maxDur <= 0 {
        maxDur := BROKER_CACHE_MAX;
      }
      if cache.value.expiresIn > 0 {
        var supplied := cache.value.expiresIn * SECOND;
        if supplied < maxDur {
          maxDur := supplied;
        }
      }
      return now > asOf + maxDur;
    }

    method GetToken(now: int, reply: Reply) returns (out: Outcome)
      modifies this
      ensures (Meaning(), out) == TokenOutcome(Capped(maxCacheDuration), old(Meaning()), now, reply)
      ensures ServesOrFetches(Capped(maxCacheDuration), old(Meaning()), now, reply, Meaning(), out)
    {
      TokenOutcomeServes(Capped(maxCacheDuration), Meaning(), now, reply);
      if cache.Some? {
        var expired := Expired(now);
        if !expired {
          return Token(cache.value.access);
        }
      }
      if reply.Refused? {
        return Failed;
      }
      cache, asOf := Some(reply.resp), reply.at;
      return Token(reply.resp.access);
    }

    method Invalidate()
      modifies this
      ensures Meaning() == None
    {
      cache := None;
    }
  }

  /** The last refresh token that came, replies without one not counting; empty if none ever came. */
  ghost predicate LastGiven(refresh: string, received: seq<TokenResponse>) {
    if refresh == "" then forall i | 0 <= i < |received| :: received[i].refresh == ""
    else exists i | 0 <= i < |received| :: received[i].refresh == refresh && NoneAfter(received, i)
  }

  ghost predicate NoneAfter(received: seq<TokenResponse>, i: int) {
    forall j | i < j < |received| && 0 <= j :: received[j].refresh == ""
  }

  lemma GivenNext(refresh: string, received: seq<TokenResponse>, resp: TokenResponse)
    requires LastGiven(refresh, received)
    ensures LastGiven(if resp.refresh != "" then resp.refresh else refresh, received + [resp])
  {
    var all := received + [resp];
    if resp.refresh != "" {
      assert all[|received|].refresh == resp.refresh && NoneAfter(all, |received|);
    } else if refresh != "" {
      var i :| 0 <= i < |received| && received[i].refresh == refresh && NoneAfter(received, i);
      assert all[i].refresh == refresh && NoneAfter(all, i);
    }
  }

  /** `received` are the replies that came, the first one at the login. */
  class AuthorizationCodeSource {
    var cache: Option<TokenResponse>
    var asOf: int
    var refresh: string
    ghost var received: seq<TokenResponse>

    ghost predicate Valid()
      reads this
    {
      LastGiven(refresh, received)
    }

    constructor (initial: TokenResponse, now: int)
      ensures Valid() && received == [initial]
      ensures Meaning() == Some(Cached(initial, now)) && refresh == initial.refresh
    {
      cache, asOf, refresh := Some(initial), now, initial.refresh;
      received := [initial];
      new;
      assert NoneAfter(received, 0) && received[0].refresh == refresh;
    }

    ghost function Meaning(): Option<Cached>
      reads this
    {
      if cache.Some? then Some(Cached(cache.value, asOf)) else None
    }

    /** Without a refresh token an expired or dropped token cannot be replaced; the reply is then not asked for. */
    method GetToken(now: int, reply: Reply) returns (out: Outcome)
      requires Valid()
      modifies this
      ensures Valid()
      ensures var before := old(Meaning());
              var young := before.Some? && Young(Skewed, before.value.resp, before.value.asOf, now);
              if !young && old(refresh) == "" then
                out == ReauthenticationRequired && Meaning() == before && received == old(received)
              else
                && ServesOrFetches(Skewed, before, now, reply, Meaning(), out)
                && received == old(received) + if !young && reply.Granted? then [reply.resp] else []
      ensures refresh == old(refresh) || (reply.Granted? && refresh == reply.resp.refresh != "")
    {
      if cache.Some? {
        ServedTokenIsYoung(Skewed, cache.value, asOf, now);
      }
      if cache.Some? && !Skewed.Expired(cache.value, asOf, now) {
        return Token(cache.value.access);
      }
      if refresh == "" {
        return ReauthenticationRequired;
      }
      if reply.Refused? {
        return Failed;
      }
      GivenNext(refresh, received, reply.resp);
      hide LastGiven;
      received := received + [reply.resp];
      cache, asOf := Some(reply.resp), reply.at;
      if reply.resp.refresh != "" {
        refresh := reply.resp.refresh;
      }
      return Token(reply.resp.access);
    }

    method Invalidate()
      requires Valid()
      modifies this
      ensures Valid() && Meaning() == None && refresh == old(refresh) && received == old(received)
    {
      cache := None;
    }
  }
}
