/**
 The client's memory cache: what enters it, when an entry is served and with which TTLs.
 Times are in nanoseconds.
 */
module DnsCache {
  import opened Basics
  import opened DnsMessage

  const SECOND := 1_000_000_000
  const RCODE_SUCCESS := 0
  const RCODE_FORMAT_ERROR := 1
  const RCODE_NAME_ERROR := 3

  datatype Key = Key(name: string, qtype: nat, qclass: nat, transportTag: string)

  datatype Cached = Cached(message: Message, expireAt: int)

  /** A response that came from upstream. */
  datatype Received = Received(key: Key, contents: Contents)

  /** Which upstream response an entry came from, under which options and when. */
  datatype Origin = Origin(index: nat, options: Options, storedAt: int)

  /** An entry as a value, with its origin. */
  datatype Stored = Stored(contents: Contents, expireAt: int, origin: Origin)

  datatype Verdict = Accepted(ttl: nat) | Rejected

  /** Where the answer to a query came from, or why there is none. */
  datatype Source = NoQuestion | Strategy | Cache(stale: bool) | Refused | NoResponse | Upstream(verdict: Verdict)

  /**
   A query: its message id and EDNS parameters, whether the cache may be used for it, and whether a stale answer may
   not.
   */
  datatype Query = Query(key: Key, id: nat, edns: Option<Edns>, useCache: bool, disableOptimistic: bool,
      options: Options)

  predicate Cacheable(rcode: nat)
  {
    rcode == RCODE_SUCCESS || rcode == RCODE_NAME_ERROR
  }

  // ----- seconds through a float64 -----

  function Pow2(k: nat): (r: nat)
    ensures r >= 1
  {
    if k == 0 then 1 else 2 * Pow2(k - 1)
  }

  /** Two over the distance between neighbouring float64 values at `seconds`. */
  function Resolution(seconds: nat): nat
  {
    if seconds < 2 then Pow2(53) else Resolution(seconds / 2) / 2
  }

  /** The sum of whole seconds and their fraction, rounded to a float64, reaches the next second. */
  predicate RoundsUp(d: nat)
  {
    d % SECOND != 0 && (SECOND - d % SECOND) * Resolution(d / SECOND) < SECOND
  }

  /** A duration in nanoseconds as a number of seconds, cut off after the rounding. */
  function WholeSeconds(d: nat): (n: nat)
    ensures d < (n + 1) * SECOND
    ensures n * SECOND <= d <==> !RoundsUp(d)
    ensures n * SECOND < d + SECOND
  {
    d / SECOND + if RoundsUp(d) then 1 else 0
  }

  lemma {:induction false} ResolutionBound(seconds: nat, k: nat)
    requires k <= 53 && seconds < Pow2(k + 1)
    ensures Resolution(seconds) >= Pow2(53 - k)
    decreases k
  {
    if seconds >= 2 {
      assert k > 0;
      ResolutionBound(seconds / 2, k - 1);
      assert Pow2(53 - (k - 1)) == 2 * Pow2(53 - k);
    } else {
      Pow2Grows(53 - k, 53);
    }
  }

  lemma {:induction false} Pow2Grows(j: nat, k: nat)
    requires j <= k
    ensures Pow2(j) <= Pow2(k)
    decreases k
  {
    if j < k {
      Pow2Grows(j, k - 1);
    }
  }

  lemma PowersOfTwo()
    ensures Pow2(20) == 0x10_0000 && Pow2(24) == 0x100_0000 && Pow2(30) == 0x4000_0000 && Pow2(34) == 0x4_0000_0000
  {
    assert Pow2(4) == 16;
    assert Pow2(8) == 0x100;
    assert Pow2(12) == 0x1000;
    assert Pow2(16) == 0x1_0000;
    assert Pow2(20) == 0x10_0000;
    assert Pow2(24) == 0x100_0000;
    assert Pow2(28) == 0x1000_0000;
    assert Pow2(32) == 0x1_0000_0000;
  }

  /** Below 2^24 seconds, that is 194 days, nothing rounds up. */
  lemma ShortDurationsDoNotRoundUp(d: nat)
    requires d < 0x100_0000 * SECOND
    ensures !RoundsUp(d)
  {
    PowersOfTwo();
    ResolutionBound(d / SECOND, 23);
    var left := SECOND - d % SECOND;
    assert left * Resolution(d / SECOND) >= 1 * Pow2(30);
  }

  /** Above it can, by less than a microsecond for anything a lifetime can be. */
  lemma RoundingIsSmall(d: nat)
    requires d < 0x4_0000_0000 * SECOND
    ensures WholeSeconds(d) * SECOND < d + 1000
  {
    if RoundsUp(d) {
      PowersOfTwo();
      ResolutionBound(d / SECOND, 33);
      LittleLeft(SECOND - d % SECOND, Resolution(d / SECOND));
      assert (d / SECOND + 1) * SECOND == d + (SECOND - d % SECOND);
    }
  }

  lemma LittleLeft(left: nat, resolution: nat)
    requires resolution >= 0x10_0000 && left * resolution < SECOND
    ensures left < 1000
  {
    assert left * 0x10_0000 <= left * resolution;
  }

  /** It does: 2^24 seconds and all but a nanosecond of another count as one second more. */
  lemma LongDurationsCanRoundUp()
    ensures RoundsUp(0x100_0000 * SECOND + 999_999_999)
  {
    var d := 0x100_0000 * SECOND + 999_999_999;
    assert d / SECOND == 0x100_0000 && d % SECOND == 999_999_999;
    PowersOfTwo();
    assert Pow2(24) == 0x100_0000;
    ResolutionAt(24);
    assert Pow2(30) == 2 * Pow2(29);
  }

  lemma {:induction false} ResolutionAt(k: nat)
    requires k <= 53
    ensures Resolution(Pow2(k)) == Pow2(53 - k)
  {
    if k > 0 {
      ResolutionAt(k - 1);
      assert Pow2(k) / 2 == Pow2(k - 1) && Pow2(53 - (k - 1)) == 2 * Pow2(53 - k);
    }
  }

  function Uint32(x: nat): nat
  {
    x % 0x1_0000_0000
  }

  const TYPE_A := 1
  const TYPE_AAAA := 28

  /** The strategy rules out addresses of the family asked for. */
  predicate RuledOut(qtype: nat, strategy: DnsMessage.Strategy)
  {
    (qtype == TYPE_A && strategy == Ipv6Only) || (qtype == TYPE_AAAA && strategy == Ipv4Only)
  }

  ghost predicate Rejects(checker: Option<Contents -> bool>, c: Contents)
  {
    checker.Some? && (!Cacheable(c.rcode) || !checker.value(c))
  }

  ghost predicate IsFresh(expireAt: int, now: int)
  {
    now <= expireAt
  }

  /** Expired, but not longer ago than the client is willing to serve. */
  ghost predicate IsServableStale(expireAt: int, optimistic: nat, now: int)
  {
    expireAt < now < expireAt + optimistic
  }

  /**
   The entry of `k` is an upstream response to `k`, as stored; its expiry is that response's lifetime after it was
   stored.
   */
  ghost predicate ComesFrom(k: Key, s: Stored, disableExpire: bool, history: seq<Received>)
  {
    && s.origin.index < |history|
    && var upstream := history[s.origin.index];
    && upstream.key == k
    && Cacheable(upstream.contents.rcode)
    && s.contents == Applied(k.qtype, upstream.contents, s.origin.options)
    && (disableExpire
       || s.expireAt == s.origin.storedAt + Lifetime(k.qtype, upstream.contents, s.origin.options) * SECOND)
  }

  ghost predicate AllTraced(stored: map<Key, Stored>, disableExpire: bool, history: seq<Received>)
  {
    forall k {:trigger ComesFrom(k, stored[k], disableExpire, history)} :: k in stored ==>
        ComesFrom(k, stored[k], disableExpire, history)
  }

  lemma TracedWithout(stored: map<Key, Stored>, disableExpire: bool, history: seq<Received>, key: Key)
    requires AllTraced(stored, disableExpire, history)
    ensures AllTraced(stored - {key}, disableExpire, history)
  {
    var after := stored - {key};
    forall k | k in after ensures ComesFrom(k, after[k], disableExpire, history) {
      assert ComesFrom(k, stored[k], disableExpire, history);
    }
  }

  lemma TracedWith(stored: map<Key, Stored>, disableExpire: bool, history: seq<Received>, key: Key, s: Stored)
    requires AllTraced(stored, disableExpire, history) && ComesFrom(key, s, disableExpire, history)
    ensures AllTraced(stored[key := s], disableExpire, history)
  {
    var after := stored[key := s];
    forall k | k in after ensures ComesFrom(k, after[k], disableExpire, history) {
      if k != key {
        assert ComesFrom(k, stored[k], disableExpire, history);
      }
    }
  }

  lemma TracedLater(stored: map<Key, Stored>, disableExpire: bool, history: seq<Received>, r: Received)
    requires AllTraced(stored, disableExpire, history)
    ensures AllTraced(stored, disableExpire, history + [r])
  {
    forall k | k in stored ensures ComesFrom(k, stored[k], disableExpire, history + [r]) {
      assert ComesFrom(k, stored[k], disableExpire, history);
    }
  }

  /** What `contents`, served from the entry of `key`, goes back to. */
  ghost predicate TracesBack(key: Key, s: Stored, history: seq<Received>, contents: Contents)
  {
    && s.origin.index < |history|
    && history[s.origin.index].key == key
    && Cacheable(history[s.origin.index].contents.rcode)
    && SameAnswer(history[s.origin.index].contents, contents)
  }

  lemma ServedTracesBack(key: Key, stored: map<Key, Stored>, disableExpire: bool, history: seq<Received>, t: nat)
    requires key in stored && AllTraced(stored, disableExpire, history)
    ensures TracesBack(key, stored[key], history, stored[key].contents)
    ensures TracesBack(key, stored[key], history, Normalised(stored[key].contents, t))
  {
    assert ComesFrom(key, stored[key], disableExpire, history);
    ServedIsSameAnswer(key.qtype, history[stored[key].origin.index].contents, stored[key].origin.options, t);
  }

  /** Served later than stored, an answer claims no more than the lifetime it came with. */
  lemma ServedTtlShrinks(key: Key, s: Stored, history: seq<Received>, now: int)
    requires ComesFrom(key, s, false, history) && s.origin.storedAt <= now <= s.expireAt
    ensures WholeSeconds(s.expireAt - now) <= Lifetime(key.qtype, history[s.origin.index].contents, s.origin.options)
  {
  }

  class Client {
    const disableCache: bool
    const disableExpire: bool
    const optimisticTimeout: nat
    var cache: map<Key, Cached>
    ghost var owned: set<Message>
    ghost var history: seq<Received>
    ghost var stored: map<Key, Stored>

    static ghost predicate HoldsEntry(c: Cached, s: Stored)
      reads c.message
    {
      c.message.Value() == s.contents && c.expireAt == s.expireAt
    }

    /** The messages in the cache are the client's own, and hold what was stored. */
    ghost predicate Holds()
      reads this, owned
    {
      && cache.Keys == stored.Keys
      && (disableCache ==> cache == map[])
      && (forall k :: k in cache ==> cache[k].message in owned && HoldsEntry(cache[k], stored[k]))
    }

    ghost predicate Valid()
      reads this, owned
    {
      Holds() && AllTraced(stored, disableExpire, history)
    }

    constructor (disableCache: bool, disableExpire: bool, optimisticTimeout: nat)
      ensures Valid() && fresh(owned) && owned == {} && cache == map[] && stored == map[] && history == []
      ensures this.disableCache == disableCache && this.disableExpire == disableExpire
      ensures this.optimisticTimeout == optimisticTimeout
    {
      this.disableCache, this.disableExpire, this.optimisticTimeout := disableCache, disableExpire, optimisticTimeout;
      cache, owned, history, stored := map[], {}, [], map[];
    }

    /** An entry goes, to make room or because it is too old. */
    method Remove(key: Key)
      requires Valid()
      modifies this
      ensures Valid() && cache == old(cache) - {key} && stored == old(stored) - {key}
      ensures history == old(history) && owned == old(owned)
    {
      TracedWithout(stored, disableExpire, history, key);
      cache := cache - {key};
      stored := stored - {key};
    }

    method ClearCache()
      requires Valid()
      modifies this
      ensures Valid() && cache == map[] && history == old(history) && owned == old(owned)
    {
      cache := map[];
      stored := map[];
    }

    /** A message of the client's own becomes the entry of `key`. */
    method Put(key: Key, message: Message, expireAt: int, ghost origin: Origin)
      requires Valid() && !disableCache
      requires AllTraced(stored[key := Stored(message.Value(), expireAt, origin)], disableExpire, history)
      modifies this
      ensures Valid() && history == old(history)
      ensures owned == old(owned) + {message}
      ensures stored == old(stored)[key := Stored(message.Value(), expireAt, origin)]
    {
      owned := owned + {message};
      stored := stored[key := Stored(message.Value(), expireAt, origin)];
      cache := cache[key := Cached(message, expireAt)];
    }

    /** A copy of the response goes in, under its question and transport, unless it has no lifetime. */
    method StoreCache(key: Key, response: Message, ttl: nat, now: int, ghost origin: Origin)
      requires Valid()
      requires ComesFrom(key, Stored(response.Value(), now + ttl * SECOND, origin), disableExpire, history)
      modifies this
      ensures Valid() && history == old(history)
      ensures fresh(owned - old(owned)) && old(owned) <= owned
      ensures ttl == 0 || disableCache ==> cache == old(cache) && stored == old(stored)
      ensures ttl > 0 && !disableCache ==>
                stored == old(stored)[key := Stored(response.Value(), if disableExpire then 0
                    else now + ttl * SECOND, origin)]
    {
      if ttl == 0 || disableCache {
        return;
      }
      var expireAt := if disableExpire then 0 else now + ttl * SECOND;
      TracedWith(stored, disableExpire, history, key, Stored(response.Value(), expireAt, origin));
      var copy := response.Copy();
      Put(key, copy, expireAt, origin);
    }

    /** A copy of the entry's message, with every TTL set to `t`. */
    method Serve(key: Key, t: nat) returns (response: Message)
      requires Valid() && key in cache
      ensures fresh(response)
      ensures response.Value() == Normalised(stored[key].contents, t)
      ensures TracesBack(key, stored[key], history, response.Value())
    {
      ServedTracesBack(key, stored, disableExpire, history, t);
      response := cache[key].message.Copy();
      response.NormaliseTtl(t);
    }

    /**
     What a cached answer is: an earlier NOERROR or NXDOMAIN response to the same question over the
     same transport, rewritten under the options it was stored with, and handed out as a copy.
     With expiry, a fresh one lives no longer than the entry, to the second, and a stale one has TTL 1.
     */
    method LoadResponse(key: Key, now: int) returns (response: Message?, ttl: nat, isStale: bool)
      requires Valid()
      modifies this
      ensures Valid() && history == old(history) && owned == old(owned)
      ensures response == null <==>
                key !in old(stored)
                || (!disableExpire && !IsFresh(old(stored)[key].expireAt, now)
                    && !IsServableStale(old(stored)[key].expireAt, optimisticTimeout, now))
      ensures stored == if response == null then old(stored) - {key} else old(stored)
      ensures response != null ==>
                && fresh(response)
                && TracesBack(key, stored[key], history, response.Value())
      ensures response != null && disableExpire ==> !isStale && response.Value() == stored[key].contents
      ensures response != null && !disableExpire && !isStale ==>
                && IsFresh(stored[key].expireAt, now) && stored[key].expireAt < now + (ttl + 1) * SECOND
                && (now + ttl * SECOND <= stored[key].expireAt <==> !RoundsUp(stored[key].expireAt - now))
                && response.Value() == Normalised(stored[key].contents, Uint32(ttl))
      ensures response != null && !disableExpire && !isStale && stored[key].origin.storedAt <= now ==>
                ttl <= Lifetime(key.qtype, history[stored[key].origin.index].contents, stored[key].origin.options)
      // Under 194 days from expiry, and always but for less than a microsecond, the TTL served ends before the entry
      // does.
      ensures response != null && !disableExpire && !isStale && stored[key].expireAt - now < 0x100_0000 * SECOND ==>
                now + Uint32(ttl) * SECOND <= stored[key].expireAt
      ensures response != null && !disableExpire && !isStale && stored[key].expireAt - now < 0x4_0000_0000 * SECOND ==>
                now + Uint32(ttl) * SECOND < stored[key].expireAt + 1000
      ensures response != null && isStale ==>
                && !disableExpire && IsServableStale(stored[key].expireAt, optimisticTimeout, now)
                && response.Value() == Normalised(stored[key].contents, 1)
    {
      if key !in cache {
        assert stored - {key} == stored;
        return null, 0, false;
      }
      if disableExpire {
        ServedTracesBack(key, stored, disableExpire, history, 0);
        response := cache[key].message.Copy();
        return response, 0, false;
      }
      var expireAt := cache[key].expireAt;
      if now > expireAt {
        if optimisticTimeout > 0 && now < expireAt + optimisticTimeout {
          response := Serve(key, 1);
          return response, 0, true;
        }
        Remove(key);
        return null, 0, false;
      }
      ttl := WholeSeconds(expireAt - now);
      WrapShrinks(ttl);
      FreshTtlFits(expireAt - now);
      if stored[key].origin.storedAt <= now {
        assert ComesFrom(key, stored[key], disableExpire, history);
        ServedTtlShrinks(key, stored[key], history, now);
      }
      response := Serve(key, Uint32(ttl));
      return response, ttl, false;
    }

    /** An upstream response arrives; what is stored stays as it is. */
    ghost method NoteReceived(r: Received)
      requires Valid()
      modifies this
      ensures Valid() && history == old(history) + [r] && cache == old(cache) && stored == old(stored)
              && owned == old(owned)
    {
      TracedLater(stored, disableExpire, history, r);
      history := history + [r];
    }

    /** The rewrites in place, then the store; both ways a response enters the cache end here. */
    method ApplyAndStore(key: Key, response: Message, options: Options, keep: bool, now: int) returns (ttl: nat)
      requires Valid() && response !in owned
      requires |history| > 0 && history[|history| - 1] == Received(key, response.Value())
      requires keep ==> Cacheable(response.rcode)
      modifies this, response
      ensures Valid() && history == old(history)
      ensures fresh(owned - old(owned)) && old(owned) <= owned
      ensures ttl == Lifetime(key.qtype, old(response.Value()), options) && response.id == old(response.id)
      ensures response.Value() == Applied(key.qtype, old(response.Value()), options)
      ensures !keep || disableCache || ttl == 0 ==> cache == old(cache) && stored == old(stored)
      ensures keep && !disableCache && ttl > 0 ==>
                stored == old(stored)[key := Stored(response.Value(), if disableExpire then 0
                    else now + ttl * SECOND, Origin(|history| - 1, options, now))]
    {
      ttl := response.ApplyResponseOptions(key.qtype, options);
      assert Holds();
      if keep {
        StoreCache(key, response, ttl, now, Origin(|history| - 1, options, now));
      }
    }

    /** An upstream response to a query: rejected, or rewritten in place, returned and stored. */
    method Accept(key: Key, response: Message, useCache: bool, checker: Option<Contents -> bool>, options: Options,
        now: int)
      returns (verdict: Verdict)
      requires Valid() && response !in owned
      modifies this, response
      ensures Valid() && history == old(history) + [Received(key, old(response.Value()))]
      ensures fresh(owned - old(owned)) && old(owned) <= owned
      ensures verdict.Rejected? <==> Rejects(checker, old(response.Value()))
      ensures response.id == old(response.id)
      ensures verdict.Rejected? ==> response.Value() == old(response.Value())
      ensures verdict.Accepted? ==>
                && verdict.ttl == Lifetime(key.qtype, old(response.Value()), options)
                && response.Value() == Applied(key.qtype, old(response.Value()), options)
      ensures stored ==
              if verdict.Accepted? && verdict.ttl > 0 && useCache && !disableCache && Cacheable(response.rcode) then
                old(stored)[key := Stored(response.Value(), if disableExpire then 0
                    else now + verdict.ttl * SECOND, Origin(|old(history)|, options, now))]
              else old(stored)
    {
      ghost var received := response.Value();
      NoteReceived(Received(key, received));
      var rejected := IsRejected(checker, response);
      if rejected {
        return Rejected;
      }
      var ttl := ApplyAndStore(key, response, options, useCache && Cacheable(response.rcode), now);
      return Accepted(ttl);
    }

    /**
     The response to a background refresh: stored under the same conditions, whatever the query asked of the cache.
     */
    method Refresh(key: Key, response: Message, checker: Option<Contents -> bool>, options: Options, now: int)
      requires Valid() && response !in owned
      modifies this, response
      ensures Valid() && history == old(history) + [Received(key, old(response.Value()))]
      ensures fresh(owned - old(owned)) && old(owned) <= owned
      ensures var upstream := old(response.Value());
              var ttl := Lifetime(key.qtype, upstream, options);
              stored ==
              if ttl > 0 && !disableCache && Cacheable(upstream.rcode) && !Rejects(checker, upstream) then
                old(stored)[key := Stored(Applied(key.qtype, upstream, options), if disableExpire then 0
                    else now + ttl * SECOND, Origin(|old(history)|, options, now))]
              else old(stored)
    {
      ghost var received := response.Value();
      NoteReceived(Received(key, received));
      var rejected := IsRejected(checker, response);
      if rejected || !Cacheable(response.rcode) {
        return;
      }
      var ttl := ApplyAndStore(key, response, options, true, now);
    }

    /** What the memory cache gives for `key` at `now`, if anything. */
    ghost function Offers(key: Key, now: int): Option<bool>
      reads this
    {
      if key !in stored then None
      else if disableExpire || IsFresh(stored[key].expireAt, now) then Some(false)
      else if IsServableStale(stored[key].expireAt, optimisticTimeout, now) then Some(true)
      else None
    }

    /** The entries after a query looked for its own: one too old to serve is gone. */
    ghost function Swept(q: Query, now: int): map<Key, Stored>
      reads this
    {
      if q.useCache && Offers(q.key, now).None? then stored - {q.key} else stored
    }

    /** An accepted answer is kept if it may be and has a lifetime. */
    ghost predicate Keeps(q: Query, upstream: Contents, verdict: Verdict)
    {
      verdict.Accepted? && verdict.ttl > 0 && q.useCache && !disableCache && Cacheable(upstream.rcode)
    }

    /** The entry of an answer that arrives at `now`. */
    ghost function Entry(q: Query, upstream: Contents, ttl: nat, now: int): Stored
      reads this
    {
      Stored(Applied(q.key.qtype, upstream, q.options), if disableExpire then 0 else now + ttl * SECOND,
             Origin(|history|, q.options, now))
    }

    /** The cache's answer to a query that may use it, unless it is stale and the query declines that. */
    method AskCache(q: Query, now: int) returns (response: Message?, isStale: bool)
      requires Valid()
      modifies this
      ensures Valid() && history == old(history)
      ensures response != null <==>
                q.useCache && old(Offers(q.key, now)).Some? && (old(Offers(q.key, now)).value ==> !q.disableOptimistic)
      ensures stored == old(Swept(q, now))
      ensures response != null ==>
                && fresh(response) && response.id == q.id
                && isStale == old(Offers(q.key, now)).value
                && q.key in stored && TracesBack(q.key, stored[q.key], history, response.Value())
    {
      if !q.useCache {
        return null, false;
      }
      var ttl;
      response, ttl, isStale := LoadResponse(q.key, now);
      if response == null || (isStale && q.disableOptimistic) {
        return null, false;
      }
      Stamp(response, q.id);
    }

    /** The answer takes on the id of the query; it is nobody's entry, so the cache does not notice. */
    method Stamp(response: Message, id: nat)
      requires Valid() && response !in owned
      modifies response
      ensures Valid() && response.id == id && response.Value() == old(response.Value())
    {
      response.id := id;
    }

    /** The response from upstream, under the query's id unless it is rejected. */
    method TakeUpstream(q: Query, id: nat, upstream: Contents, checker: Option<Contents -> bool>, now: int)
      returns (verdict: Verdict, response: Message)
      requires Valid()
      modifies this
      ensures Valid() && history == old(history) + [Received(q.key, upstream)]
      ensures fresh(response) && response.id == if verdict.Rejected? then id else q.id
      ensures verdict.Rejected? <==> Rejects(checker, upstream)
      ensures response.Value() ==
              if verdict.Rejected? then upstream else Fitted(Applied(q.key.qtype, upstream, q.options), q.edns)
      ensures verdict.Accepted? ==> verdict.ttl == Lifetime(q.key.qtype, upstream, q.options)
      ensures stored ==
              if Keeps(q, upstream, verdict) then old(stored)[q.key := old(Entry(q, upstream, verdict.ttl, now))]
              else old(stored)
    {
      response := new Message(id, upstream);
      assert Valid();
      verdict := Accept(q.key, response, q.useCache, checker, q.options, now);
      if verdict.Accepted? {
        response.id := q.id;
        response.FitEdns(q.edns);
      }
    }

    /**
     One query: answered by the strategy, from the cache, or from upstream, in that order. A fresh
     entry is never asked for again, and a stale one only in the background, when `refresh` is set.
     */
    method Exchange(q: Query, refused: bool, upstreamId: nat, upstream: Option<Contents>,
                    checker: Option<Contents -> bool>, now: int)
      returns (source: Source, response: Message?, refresh: bool)
      requires Valid()
      modifies this
      ensures Valid()
      ensures source.Strategy? <==> RuledOut(q.key.qtype, q.options.strategy)
      ensures source.Strategy? ==> response != null && response.Value() == Contents(RCODE_SUCCESS, [], [], [])
      ensures !source.NoQuestion?
      ensures source.Cache? <==>
                && !RuledOut(q.key.qtype, q.options.strategy) && q.useCache
                && old(Offers(q.key, now)).Some? && (old(Offers(q.key, now)).value ==> !q.disableOptimistic)
      ensures source.Cache? ==>
                && source.stale == old(Offers(q.key, now)).value
                && response != null && q.key in stored && TracesBack(q.key, stored[q.key], history, response.Value())
      ensures refresh <==> source.Cache? && source.stale
      ensures source.Upstream? ==>
                && !refused && upstream.Some? && response != null
                && (source.verdict.Rejected? <==> Rejects(checker, upstream.value))
                && (source.verdict.Accepted? ==> source.verdict.ttl == Lifetime(q.key.qtype, upstream.value, q.options))
                && response.Value() ==
                   if source.verdict.Rejected? then upstream.value
                   else Fitted(Applied(q.key.qtype, upstream.value, q.options), q.edns)
      ensures source.Upstream? && Keeps(q, upstream.value, source.verdict) ==>
                stored == old(stored)[q.key := old(Entry(q, upstream.value, source.verdict.ttl, now))]
      ensures source.Strategy? ==> stored == old(stored)
      ensures !source.Strategy? && !(source.Upstream? && Keeps(q, upstream.value, source.verdict)) ==>
                stored == old(Swept(q, now))
      ensures source.NoResponse? ==> !refused && upstream.None?
      ensures source.Refused? ==> refused
      ensures response == null <==> source.Refused? || source.NoResponse?
      ensures response != null ==>
                fresh(response) && response.id == if source == Upstream(Rejected) then upstreamId else q.id
      ensures history == if source.Upstream? then old(history) + [Received(q.key, upstream.value)] else old(history)
    {
      if RuledOut(q.key.qtype, q.options.strategy) {
        response := new Message(q.id, Contents(RCODE_SUCCESS, [], [], []));
        return Strategy, response, false;
      }
      var cached, isStale := AskCache(q, now);
      if cached != null {
        return Cache(isStale), cached, isStale;
      }
      if refused {
        return Refused, null, false;
      }
      if upstream.None? {
        return NoResponse, null, false;
      }
      var verdict, received := TakeUpstream(q, upstreamId, upstream.value, checker, now);
      return Upstream(verdict), received, false;
    }

    /** A message without a question is answered with a format error and goes no further. */
    method ExchangeMessage(id: nat, q: Option<Query>, refused: bool, upstreamId: nat, upstream: Option<Contents>,
                           checker: Option<Contents -> bool>, now: int)
      returns (source: Source, response: Message?, refresh: bool)
      requires Valid()
      requires q.Some? ==> q.value.id == id
      modifies this
      ensures Valid()
      ensures source.NoQuestion? <==> q.None?
      ensures q.None? ==>
                && response != null && response.Value() == Contents(RCODE_FORMAT_ERROR, [], [], []) && !refresh
                && history == old(history) && stored == old(stored)
      ensures response != null && source != Upstream(Rejected) ==> fresh(response) && response.id == id
      ensures source.Cache? ==>
                && history == old(history) && response != null && q.value.key in stored
                && TracesBack(q.value.key, stored[q.value.key], history, response.Value())
    {
      if q.None? {
        response := new Message(id, Contents(RCODE_FORMAT_ERROR, [], [], []));
        return NoQuestion, response, false;
      }
      source, response, refresh := Exchange(q.value, refused, upstreamId, upstream, checker, now);
    }

    /**
     The same query again within the lifetime of an answer that was kept: it comes from the cache, and upstream is
     asked once.
     */
    method ExchangeTwice(q: Query, refused: bool, upstreamId: nat, upstream: Option<Contents>,
                         checker: Option<Contents -> bool>, now: int, later: int)
      returns (first: Source, second: Source)
      requires Valid()
      modifies this
      ensures Valid()
      ensures first.Upstream? ==> upstream.Some?
      ensures first.Upstream? && Keeps(q, upstream.value, first.verdict)
              && (disableExpire || later <= now + first.verdict.ttl * SECOND) ==>
                second == Cache(false) && history == old(history) + [Received(q.key, upstream.value)]
    {
      var response, refresh;
      first, response, refresh := Exchange(q, refused, upstreamId, upstream, checker, now);
      second, response, refresh := Exchange(q, refused, upstreamId, upstream, checker, later);
    }
  }

  /**
   An answer good for 2^24 + 1 seconds, served a nanosecond after it was stored, with a TTL that outlasts its entry.
   */
  method ServedPastExpiry() returns (c: Client, key: Key, now: int, ttl: nat)
    ensures fresh(c) && c.Valid() && key in c.stored
    ensures IsFresh(c.stored[key].expireAt, now) && now + Uint32(ttl) * SECOND > c.stored[key].expireAt
  {
    c := new Client(false, false, 0);
    key := Key("example.org.", TYPE_A, 1, "dns");
    var contents := Contents(RCODE_SUCCESS, [Other(TYPE_A, 0x100_0001, 0)], [], []);
    assert IsLeastTtl(All(contents), 0x100_0001) by {
      assert All(contents)[0] == Other(TYPE_A, 0x100_0001, 0);
    }
    TimeToLiveExact(contents, 0x100_0001);
    var message := new Message(0, contents);
    var options := Options(AsIs, None);
    var verdict := c.Accept(key, message, true, None, options, 0);
    now := 1;
    LongDurationsCanRoundUp();
    var response, isStale;
    response, ttl, isStale := c.LoadResponse(key, now);
  }

  method IsRejected(checker: Option<Contents -> bool>, response: Message) returns (rejected: bool)
    ensures rejected <==> Rejects(checker, response.Value())
  {
    if checker.None? {
      return false;
    }
    if !Cacheable(response.rcode) {
      return true;
    }
    var ok := checker.value(response.Value());
    return !ok;
  }

  lemma FreshTtlFits(d: nat)
    ensures d < 0x100_0000 * SECOND ==> WholeSeconds(d) * SECOND <= d
    ensures d < 0x4_0000_0000 * SECOND ==> WholeSeconds(d) * SECOND < d + 1000
  {
    if d < 0x100_0000 * SECOND {
      ShortDurationsDoNotRoundUp(d);
    }
    if d < 0x4_0000_0000 * SECOND {
      RoundingIsSmall(d);
    }
  }

  lemma WrapShrinks(x: nat)
    ensures Uint32(x) <= x
  {
  }
}
