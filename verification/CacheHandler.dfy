/**
 The caching handler as it stands in the source: one request at a time, on the objects it works with.

 `ServeHTTP` is split at its seams: lookup, the origin, storing. Its contract is `ServesTo`. What the
 handler keeps is the invariant of `CacheIndexes`, over a history of the origin's answers.
 */
module CacheHandling {
  import opened CacheIndexes
  import opened CacheProtocol
  import opened CacheRefinement
  import opened Freshness
  import opened Headers
  import opened MemoryCaching
  import opened Responses
  import opened Variants
  import opened Wrappers

  class CacheHandler {
    const c: Config
    const cache: MemoryCache
    var varyIndex: map<CacheKey, seq<string>>
    ghost const u: Universe
    ghost var log: set<Exchange>

    constructor (c: Config, ghost u: Universe)
      requires RoundTrips(c) && CollisionFree(c, u)
      ensures Valid(0) && fresh(cache) && this.c == c && this.u == u && log == {}
    {
      this.c, this.u, varyIndex, log := c, u, map[], {};
      cache := new MemoryCache(c.limits.capacity, c.limits.maxItemSize);
    }

    ghost function Indexes(now: Time): Shared
      reads this, cache
    {
      Shared(varyIndex, cache.entries, log, now)
    }

    ghost predicate Valid(now: Time)
      reads this, cache
    {
      && cache.limits == c.limits && cache.Valid()
      && RoundTrips(c) && CollisionFree(c, u)
      && SharedOk(c, u, Indexes(now))
    }

    method LoadVariantHeaders(baseKey: CacheKey) returns (names: seq<string>)
      ensures names == LoadNames(varyIndex, baseKey, [])
    {
      names := if baseKey in varyIndex then varyIndex[baseKey] else [];
    }

    method RememberVariantHeaders(baseKey: CacheKey, names: seq<string>)
      modifies this`varyIndex
      ensures varyIndex == Remember(old(varyIndex), baseKey, names)
    {
      if |names| == 0 {
        varyIndex := varyIndex - {baseKey};
        return;
      }
      varyIndex := varyIndex[baseKey := names];
    }

    method LookupCacheEntry(key: CacheKey, now: Time) returns (response: Option<Stored>)
      ensures response == Fetch(c, Indexes(now), key)
    {
      var cached := cache.Get(key, now);
      if cached.None? {
        return None;
      }
      response := c.decode(cached.value);
    }

    method FetchFromCache(variant: Variant, baseKey: CacheKey, now: Time) returns (response: Option<Stored>)
      requires baseKey == BaseKey(c, variant.r)
      modifies variant
      ensures variant.headerNames == LoadNames(varyIndex, baseKey, old(variant.headerNames))
      ensures response == Found(c, Indexes(now), variant.r, old(variant.headerNames))
    {
      var names := LoadVariantHeaders(baseKey);
      if |names| > 0 {
        variant.ApplyHeaderNames(names);
      }
      var key := variant.CacheKey(c.hash);
      response := LookupCacheEntry(key, now);
      if response.None? && key != baseKey {
        response := LookupCacheEntry(baseKey, now);
      }
    }

    /** The next handler, writing its answer into the capture. */
    method CallOrigin(cr: CacheableResponse, script: seq<Event>)
      requires cr.Valid() && cr.State() == NewRecorder(c.maxBody)
      modifies cr, cr.writer, cr.stasher
      ensures cr.State() == RecordAll(c.maxBody, script)
      ensures cr.writer.State() == ForwardAll(old(cr.writer.State()), c.maxBody, script)
    {
      for i := 0 to |script|
        invariant cr.State() == RecordAll(c.maxBody, script[..i])
        invariant cr.writer.State() == ForwardAll(old(cr.writer.State()), c.maxBody, script[..i])
      {
        assert script[..i + 1][..i] == script[..i];
        match script[i]
        case SetHeader(header) => cr.SetHeader(header);
        case WriteHeader(status) => cr.WriteHeader(status);
        case Write(chunk) => cr.Write(chunk);
      }
      assert script[..|script|] == script;
    }

    /** The next handler, writing straight to the client. */
    method Bypass(w: ClientWriter, script: seq<Event>)
      modifies w
      ensures w.State() == DirectAll(old(w.State()).(header := Set(old(w.header), X_CACHE, "bypass")), script)
    {
      w.header := Set(w.header, X_CACHE, "bypass");
      ghost var start := w.State();
      for i := 0 to |script|
        invariant w.State() == DirectAll(start, script[..i])
      {
        assert script[..i + 1][..i] == script[..i];
        match script[i]
        case SetHeader(header) => w.header := header;
        case WriteHeader(status) => w.WriteHeader(status);
        case Write(chunk) => w.Write(chunk);
      }
      assert script[..|script|] == script;
    }

    /** The lookup half: a hit is learned from, and always matches, so that it is never fetched a second time. */
    method Lookup(variant: Variant, baseKey: CacheKey, now: Time) returns (response: Option<Stored>)
      requires Valid(now) && variant.r in u.requests
      requires variant.headerNames == [] && baseKey == BaseKey(c, variant.r)
      modifies this`varyIndex, variant
      ensures Valid(now) && response == old(Found(c, Indexes(now), variant.r, []))
      ensures response.None? ==> varyIndex == old(varyIndex)
      ensures response.Some? ==>
                && SoundHit(c, old(Indexes(now)), variant.r, response.value, now)
                && varyIndex == Remember(old(varyIndex), baseKey, NamesIn(response.value.header))
    {
      response := FetchFromCache(variant, baseKey, now);
      if response.Some? {
        ghost var found := Indexes(now);
        variant.SetResponseHeader(response.value.header);
        RememberVariantHeaders(baseKey, variant.headerNames);
        var matches := variant.Matches(response.value.variantHeader);
        if !matches {
          response := FetchFromCache(variant, baseKey, now);
        }
        FoundIsSound(c, u, found, variant.r);
        RememberKeepsShared(c, u, found, variant.r, NamesIn(response.value.header));
      }
    }

    /** Storing an answer that may be stored until `expires`, under the key of the names it varies by. */
    method StoreAnswer(variant: Variant, cr: CacheableResponse, ghost x: Exchange, expires: Time, end: Time,
                       admitted: bool)
      requires Valid(end) && cr.Valid() && cr.State() == RecordAll(c.maxBody, x.script)
      requires x in log && x == Observe(c, variant.r, x.script, x.at) && x.until == Some(expires)
      requires variant.headerNames == x.names
      modifies cache, cr`header, cr`body, cr`variantHeader
      ensures Valid(end)
      ensures cache.entries == StoreExchange(c, old(Indexes(end)), x, admitted)
    {
      StoreKeepsShared(c, u, Indexes(end), x, admitted);
      var key := variant.CacheKey(c.hash);
      cr.variantHeader := variant.VariantHeader();
      var stored := cr.ToBuffer(end);
      assert stored == x.stored;
      var encoded := c.encode(stored);
      if encoded.Some? {
        cache.Set(key, encoded.value, expires, end, admitted);
      }
    }

    /** What becomes of the indexes once the origin's answer, the exchange `x`, is complete. */
    method KeepAnswer(variant: Variant, baseKey: CacheKey, cr: CacheableResponse, ghost x: Exchange,
                      done: Time, end: Time, admitted: bool)
      requires Valid(end) && cr.Valid() && cr.State() == RecordAll(c.maxBody, x.script)
      requires x in log && x == Observe(c, variant.r, x.script, done)
      requires ShouldCache(variant.r) && baseKey == BaseKey(c, variant.r)
      modifies this`varyIndex, cache, variant, cr`header, cr`body, cr`variantHeader
      ensures Valid(end)
      ensures varyIndex == if x.until.Some? then Remember(old(varyIndex), baseKey, x.names) else old(varyIndex)
      ensures cache.entries == if x.until.Some? then StoreExchange(c, old(Indexes(end)), x, admitted)
              else old(cache.entries)
    {
      var expires := CacheStatus(cr.stasher.overflowed, cr.status, cr.header, done);
      if expires.Some? {
        assert ExchangeIn(c, u, x);
        variant.SetResponseHeader(cr.header);
        RememberKeepsShared(c, u, Indexes(end), variant.r, variant.headerNames);
        RememberVariantHeaders(baseKey, variant.headerNames);
        StoreAnswer(variant, cr, x, expires.value, end, admitted);
      }
    }

    lemma LaterIsOk(now: Time, end: Time)
      requires Valid(now) && now <= end
      ensures Valid(end)
    {
      ForgetKeepsShared(c, u, Indexes(now), {}, end);
      assert cache.entries - {} == cache.entries;
    }

    /** The origin half: its answer goes to the client as it comes, and is stored at `end` if it may be. */
    method AskOrigin(w: ClientWriter, variant: Variant, baseKey: CacheKey, script: seq<Event>, done: Time, end: Time,
                     admitted: bool)
      requires Valid(end) && done <= end && variant.r in u.requests && ShouldCache(variant.r)
      requires baseKey == BaseKey(c, variant.r) && AnswerIn(c, u, variant.r, script, done)
      modifies this`varyIndex, this`log, cache, w, variant
      ensures Valid(end)
      ensures w.State() == ForwardAll(old(w.State()), c.maxBody, script)
      ensures var x := Observe(c, variant.r, script, done);
              && log == old(log) + {x}
              && varyIndex == (if x.until.Some? then Remember(old(varyIndex), baseKey, x.names) else old(varyIndex))
              && cache.entries == (if x.until.Some? then StoreExchange(c, old(Indexes(end)), x, admitted)
                                   else old(cache.entries))
    {
      var cr := new CacheableResponse(w, c.maxBody);
      CallOrigin(cr, script);
      ghost var x := Observe(c, variant.r, script, done);
      AnswerKeepsShared(c, u, Indexes(end), x);
      log := log + {x};
      KeepAnswer(variant, baseKey, cr, x, done, end, admitted);
    }

    /**
     Serves a request that arrives at `now`. `script` is what the origin does to the writer it is given,
     if it is called; its answer is complete at `done` and stored at `end`, if the backing cache admits it.
     */
    method ServeHTTP(w: ClientWriter, r: Request, script: seq<Event>, now: Time, done: Time, end: Time, admitted: bool)
      returns (outcome: Outcome)
      requires Valid(now) && now <= done <= end
      requires r in u.requests && AnswerIn(c, u, r, script, done)
      modifies this`varyIndex, this`log, cache, w
      ensures Valid(end)
      ensures ServesTo(c, old(Indexes(now)), r, script, done, end, admitted, outcome, Indexes(end))
      ensures outcome.FromCache? ==>
                && SoundHit(c, old(Indexes(now)), r, outcome.stored, now)
                && w.State() == Replay(outcome.stored, r, old(w.State()))
      ensures outcome.FromOrigin? ==> w.State() == ForwardAll(old(w.State()), c.maxBody, script)
      ensures outcome.Bypassed? ==>
                w.State() == DirectAll(old(w.State()).(header := Set(old(w.header), X_CACHE, "bypass")), script)
    {
      var variant := new Variant(r);
      var baseKey := variant.CacheKey(c.hash);
      var response := Lookup(variant, baseKey, now);
      LaterIsOk(now, end);
      if response.Some? {
        WriteCachedResponse(response.value, w, r);
        outcome := FromCache(response.value, now);
      } else if !ShouldCache(r) {
        Bypass(w, script);
        outcome := Bypassed;
      } else {
        AskOrigin(w, variant, baseKey, script, done, end, admitted);
        outcome := FromOrigin(script);
      }
    }
  }
}
