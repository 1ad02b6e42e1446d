/**
 The caching proxy's two indexes, the name lists learned from Vary and the store of encoded
 responses, and what has to hold between them and the origin's past responses.
 */
module CacheIndexes {
  import opened Freshness
  import opened Headers
  import opened MemoryCaching
  import opened Responses
  import opened Variants
  import opened Wrappers

  /** The hash and the codec are the ones the handler is built with; so are the size limits. */
  datatype Config = Config(
    hash: string -> CacheKey,
    encode: Stored -> Option<Bytes>,
    decode: Bytes -> Option<Stored>,
    maxBody: int,
    limits: Limits)

  ghost predicate RoundTrips(c: Config) {
    forall s: Stored | c.encode(s).Some? :: c.decode(c.encode(s).value) == Some(s)
  }

  /**
   One answer of the origin: to which request, by which events, and when it was complete; with what the
   handler makes of it: until when it may be stored, if at all, the names in its Vary, and its stored form.
   */
  datatype Exchange = Exchange(request: Request, script: seq<Event>, at: Time,
                               until: Option<Time>, names: seq<string>, stored: Stored)

  datatype Shared = Shared(index: map<CacheKey, seq<string>>, store: map<CacheKey, Held>, log: set<Exchange>, now: Time)

  // ---------------------------------------------------------------- the handler's pieces

  function KeyOf(c: Config, r: Request, names: seq<string>): CacheKey {
    c.hash(Material(r, names))
  }

  function BaseKey(c: Config, r: Request): CacheKey {
    KeyOf(c, r, [])
  }

  /** The names that a fetch goes by: those learned for the URL, or else the ones it had. */
  function LoadNames(index: map<CacheKey, seq<string>>, base: CacheKey, had: seq<string>): seq<string> {
    if base in index && index[base] != [] then index[base] else had
  }

  function Remember(index: map<CacheKey, seq<string>>, base: CacheKey, names: seq<string>): map<CacheKey, seq<string>> {
    if names == [] then index - {base} else index[base := names]
  }

  /** A stored response that can be read and decoded. */
  function Fetch(c: Config, s: Shared, key: CacheKey): Option<Stored> {
    match Read(s.store, key, s.now)
    case None => None
    case Some(bytes) => c.decode(bytes)
  }

  predicate ShouldCache(r: Request) {
    && (r.method_ == "GET" || r.method_ == "HEAD")
    && !(Get(r.header, CONNECTION) == "Upgrade" || Get(r.header, UPGRADE) == "websocket")
    && Get(r.header, RANGE) == ""
  }

  /** A request may be cached exactly if it is a GET or HEAD for the whole of something, over plain HTTP. */
  lemma ShouldCacheExactly(r: Request)
    ensures ShouldCache(r) <==>
              && r.method_ in {"GET", "HEAD"} && Get(r.header, "Range") == ""
              && Get(r.header, "Connection") != "Upgrade" && Get(r.header, "Upgrade") != "websocket"
    ensures r.method_ == "GET" && r.header == map[] ==> ShouldCache(r)
  {
  }

  // ---------------------------------------------------------------- what an exchange leaves behind

  function Observe(c: Config, request: Request, script: seq<Event>, at: Time): Exchange {
    var kept := RecordAll(c.maxBody, script);
    var names := NamesIn(kept.header);
    Exchange(request, script, at,
             if ShouldCache(request) then Storable(kept, at) else None,
             names,
             Freeze(kept, ValuesOf(request, names), at))
  }

  ghost predicate Observed(c: Config, x: Exchange) {
    x == Observe(c, x.request, x.script, x.at)
  }

  /** What the indexes rely on: the stored form still names what it varies by, and carries those values. */
  ghost predicate Lawful(x: Exchange) {
    && NamesIn(x.stored.header) == x.names
    && x.stored.variantHeader == ValuesOf(x.request, x.names)
    && (x.until.Some? ==> x.until.value <= x.at + MAX_INT64)
  }

  lemma ObservedIsLawful(c: Config, x: Exchange)
    requires Observed(c, x)
    ensures Lawful(x)
  {
    CanonicalLength(VARY);
    CanonicalLength(SET_COOKIE);
  }

  /** A store entry is the encoding of some storable exchange, under that exchange's own variant key. */
  ghost predicate EntryOf(c: Config, x: Exchange, key: CacheKey, held: Held) {
    && x.until.Some?
    && key == KeyOf(c, x.request, x.names)
    && c.encode(x.stored) == Some(held.value)
    && held.expiry <= x.until.value
    && FitsLimits(c.limits, |held.value|)
  }

  /** The requests of a run, and the name lists that the origin's storable answers send for each target. */
  datatype Universe = Universe(requests: set<Request>, lists: map<Target, set<seq<string>>>)

  /** The lists by which a request may be looked up: those of its target, and the empty one. */
  function Lists(u: Universe, r: Request): set<seq<string>> {
    {[]} + (if TargetOf(r) in u.lists then u.lists[TargetOf(r)] else {})
  }

  /**
   A key under which a response to the first request is stored by these names is formed by the second only if
   the response suits it.
   */
  ghost predicate Discerned(c: Config, r1: Request, n1: seq<string>, r2: Request, n2: seq<string>) {
    KeyOf(c, r1, n1) == KeyOf(c, r2, n2) ==> SameTarget(r1, r2) && Agree(n1, r1, r2)
  }

  /** No two of the keys that these requests can form under these lists coincide by accident. */
  ghost predicate CollisionFree(c: Config, u: Universe) {
    forall r1, n1, r2, n2 {:trigger Discerned(c, r1, n1, r2, n2)}
      | r1 in u.requests && n1 in Lists(u, r1) && r2 in u.requests && n2 in Lists(u, r2) ::
      Discerned(c, r1, n1, r2, n2)
  }

  /** What the origin answers to a request, if it may be stored, varies by a list of the request's target. */
  ghost predicate AnswerIn(c: Config, u: Universe, r: Request, script: seq<Event>, at: Time) {
    var x := Observe(c, r, script, at);
    x.until.Some? ==> x.names in Lists(u, r)
  }

  ghost predicate ExchangeIn(c: Config, u: Universe, x: Exchange) {
    Lawful(x) && x.request in u.requests && (x.until.Some? ==> x.names in Lists(u, x.request))
  }

  ghost predicate SharedOk(c: Config, u: Universe, s: Shared) {
    && (forall x | x in s.log :: ExchangeIn(c, u, x) && x.at <= s.now)
    && (forall k | k in s.index :: s.index[k] != [])
    && (forall r | r in u.requests && BaseKey(c, r) in s.index :: s.index[BaseKey(c, r)] in Lists(u, r))
    && (forall k | k in s.store :: exists x :: x in s.log && EntryOf(c, x, k, s.store[k]))
  }

  /**
   A stored response is a sound answer to a request at an instant: an earlier exchange produced it for
   the same method, path, query and host, the two requests agree on every header its Vary names
   (section 4.1 of RFC 9111), and it is still fresh (section 4.2).
   */
  ghost predicate Answers(c: Config, x: Exchange, r: Request, stored: Stored, at: Time) {
    && x.until.Some?
    && stored == x.stored
    && SameTarget(x.request, r) && Agree(x.names, x.request, r)
    && x.at <= at < x.until.value
  }

  // ---------------------------------------------------------------- lookups

  lemma FetchFindsAnExchange(c: Config, u: Universe, s: Shared, key: CacheKey) returns (x: Exchange)
    requires RoundTrips(c) && SharedOk(c, u, s) && Fetch(c, s, key).Some?
    ensures x in s.log && ExchangeIn(c, u, x) && x.until.Some?
    ensures KeyOf(c, x.request, x.names) == key
    ensures Fetch(c, s, key) == Some(x.stored)
    ensures x.at <= s.now < x.until.value
  {
    x :| x in s.log && EntryOf(c, x, key, s.store[key]);
  }

  lemma SameKeySameVariant(c: Config, u: Universe, x: Exchange, r: Request, names: seq<string>)
    requires CollisionFree(c, u) && ExchangeIn(c, u, x) && x.until.Some?
    requires r in u.requests && names in Lists(u, r)
    requires KeyOf(c, x.request, x.names) == KeyOf(c, r, names)
    ensures SameTarget(x.request, r) && Agree(x.names, x.request, r)
  {
    assert Discerned(c, x.request, x.names, r, names);
  }

  /**
   Whatever a request finds under a key of its own is a sound answer, and fits the request under the
   names of the response's own Vary. So it is under the URL's base key, which is formed with no names.
   */
  lemma FetchIsSound(c: Config, u: Universe, s: Shared, r: Request, names: seq<string>) returns (x: Exchange)
    requires RoundTrips(c) && CollisionFree(c, u) && SharedOk(c, u, s)
    requires r in u.requests && names in Lists(u, r)
    requires Fetch(c, s, KeyOf(c, r, names)).Some?
    ensures x in s.log && Answers(c, x, r, Fetch(c, s, KeyOf(c, r, names)).value, s.now)
    ensures NamesIn(Fetch(c, s, KeyOf(c, r, names)).value.header) == x.names && x.names in Lists(u, r)
    ensures Fits(x.names, Fetch(c, s, KeyOf(c, r, names)).value.variantHeader, r)
  {
    x := FetchFindsAnExchange(c, u, s, KeyOf(c, r, names));
    SameKeySameVariant(c, u, x, r, names);
    MatchesExactlyAgreeing(x.names, x.request, r);
  }

  lemma BaseKeyMeansTarget(c: Config, u: Universe, a: Request, b: Request)
    requires CollisionFree(c, u) && a in u.requests && b in u.requests
    requires BaseKey(c, a) == BaseKey(c, b)
    ensures SameTarget(a, b)
  {
    assert Discerned(c, a, [], b, []);
  }

  lemma RememberKeepsShared(c: Config, u: Universe, s: Shared, r: Request, names: seq<string>)
    requires CollisionFree(c, u) && SharedOk(c, u, s) && r in u.requests && names in Lists(u, r)
    ensures SharedOk(c, u, s.(index := Remember(s.index, BaseKey(c, r), names)))
  {
    var s' := s.(index := Remember(s.index, BaseKey(c, r), names));
    forall other | other in u.requests && BaseKey(c, other) in s'.index
      ensures s'.index[BaseKey(c, other)] in Lists(u, other)
    {
      if BaseKey(c, other) == BaseKey(c, r) {
        BaseKeyMeansTarget(c, u, other, r);
      }
    }
    forall k | k in s'.store
      ensures exists x :: x in s'.log && EntryOf(c, x, k, s'.store[k])
    {
      assert s'.store[k] == s.store[k];
    }
  }

  /** The store after the handler has stored an exchange. */
  function StoreExchange(c: Config, s: Shared, x: Exchange, admitted: bool): map<CacheKey, Held>
    requires x.until.Some?
  {
    match c.encode(x.stored)
    case None => s.store
    case Some(bytes) =>
      AfterSet(c.limits, s.store, KeyOf(c, x.request, x.names), bytes, x.until.value, s.now, admitted)
  }

  lemma StoreKeepsShared(c: Config, u: Universe, s: Shared, x: Exchange, admitted: bool)
    requires SharedOk(c, u, s) && x in s.log && x.until.Some?
    ensures SharedOk(c, u, s.(store := StoreExchange(c, s, x, admitted)))
  {
    var s' := s.(store := StoreExchange(c, s, x, admitted));
    forall k | k in s'.store
      ensures exists y :: y in s'.log && EntryOf(c, y, k, s'.store[k])
    {
      if k in s.store && s'.store[k] == s.store[k] {
        assert exists y :: y in s.log && EntryOf(c, y, k, s.store[k]);
      } else {
        assert EntryOf(c, x, k, s'.store[k]);
      }
    }
  }

  lemma LogKeepsShared(c: Config, u: Universe, s: Shared, x: Exchange)
    requires SharedOk(c, u, s) && ExchangeIn(c, u, x) && x.at <= s.now
    ensures SharedOk(c, u, s.(log := s.log + {x}))
  {
    var s' := s.(log := s.log + {x});
    forall k | k in s'.store
      ensures exists y :: y in s'.log && EntryOf(c, y, k, s'.store[k])
    {
      var y :| y in s.log && EntryOf(c, y, k, s.store[k]);
      assert y in s'.log;
    }
  }

  /** The origin's answer to a request of the universe may join the log. */
  lemma AnswerKeepsShared(c: Config, u: Universe, s: Shared, x: Exchange)
    requires SharedOk(c, u, s) && Observed(c, x) && x.at <= s.now
    requires x.request in u.requests && (x.until.Some? ==> x.names in Lists(u, x.request))
    ensures ExchangeIn(c, u, x) && SharedOk(c, u, s.(log := s.log + {x}))
  {
    ObservedIsLawful(c, x);
    LogKeepsShared(c, u, s, x);
  }

  lemma ForgetKeepsShared(c: Config, u: Universe, s: Shared, gone: set<CacheKey>, later: Time)
    requires SharedOk(c, u, s) && s.now <= later
    ensures SharedOk(c, u, s.(store := s.store - gone, now := later))
  {
    var s' := s.(store := s.store - gone, now := later);
    forall k | k in s'.store
      ensures exists y :: y in s'.log && EntryOf(c, y, k, s'.store[k])
    {
      assert s'.store[k] == s.store[k];
    }
  }

  /** Never partial, never uncacheable, never with a cookie or an unmatchable Vary, and not kept too long. */
  ghost predicate FitToStore(c: Config, x: Exchange) {
    && (x.request.method_ == "GET" || x.request.method_ == "HEAD")
    && Get(x.request.header, RANGE) == ""
    && Get(x.request.header, CONNECTION) != "Upgrade" && Get(x.request.header, UPGRADE) != "websocket"
    && 200 <= x.stored.status <= 399 && x.stored.status != 304
    && Canonical(SET_COOKIE) !in x.stored.header
    && '*' !in Get(x.stored.header, VARY)
    && x.until.Some?
    && (exists age :: Allows(Get(x.stored.header, CACHE_CONTROL), age) && x.until.value <= x.at + age * SECOND)
    && x.stored.body == Written(x.script)
    && (HasWrite(x.script) ==> |x.stored.body| <= c.maxBody)
  }

  lemma StorableIsFitToStore(c: Config, x: Exchange)
    requires Observed(c, x) && x.until.Some?
    ensures FitToStore(c, x)
  {
    StashKeepsAllOrOverflows(c.maxBody, x.script);
    CanonicalLength(VARY);
    CanonicalLength(CACHE_CONTROL);
    CanonicalLength(SET_COOKIE);
    var cc := Get(x.stored.header, CACHE_CONTROL);
    MaxAgeExactly(cc, MaxAge(cc).value);
  }
}
