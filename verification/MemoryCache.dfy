/** The proxy's store: a bounded, expiring and forgetful map, and the sizing of its admission counters. */
module MemoryCaching {
  import opened Freshness
  import opened Responses
  import opened Variants
  import opened Wrappers

  datatype Held = Held(value: Bytes, expiry: Time)

  datatype Limits = Limits(capacity: int, maxItemSize: int)

  predicate FitsLimits(limits: Limits, size: nat) {
    size <= limits.maxItemSize && (limits.capacity > 0 ==> size <= limits.capacity)
  }

  /** The store after a Set; `admitted` is the backing cache's own decision. */
  function AfterSet(limits: Limits, entries: map<CacheKey, Held>, key: CacheKey, value: Bytes, expiresAt: Time,
                    now: Time, admitted: bool): map<CacheKey, Held>
  {
    var ttl := Saturate64(expiresAt - now);
    if !FitsLimits(limits, |value|) || ttl <= 0 || !admitted then entries
    else entries[key := Held(value, now + ttl)]
  }

  function Read(entries: map<CacheKey, Held>, key: CacheKey, now: Time): Option<Bytes> {
    if key in entries && now < entries[key].expiry then Some(entries[key].value) else None
  }

  class MemoryCache {
    const limits: Limits
    var entries: map<CacheKey, Held>

    ghost predicate Valid()
      reads this
    {
      forall k | k in entries :: FitsLimits(limits, |entries[k].value|)
    }

    constructor (capacity: int, maxItemSize: int)
      ensures Valid() && entries == map[] && limits == Limits(capacity, maxItemSize)
    {
      limits, entries := Limits(capacity, maxItemSize), map[];
    }

    method Set(key: CacheKey, value: Bytes, expiresAt: Time, now: Time, admitted: bool)
      requires Valid()
      modifies this
      ensures Valid()
      ensures entries == AfterSet(limits, old(entries), key, value, expiresAt, now, admitted)
    {
      var itemSize := |value|;
      if itemSize > limits.maxItemSize || (limits.capacity > 0 && itemSize > limits.capacity) {
        return;
      }
      var ttl := Saturate64(expiresAt - now);
      if ttl <= 0 {
        return;
      }
      if !admitted {
        return;
      }
      entries := entries[key := Held(value, now + ttl)];
    }

    method Get(key: CacheKey, now: Time) returns (value: Option<Bytes>)
      ensures value == Read(entries, key, now)
    {
      value := if key in entries && now < entries[key].expiry then Some(entries[key].value) else None;
    }
  }

  /**
   What a Set stores is served until the expiry it was given at the latest, and not at all if it is too large
   or too late.
   */
  lemma SetThenRead(limits: Limits, entries: map<CacheKey, Held>, key: CacheKey, value: Bytes, expiresAt: Time,
                    now: Time, admitted: bool, other: CacheKey, later: Time)
    requires now <= later
    ensures var after := AfterSet(limits, entries, key, value, expiresAt, now, admitted);
            && (other != key ==> Read(after, other, later) == Read(entries, other, later))
            && (Read(after, key, later) != Read(entries, key, later) ==>
                  && |value| <= limits.maxItemSize && (limits.capacity <= 0 || |value| <= limits.capacity)
                  && admitted && now < expiresAt)
            && (|value| <= limits.maxItemSize && (limits.capacity <= 0 || |value| <= limits.capacity)
                && admitted && now < expiresAt <= now + MAX_INT64 ==>
                  Read(after, key, later) == if later < expiresAt then Some(value) else None)
  {
  }

  // ---------------------------------------------------------------- admission counters

  const MIN_COUNTERS: int := 1_000
  const MAX_COUNTERS: int := 10_000_000
  const MIN_AVG_ITEM_BYTES: int := 1024
  const MAX_AVG_ITEM_BYTES: int := 16 * 1024

  function Clamp(x: int, low: int, high: int): int {
    if x < low then low else if x > high then high else x
  }

  /** The assumed size of an item: a quarter of the largest, within bounds. */
  function AvgItemBytes(maxItemSize: int): (avg: int)
    ensures MIN_AVG_ITEM_BYTES <= avg <= MAX_AVG_ITEM_BYTES
  {
    if maxItemSize <= 0 then MIN_AVG_ITEM_BYTES else Clamp(maxItemSize / 4, MIN_AVG_ITEM_BYTES, MAX_AVG_ITEM_BYTES)
  }

  /** Ten counters for each item that fits, within bounds. */
  function NumCounters(capacity: int, maxItemSize: int): int {
    if capacity <= 0 then 0 else Clamp(capacity / AvgItemBytes(maxItemSize) * 10, MIN_COUNTERS, MAX_COUNTERS)
  }

  method DeriveNumCounters(capacity: int, maxItemSize: int) returns (numCounters: int)
    ensures numCounters == NumCounters(capacity, maxItemSize)
  {
    if capacity <= 0 {
      return 0;
    }
    // Go's division truncates towards zero; the result is only kept for positive sizes.
    var avgItemBytes := if maxItemSize >= 0 then maxItemSize / 4 else -(-maxItemSize / 4);
    if maxItemSize <= 0 {
      avgItemBytes := MIN_AVG_ITEM_BYTES;
    }
    if avgItemBytes < MIN_AVG_ITEM_BYTES {
      avgItemBytes := MIN_AVG_ITEM_BYTES;
    }
    if avgItemBytes > MAX_AVG_ITEM_BYTES {
      avgItemBytes := MAX_AVG_ITEM_BYTES;
    }
    var estimatedItems := capacity / avgItemBytes;
    if estimatedItems <= 0 {
      estimatedItems := 1;
    }
    numCounters := estimatedItems * 10;
    if numCounters < MIN_COUNTERS {
      numCounters := MIN_COUNTERS;
    }
    if numCounters > MAX_COUNTERS {
      numCounters := MAX_COUNTERS;
    }
  }

  lemma MulMonotone(x: int, y: int, k: nat)
    requires x <= y
    ensures x * k <= y * k
  {
  }

  lemma QuotientsOrdered(q: nat, p: int, a: int, b: int, d: nat, e: nat)
    requires q * d <= a <= b < (p + 1) * e && e <= d
    ensures q <= p
  {
    MulMonotone(e, d, q);
    if p + 1 <= q {
      MulMonotone(p + 1, q, e);
    }
  }

  lemma Quotient(b: nat, e: nat) returns (q: nat)
    requires e > 0
    ensures q == b / e && q * e <= b < (q + 1) * e
  {
    q := b / e;
    assert b == e * q + b % e;
  }

  lemma DivMonotone(a: nat, b: nat, d: nat, e: nat)
    requires a <= b && 0 < e <= d
    ensures a / d <= b / e
  {
    var q := Quotient(a, d);
    var p := Quotient(b, e);
    QuotientsOrdered(q, p, a, b, d, e);
  }

  /** Between the bounds there are ten counters for each item that fits, of a quarter of the largest size. */
  lemma TenCountersAnItem(capacity: int, maxItemSize: int)
    requires capacity > 0 && 4096 <= maxItemSize <= 65536
    requires MIN_COUNTERS < NumCounters(capacity, maxItemSize) < MAX_COUNTERS
    ensures exists items: nat :: NumCounters(capacity, maxItemSize) == 10 * items
                                 && items * (maxItemSize / 4) <= capacity < (items + 1) * (maxItemSize / 4)
    ensures MIN_COUNTERS == 1_000 && MAX_COUNTERS == 10_000_000
  {
    var items := Quotient(capacity, maxItemSize / 4);
    assert NumCounters(capacity, maxItemSize) == 10 * items;
  }

  /** More capacity never means fewer counters, larger items never mean more, and no product leaves int64. */
  lemma NumCountersScale(capacity: int, more: int, maxItemSize: int, larger: int)
    requires capacity <= more && 0 < maxItemSize <= larger
    ensures NumCounters(capacity, maxItemSize) <= NumCounters(more, maxItemSize)
    ensures NumCounters(capacity, larger) <= NumCounters(capacity, maxItemSize)
    ensures capacity <= 0 ==> NumCounters(capacity, maxItemSize) == 0
    ensures capacity > 0 ==> MIN_COUNTERS <= NumCounters(capacity, maxItemSize) <= MAX_COUNTERS
    ensures capacity <= MAX_INT64 ==> capacity / AvgItemBytes(maxItemSize) * 10 <= MAX_INT64
  {
    if capacity > 0 {
      DivMonotone(capacity, more, AvgItemBytes(maxItemSize), AvgItemBytes(maxItemSize));
      DivMonotone(capacity, capacity, AvgItemBytes(larger), AvgItemBytes(maxItemSize));
      DivMonotone(capacity, capacity, AvgItemBytes(maxItemSize), MIN_AVG_ITEM_BYTES);
    }
  }
}
