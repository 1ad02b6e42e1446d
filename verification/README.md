# Verified model of the proxy cache, the users cache and the upstream supervisor

This project models three parts of the server in Dafny 4.11 and proves what they are for. Check it with
`dafny verify dfyconfig.toml`.

**The response cache of the reverse proxy.** `CacheHandler` answers from a store of encoded responses and otherwise
tees the origin's response to the client and into a buffer. It keeps two indexes: the header names learned from
`Vary`, by URL, and the responses, by a hash of the request under those names. The classes `Variant`,
`CacheableResponse`, `StashingWriter`, `MemoryCache` and `CacheHandler` are the source's objects with their fields
updated in place; each method is proved against a function on values. On those functions stand the theorems: what the
capture keeps (`Responses`), what a bypassed origin does to the client and when a replay is the live response
(`Replaying`), which header texts let a response be stored and until when (`Freshness`), what identifies a variant
(`Variants`), and, for any number of requests whose steps interleave, that every hit is an answer the origin gave
before to a request of the same target that agrees on every header in its `Vary` (section 4.1 of RFC 9111) and is
still fresh (section 4.2) (`CacheIndexes`, `CacheProtocol`), and that a stored response really is served until it
expires and a miss had nothing to find (`CacheWarmth`). What happens where keys do not tell requests apart is the
subject of `KeyCollisions`. Each call of the handler on objects is one run of that protocol (`CacheRefinement`).

**The users table and the cache in front of it.** `UsersDao` and `UsersCache` are the two classes of the source.
Their operations are proved to be steps of a relation between states (`UsersProtocol`), over whose runs the cached
branch refines the branch without a cache. With readers, shared flights, batches and writers interleaved, the answer
of a read is bounded in age (`UsersStaleness`). The list handlers are on top (`UsersListing`).

**The supervisor of the upstream process.** `Server` holds the fields behind the mutex; the Start/Stop handshake is a
state machine over its critical sections and the calls between them (`Supervisor`). The command splitter is the loop
of the source, proved to be a grammar of words and the inverse of quoting (`CommandLine`).

What foreign code does enters as a parameter or a stated contract: the hash and the codec are function values of a
`Config`, where the codec has to round-trip and the hash must not confuse the variants of a run; the backing cache may
refuse any `Set` and forget any entry; a database call, a cache call or a signal may fail; clocks only move forward.
Strings stand for byte strings, except in the splitter, where a character is a rune.

## Where the code differs from what one might expect

- The repository's README says that the upstream command is split by shell rules (line 106). The code's own rules are
  modelled: in double quotes a backslash escapes any character, and an empty quoted word leaves no trace
  (`QuotingIsUndoneExactly` says that this is the only loss).
- The parts hashed into a cache key are not separated. That no key under which a response is stored is also formed by
  a request that the response does not suit is therefore a hypothesis, `CollisionFree`, over the requests of a run and
  the name lists that the origin sends for their targets. Where every request may be cached and every list can occur,
  it is exactly what sound hits need (`SoundExactlyWhenDiscerned`). It is met by any hash that does not collide on the
  texts of the run, if no target's text begins with another's, each target has one list of names, and no '=' is in a
  listed name or value (`OnlyTheHashMatters`); these conditions are sufficient. Some requests no hash tells apart: path
  and query, the end of one listed value and the beginning of the next, or one value under a shorter Vary and two under
  a longer one (`NoHashTellsPathFromQuery`, `NoHashTellsTheseValues`, `NoHashTellsTheseLists`). Then one request is
  served what the origin answered to the other; where the two disagree on a header in that answer's Vary, the handler
  sees it, looks once more without matching again, and serves it (`CollisionServesAnotherVariant`).
- A replay is the live response exactly when the script is settled: the final head has gone out, with the status and
  with the value of every field that the script ends with (`ReplayEqualsLiveExactly`). It is not settled if a header
  comes after the final head (`LateHeaderIsReplayed`), if there is no head at all (`SilentOriginIsReplayed`), or if a
  field of an informational head is taken back before the final one (`EarlyHintIsNotReplayed`), although the headers
  are fixed by then: the client's writer keeps what it was given. The origin here is a reverse proxy
  (internal/proxy/reverse_proxy.go:34), which clears its headers after relaying such a head.
- A `max-age` above 9223372036 overflows the nanosecond product, and the expiry is then too early, never too late.
- The directive read before `max-age` is spelled `s-max-age`; `no-store` is not looked at. `Header.Get` reads the
  first field line, and an absent field is an empty one. `If-None-Match` is compared as text.
- A lookup comes before `shouldCacheRequest`, so a Range request is answered with a whole stored response
  (`RangeIsServedFromCache`).
- `Create` leaves a placeholder alone, so a new row may be hidden until the placeholder expires (`GetRefinesUncached`).
- A slow reader may put an old row back after an invalidation (`SlowReaderRevivesOldRow`). What a flight delivers late
  is older than any bound, even to a reader that called after the row was replaced (`LateDeliveryIsOlder`).
- A Stop that enters before the child process exists answers nil, sends no signal and stops nothing (`NilStopHasSignalled`).
- Rows whose id is 2147483647 or more never appear when paging from the start (`CrawlFromTheStart`).
- In ascending order, following the last id of each page never gets past the first (`AscendingCrawlStaysOnThePage`):
  the cursor is an upper bound in either order.

## Model

| member | source | states |
|---|---|---|
| `CacheProtocol.EveryHitIsSound` | internal/proxy/cache/cache_handler.go:41-106 | in every interleaving, a response served from the cache is what the origin answered, in an earlier move, to a request of the same method, path, query and host that agrees on every header named in the response's Vary, and it has not expired |
| `CacheProtocol.NoSecondFetch` | internal/proxy/cache/cache_handler.go:46-52 | in every interleaving, no request ever fetches a second time |
| `CacheProtocol.EveryHitFits` | internal/proxy/cache/cache_handler.go:46-52 | because the variant header of what a request finds matches it under the response's own Vary |
| `CacheProtocol.EveryEntryIsFitToStore` | internal/proxy/cache/cache_handler.go:59-83 | every entry of a reachable store decodes to an observed answer to a GET or HEAD that was neither a Range request nor an upgrade, with status 200 to 399 but not 304, no Set-Cookie, no `*` in Vary, a Cache-Control that has the word `public`, lacks the word `no-cache` and gives a positive lifetime, a body that is everything the origin wrote and within the limit, under its own variant key and not kept past that lifetime |
| `CacheProtocol.NextKeepsInv` | internal/proxy/cache/cache_handler.go:41-145 | every move of any request, of the clock or of an eviction keeps the invariant between name index, store, log and the requests under way |
| `CacheProtocol.InvHolds` | internal/proxy/cache/cache_handler.go:41-145 | the invariant holds at every step of every run from cold indexes |
| `CacheProtocol.LogIsObserved` | internal/proxy/cache/cache_handler.go:66-69 | what the ghost log holds of an answer is what the capture makes of the origin's events |
| `CacheProtocol.LogIsTheOrigins` | internal/proxy/cache/cache_handler.go:66-69 | every exchange in the ghost log is some earlier move in which the origin answered that request, at that instant |
| `CacheProtocol.LookupIsSound` | internal/proxy/cache/cache_handler.go:88-106 | what a request finds under a key of its own is sound and fits it |
| `CacheIndexes.FetchIsSound` | internal/proxy/cache/cache_handler.go:93-103 | a hit under a key that the request forms with any list of its target is sound, and fits the request under the response's own Vary; so it is under the base key, and the fallback is sound |
| `CacheIndexes.SameKeySameVariant` | internal/proxy/cache/variant.go:41-53 | where keys do not collide, an entry under a request's key is for the request's target, and the two agree on every header in the entry's Vary |
| `CacheIndexes.ObservedIsLawful` | internal/proxy/cache/cache_handler.go:69-80 | the stored form of an answer still names the headers it varies by, carries their request values, and expires within an int64 of nanoseconds |
| `CacheIndexes.RememberKeepsShared` | internal/proxy/cache/cache_handler.go:123-134 | learning names, or forgetting them for an empty list, keeps the indexes consistent |
| `CacheIndexes.AnswerKeepsShared` | internal/proxy/cache/cache_handler.go:66-69 | an answer joins the log as a lawful exchange, and the indexes stay consistent |
| `CacheIndexes.StoreKeepsShared` | internal/proxy/cache/cache_handler.go:73-80 | storing an answer under its variant key keeps the indexes consistent, whether or not the cache admits it |
| `CacheIndexes.ForgetKeepsShared` | internal/proxy/cache/memory_cache_sponge.go:93-114 | evictions and the passing of time keep the indexes consistent |
| `CacheIndexes.StorableIsFitToStore` | internal/proxy/cache/cacheable_response.go:103-136 | an answer that may be stored meets every condition on stored responses |
| `CacheIndexes.ShouldCacheExactly` | internal/proxy/cache/cache_handler.go:147-153 | a request may be cached exactly if it is a GET or HEAD without Range that asks for no upgrade; so a plain GET may |
| `KeyCollisions.OnlyTheHashMatters` | internal/proxy/cache/variant.go:41-53 | if no target's text begins with another's, each target has at most one list of names of each length, and no '=' is in a listed name or value: keys coincide only for one list and variant exactly when the hash makes no two texts of these requests coincide; and then they are free of collisions |
| `KeyCollisions.NoHashTellsPathFromQuery` | internal/proxy/cache/variant.go:41-53 | two requests for different targets whose base keys are equal under every hash |
| `KeyCollisions.NoHashTellsTheseValues` | internal/proxy/cache/variant.go:48-50 | for any two header names and any texts, two requests of one target that disagree on them and have the same key under every hash |
| `KeyCollisions.NoHashTellsTheseLists` | internal/proxy/cache/variant.go:48-50 | for any two header names and any texts, two requests of one target that disagree on the first and have the same key under every hash, one under the first name alone and one under both |
| `KeyCollisions.CollisionServesAnotherVariant` | internal/proxy/cache/cache_handler.go:41-57 | the converse of `EveryHitIsSound`: where the key of a response under one list is formed by another request under the same or another list, and the response does not suit it, there is a run in which it is served; if the two disagree on a header in the response's Vary, after the mismatch was seen |
| `KeyCollisions.ShiftedValuesAreServed` | internal/proxy/cache/cache_handler.go:46-52 | that run for two listed values whose end and beginning are shifted |
| `KeyCollisions.LongerVaryIsServed` | internal/proxy/cache/cache_handler.go:46-52 | that run for a target that varies by one header in one answer and by two in another |
| `KeyCollisions.SoundExactlyWhenDiscerned` | internal/proxy/cache/cache_handler.go:41-106 | where every request may be cached and every list is a live possibility: all hits of all runs are sound exactly when keys are free of collisions, between any two lists |
| `KeyCollisions.RangeIsServedFromCache` | internal/proxy/cache/cache_handler.go:44-59 | for every variant with a stored response, a run in which a Range request is served all of it |
| `KeyCollisions.KnownKeyIsServed` | internal/proxy/cache/cache_handler.go:46-57 | a response found under the known names is served, matching or not; if not, by way of a second fetch |
| `KeyCollisions.TwoNamesLast` | internal/proxy/cache/cacheable_response.go:103-136 | an answer with `Vary: A,B` and any max-age up to the exact bound may be stored and varies by those two names |
| `CacheWarmth.StoredResponseIsServed` | internal/proxy/cache/cache_handler.go:41-106 | while Vary stays constant for the URL and the entry is not evicted or replaced by a shorter-lived one, every later request of the variant of a stored response that fits the limits is, until that response expires, three moves of its own away from being served from the cache, less those it has made; the origin is not called for it |
| `CacheWarmth.FoundIsServed` | internal/proxy/cache/cache_handler.go:46-57 | a request that has found a response is served it by its next move, expired or not by then |
| `CacheWarmth.WarmthLasts` | internal/proxy/cache/cache_handler.go:123-145 | what is learned and kept for a variant stays so, whatever requests for other variants and URLs come in between |
| `CacheWarmth.WarmRequestsStayOnTrack` | internal/proxy/cache/cache_handler.go:88-106 | a request of a warm variant never reaches a miss, at any point of any interleaving |
| `CacheWarmth.RememberKeepsKnown` | internal/proxy/cache/cache_handler.go:123-134 | learning the names of one URL leaves those of every other URL |
| `CacheWarmth.StorerIsKnown` | internal/proxy/cache/cache_handler.go:70-80 | while Vary stays constant for the URL, a response about to be stored has its names in the index |
| `CacheWarmth.HitTeaches` | internal/proxy/cache/cache_handler.go:46-48 | serving a hit leaves the index with the names of the response's Vary for that URL |
| `CacheWarmth.MissMeansNothingWasKept` | internal/proxy/cache/cache_handler.go:88-106 | in every interleaving, a request goes to the origin or past the cache only if it has looked in vain under both of its keys: that of the names known at an earlier step, and then the URL's base key |
| `CacheRefinement.ServingIsARun` | internal/proxy/cache/cache_handler.go:41-84 | whatever the handler does to the indexes for one request, and however it answers, is what some run of the interleaving protocol does, with the other requests standing still |
| `CacheRefinement.FoundIsSound` | internal/proxy/cache/cache_handler.go:88-106 | a fetch, with its fallback, only finds sound answers, whose own Vary fits the request |
| `CacheHandling.CacheHandler.ServeHTTP` | internal/proxy/cache/cache_handler.go:41-84 | a hit exactly when a fetch finds something, then sound, replayed and learned from; otherwise the origin's answer, bypassing the cache or forwarded, logged, learned from and stored if it may be; the invariant is kept |
| `CacheHandling.CacheHandler.Lookup` | internal/proxy/cache/cache_handler.go:44-52 | the lookup half: it answers with what the first fetch finds, soundly, and learns its names |
| `CacheHandling.CacheHandler.AskOrigin` | internal/proxy/cache/cache_handler.go:66-83 | the origin half: what the client receives, and the indexes afterwards |
| `CacheHandling.CacheHandler.KeepAnswer` | internal/proxy/cache/cache_handler.go:69-83 | once an answer is complete, it is learned from and stored exactly if it may be |
| `CacheHandling.CacheHandler.StoreAnswer` | internal/proxy/cache/cache_handler.go:73-82 | the store afterwards is that of the protocol's Store move |
| `CacheHandling.CacheHandler.CallOrigin` | internal/proxy/cache/cache_handler.go:67-67 | after any script of events, capture and client are where the script leads |
| `CacheHandling.CacheHandler.Bypass` | internal/proxy/cache/cache_handler.go:59-64 | after any script of events the client's writer is where `Replaying.BypassReachesTheClient` describes it, from X-Cache bypass on |
| `CacheHandling.CacheHandler.FetchFromCache` | internal/proxy/cache/cache_handler.go:88-106 | learned names replace the variant's unless there are none; the result is that of the two lookups |
| `CacheHandling.CacheHandler.LookupCacheEntry` | internal/proxy/cache/cache_handler.go:108-121 | a live entry that decodes, or nothing |
| `CacheHandling.CacheHandler.RememberVariantHeaders` | internal/proxy/cache/cache_handler.go:123-134 | the index gets the names of a URL, or loses it for an empty list |
| `CacheHandling.CacheHandler.LoadVariantHeaders` | internal/proxy/cache/cache_handler.go:136-145 | the learned names, or none |
| `Replaying.ReplayEqualsLiveExactly` | internal/proxy/cache/cacheable_response.go:54-93 | for every origin script that ends storable, the replayed body is the live one, and the whole replay is the live response exactly when the script is settled, which its events and the client's first headers decide |
| `Replaying.SettledForEveryClient` | internal/proxy/cache/cacheable_response.go:166-178 | whether that is so for every client, the script alone decides |
| `Replaying.FixedSettlesExactly` | internal/proxy/cache/cacheable_response.go:89-93 | of the scripts whose headers and status are fixed by the final head, exactly those are settled for every client that take back no field of an informational head |
| `Replaying.EarlyHintIsNotReplayed` | internal/proxy/cache/cacheable_response.go:89-93 | a header of an informational head that is taken back before the final head reaches the live client and is not replayed |
| `Replaying.ReplayEqualsLive` | internal/proxy/cache/cacheable_response.go:139-178 | for every script that ends storable, has its headers and status fixed by the final head and takes back no announced field: the replay has the live status, body and headers, less Set-Cookie and with X-Cache hit for miss |
| `Replaying.ReplaySends` | internal/proxy/cache/cacheable_response.go:139-164 | a replay sends the stored headers: with status 304 and no body if the stored response has an Etag and If-None-Match lists it, with any space around it, and otherwise, as without either field, with the stored status and body |
| `Replaying.BypassReachesTheClient` | internal/proxy/cache/cache_handler.go:59-64 | for every script of a bypassed origin: the client gets every byte in order, the status of the first final event, and the header map of that moment, which has X-Cache bypass unless the origin has replaced the map before |
| `Replaying.DirectIsDescribed` | internal/proxy/cache/cache_handler.go:62-62 | the same for any writer that has not sent its head yet, and what it holds of a script without a final event |
| `Replaying.LateHeaderIsReplayed` | internal/proxy/cache/cacheable_response.go:89-93 | a header set after the head has gone out is replayed, although the live client never got it |
| `Replaying.SilentOriginIsReplayed` | internal/proxy/cache/cacheable_response.go:34-42 | an origin that sets headers and returns is stored and replayed, although its headers never reached the live client |
| `Replaying.ScriptDescribesState` | internal/proxy/cache/cacheable_response.go:81-93 | for every script: the headers and status of the capture, whether and with what status the final head has gone out, and with what value of each field |
| `Responses.StashKeepsAllOrOverflows` | internal/proxy/cache/cacheable_response.go:206-221 | the stash overflows exactly when more is written than the limit, and otherwise holds every byte |
| `Responses.ClientGetsEveryByte` | internal/proxy/cache/cacheable_response.go:206-214 | every byte goes to the client, in order, whatever the stash keeps |
| `Responses.StashingWriter.Write` | internal/proxy/cache/cacheable_response.go:206-214 | a chunk that would exceed the limit marks the overflow and is not kept; every chunk is passed on |
| `Responses.CacheableResponse.constructor` | internal/proxy/cache/cacheable_response.go:34-42 | a new capture has status 200, no headers and an empty stash on the same writer |
| `Responses.CacheableResponse.Write` | internal/proxy/cache/cacheable_response.go:81-86 | a first write sends the head with status 200 |
| `Responses.CacheableResponse.WriteHeader` | internal/proxy/cache/cacheable_response.go:89-93 | the status is recorded and the head forwarded with X-Cache miss |
| `Responses.CacheableResponse.ToBuffer` | internal/proxy/cache/cacheable_response.go:54-73 | the stored form lacks Set-Cookie if it may be stored, and the live capture is as it was |
| `Responses.CopyHeadersTo` | internal/proxy/cache/cacheable_response.go:166-178 | copying field by field, in any order, merges the whole map, adds X-Cache and sends the head |
| `Responses.WasNotModified` | internal/proxy/cache/cacheable_response.go:150-164 | true exactly when the stored response has an Etag and If-None-Match lists it |
| `Responses.NotModifiedExactly` | internal/proxy/cache/cacheable_response.go:150-164 | what counts as not modified is a statement about the field's text: some element between commas is the tag, with any space around it |
| `Responses.WriteCachedResponse` | internal/proxy/cache/cacheable_response.go:139-146 | what a replay does to the client's writer |
| `Freshness.CacheStatus` | internal/proxy/cache/cacheable_response.go:103-136 | a response that may be stored has not overflowed, has a storable status, no `*` in Vary, the word `public` and not the word `no-cache` in Cache-Control, and expires no later than its max-age |
| `Freshness.CacheStatusExactly` | internal/proxy/cache/cacheable_response.go:103-136 | both directions: a response may be stored exactly when it has not overflowed, its status is 200 to 399 but not 304, Vary has no `*`, and the text of Cache-Control allows some lifetime |
| `Freshness.MaxAgeExactly` | internal/proxy/cache/cacheable_response.go:118-133 | a max-age is read exactly where `public` stands in the text and `no-cache` does not, and it is the number, positive and within int64, of the first s-max-age or, without one, of the first max-age |
| `Freshness.DirectiveExactly` | internal/proxy/cache/cacheable_response.go:17-18 | the digits found are those of the first directive of that name in the text, and there are some exactly if the text has one: name and all digits, with no word character before or after |
| `Freshness.HasWordExactly` | internal/proxy/cache/cacheable_response.go:15-16 | a word is found exactly where it stands in the text with no word character before or after it |
| `Freshness.NotInALongerWord` | internal/proxy/cache/cacheable_response.go:15-16 | and so never inside a longer word |
| `Freshness.PrivateAndNoCacheAreRefused` | internal/proxy/cache/cacheable_response.go:118-120 | `private, max-age=n` and `public, no-cache, max-age=n` are refused for every n |
| `Freshness.ExpiryIsExactUpToTheBound` | internal/proxy/cache/cacheable_response.go:130-135 | the expiry is now plus max-age exactly if max-age is at most 9223372036, and earlier otherwise |
| `Freshness.ExpiryWrapsPastTheBound` | internal/proxy/cache/cacheable_response.go:135-135 | the next larger value gives an expiry in the past |
| `Freshness.MaxAgeReadsBack` | internal/proxy/cache/cacheable_response.go:14-19 | the header `public, max-age=n` is read as n, for every positive int64 |
| `Variants.MatchesExactlyAgreeing` | internal/proxy/cache/variant.go:56-72 | a stored variant header matches another request exactly when the two requests agree on every listed name |
| `Variants.ValuesOfRequest` | internal/proxy/cache/variant.go:66-72 | the variant header gives back the request's value of every listed name, repeated or not |
| `Variants.SameVariantSameMaterial` | internal/proxy/cache/variant.go:41-53 | requests of one variant have one key under every hash |
| `Variants.VaryNormalForm` | internal/proxy/cache/variant.go:76-89 | Vary values that list the same valid names up to order, case and space give the same names and keys |
| `Variants.Variant.SetResponseHeader` | internal/proxy/cache/variant.go:22-24 | the names are those in the response's Vary |
| `Variants.Variant.ApplyHeaderNames` | internal/proxy/cache/variant.go:32-38 | the names are those given |
| `Variants.Variant.CacheKey` | internal/proxy/cache/variant.go:41-53 | the hash of method, path, query, host and each name with its value |
| `Variants.Variant.Matches` | internal/proxy/cache/variant.go:56-63 | every listed name has the request's value |
| `Variants.Variant.VariantHeader` | internal/proxy/cache/variant.go:66-72 | the request's values of the listed names |
| `Variants.Variant.ParseVaryHeader` | internal/proxy/cache/variant.go:76-89 | the names of the response's Vary, in order |
| `Variants.VaryNamesExactly` | internal/proxy/cache/variant.go:76-89 | they are the canonical forms of what the field lists between commas, with any space around it, as many as there are parts and in order; none for an empty field |
| `Text.ListedExactly` | internal/proxy/cache/variant.go:82-85 | splitting at commas and trimming gives exactly the elements of a list |
| `Text.SplitCommaExactly` | internal/proxy/cache/variant.go:82-82 | splitting gives exactly the texts between commas |
| `Text.TrimExactly` | internal/proxy/cache/variant.go:84-84 | trimming takes away all the space around a text and nothing else |
| `Text.AsciiSpaces` | internal/proxy/cache/variant.go:84-84 | below 128 the spaces are blank, tab, line feed, vertical tab, form feed and return |
| `Headers.CanonicalExactly` | internal/proxy/cache/variant.go:84-84 | in a canonical name the letters that begin a part are upper case and the others lower |
| `Headers.FirstLineIsRead` | internal/proxy/cache/variant.go:49-49 | a field is read by its first line, whatever the letter case of its name |
| `Text.LexLeqExactly` | internal/proxy/cache/variant.go:86-86 | the order is that of the first character in which two names differ, a prefix coming first |
| `Text.SortSorts` | internal/proxy/cache/variant.go:86-86 | sorting names gives an ordered arrangement of the same names |
| `MemoryCaching.MemoryCache.Set` | internal/proxy/cache/memory_cache_sponge.go:45-90 | nothing that is too large, already expired or refused is kept; what is kept expires no later than asked |
| `MemoryCaching.MemoryCache.Get` | internal/proxy/cache/memory_cache_sponge.go:93-114 | an unexpired value, or nothing |
| `MemoryCaching.SetThenRead` | internal/proxy/cache/memory_cache_sponge.go:45-114 | a Set that changes a later read was of a value no larger than the item limit and the capacity, if there is one, admitted and in time; such a one, within int64, is read until exactly its expiry; other keys are as before |
| `MemoryCaching.DeriveNumCounters` | internal/proxy/cache/memory_cache_sponge.go:117-154 | the step-by-step computation gives ten counters an item, clamped |
| `MemoryCaching.TenCountersAnItem` | internal/proxy/cache/memory_cache_sponge.go:129-145 | where no bound applies, the number is ten for each item, of a quarter of the largest size, that fits into the capacity |
| `MemoryCaching.NumCountersScale` | internal/proxy/cache/memory_cache_sponge.go:117-154 | zero without capacity, otherwise within 1000 to 10000000; monotone in capacity, antitone in item size; the product stays within int64 |
| `UsersProtocol.GetRefinesUncached` | internal/dao/users.go:164-215 | over every run, a read that does not fail answers the current row, or "not found" for a row created under a placeholder that is still live; it agrees with the uncached branch exactly when the id is not hidden so |
| `UsersProtocol.GetAnswersFromTheRows` | internal/dao/users.go:172-214 | over every run and on the rows alone: a read fails exactly if the cache cannot be read, or if the table cannot and the cache has nothing for the id; otherwise an id without a row is not found, and one with a row is answered with it unless a live placeholder hides it |
| `UsersProtocol.UncachedAnswersFromTheRows` | internal/dao/users.go:166-170 | past the cache: the row, or not found |
| `UsersProtocol.RepeatedGetNeedsNoQuery` | internal/dao/users.go:183-197 | right after a read whose write succeeded, the same is answered even if the table fails |
| `UsersProtocol.GetManyRefinesUncached` | internal/dao/users.go:279-350 | over every run, a batch returns the uncached branch's map, for any list of ids, less the ids that a readable placeholder hides |
| `UsersProtocol.GetManyFailsExactly` | internal/dao/users.go:294-327 | a batch answers an error exactly if its first cache read fails, or if the table fails and some listed id has neither a live record nor a readable placeholder |
| `UsersProtocol.RepeatedBatchNeedsNoQuery` | internal/dao/users.go:294-347 | right after a batch whose writes succeeded, the same batch gives the same map without a query |
| `UsersProtocol.RunsAreCoherent` | internal/dao/users.go:57-350 | over every run, each record that the cache would hand out is the current row |
| `UsersProtocol.NextKeepsCoherent` | internal/dao/users.go:57-350 | every operation keeps the cache coherent |
| `UsersProtocol.ShadowOrigin` | internal/dao/users.go:65-67 | a placeholder hides a row only from its creation on, until it expires or the id is updated or deleted |
| `UsersProtocol.PatchDecides` | internal/dao/users.go:92-161 | an update decides every column with a non-zero value and no other, and repeating it changes nothing |
| `UsersProtocol.NonZeroIsWritten` | internal/dao/users.go:97-158 | an updatable column gets the given value exactly if that is not empty text, zero, or Go's zero time |
| `UsersProtocol.OthersAreKept` | internal/dao/users.go:92-161 | no other column changes, nor the id |
| `UsersProtocol.EveryOtherColumnIsUpdatable` | internal/model/users.go:9-38 | the updatable columns are all of the model's but id, created_at and updated_at |
| `UsersAccess.UsersDao.GetByID` | internal/dao/users.go:164-215 | the read is a step of the protocol, for every combination of failures; without a cache, a failure if the table fails, or the row if there is one, or not found |
| `UsersAccess.UsersDao.GetByIDs` | internal/dao/users.go:279-350 | the batch is a step of the protocol, for every combination of failures and every list of ids, with at most one query |
| `UsersAccess.UsersDao.Complete` | internal/dao/users.go:319-346 | the part that asks the table for what the cache lacks, early return included |
| `UsersAccess.UsersDao.MissedIDs` | internal/dao/users.go:300-305 | the listed ids that the cache did not return |
| `UsersAccess.UsersDao.RealMissedIDs` | internal/dao/users.go:309-317 | of those, the ids without a readable placeholder |
| `UsersAccess.UsersDao.Collect` | internal/dao/users.go:327-331 | the records join the map under their ids |
| `UsersAccess.UsersDao.SetPlaceholders` | internal/dao/users.go:339-345 | a placeholder for every id not found, and nothing else |
| `UsersAccess.UsersDao.Create` | internal/dao/users.go:65-67 | a new row with the given columns, under the given id or, if that is 0, the table's next one; the cache untouched; nothing if the query fails or the id is taken |
| `UsersAccess.UsersDao.Changes` | internal/dao/users.go:97-158 | the update holds exactly the updatable columns with a non-zero value |
| `UsersAccess.UsersDao.UpdateByID` | internal/dao/users.go:83-161 | the row is patched and, unless that fails, its entry dropped, even if the update fails; no other row or entry changes, and none is added |
| `UsersAccess.UsersDao.DeleteByID` | internal/dao/users.go:70-80 | the row is gone, and its entry unless dropping it fails; no other entry changes, and nothing if the query fails |
| `UsersAccess.UsersDao.DeleteByIDs` | internal/dao/users.go:247-259 | the rows of every listed id are gone, and each entry whose own dropping does not fail; no other entry changes, and nothing if the query fails |
| `UsersAccess.AllFound` | internal/dao/users.go:335-337 | as many distinct records as ids asked for means that all were found and none was asked for twice |
| `UsersCaching.UsersCache.Set` | internal/cache/users.go:69-80 | one entry changes; no record and id 0 are ignored |
| `UsersCaching.UsersCache.Get` | internal/cache/users.go:82-91 | the record, the placeholder or nothing |
| `UsersCaching.UsersCache.MultiSet` | internal/cache/users.go:93-107 | each record is stored under its own id, and nothing else changes |
| `UsersCaching.UsersCache.MultiGet` | internal/cache/users.go:109-132 | exactly the live records of the listed ids, by id |
| `UsersCaching.UsersCache.Del` | internal/cache/users.go:134-142 | one entry is gone |
| `UsersCaching.UsersCache.SetPlaceholder` | internal/cache/users.go:144-148 | one placeholder for ten minutes |
| `UsersModel.KeyInjective` | internal/cache/users.go:64-67 | different ids have different keys |
| `UsersModel.LivesItsLifetime` | internal/cache/users.go:17-22 | a record is there for five minutes, a placeholder for ten, and no longer |
| `UsersStaleness.AnswerIsFreshEnough` | internal/dao/users.go:164-215 | in every interleaving, what a reader is answered was the committed row when it was queried, before a Set, either by the fill of the entry it found or by its own flight. If it comes from the cache, that is less than the entry's lifetime (five minutes for a record) plus the delay from query to Set ago |
| `UsersStaleness.OldRowNeedsSlowReader` | internal/dao/users.go:82-161 | after a commit and then an invalidation of its entry, the cache answers an older row only if some reader had queried before the commit and stored after the invalidation |
| `UsersStaleness.FlightAnswersInTime` | internal/dao/users.go:179-208 | an answer from a flight is within that bound too, unless the reader joined after the query or its own call has lasted the entry's lifetime or longer |
| `UsersStaleness.FailureIsExplained` | internal/dao/users.go:179-214 | in every interleaving, a reader is told of a failure only if its own cache read failed, or the last query of the flight that answered it did |
| `UsersStaleness.FlightStored` | internal/dao/users.go:181-199 | between a flight's query and its delivery lies its Set |
| `UsersStaleness.EarlyJoinerGetsARowOfItsOwnTime` | internal/dao/users.go:179-208 | a reader that joined its flight before the query is answered a row that was committed during its own call, and is no older than the call is long |
| `UsersStaleness.LateDeliveryIsOlder` | internal/dao/users.go:181-208 | a run in which a flight delivers a row of any age, also to a reader that called after it was replaced |
| `UsersStaleness.BatchAnswerIsFreshEnough` | internal/dao/users.go:294-349 | what a batch answers for an id was committed when its own query read it or, if it found it in the cache, within the same bound before it looked |
| `UsersStaleness.EntryOrigin` | internal/dao/users.go:181-198 | every cache entry was read from the table by one flight or batch, stored later with a full lifetime, and not dropped since |
| `UsersStaleness.FlightOrigin` | internal/dao/users.go:181-199 | what a flight carries is what its own query read |
| `UsersStaleness.BatchOrigin` | internal/dao/users.go:319-345 | what a batch carries is what its own query read |
| `UsersStaleness.SlowReaderRevivesOldRow` | internal/dao/users.go:82-90 | a run in which an old row is served after a commit and its invalidation |
| `UsersListing.ListByIDs` | internal/handler/users.go:334-366 | the rows found by the batch, in the order of the request |
| `UsersListing.InOrderKeepsOccurrences` | internal/handler/users.go:351-361 | each found row occurs as often as its id was asked for, and nothing else does |
| `UsersListing.InOrderFollowsTheIds` | internal/handler/users.go:351-361 | the rows of the reply are those of increasing positions in the request, with none left out |
| `UsersListing.ListByLastID` | internal/handler/users.go:380-408 | the page under the cursor in either order of the ids: at most the limit, 10 if none is given; all rows under the cursor if it is not full; only ids below 2147483647 if no cursor is given |
| `UsersListing.PageIsTheTop` | internal/dao/users.go:353-362 | a page is in order, has no gaps, and is full unless the rows run out |
| `UsersListing.CrawlVisitsEverythingOnce` | internal/handler/users.go:380-408 | in descending order, following the last id of each page shows every row under the cursor exactly once, descending, and ends |
| `UsersListing.AscendingCrawlStaysOnThePage` | internal/handler/users.go:380-408 | in ascending order, following the last id of each page shows the rows of the first page and no others |
| `UsersListing.GetByLastID` | internal/dao/users.go:353-362 | the first rows under the bound in the given order |
| `UsersListing.CrawlFromTheStart` | internal/handler/users.go:381-384 | from no cursor, exactly the rows with ids below 2147483647 |
| `Supervisor.NilStopMeansFinished` | internal/upstream/server.go:120-163 | in every interleaving, a Stop that holds a run answers nil for it only after that run's Wait returned and its channel was closed once; no channel is closed twice |
| `Supervisor.NilStopHasSignalled` | internal/upstream/server.go:120-163 | from events and shared fields alone: a Stop that answers nil has looked for a process in some step; if the command it found on entering had one by then, it has delivered a signal, that run's Wait has returned and its channel has been closed once; otherwise it has sent none |
| `Supervisor.FailedStopMeansUndelivered` | internal/upstream/server.go:142-155 | a Stop answers an error only if its signal did not get through or, after a timeout, its kill |
| `Supervisor.StopCanMove` | internal/upstream/server.go:128-160 | a Stop that has not answered can always move on, unless it waits for a channel that is not yet closed |
| `Supervisor.StartCanMove` | internal/upstream/server.go:65-118 | whatever the Stops have done, a Start can always take its next step |
| `Supervisor.StartAnswersByItsChild` | internal/upstream/server.go:67-118 | from events alone: a Start answers a start error if its child did not begin, a wait error if waiting failed, nil if the child ended well or failed after a Stop had entered, and otherwise the child's own exit code |
| `Supervisor.FailedRunIsForgivenExactlyWhenStopped` | internal/upstream/server.go:67-108 | a failing run's Start returns nil exactly when a Stop entered between its publishing and its reading of `stopping`, and otherwise the exit code |
| `Supervisor.StoppedChildIsNotAFailure` | internal/upstream/server.go:91-142 | the failure of a child that a Stop has in hand is never reported |
| `Supervisor.StoppingMeansStopEntered` | internal/upstream/server.go:67-126 | within a run, `stopping` is set exactly when a Stop has entered |
| `Supervisor.CommandAndChannelAgree` | internal/upstream/server.go:65-79 | under the lock, there is a command exactly when there is a channel, and both are of one run |
| `Supervisor.NoStopIsStranded` | internal/upstream/server.go:146-160 | once its Start is over, a waiting Stop can return |
| `Supervisor.InvHolds` | internal/upstream/server.go:65-163 | the invariant of the handshake holds in every interleaving |
| `Supervisor.Server.Start` | internal/upstream/server.go:65-118 | what it returns for each end of the child, with any number of Stops entering before the child begins, while it runs, and too late; the fields afterwards, and the channel closed once on every path |
| `Supervisor.Server.Stop` | internal/upstream/server.go:121-163 | what it returns in each case, and that it always asks to be forgiven |
| `Supervisor.Server.Publish` | internal/upstream/server.go:67-71 | the fields belong to the new run and `stopping` is off |
| `Supervisor.Server.ReadStopping` | internal/upstream/server.go:96-98 | the flag, unchanged |
| `Supervisor.Server.Clear` | internal/upstream/server.go:75-78 | no command and no channel |
| `Supervisor.Server.Capture` | internal/upstream/server.go:122-126 | Stop gets the fields as they were and sets `stopping` |
| `CommandLine.SplitIsTheGrammar` | internal/upstream/server.go:214-261 | a command splits to a result exactly when it has a reading by the grammar with that outcome |
| `CommandLine.SplitSucceedsExactly` | internal/upstream/server.go:248-254 | splitting succeeds exactly when the command has a reading with nothing left open |
| `CommandLine.EveryCommandHasAReading` | internal/upstream/server.go:223-246 | the grammar covers every command |
| `CommandLine.SplitMeansReading` | internal/upstream/server.go:223-260 | every reading of a command gives the words, or the error, that splitting does |
| `CommandLine.SplitCommandLine` | internal/upstream/server.go:214-261 | the loop computes the specified split |
| `CommandLine.ScanInvariant` | internal/upstream/server.go:223-246 | never both quotes open, no pending escape in single quotes, no empty word |
| `CommandLine.WordsComeFromTheCommand` | internal/upstream/server.go:214-261 | no word is empty, and the words' characters are a subsequence of the command's |
| `CommandLine.SplitIsAHomomorphism` | internal/upstream/server.go:214-261 | white space between two complete commands concatenates their words |
| `CommandLine.SplitUndoesQuoting` | internal/upstream/server.go:214-261 | non-empty words, each quoted in either style and separated by any white space, are split back |
| `CommandLine.QuotingIsUndoneExactly` | internal/upstream/server.go:238-242 | and that is exactly when no word is empty |
| `CommandLine.SplitIsStable` | internal/upstream/server.go:214-261 | splitting, quoting and splitting again changes nothing |
| `CommandLine.NormalizeCommand` | internal/upstream/server.go:196-212 | base and arguments together are the words of the command followed by the extra arguments; an error for a command that does not split or has no word |
| `CommandLine.ExtraArgsCanBeWritten` | internal/upstream/server.go:196-212 | arguments written into the command line and arguments configured beside it give the same command |

## Left out

- gob, FNV, ristretto, Redis, gorm and the SQL text, singleflight's internals and `os/exec`: each is a stated contract, as described above.
- CacheHandling.CacheHandler.ServeHTTP: serves one request at a time, at three instants; interleavings are the subject of `CacheProtocol`.
- UsersStaleness.AnswerIsFreshEnough: nothing bounds the delay from a flight's Set to its delivery; `FlightAnswersInTime` says whom that can affect.
- UsersListing.ListByLastID: sorts by id only, for limits that are not negative; other columns, and how the library clamps the limit, are not modelled.
- UsersAccess.UsersDao.GetByID: the sequential call happens at one instant; concurrent callers share a flight only in `UsersStaleness`.
- The `*ByTx` methods (internal/dao/users.go:364-391): in `UsersStaleness` they are a Commit and a Drop in either order; their bodies are those of the other methods.
- UsersListing.GetByLastID: sorts by id only, as `ListByLastID` does.
- Supervisor.Server.Start: begins where the run is published; the steps in between are those of the state machine, which has every interleaving.
- Supervisor.Server.Stop: whether the signal and the kill get through and the child ends in time are parameters; waiting for the channel is the subject of the state machine.
- `created_at` and `updated_at`, which gorm maintains.
- `GetByColumns` and `GetByCondition`: the query building is in a library that is not part of this model.
- Start's early returns before it publishes a run, `buildEnv`, `parseSignal`, and Starts that overlap one another.
- HEAD bodies, short writes, flushing, and the frameworks' deferred writing of headers: the client's writer follows the contract of `http.ResponseWriter`.
- Header maps are values: two maps never share a value slice.
- Drift between the clock that computes a lifetime and the one by which the backing cache expires entries.
- Integer widths other than the int64 arithmetic of expiry: ids and counts are unbounded.
- Reverse-proxy transport, forwarding headers, sendfile, compression, TLS, configuration, routers, cookie authentication, generated documentation and deployment: plumbing, or only easy members.
