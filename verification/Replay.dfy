/**
 When a replay is the live response.

 An origin's script alone says what its capture keeps and what heads reach the client
 (`ScriptDescribesState`); from that follows, for every script, whether the stored response that is
 replayed is the one that the first client received.
 */
module Replaying {
  import opened Freshness
  import opened Headers
  import opened Responses
  import opened Variants
  import opened Wrappers

  // ---------------------------------------------------------------- what a script says

  /** The header map that a script ends with. */
  function HeaderAfter(script: seq<Event>): Header {
    if script == [] then map[]
    else if script[|script| - 1].SetHeader? then script[|script| - 1].header
    else HeaderAfter(script[..|script| - 1])
  }

  /** The last status that a script gives: 200 if it gives none. */
  function StatusAfter(script: seq<Event>): int {
    if script == [] then 200
    else if script[|script| - 1].WriteHeader? then script[|script| - 1].status
    else StatusAfter(script[..|script| - 1])
  }

  /** A head or a body has begun. */
  predicate Began(script: seq<Event>) {
    script != [] && (!script[|script| - 1].SetHeader? || Began(script[..|script| - 1]))
  }

  /** The events that send the final head, unless it has gone out before. */
  predicate Final(e: Event) {
    e.Write? || (e.WriteHeader? && !Informational(e.status))
  }

  function StatusOf(e: Event): int
    requires Final(e)
  {
    if e.WriteHeader? then e.status else 200
  }

  /** The status of the first final head. */
  function FinalStatus(script: seq<Event>): Option<int> {
    if script == [] then None
    else
      var init, last := script[..|script| - 1], script[|script| - 1];
      if FinalStatus(init).Some? then FinalStatus(init)
      else if Final(last) then Some(StatusOf(last))
      else None
  }

  function FieldOf(h: Header, k: string): Option<seq<string>> {
    if k in h then Some(h[k]) else None
  }

  function Or<T>(a: Option<T>, b: Option<T>): Option<T> {
    if a.Some? then a else b
  }

  /** The value that the heads up to the final one gave a field: informational heads count, the last one most. */
  function FieldSent(script: seq<Event>, k: string): Option<seq<string>> {
    if script == [] then None
    else
      var init, last := script[..|script| - 1], script[|script| - 1];
      if FinalStatus(init).None? && (last.WriteHeader? || (last.Write? && !Began(init)))
      then Or(FieldOf(HeaderAfter(init), k), FieldSent(init, k))
      else FieldSent(init, k)
  }

  // ---------------------------------------------------------------- what becomes of it

  function Fresh(base: Header): Client {
    Client(base, None, [])
  }

  /** The headers of a client that has been given a response's headers. */
  function Merged(base: Header, header: Header, xCache: string): Header {
    Set(base + header, X_CACHE, xCache)
  }

  ghost predicate HeaderSays(base: Header, script: seq<Event>, header: Header) {
    forall k | k != Canonical(X_CACHE) :: FieldOf(header, k) == Or(FieldSent(script, k), FieldOf(base, k))
  }

  /** What a script says of the capture and of the client, who began with the headers `base`. */
  ghost predicate Describes(base: Header, script: seq<Event>, r: Recorder, c: Client) {
    var header := if c.sent.Some? then c.sent.value.header else c.header;
    && r.header == HeaderAfter(script) && r.status == StatusAfter(script) && r.headersWritten == Began(script)
    && FinalStatus(script) == (if c.sent.Some? then Some(c.sent.value.status) else None)
    && HeaderSays(base, script, header)
    && (Began(script) ==> Get(header, X_CACHE) == "miss")
  }

  lemma SentHeadStays(base: Header, init: seq<Event>, e: Event, r: Recorder, c: Client)
    requires Describes(base, init, r, c) && c.sent.Some?
    ensures Describes(base, init + [e], Record(r, e), Forward(c, r, e))
  {
    assert (init + [e])[..|init|] == init;
    FinalMeansBegan(init);
    assert forall k :: FieldSent(init + [e], k) == FieldSent(init, k);
  }

  lemma {:induction false} FinalMeansBegan(script: seq<Event>)
    requires FinalStatus(script).Some?
    ensures Began(script)
  {
    if FinalStatus(script[..|script| - 1]).Some? {
      FinalMeansBegan(script[..|script| - 1]);
    }
  }

  lemma HeaderMerges(base: Header, init: seq<Event>, e: Event, header: Header)
    requires HeaderSays(base, init, header) && FinalStatus(init).None?
    requires e.WriteHeader? || (e.Write? && !Began(init))
    ensures HeaderSays(base, init + [e], Merged(header, HeaderAfter(init), "miss"))
  {
    assert (init + [e])[..|init|] == init;
  }

  lemma {:induction false} NotBegunIsOk(script: seq<Event>)
    requires !Began(script)
    ensures StatusAfter(script) == 200
  {
    if script != [] {
      NotBegunIsOk(script[..|script| - 1]);
    }
  }

  lemma HeadDescribed(base: Header, init: seq<Event>, e: Event, r: Recorder, c: Client)
    requires Describes(base, init, r, c) && c.sent.None?
    requires e.WriteHeader? || (e.Write? && !Began(init))
    ensures Describes(base, init + [e], Record(r, e), Forward(c, r, e))
  {
    assert (init + [e])[..|init|] == init;
    HeaderMerges(base, init, e, c.header);
    if !Began(init) {
      NotBegunIsOk(init);
    }
  }

  lemma NoHeadDescribed(base: Header, init: seq<Event>, e: Event, r: Recorder, c: Client)
    requires Describes(base, init, r, c) && c.sent.None?
    requires e.SetHeader? || (e.Write? && Began(init))
    ensures Describes(base, init + [e], Record(r, e), Forward(c, r, e))
  {
    assert (init + [e])[..|init|] == init;
    assert forall k :: FieldSent(init + [e], k) == FieldSent(init, k);
  }

  /**
   For every script: what the capture holds, whether and with what status the final head has gone out, and with
   what fields.
   */
  lemma {:induction false} ScriptDescribesState(base: Header, limit: int, script: seq<Event>)
    ensures Describes(base, script, RecordAll(limit, script), ForwardAll(Fresh(base), limit, script))
  {
    if script != [] {
      var init, e := script[..|script| - 1], script[|script| - 1];
      ScriptDescribesState(base, limit, init);
      assert script == init + [e];
      if ForwardAll(Fresh(base), limit, init).sent.Some? {
        SentHeadStays(base, init, e, RecordAll(limit, init), ForwardAll(Fresh(base), limit, init));
      } else {
        var r, c := RecordAll(limit, init), ForwardAll(Fresh(base), limit, init);
        if e.WriteHeader? || (e.Write? && !Began(init)) {
          HeadDescribed(base, init, e, r, c);
        } else {
          NoHeadDescribed(base, init, e, r, c);
        }
      }
    }
  }

  lemma HeadOfHit(base: Header, header: Header, status: int)
    requires !Informational(status)
    ensures CopyHeaders(Fresh(base), header, true, status)
         == Client(Merged(base, header, "hit"), Some(Head(status, Merged(base, header, "hit"))), [])
  {
  }

  lemma BodyAfterHead(c: Client, body: Bytes)
    requires c.sent.Some? && c.body == []
    ensures ClientWrite(c, body) == c.(body := body)
  {
    assert [] + body == body;
  }

  /**
   What a replay sends: if the request's If-None-Match lists the stored entity tag, the headers alone with
   status 304; otherwise, and so without either field, all of the stored response.
   */
  lemma ReplaySends(base: Header, stored: Stored, r: Request)
    requires !Informational(stored.status)
    ensures var header := Merged(base, stored.header, "hit");
            Replay(stored, r, Fresh(base)) ==
              if AlreadyHas(stored.header, r) then Client(header, Some(Head(304, header)), [])
              else Client(header, Some(Head(stored.status, header)), stored.body)
    ensures Get(stored.header, ETAG) == "" || Get(r.header, IF_NONE_MATCH) == "" ==> !AlreadyHas(stored.header, r)
  {
    NotModifiedExactly(stored, r);
    if Get(r.header, IF_NONE_MATCH) == "" {
      NothingIsListed(Get(stored.header, ETAG));
    }
    HeadOfHit(base, stored.header, 304);
    HeadOfHit(base, stored.header, stored.status);
    BodyAfterHead(CopyHeaders(Fresh(base), stored.header, true, stored.status), stored.body);
  }

  lemma NothingIsListed(element: string)
    ensures Text.Listed("", element) ==> element == ""
  {
    Text.ListedExactly("", element);
    assert Text.SplitComma("") == [""];
  }

  /** Two responses that a client cannot tell apart, but for Set-Cookie and X-Cache. */
  ghost predicate SameResponse(a: Client, b: Client) {
    && a.sent.Some? && b.sent.Some?
    && a.sent.value.status == b.sent.value.status
    && SameFields(a.sent.value.header, b.sent.value.header)
    && a.body == b.body
  }

  /** Equal but for the two fields that a replay may change. */
  ghost predicate SameFields(a: Header, b: Header) {
    forall k | k != Canonical(X_CACHE) && k != Canonical(SET_COOKIE) ::
      (k in a <==> k in b) && (k in a ==> a[k] == b[k])
  }

  // ---------------------------------------------------------------- without a capture

  /** The header map that a script ends with, where it begins with another. */
  function HeaderFrom(base: Header, script: seq<Event>): Header {
    if exists e :: e in script && e.SetHeader? then HeaderAfter(script) else base
  }

  /** Event `i` is the first to send a final head. */
  ghost predicate FirstFinal(script: seq<Event>, i: nat) {
    i < |script| && Final(script[i]) && forall j | 0 <= j < i :: !Final(script[j])
  }

  /** What a script does to a client's own writer: every byte, and the head of its first final event. */
  ghost predicate DirectDescribes(start: Client, script: seq<Event>, c: Client) {
    && c.body == start.body + Written(script)
    && c.header == HeaderFrom(start.header, script)
    && FinalStatus(script) == (if c.sent.Some? then Some(c.sent.value.status) else None)
    && (c.sent.None? ==> forall e | e in script :: !Final(e))
    && (c.sent.Some? ==>
          exists i: nat ::
            FirstFinal(script, i) && c.sent.value == Head(StatusOf(script[i]), HeaderFrom(start.header, script[..i])))
  }

  lemma HeaderFromStep(base: Header, init: seq<Event>, e: Event)
    ensures HeaderFrom(base, init + [e]) == if e.SetHeader? then e.header else HeaderFrom(base, init)
    ensures Written(init + [e]) == Written(init) + (if e.Write? then e.chunk else [])
  {
    var script := init + [e];
    assert script[..|init|] == init && script[|init|] == e;
    if e.SetHeader? {
      assert e in script;
    } else {
      assert forall x | x in init :: x in script;
      assert forall x | x in script :: x == e || x in init;
    }
  }

  lemma DirectHeadStays(start: Client, init: seq<Event>, e: Event, c: Client)
    requires DirectDescribes(start, init, c) && c.sent.Some?
    ensures DirectDescribes(start, init + [e], Direct(c, e))
  {
    var script := init + [e];
    assert script[..|init|] == init;
    HeaderFromStep(start.header, init, e);
    var i: nat :| FirstFinal(init, i) && c.sent.value == Head(StatusOf(init[i]), HeaderFrom(start.header, init[..i]));
    assert script[..i] == init[..i] && FirstFinal(script, i);
  }

  lemma DirectHeadGoesOut(start: Client, init: seq<Event>, e: Event, c: Client)
    requires DirectDescribes(start, init, c) && c.sent.None? && Final(e)
    ensures DirectDescribes(start, init + [e], Direct(c, e))
  {
    var script := init + [e];
    assert script[..|init|] == init;
    HeaderFromStep(start.header, init, e);
    assert forall j | 0 <= j < |init| :: init[j] in init;
    assert FirstFinal(script, |init|);
  }

  lemma DirectNoHead(start: Client, init: seq<Event>, e: Event, c: Client)
    requires DirectDescribes(start, init, c) && c.sent.None? && !Final(e)
    ensures DirectDescribes(start, init + [e], Direct(c, e))
  {
    var script := init + [e];
    assert script[..|init|] == init;
    HeaderFromStep(start.header, init, e);
    assert forall x | x in script :: x == e || x in init;
  }

  lemma DirectStep(start: Client, init: seq<Event>, e: Event, c: Client)
    requires DirectDescribes(start, init, c)
    ensures DirectDescribes(start, init + [e], Direct(c, e))
  {
    if c.sent.Some? {
      DirectHeadStays(start, init, e, c);
    } else if Final(e) {
      DirectHeadGoesOut(start, init, e, c);
    } else {
      DirectNoHead(start, init, e, c);
    }
  }

  /** So it is for every script. */
  lemma {:induction false} DirectIsDescribed(start: Client, script: seq<Event>)
    requires start.sent.None?
    ensures DirectDescribes(start, script, DirectAll(start, script))
  {
    if script == [] {
      assert start.body + [] == start.body;
    } else {
      var n := |script| - 1;
      DirectIsDescribed(start, script[..n]);
      assert script == script[..n] + [script[n]];
      DirectStep(start, script[..n], script[n], DirectAll(start, script[..n]));
    }
  }

  /**
   A bypassed origin, for every script: the client gets every byte, the first final status and the header
   map of that moment, with X-Cache bypass in it if the origin has not replaced the map before.
   */
  lemma BypassReachesTheClient(base: Header, script: seq<Event>)
    ensures var c := DirectAll(Fresh(Set(base, X_CACHE, "bypass")), script);
            && c.body == Written(script)
            && (c.sent.Some? <==> FinalStatus(script).Some?)
            && (c.sent.Some? ==> c.sent.value.status == FinalStatus(script).value)
            && (forall i: nat | FirstFinal(script, i) ::
                  c.sent == Some(Head(StatusOf(script[i]), HeaderFrom(Set(base, X_CACHE, "bypass"), script[..i]))))
            && (forall i: nat | FirstFinal(script, i) && (forall j | 0 <= j < i :: !script[j].SetHeader?) ::
                  c.sent.Some? && Get(c.sent.value.header, X_CACHE) == "bypass")
  {
    var start := Fresh(Set(base, X_CACHE, "bypass"));
    DirectIsDescribed(start, script);
    var c := DirectAll(start, script);
    assert [] + Written(script) == Written(script);
    if c.sent.Some? {
      var i: nat :| FirstFinal(script, i)
                    && c.sent.value == Head(StatusOf(script[i]), HeaderFrom(start.header, script[..i]));
      assert forall e | e in script[..i] :: e in script;
      assert forall j: nat | FirstFinal(script, j) :: j == i;
    } else {
      assert forall j | 0 <= j < |script| :: script[j] in script;
    }
  }

  // ---------------------------------------------------------------- replay equals live, exactly

  predicate MayDiffer(k: string) {
    k == Canonical(X_CACHE) || k == Canonical(SET_COOKIE)
  }

  /**
   A final head has gone out, with the status that the script ends with, and every field had then the
   value that it ends with: the one in the last header map or, failing that, the one the client began with.
   */
  ghost predicate Settled(base: Header, script: seq<Event>) {
    && FinalStatus(script) == Some(StatusAfter(script))
    && forall k | !MayDiffer(k) :: FieldSettled(base, script, k)
  }

  predicate FieldSettled(base: Header, script: seq<Event>, k: string) {
    Or(FieldSent(script, k), FieldOf(base, k)) == Or(FieldOf(HeaderAfter(script), k), FieldOf(base, k))
  }

  lemma SettledForEveryClient(script: seq<Event>)
    ensures (forall base :: Settled(base, script)) <==> Settled(map[], script)
  {
    if Settled(map[], script) {
      forall base
        ensures Settled(base, script)
      {
        forall k | !MayDiffer(k)
          ensures FieldSettled(base, script, k)
        {
          assert FieldSettled(map[], script, k);
        }
      }
    }
  }

  lemma FieldsMayDiffer(base: Header, script: seq<Event>, live: Header, stored: Header)
    requires HeaderSays(base, script, live)
    requires forall k | !MayDiffer(k) :: FieldOf(stored, k) == FieldOf(HeaderAfter(script), k)
    ensures SameFields(Merged(base, stored, "hit"), live) <==> forall k | !MayDiffer(k) :: FieldSettled(base, script, k)
  {
    var replayed := Merged(base, stored, "hit");
    forall k | !MayDiffer(k)
      ensures FieldSettled(base, script, k) <==> FieldOf(replayed, k) == FieldOf(live, k)
    {
    }
    if SameFields(replayed, live) {
      assert forall k | !MayDiffer(k) :: FieldOf(replayed, k) == FieldOf(live, k);
    } else {
      var k :| !MayDiffer(k) && !((k in replayed <==> k in live) && (k in replayed ==> replayed[k] == live[k]));
      assert FieldOf(replayed, k) != FieldOf(live, k);
    }
  }

  /**
   For every script that ends storable: a replay to a request that does not already have the response
   is the live response exactly when the script is settled. The body is the same in any case.
   */
  lemma ReplayEqualsLiveExactly(base: Header, limit: int, script: seq<Event>, variantHeader: Header, now: Time,
                                r: Request)
    requires Storable(RecordAll(limit, script), now).Some?
    requires !AlreadyHas(Freeze(RecordAll(limit, script), variantHeader, now).header, r)
    ensures var live := ForwardAll(Fresh(base), limit, script);
            var replayed := Replay(Freeze(RecordAll(limit, script), variantHeader, now), r, Fresh(base));
            && replayed.body == live.body
            && (SameResponse(replayed, live) <==> Settled(base, script))
  {
    var rec, live := RecordAll(limit, script), ForwardAll(Fresh(base), limit, script);
    var stored := Freeze(rec, variantHeader, now);
    ScriptDescribesState(base, limit, script);
    StashKeepsAllOrOverflows(limit, script);
    ClientGetsEveryByte(Fresh(base), limit, script);
    ReplaySends(base, stored, r);
    assert [] + Written(script) == Written(script);
    if live.sent.Some? {
      FieldsMayDiffer(base, script, live.sent.value.header, stored.header);
    }
  }

  /** The live response says that it was a miss, the replay that it is a hit, and no cookie is stored. */
  lemma BothAreMarked(base: Header, limit: int, script: seq<Event>, variantHeader: Header, now: Time, r: Request)
    requires Storable(RecordAll(limit, script), now).Some?
    ensures var live := ForwardAll(Fresh(base), limit, script);
            var stored := Freeze(RecordAll(limit, script), variantHeader, now);
            var replayed := Replay(stored, r, Fresh(base));
            && (live.sent.Some? ==> Get(live.sent.value.header, X_CACHE) == "miss")
            && replayed.sent.Some? && Get(replayed.sent.value.header, X_CACHE) == "hit"
            && Canonical(SET_COOKIE) !in stored.header
  {
    ScriptDescribesState(base, limit, script);
    if FinalStatus(script).Some? {
      FinalMeansBegan(script);
    }
    ReplaySends(base, Freeze(RecordAll(limit, script), variantHeader, now), r);
  }

  // ---------------------------------------------------------------- headers fixed by the final head

  /**
   Event `i` sends the final head, with the status that the script ends with, and the header map stays as it is
   then.
   */
  ghost predicate FixedAt(script: seq<Event>, i: nat) {
    && i < |script| && Final(script[i]) && StatusOf(script[i]) == StatusAfter(script)
    && (forall j | 0 <= j < i :: !Final(script[j]))
    && (script[i].Write? ==> forall j | 0 <= j < i :: script[j].SetHeader?)
    && (forall j | i < j < |script| :: !script[j].SetHeader?)
  }

  /** Event `j` sends an informational head that announces a field. */
  ghost predicate Announces(script: seq<Event>, j: nat, k: string) {
    j < |script| && script[j].WriteHeader? && k in HeaderAfter(script[..j])
  }

  /** No field that a head before event `i` has announced is missing from the header map by then. */
  ghost predicate TakesNothingBack(script: seq<Event>, i: nat)
    requires i <= |script|
  {
    forall j, k | 0 <= j < i && Announces(script, j, k) && !MayDiffer(k) :: k in HeaderAfter(script[..i])
  }

  ghost predicate HeadersFixed(script: seq<Event>) {
    exists i :: FixedAt(script, i) && TakesNothingBack(script, i)
  }

  /** As long as no final head has gone out, the fields that were sent are those that some head has announced. */
  lemma {:induction false} SentIsAnnounced(script: seq<Event>, n: nat, k: string)
    requires n <= |script| && forall j | 0 <= j < n :: !Final(script[j])
    ensures FinalStatus(script[..n]) == None
    ensures FieldSent(script[..n], k).Some? <==> exists j :: 0 <= j < n && Announces(script, j, k)
  {
    if n > 0 {
      assert script[..n][..n - 1] == script[..n - 1];
      SentIsAnnounced(script, n - 1, k);
      assert script[n - 1].WriteHeader? && k in HeaderAfter(script[..n - 1]) ==> Announces(script, n - 1, k);
    }
  }

  lemma {:induction false} OnlyHeadersIsNotBegun(script: seq<Event>)
    requires forall j | 0 <= j < |script| :: script[j].SetHeader?
    ensures !Began(script)
  {
    if script != [] {
      OnlyHeadersIsNotBegun(script[..|script| - 1]);
    }
  }

  /** The final head sends every field of the header map of that moment, and leaves the others as announced. */
  lemma FinalHeadSends(script: seq<Event>, i: nat, k: string)
    requires FixedAt(script, i)
    ensures FinalStatus(script[..i + 1]) == Some(StatusOf(script[i]))
    ensures HeaderAfter(script[..i + 1]) == HeaderAfter(script[..i])
    ensures FieldSent(script[..i + 1], k) == Or(FieldOf(HeaderAfter(script[..i]), k), FieldSent(script[..i], k))
  {
    assert script[..i + 1][..i] == script[..i];
    SentIsAnnounced(script, i, k);
    if script[i].Write? {
      OnlyHeadersIsNotBegun(script[..i]);
    }
  }

  lemma {:induction false} NothingChangesAfter(script: seq<Event>, i: nat, n: nat, k: string)
    requires FixedAt(script, i) && i < n <= |script|
    ensures FinalStatus(script[..n]) == Some(StatusOf(script[i]))
    ensures HeaderAfter(script[..n]) == HeaderAfter(script[..i])
    ensures FieldSent(script[..n], k) == Or(FieldOf(HeaderAfter(script[..i]), k), FieldSent(script[..i], k))
  {
    FinalHeadSends(script, i, k);
    if n > i + 1 {
      NothingChangesAfter(script, i, n - 1, k);
      assert script[..n][..n - 1] == script[..n - 1];
    }
  }

  lemma FieldAtTheEnd(script: seq<Event>, i: nat, k: string)
    requires FixedAt(script, i)
    ensures FinalStatus(script) == Some(StatusAfter(script)) && HeaderAfter(script) == HeaderAfter(script[..i])
    ensures FieldSettled(map[], script, k) <==>
              (k in HeaderAfter(script[..i]) || !exists j :: 0 <= j < i && Announces(script, j, k))
  {
    assert script[..|script|] == script;
    NothingChangesAfter(script, i, |script|, k);
    SentIsAnnounced(script, i, k);
  }

  /**
   A script whose headers are fixed by its final head is settled, for every client, exactly when it takes no
   announced field back.
   */
  lemma FixedSettlesExactly(script: seq<Event>, i: nat)
    requires FixedAt(script, i)
    ensures (forall base :: Settled(base, script)) <==> TakesNothingBack(script, i)
  {
    SettledForEveryClient(script);
    FieldAtTheEnd(script, i, "");
    if TakesNothingBack(script, i) {
      forall k | !MayDiffer(k)
        ensures FieldSettled(map[], script, k)
      {
        FieldAtTheEnd(script, i, k);
      }
    } else {
      var j, k :| 0 <= j < i && Announces(script, j, k) && !MayDiffer(k) && k !in HeaderAfter(script[..i]);
      FieldAtTheEnd(script, i, k);
      assert !FieldSettled(map[], script, k);
    }
  }

  /**
   So whenever the headers are fixed by the final head and no announced field is taken back, what is
   replayed is the live response, status, body and headers, less Set-Cookie and with another X-Cache.
   */
  lemma ReplayEqualsLive(base: Header, limit: int, script: seq<Event>, variantHeader: Header, now: Time, r: Request)
    requires HeadersFixed(script)
    requires Storable(RecordAll(limit, script), now).Some?
    requires !AlreadyHas(Freeze(RecordAll(limit, script), variantHeader, now).header, r)
    ensures var live := ForwardAll(Fresh(base), limit, script);
            var stored := Freeze(RecordAll(limit, script), variantHeader, now);
            var replayed := Replay(stored, r, Fresh(base));
            && SameResponse(replayed, live)
            && Get(live.sent.value.header, X_CACHE) == "miss" && Get(replayed.sent.value.header, X_CACHE) == "hit"
            && Canonical(SET_COOKIE) !in stored.header
  {
    var i :| FixedAt(script, i) && TakesNothingBack(script, i);
    FixedSettlesExactly(script, i);
    ReplayEqualsLiveExactly(base, limit, script, variantHeader, now, r);
    BothAreMarked(base, limit, script, variantHeader, now, r);
  }

  // ---------------------------------------------------------------- scripts that are not settled

  const LATE := "Late-Header"

  /** The headers of a storable response, without the late one and with it. */
  function Public(age: nat): Header {
    Set(map[], CACHE_CONTROL, PUBLIC_MAX_AGE + Text.Decimal(age))
  }

  function PublicLate(age: nat): Header {
    Public(age)[LATE := ["yes"]]
  }

  lemma OnlyCacheControl(value: string, header: Header)
    requires header == Set(map[], CACHE_CONTROL, value) || header == Set(map[], CACHE_CONTROL, value)[LATE := ["yes"]]
    ensures Get(header, CACHE_CONTROL) == value && Get(header, VARY) == "" && Get(header, ETAG) == ""
    ensures !MayDiffer(LATE) && Canonical(CACHE_CONTROL) != LATE
  {
    CanonicalLength(CACHE_CONTROL);
    CanonicalLength(VARY);
    CanonicalLength(ETAG);
    CanonicalLength(X_CACHE);
    CanonicalLength(SET_COOKIE);
  }

  lemma PublicIsStorable(value: string, rec: Recorder, now: Time)
    requires MaxAge(value).Some? && !rec.overflowed && rec.status == 200
    requires || rec.header == Set(map[], CACHE_CONTROL, value)
             || rec.header == Set(map[], CACHE_CONTROL, value)[LATE := ["yes"]]
    ensures Storable(rec, now).Some? && Get(Freeze(rec, map[], now).header, ETAG) == ""
    ensures LATE in Freeze(rec, map[], now).header <==> LATE in rec.header
  {
    OnlyCacheControl(value, rec.header);
    EtagKept(rec.header);
  }

  lemma EtagKept(header: Header)
    requires Get(header, ETAG) == ""
    ensures Get(Del(header, SET_COOKIE), ETAG) == ""
  {
    CanonicalLength(ETAG);
    CanonicalLength(SET_COOKIE);
  }

  /** What there is to know of a script without writes that ends with such headers and status 200. */
  lemma PublicScript(limit: int, script: seq<Event>, age: nat, now: Time, r: Request)
    requires 0 < age <= MAX_INT64 && (HeaderAfter(script) == Public(age) || HeaderAfter(script) == PublicLate(age))
    requires StatusAfter(script) == 200 && forall e | e in script :: !e.Write?
    ensures var live := ForwardAll(Fresh(map[]), limit, script);
            var replayed := Replay(Freeze(RecordAll(limit, script), map[], now), r, Fresh(map[]));
            && Storable(RecordAll(limit, script), now).Some?
            && (SameResponse(replayed, live) <==> Settled(map[], script))
            && replayed.sent.Some? && (LATE in replayed.sent.value.header <==> LATE in HeaderAfter(script))
            && (live.sent.Some? <==> FinalStatus(script).Some?)
            && (live.sent.Some? ==> (LATE in live.sent.value.header <==> FieldSent(script, LATE).Some?))
    ensures !MayDiffer(LATE) && LATE !in Public(age)
  {
    var value, rec := PUBLIC_MAX_AGE + Text.Decimal(age), RecordAll(limit, script);
    var live := ForwardAll(Fresh(map[]), limit, script);
    MaxAgeReadsBack(age);
    OnlyCacheControl(value, HeaderAfter(script));
    ScriptDescribesState(map[], limit, script);
    StashKeepsAllOrOverflows(limit, script);
    PublicIsStorable(value, rec, now);
    ReplayEqualsLiveExactly(map[], limit, script, map[], now, r);
    ReplaySends(map[], Freeze(rec, map[], now), r);
    if live.sent.Some? {
      assert FieldOf(live.sent.value.header, LATE) == Or(FieldSent(script, LATE), FieldOf(map[], LATE));
    }
  }

  /** A header that the origin adds once the head has gone out. */
  function LateScript(age: nat): seq<Event> {
    [SetHeader(Public(age)), WriteHeader(200), SetHeader(PublicLate(age))]
  }

  /** An origin that returns without a status or a body. */
  function SilentScript(age: nat): seq<Event> {
    [SetHeader(PublicLate(age))]
  }

  /** A header that is sent with an early hint and then taken back, as a reverse proxy does when it relays one. */
  function HintScript(age: nat): seq<Event> {
    [SetHeader(PublicLate(age)), WriteHeader(103), SetHeader(Public(age)), WriteHeader(200)]
  }

  lemma LateScriptReads(before: Header, after: Header)
    ensures var script := [SetHeader(before), WriteHeader(200), SetHeader(after)];
            && HeaderAfter(script) == after && StatusAfter(script) == 200 && FinalStatus(script) == Some(200)
            && FieldSent(script, LATE) == FieldOf(before, LATE)
  {
    var script := [SetHeader(before), WriteHeader(200), SetHeader(after)];
    assert script[..2] == [script[0], script[1]];
    assert script[..2][..1] == [script[0]];
    assert script[..2][..1][..0] == [];
    assert FinalStatus(script[..2][..1]) == None && HeaderAfter(script[..2][..1]) == before;
    assert FieldSent(script[..2][..1], LATE) == None;
    assert FieldSent(script[..2], LATE) == FieldOf(before, LATE);
  }

  lemma LateIsUnsettled(before: Header, after: Header)
    requires LATE !in before && LATE in after && !MayDiffer(LATE)
    ensures !Settled(map[], [SetHeader(before), WriteHeader(200), SetHeader(after)])
  {
    LateScriptReads(before, after);
    assert !FieldSettled(map[], [SetHeader(before), WriteHeader(200), SetHeader(after)], LATE);
  }

  /** Such a header is replayed, although the client never got it. */
  lemma LateHeaderIsReplayed(limit: int, age: nat, now: Time, r: Request)
    requires 0 < age <= MAX_INT64
    ensures var script := LateScript(age);
            var replayed := Replay(Freeze(RecordAll(limit, script), map[], now), r, Fresh(map[])).sent;
            var live := ForwardAll(Fresh(map[]), limit, script).sent;
            && Storable(RecordAll(limit, script), now).Some? && !Settled(map[], script)
            && replayed.Some? && live.Some?
            && LATE in replayed.value.header && LATE !in live.value.header
  {
    LateScriptReads(Public(age), PublicLate(age));
    PublicScript(limit, LateScript(age), age, now, r);
    LateIsUnsettled(Public(age), PublicLate(age));
  }

  /** Its headers are stored and replayed, although they never reach the client. */
  lemma SilentOriginIsReplayed(limit: int, age: nat, now: Time, r: Request)
    requires 0 < age <= MAX_INT64
    ensures var script := SilentScript(age);
            && Storable(RecordAll(limit, script), now).Some? && !Settled(map[], script)
            && Replay(Freeze(RecordAll(limit, script), map[], now), r, Fresh(map[])).sent.Some?
            && ForwardAll(Fresh(map[]), limit, script).sent.None?
  {
    var script := SilentScript(age);
    assert script[..0] == [];
    PublicScript(limit, script, age, now, r);
  }

  lemma HintScriptReads(age: nat)
    ensures var script := HintScript(age);
            && HeaderAfter(script) == Public(age) && StatusAfter(script) == 200 && FixedAt(script, 3)
            && Announces(script, 1, LATE)
  {
    var script := HintScript(age);
    assert script[..3] == [script[0], script[1], script[2]];
    assert script[..1] == [script[0]];
  }

  /**
   Its headers are fixed before the final head, and yet the client has got a header that is not replayed:
   what an informational head has announced stays with the client's writer.
   */
  lemma EarlyHintIsNotReplayed(limit: int, age: nat, now: Time, r: Request)
    requires 0 < age <= MAX_INT64
    ensures var script := HintScript(age);
            var replayed := Replay(Freeze(RecordAll(limit, script), map[], now), r, Fresh(map[])).sent;
            var live := ForwardAll(Fresh(map[]), limit, script).sent;
            && Storable(RecordAll(limit, script), now).Some? && FixedAt(script, 3) && !Settled(map[], script)
            && replayed.Some? && live.Some?
            && LATE !in replayed.value.header && LATE in live.value.header
  {
    var script := HintScript(age);
    HintScriptReads(age);
    PublicScript(limit, script, age, now, r);
    FieldAtTheEnd(script, 3, LATE);
    assert script[..3] == [script[0], script[1], script[2]];
    assert !FieldSettled(map[], script, LATE);
  }
}
