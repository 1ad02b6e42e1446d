/**
 Capturing an origin's response while it goes to the client, and replaying it from the cache.

 The origin is a script of events on the response writer. `Record` says what the capture keeps of
 it and `Forward` what the client receives; the classes are the source's objects and do just that.
 */
module Responses {
  import opened Freshness
  import opened Headers
  import opened Variants
  import opened Wrappers

  type Bytes = seq<bv8>

  /** What the origin does to the writer it is given. */
  datatype Event =
    | SetHeader(header: Header)
    | WriteHeader(status: int)
    | Write(chunk: Bytes)

  // ---------------------------------------------------------------- the client's writer

  /** The status line and headers that have gone out. */
  datatype Head = Head(status: int, header: Header)

  datatype Client = Client(header: Header, sent: Option<Head>, body: Bytes)

  /** Responses that come before the final one. */
  predicate Informational(status: int) {
    100 <= status <= 199 && status != 101
  }

  /** http.ResponseWriter: only the first final status counts, with the headers of that moment. */
  function ClientWriteHeader(c: Client, status: int): Client {
    if c.sent.Some? || Informational(status) then c else c.(sent := Some(Head(status, c.header)))
  }

  function ClientWrite(c: Client, chunk: Bytes): Client {
    var c' := ClientWriteHeader(c, 200);
    c'.(body := c'.body + chunk)
  }

  function CopyHeaders(c: Client, header: Header, wasHit: bool, status: int): Client {
    ClientWriteHeader(c.(header := Set(c.header + header, X_CACHE, if wasHit then "hit" else "miss")), status)
  }

  class ClientWriter {
    var header: Header
    var sent: Option<Head>
    var body: Bytes

    ghost function State(): Client
      reads this
    {
      Client(header, sent, body)
    }

    constructor (header: Header)
      ensures State() == Client(header, None, [])
    {
      this.header, sent, body := header, None, [];
    }

    method WriteHeader(status: int)
      modifies this
      ensures State() == ClientWriteHeader(old(State()), status)
    {
      if sent.None? && !Informational(status) {
        sent := Some(Head(status, header));
      }
    }

    method Write(chunk: Bytes)
      modifies this
      ensures State() == ClientWrite(old(State()), chunk)
    {
      WriteHeader(200);
      body := body + chunk;
    }
  }

  // ---------------------------------------------------------------- the stash

  /** What the capture holds; the stash is `buffer` and `overflowed`. */
  datatype Recorder = Recorder(limit: int, status: int, header: Header, headersWritten: bool,
                               buffer: Bytes, overflowed: bool)

  function NewRecorder(limit: int): Recorder {
    Recorder(limit, 200, map[], false, [], false)
  }

  function Stash(r: Recorder, chunk: Bytes): Recorder {
    if |r.buffer| + |chunk| > r.limit then r.(overflowed := true) else r.(buffer := r.buffer + chunk)
  }

  function Record(r: Recorder, e: Event): Recorder {
    match e
    case SetHeader(header) => r.(header := header)
    case WriteHeader(status) => r.(status := status, headersWritten := true)
    case Write(chunk) => Stash(if r.headersWritten then r else r.(status := 200, headersWritten := true), chunk)
  }

  function Forward(c: Client, r: Recorder, e: Event): Client {
    match e
    case SetHeader(_) => c
    case WriteHeader(status) => CopyHeaders(c, r.header, false, status)
    case Write(chunk) => ClientWrite(if r.headersWritten then c else CopyHeaders(c, r.header, false, 200), chunk)
  }

  /** What the events do to a client's writer that the origin is given itself, without a capture. */
  function Direct(c: Client, e: Event): Client {
    match e
    case SetHeader(header) => c.(header := header)
    case WriteHeader(status) => ClientWriteHeader(c, status)
    case Write(chunk) => ClientWrite(c, chunk)
  }

  function DirectAll(start: Client, script: seq<Event>): Client {
    if script == [] then start else Direct(DirectAll(start, script[..|script| - 1]), script[|script| - 1])
  }

  function RecordAll(limit: int, script: seq<Event>): Recorder {
    if script == [] then NewRecorder(limit)
    else Record(RecordAll(limit, script[..|script| - 1]), script[|script| - 1])
  }

  function ForwardAll(start: Client, limit: int, script: seq<Event>): Client {
    if script == [] then start
    else
      var init := script[..|script| - 1];
      Forward(ForwardAll(start, limit, init), RecordAll(limit, init), script[|script| - 1])
  }

  class StashingWriter {
    const limit: int
    const dest: ClientWriter
    var buffer: Bytes
    var overflowed: bool

    constructor (limit: int, dest: ClientWriter)
      ensures this.limit == limit && this.dest == dest && buffer == [] && !overflowed
    {
      this.limit, this.dest, buffer, overflowed := limit, dest, [], false;
    }

    /** Too much to keep is still passed on. */
    method Write(chunk: Bytes)
      modifies this, dest
      ensures dest.State() == ClientWrite(old(dest.State()), chunk)
      ensures overflowed == (old(overflowed) || |old(buffer)| + |chunk| > limit)
      ensures buffer == if |old(buffer)| + |chunk| > limit then old(buffer) else old(buffer) + chunk
    {
      if |buffer| + |chunk| > limit {
        overflowed := true;
      } else {
        buffer := buffer + chunk;
      }
      dest.Write(chunk);
    }

    function Body(): Bytes
      reads this
    {
      if overflowed then [] else buffer
    }
  }

  // ---------------------------------------------------------------- the capture

  /** The fields that are encoded for storage. */
  datatype Stored = Stored(status: int, header: Header, body: Bytes, variantHeader: Header)

  function Storable(r: Recorder, now: Time): Option<Time> {
    CacheStatus(r.overflowed, r.status, r.header, now)
  }

  function Freeze(r: Recorder, variantHeader: Header, now: Time): Stored {
    Stored(r.status,
           if Storable(r, now).Some? then Del(r.header, SET_COOKIE) else r.header,
           if r.overflowed then [] else r.buffer,
           variantHeader)
  }

  class CacheableResponse {
    var status: int
    var header: Header
    var body: Bytes
    var variantHeader: Header
    var headersWritten: bool
    const writer: ClientWriter
    const stasher: StashingWriter

    ghost predicate Valid() {
      stasher.dest == writer
    }

    ghost function State(): Recorder
      reads this, stasher
    {
      Recorder(stasher.limit, status, header, headersWritten, stasher.buffer, stasher.overflowed)
    }

    constructor (writer: ClientWriter, limit: int)
      ensures Valid() && fresh(stasher) && this.writer == writer
      ensures State() == NewRecorder(limit)
    {
      status, header, body, variantHeader, headersWritten := 200, map[], [], map[], false;
      this.writer := writer;
      stasher := new StashingWriter(limit, writer);
    }

    method SetHeader(header: Header)
      requires Valid()
      modifies this`header
      ensures State() == Record(old(State()), Event.SetHeader(header))
    {
      this.header := header;
    }

    method WriteHeader(status: int)
      requires Valid()
      modifies this`status, this`headersWritten, writer
      ensures State() == Record(old(State()), Event.WriteHeader(status))
      ensures writer.State() == Forward(old(writer.State()), old(State()), Event.WriteHeader(status))
    {
      this.status := status;
      CopyHeadersTo(header, writer, false, status);
      headersWritten := true;
    }

    method Write(chunk: Bytes)
      requires Valid()
      modifies this`status, this`headersWritten, writer, stasher
      ensures State() == Record(old(State()), Event.Write(chunk))
      ensures writer.State() == Forward(old(writer.State()), old(State()), Event.Write(chunk))
    {
      if !headersWritten {
        WriteHeader(200);
      }
      stasher.Write(chunk);
    }

    /** The record for storage. The header map in use by the live response is put back as it was. */
    method ToBuffer(now: Time) returns (stored: Stored)
      requires Valid()
      modifies this`header, this`body
      ensures State() == old(State())
      ensures stored == Freeze(State(), variantHeader, now)
    {
      body := stasher.Body();
      var headerForStorage := header;
      if CacheStatus(stasher.overflowed, status, header, now).Some? {
        headerForStorage := Del(headerForStorage, SET_COOKIE);
      }
      var originalHeader := header;
      header := headerForStorage;
      stored := Stored(status, header, body, variantHeader);
      header := originalHeader;
    }
  }

  /** Copies a header map field by field, adds X-Cache and sends the head. */
  method CopyHeadersTo(header: Header, w: ClientWriter, wasHit: bool, status: int)
    modifies w
    ensures w.State() == CopyHeaders(old(w.State()), header, wasHit, status)
  {
    var todo := header.Keys;
    while todo != {}
      invariant todo <= header.Keys
      invariant w.sent == old(w.sent) && w.body == old(w.body)
      invariant w.header == old(w.header) + map k | k in header.Keys - todo :: header[k]
      decreases todo
    {
      var k :| k in todo;
      w.header := w.header[k := header[k]];
      todo := todo - {k};
    }
    assert w.header == old(w.header) + header;
    w.header := Set(w.header, X_CACHE, if wasHit then "hit" else "miss");
    w.WriteHeader(status);
  }

  // ---------------------------------------------------------------- replay

  function SplitTrimmed(parts: seq<string>): seq<string> {
    if parts == [] then [] else SplitTrimmed(parts[..|parts| - 1]) + [Text.Trim(parts[|parts| - 1])]
  }

  /** Whether the request already has this response: its If-None-Match lists the very entity tag. */
  predicate NotModified(stored: Stored, r: Request) {
    var etag := Get(stored.header, ETAG);
    etag != "" && etag in SplitTrimmed(Text.SplitComma(Get(r.header, IF_NONE_MATCH)))
  }

  /** The request's If-None-Match lists the very entity tag of these headers. */
  ghost predicate AlreadyHas(header: Header, r: Request) {
    Get(header, ETAG) != "" && Text.Listed(Get(r.header, IF_NONE_MATCH), Get(header, ETAG))
  }

  lemma {:induction false} TrimmedHasExactly(parts: seq<string>, tag: string)
    ensures tag in SplitTrimmed(parts) <==> exists part :: part in parts && Text.Trim(part) == tag
  {
    if parts != [] {
      var n := |parts| - 1;
      TrimmedHasExactly(parts[..n], tag);
      assert parts == parts[..n] + [parts[n]];
    }
  }

  /** What counts as not modified, in terms of the field's text. */
  lemma NotModifiedExactly(stored: Stored, r: Request)
    ensures NotModified(stored, r) <==> AlreadyHas(stored.header, r)
  {
    var field, tag := Get(r.header, IF_NONE_MATCH), Get(stored.header, ETAG);
    TrimmedHasExactly(Text.SplitComma(field), tag);
    Text.ListedExactly(field, tag);
  }

  function Replay(stored: Stored, r: Request, c: Client): Client {
    if NotModified(stored, r) then CopyHeaders(c, stored.header, true, 304)
    else
      var c' := CopyHeaders(c, stored.header, true, stored.status);
      if stored.body == [] then c' else ClientWrite(c', stored.body)
  }

  method WasNotModified(stored: Stored, r: Request) returns (same: bool)
    ensures same == NotModified(stored, r)
    ensures same <==> AlreadyHas(stored.header, r)
  {
    NotModifiedExactly(stored, r);
    var etag := Get(stored.header, ETAG);
    if etag == "" {
      return false;
    }
    var tags := Text.SplitComma(Get(r.header, IF_NONE_MATCH));
    for i := 0 to |tags|
      invariant etag !in SplitTrimmed(tags[..i])
    {
      assert tags[..i + 1][..i] == tags[..i];
      if Text.Trim(tags[i]) == etag {
        TrimmedHas(tags, i);
        return true;
      }
    }
    assert tags[..|tags|] == tags;
    same := false;
  }

  lemma {:induction false} TrimmedHas(parts: seq<string>, i: nat)
    requires i < |parts|
    ensures Text.Trim(parts[i]) in SplitTrimmed(parts)
  {
    if i < |parts| - 1 {
      TrimmedHas(parts[..|parts| - 1], i);
    }
  }

  method WriteCachedResponse(stored: Stored, w: ClientWriter, r: Request)
    modifies w
    ensures w.State() == Replay(stored, r, old(w.State()))
  {
    var same := WasNotModified(stored, r);
    if same {
      CopyHeadersTo(stored.header, w, true, 304);
    } else {
      CopyHeadersTo(stored.header, w, true, stored.status);
      if |stored.body| > 0 {
        w.Write(stored.body);
      }
    }
  }

  // ---------------------------------------------------------------- what the stash keeps

  function Written(script: seq<Event>): Bytes {
    if script == [] then []
    else Written(script[..|script| - 1]) + (if script[|script| - 1].Write? then script[|script| - 1].chunk else [])
  }

  ghost predicate HasWrite(script: seq<Event>) {
    exists e :: e in script && e.Write?
  }

  /** The stash overflows exactly when more is written than it may hold, and otherwise holds all of it. */
  lemma {:induction false} StashKeepsAllOrOverflows(limit: int, script: seq<Event>)
    ensures var r := RecordAll(limit, script);
            && r.limit == limit
            && (r.overflowed <==> HasWrite(script) && |Written(script)| > limit)
            && (!r.overflowed ==> r.buffer == Written(script))
            && |r.buffer| <= |Written(script)|
  {
    if script != [] {
      var n := |script| - 1;
      StashKeepsAllOrOverflows(limit, script[..n]);
      assert script == script[..n] + [script[n]];
      if script[n].Write? {
        assert script[n] in script;
      } else {
        assert forall e | e in script && e.Write? :: e in script[..n];
      }
      assert forall e | e in script[..n] :: e in script;
    }
  }

  /** Whatever the stash keeps, the client is offered every byte, in order. */
  lemma {:induction false} ClientGetsEveryByte(start: Client, limit: int, script: seq<Event>)
    ensures ForwardAll(start, limit, script).body == start.body + Written(script)
  {
    if script != [] {
      ClientGetsEveryByte(start, limit, script[..|script| - 1]);
    }
  }
}
