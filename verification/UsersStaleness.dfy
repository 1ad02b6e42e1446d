/**
 How old an answer of GetByID can be when readers, batch readers and writers interleave.

 Every cache access, query and commit is a step of its own. Readers of one id that miss share one
 flight (singleflight): the first opens it, all of them get what it delivers. Writers commit and
 invalidate in any order and at any time, invalidations may be lost and entries may be evicted, so
 the bound does not lean on invalidation at all. Entries are kept by id: keys are injective
 (`UsersModel.KeyInjective`).
 */
module UsersStaleness {
  import opened UsersModel
  import opened Wrappers

  datatype Answer = Got(value: Option<Row>) | Failed

  datatype Reader = Called(id: Id) | Missed(id: Id) | Joined(id: Id) | Answered(id: Id, answer: Answer)

  datatype Flight = Opened | Loaded(value: Option<Row>) | Stored(value: Option<Row>) | Broken

  datatype State = State(
    now: Time,
    rows: map<Id, Row>,
    cache: map<Id, Entry>,
    flights: map<Id, Flight>,
    readers: map<nat, Reader>,
    looked: map<nat, map<Id, Option<Row>>>,     // what each batch has found in the cache
    batches: map<nat, map<Id, Option<Row>>>)    // what it has read from the table

  datatype Event =
    | Tick(elapsed: nat)
    | Commit(id: Id, row: Option<Row>)
    | Drop(id: Id)                          // an invalidation, an eviction
    | Call(reader: nat, id: Id)
    | CacheGet(reader: nat, ok: bool)
    | Join(reader: nat)
    | Query(id: Id, ok: bool)
    | Store(id: Id, ok: bool)
    | Deliver(id: Id)
    | BatchLook(batch: nat, id: Id)
    | BatchQuery(batch: nat, ids: set<Id>)
    | BatchStore(batch: nat, id: Id)

  predicate LiveAt(s: State, id: Id) {
    id in s.cache && s.now < s.cache[id].expiry
  }

  /** `Set` does nothing for a record with id 0. */
  predicate Keeps(id: Id, value: Option<Row>) {
    value.Some? ==> id != 0
  }

  function WithRow(rows: map<Id, Row>, id: Id, row: Option<Row>): map<Id, Row> {
    if row.Some? then rows[id := row.value] else rows - {id}
  }

  /** Every reader in the flight of an id gets what the flight delivers. */
  function Delivered(s: State, id: Id, answer: Answer): map<nat, Reader> {
    map r | r in s.readers :: if s.readers[r] == Joined(id) then Answered(id, answer) else s.readers[r]
  }

  function LookedBy(s: State, b: nat): map<Id, Option<Row>> {
    if b in s.looked then s.looked[b] else map[]
  }

  ghost predicate ReaderStep(s: State, e: Event, s': State) {
    match e
    case Call(r, id) =>
      r !in s.readers && s' == s.(readers := s.readers[r := Called(id)])
    case CacheGet(r, ok) =>
      && r in s.readers && s.readers[r].Called?
      && var id := s.readers[r].id;
         s' == s.(readers := s.readers[r :=
           if !ok then Answered(id, Failed)
           else if LiveAt(s, id) then Answered(id, Got(s.cache[id].value))
           else Missed(id)])
    case Join(r) =>
      && r in s.readers && s.readers[r].Missed?
      && var id := s.readers[r].id;
         s' == s.(readers := s.readers[r := Joined(id)],
                  flights := if id in s.flights then s.flights else s.flights[id := Opened])
    case _ => false
  }

  ghost predicate FlightStep(s: State, e: Event, s': State) {
    match e
    case Query(id, ok) =>
      && id in s.flights && s.flights[id] == Opened
      && s' == s.(flights := s.flights[id := if ok then Loaded(Lookup(s.rows, id)) else Broken])
    case Store(id, ok) =>
      && id in s.flights && s.flights[id].Loaded?
      && var value := s.flights[id].value;
         s' == s.(flights := s.flights[id := Stored(value)],
                  cache := if ok && Keeps(id, value) then s.cache[id := EntryFor(value, s.now)] else s.cache)
    case Deliver(id) =>
      && id in s.flights && (s.flights[id].Stored? || s.flights[id].Broken?)
      && var answer := if s.flights[id].Stored? then Got(s.flights[id].value) else Failed;
         s' == s.(flights := s.flights - {id}, readers := Delivered(s, id, answer))
    case _ => false
  }

  ghost predicate OtherStep(s: State, e: Event, s': State) {
    match e
    case Tick(elapsed) => s' == s.(now := s.now + elapsed)
    case Commit(id, row) => s' == s.(rows := WithRow(s.rows, id, row))
    case Drop(id) => s' == s.(cache := s.cache - {id})
    case BatchLook(b, id) =>
      LiveAt(s, id) && s' == s.(looked := s.looked[b := LookedBy(s, b)[id := s.cache[id].value]])
    case BatchQuery(b, ids) =>
      s' == s.(batches := s.batches[b := map id | id in ids :: Lookup(s.rows, id)])
    case BatchStore(b, id) =>
      && b in s.batches && id in s.batches[b]
      && s' == s.(cache := s.cache[id := EntryFor(s.batches[b][id], s.now)])
    case _ => false
  }

  ghost predicate Next(s: State, e: Event, s': State) {
    ReaderStep(s, e, s') || FlightStep(s, e, s') || OtherStep(s, e, s')
  }

  ghost predicate Moves(ss: seq<State>, es: seq<Event>, i: nat)
    requires |ss| == |es| + 1 && i < |es|
  {
    Next(ss[i], es[i], ss[i + 1])
  }

  /** Any number of steps from a cold cache with nobody at work. */
  ghost predicate Execution(ss: seq<State>, es: seq<Event>) {
    && |ss| == |es| + 1
    && ss[0].cache == map[] && ss[0].flights == map[] && ss[0].readers == map[]
    && ss[0].looked == map[] && ss[0].batches == map[]
    && forall i: nat {:trigger Moves(ss, es, i)} | i < |es| :: Moves(ss, es, i)
  }

  lemma MoveOf(ss: seq<State>, es: seq<Event>, k: nat)
    requires Execution(ss, es) && k < |es|
    ensures Next(ss[k], es[k], ss[k + 1])
  {
    assert Moves(ss, es, k);
  }

  // ---------------------------------------------------------------- where values come from

  /** Step `q` read `value` as the committed state of `id`, for the flight of that id. */
  ghost predicate QueriedForFlight(ss: seq<State>, es: seq<Event>, q: nat, n: nat, id: Id, value: Option<Row>)
    requires |ss| == |es| + 1 && n <= |es|
  {
    && q < n && es[q] == Query(id, true)
    && Lookup(ss[q].rows, id) == value
    && forall i | q < i < n :: es[i] != Deliver(id)
  }

  ghost predicate QueriedForBatch(ss: seq<State>, es: seq<Event>, q: nat, n: nat, b: nat, id: Id, value: Option<Row>)
    requires |ss| == |es| + 1 && n <= |es|
  {
    && q < n && es[q].BatchQuery? && es[q].batch == b && id in es[q].ids
    && Lookup(ss[q].rows, id) == value
    && forall i | q < i < n :: !(es[i].BatchQuery? && es[i].batch == b)
  }

  /** Step `f` stored what step `q` had read: one fill of the cache, by a flight or by a batch. */
  ghost predicate Fill(ss: seq<State>, es: seq<Event>, q: nat, f: nat, id: Id, value: Option<Row>)
    requires |ss| == |es| + 1
  {
    && f < |es|
    && ((es[f] == Store(id, true) && QueriedForFlight(ss, es, q, f, id, value))
        || (es[f].BatchStore? && es[f].id == id && QueriedForBatch(ss, es, q, f, es[f].batch, id, value)))
  }

  /** Nothing has dropped the entry after step `f` and before step `n`. */
  ghost predicate NoDrop(es: seq<Event>, f: nat, n: nat, id: Id)
    requires n <= |es|
  {
    forall i | f < i < n :: es[i] != Drop(id)
  }

  predicate Carries(s: State, id: Id) {
    id in s.flights && (s.flights[id].Loaded? || s.flights[id].Stored?)
  }

  lemma NextCarries(s: State, e: Event, s': State, id: Id)
    requires Next(s, e, s') && Carries(s', id)
    ensures if e == Query(id, true) then s'.flights[id].value == Lookup(s.rows, id)
            else Carries(s, id) && s'.flights[id].value == s.flights[id].value && e != Deliver(id)
  {
  }

  lemma {:induction false} FlightOrigin(ss: seq<State>, es: seq<Event>, n: nat, id: Id) returns (q: nat)
    requires Execution(ss, es) && n <= |es|
    requires Carries(ss[n], id)
    ensures QueriedForFlight(ss, es, q, n, id, ss[n].flights[id].value)
  {
    MoveOf(ss, es, n - 1);
    NextCarries(ss[n - 1], es[n - 1], ss[n], id);
    if es[n - 1] == Query(id, true) {
      q := n - 1;
    } else {
      q := FlightOrigin(ss, es, n - 1, id);
    }
  }

  lemma NextKeepsBatch(s: State, e: Event, s': State, b: nat, id: Id)
    requires Next(s, e, s') && b in s'.batches && id in s'.batches[b]
    ensures if e.BatchQuery? && e.batch == b then id in e.ids && s'.batches[b][id] == Lookup(s.rows, id)
            else b in s.batches && id in s.batches[b] && s'.batches[b][id] == s.batches[b][id]
  {
  }

  lemma {:induction false} BatchOrigin(ss: seq<State>, es: seq<Event>, n: nat, b: nat, id: Id) returns (q: nat)
    requires Execution(ss, es) && n <= |es|
    requires b in ss[n].batches && id in ss[n].batches[b]
    ensures QueriedForBatch(ss, es, q, n, b, id, ss[n].batches[b][id])
  {
    assert Moves(ss, es, n - 1);
    NextKeepsBatch(ss[n - 1], es[n - 1], ss[n], b, id);
    if es[n - 1].BatchQuery? && es[n - 1].batch == b {
      q := n - 1;
    } else {
      q := BatchOrigin(ss, es, n - 1, b, id);
    }
  }

  lemma {:induction false} EntryOrigin(ss: seq<State>, es: seq<Event>, n: nat, id: Id) returns (q: nat, f: nat)
    requires Execution(ss, es) && n <= |es|
    requires id in ss[n].cache
    ensures f < n && Fill(ss, es, q, f, id, ss[n].cache[id].value)
    ensures ss[n].cache[id] == EntryFor(ss[n].cache[id].value, ss[f].now)
    ensures NoDrop(es, f, n, id)
  {
    var s, e := ss[n - 1], es[n - 1];
    assert Moves(ss, es, n - 1);
    if e == Store(id, true) && Keeps(id, s.flights[id].value) {
      f := n - 1;
      q := FlightOrigin(ss, es, f, id);
    } else if e.BatchStore? && e.id == id {
      f := n - 1;
      q := BatchOrigin(ss, es, f, e.batch, id);
    } else {
      q, f := EntryOrigin(ss, es, n - 1, id);
    }
  }

  lemma {:induction false} ClockNeverTurnsBack(ss: seq<State>, es: seq<Event>, i: nat, j: nat)
    requires Execution(ss, es) && i <= j <= |es|
    ensures ss[i].now <= ss[j].now
  {
    if i < j {
      ClockNeverTurnsBack(ss, es, i, j - 1);
      MoveOf(ss, es, j - 1);
      NextTicks(ss[j - 1], es[j - 1], ss[j]);
    }
  }

  lemma NextTicks(s: State, e: Event, s': State)
    requires Next(s, e, s')
    ensures s.now <= s'.now
  {
  }

  // ---------------------------------------------------------------- the bound

  /** The step that gave a reader its answer. */
  lemma {:induction false} AnswerStep(ss: seq<State>, es: seq<Event>, n: nat, r: nat) returns (a: nat)
    requires Execution(ss, es) && n <= |es|
    requires r in ss[n].readers && ss[n].readers[r].Answered?
    ensures a < n && !(r in ss[a].readers && ss[a].readers[r].Answered?)
    ensures r in ss[a + 1].readers && ss[a + 1].readers[r] == ss[n].readers[r]
  {
    if r in ss[n - 1].readers && ss[n - 1].readers[r].Answered? {
      AnswerIsKept(ss, es, n - 1, r);
      a := AnswerStep(ss, es, n - 1, r);
    } else {
      a := n - 1;
    }
  }

  lemma NextKeepsAnswer(s: State, e: Event, s': State, r: nat)
    requires Next(s, e, s') && r in s.readers && s.readers[r].Answered?
    ensures r in s'.readers && s'.readers[r] == s.readers[r]
  {
  }

  lemma AnswerIsKept(ss: seq<State>, es: seq<Event>, k: nat, r: nat)
    requires Execution(ss, es) && k < |es|
    requires r in ss[k].readers && ss[k].readers[r].Answered?
    ensures r in ss[k + 1].readers && ss[k + 1].readers[r] == ss[k].readers[r]
  {
    assert Moves(ss, es, k);
    NextKeepsAnswer(ss[k], es[k], ss[k + 1], r);
  }

  /** Step `a` gave a reader its answer. */
  ghost predicate AnsweredIn(ss: seq<State>, es: seq<Event>, a: nat, r: nat, id: Id, value: Option<Row>)
    requires |ss| == |es| + 1 && a < |es|
  {
    && !(r in ss[a].readers && ss[a].readers[r].Answered?)
    && r in ss[a + 1].readers && ss[a + 1].readers[r] == Answered(id, Got(value))
  }

  /**
   Step `a` found in the cache what step `q` had read from the table and step `f` had stored, less than its
   lifetime before and not dropped since.
   */
  ghost predicate FromCache(ss: seq<State>, es: seq<Event>, a: nat, q: nat, f: nat, id: Id, value: Option<Row>)
    requires |ss| == |es| + 1 && a < |es|
  {
    && f < a && Fill(ss, es, q, f, id, value) && ss[a].now < ss[f].now + TimeToLive(value)
    && NoDrop(es, f, a, id)
  }

  /**
   Step `a` delivers what the flight's own step `q` had read and its step `f` had handed to Set, whether or not
   that succeeded.
   */
  ghost predicate FromFlight(ss: seq<State>, es: seq<Event>, a: nat, q: nat, f: nat, id: Id, value: Option<Row>)
    requires |ss| == |es| + 1 && a < |es|
  {
    && es[a] == Deliver(id) && q < f < a
    && es[f].Store? && es[f].id == id && QueriedForFlight(ss, es, q, a, id, value)
  }

  /** Between query and answer lies less than the lifetime of an entry plus the delay from query to Set. */
  ghost predicate WithinBound(ss: seq<State>, a: nat, q: nat, f: nat, value: Option<Row>)
    requires q < |ss| && f < |ss| && a < |ss|
  {
    ss[a].now - ss[q].now < TimeToLive(value) + (ss[f].now - ss[q].now)
  }

  /** An answer is a live entry, or what the reader's flight has stored. */
  lemma AnswerSource(s: State, e: Event, s': State, r: nat)
    requires Next(s, e, s') && !(r in s.readers && s.readers[r].Answered?)
    requires r in s'.readers && s'.readers[r].Answered? && s'.readers[r].answer.Got?
    ensures var id, value := s'.readers[r].id, s'.readers[r].answer.value;
            || (e == CacheGet(r, true) && LiveAt(s, id) && s.cache[id].value == value)
            || (e == Deliver(id) && id in s.flights && s.flights[id] == Stored(value))
  {
  }

  lemma NextStores(s: State, e: Event, s': State, id: Id)
    requires Next(s, e, s') && id in s'.flights && s'.flights[id].Stored?
    ensures id in s.flights && e != Deliver(id)
    ensures if e.Store? && e.id == id then s.flights[id] == Loaded(s'.flights[id].value)
            else s.flights[id] == s'.flights[id]
  {
  }

  lemma {:induction false} FlightStored(ss: seq<State>, es: seq<Event>, n: nat, id: Id) returns (q: nat, f: nat)
    requires Execution(ss, es) && n <= |es|
    requires id in ss[n].flights && ss[n].flights[id].Stored?
    ensures q < f < n && es[f].Store? && es[f].id == id
    ensures QueriedForFlight(ss, es, q, n, id, ss[n].flights[id].value)
  {
    MoveOf(ss, es, n - 1);
    NextStores(ss[n - 1], es[n - 1], ss[n], id);
    if es[n - 1].Store? && es[n - 1].id == id {
      f := n - 1;
      q := FlightOrigin(ss, es, f, id);
    } else {
      q, f := FlightStored(ss, es, n - 1, id);
    }
  }

  /**
   What a reader is answered, in step `a`, was the committed row at step `q`, before a Set in step `f`.
   Its age is the delay from `q` to `f` plus that from `f` to `a`. An answer from the cache is within the
   bound; for one from the reader's flight, see `FlightAnswersInTime`.
   */
  lemma AnswerIsFreshEnough(ss: seq<State>, es: seq<Event>, n: nat, r: nat, id: Id, value: Option<Row>)
    returns (a: nat, q: nat, f: nat)
    requires Execution(ss, es) && n <= |es|
    requires r in ss[n].readers && ss[n].readers[r] == Answered(id, Got(value))
    ensures a < n && AnsweredIn(ss, es, a, r, id, value)
    ensures q < f < a && Lookup(ss[q].rows, id) == value
    ensures ss[q].now <= ss[f].now <= ss[a].now
    ensures if es[a].CacheGet? then FromCache(ss, es, a, q, f, id, value) else FromFlight(ss, es, a, q, f, id, value)
    ensures es[a].CacheGet? ==> WithinBound(ss, a, q, f, value)
  {
    a := AnswerStep(ss, es, n, r);
    assert Moves(ss, es, a);
    AnswerSource(ss[a], es[a], ss[a + 1], r);
    if es[a].CacheGet? {
      q, f := EntryOrigin(ss, es, a, id);
    } else {
      q, f := FlightStored(ss, es, a, id);
    }
    ClockNeverTurnsBack(ss, es, q, f);
    ClockNeverTurnsBack(ss, es, f, a);
  }

  /**
   What an invalidation is good for. Once a writer has committed in step `w` and dropped the entry in step `d`,
   the cache answers an older row only if a slow reader had queried before the commit and stored after the drop.
   */
  lemma OldRowNeedsSlowReader(ss: seq<State>, es: seq<Event>, n: nat, r: nat, id: Id, value: Option<Row>, w: nat,
                              d: nat)
    returns (a: nat, q: nat, f: nat)
    requires Execution(ss, es) && n <= |es|
    requires r in ss[n].readers && ss[n].readers[r] == Answered(id, Got(value))
    requires w < d < |es| && es[w].Commit? && es[w].id == id && es[d] == Drop(id)
    ensures a < n && AnsweredIn(ss, es, a, r, id, value)
    ensures es[a].CacheGet? ==> FromCache(ss, es, a, q, f, id, value)
    ensures es[a].CacheGet? && d < a ==> w < q || q < w < d < f
  {
    a, q, f := AnswerIsFreshEnough(ss, es, n, r, id, value);
  }

  lemma FailureSource(s: State, e: Event, s': State, r: nat)
    requires Next(s, e, s') && r in s.readers && !s.readers[r].Answered?
    ensures r in s'.readers
    ensures s'.readers[r].Answered? && s'.readers[r].answer.Failed? <==>
              (e == CacheGet(r, false) && s.readers[r].Called?)
              || (e.Deliver? && s.readers[r] == Joined(e.id) && s.flights[e.id] == Broken)
  {
  }

  lemma NextBreaks(s: State, e: Event, s': State, id: Id)
    requires Next(s, e, s') && id in s'.flights && s'.flights[id].Broken?
    ensures e == Query(id, false) || (id in s.flights && s.flights[id].Broken? && e != Deliver(id))
  {
  }

  lemma {:induction false} BrokenOrigin(ss: seq<State>, es: seq<Event>, n: nat, id: Id) returns (q: nat)
    requires Execution(ss, es) && n <= |es| && id in ss[n].flights && ss[n].flights[id].Broken?
    ensures q < n && es[q] == Query(id, false) && forall i | q < i < n :: es[i] != Deliver(id)
  {
    MoveOf(ss, es, n - 1);
    NextBreaks(ss[n - 1], es[n - 1], ss[n], id);
    if es[n - 1] == Query(id, false) {
      q := n - 1;
    } else {
      q := BrokenOrigin(ss, es, n - 1, id);
    }
  }

  /** A reader is told of a failure only if its cache read failed, or the query of its flight did. */
  lemma FailureIsExplained(ss: seq<State>, es: seq<Event>, n: nat, r: nat, id: Id) returns (a: nat)
    requires Execution(ss, es) && n <= |es|
    requires r in ss[n].readers && ss[n].readers[r] == Answered(id, Failed)
    ensures a < n
    ensures || es[a] == CacheGet(r, false)
            || (es[a] == Deliver(id)
                && exists q: nat :: q < a && es[q] == Query(id, false) && forall i | q < i < a :: es[i] != Deliver(id))
  {
    a := AnswerStep(ss, es, n, r);
    MoveOf(ss, es, a);
    AnsweredHasCalled(ss[a], es[a], ss[a + 1], r);
    FailureSource(ss[a], es[a], ss[a + 1], r);
    if es[a].Deliver? {
      NextKeepsId(ss[a], es[a], ss[a + 1], r);
      var q := BrokenOrigin(ss, es, a, id);
    }
  }

  lemma AnsweredHasCalled(s: State, e: Event, s': State, r: nat)
    requires Next(s, e, s') && r in s'.readers && s'.readers[r].Answered?
    ensures r in s.readers
  {
  }

  // ---------------------------------------------------------------- who joins a flight

  lemma NextKeepsId(s: State, e: Event, s': State, r: nat)
    requires Next(s, e, s') && r in s'.readers
    ensures if r in s.readers then s'.readers[r].id == s.readers[r].id else e == Call(r, s'.readers[r].id)
  {
  }

  lemma {:induction false} CallOrigin(ss: seq<State>, es: seq<Event>, n: nat, r: nat) returns (k: nat)
    requires Execution(ss, es) && n <= |es| && r in ss[n].readers
    ensures k < n && es[k] == Call(r, ss[n].readers[r].id)
  {
    MoveOf(ss, es, n - 1);
    NextKeepsId(ss[n - 1], es[n - 1], ss[n], r);
    if r in ss[n - 1].readers {
      k := CallOrigin(ss, es, n - 1, r);
    } else {
      k := n - 1;
    }
  }

  lemma NextJoins(s: State, e: Event, s': State, r: nat)
    requires Next(s, e, s') && r in s'.readers && s'.readers[r].Joined?
    ensures r in s.readers && s.readers[r].id == s'.readers[r].id
    ensures e != Deliver(s'.readers[r].id)
    ensures e == Join(r) || s.readers[r] == s'.readers[r]
  {
  }

  lemma {:induction false} JoinOrigin(ss: seq<State>, es: seq<Event>, n: nat, r: nat) returns (j: nat)
    requires Execution(ss, es) && n <= |es| && r in ss[n].readers && ss[n].readers[r].Joined?
    ensures j < n && es[j] == Join(r) && r in ss[j].readers && ss[j].readers[r].id == ss[n].readers[r].id
    ensures forall i | j < i < n :: es[i] != Deliver(ss[n].readers[r].id)
  {
    assert Moves(ss, es, n - 1);
    NextJoins(ss[n - 1], es[n - 1], ss[n], r);
    if es[n - 1] == Join(r) {
      j := n - 1;
    } else {
      j := JoinOrigin(ss, es, n - 1, r);
    }
  }

  lemma DeliveredWasJoined(s: State, e: Event, s': State, r: nat)
    requires Next(s, e, s') && e.Deliver? && !(r in s.readers && s.readers[r].Answered?)
    requires r in s'.readers && s'.readers[r].Answered?
    ensures r in s.readers && s.readers[r] == Joined(e.id) && s'.readers[r].id == e.id
  {
  }

  /**
   A reader that a flight answers has called in step `k` and joined in step `j`. If it joined before the
   flight's query `q`, the row was committed during the reader's own call, and is no older than the call is long.
   */
  lemma EarlyJoinerGetsARowOfItsOwnTime(ss: seq<State>, es: seq<Event>, a: nat, q: nat, f: nat, r: nat, id: Id,
                                        value: Option<Row>)
    returns (k: nat, j: nat)
    requires Execution(ss, es) && a < |es|
    requires AnsweredIn(ss, es, a, r, id, value) && FromFlight(ss, es, a, q, f, id, value)
    ensures k < j < a && es[k] == Call(r, id) && es[j] == Join(r)
    ensures j < q ==> k < q < a && Lookup(ss[q].rows, id) == value && ss[k].now <= ss[q].now
  {
    assert Moves(ss, es, a);
    DeliveredWasJoined(ss[a], es[a], ss[a + 1], r);
    j := JoinOrigin(ss, es, a, r);
    k := CallOrigin(ss, es, j, r);
    if j < q {
      ClockNeverTurnsBack(ss, es, k, q);
    }
  }

  /**
   So what a flight answers is beyond the bound only for a reader that joined after the query, or whose own
   call has lasted an entry's lifetime or longer.
   */
  lemma FlightAnswersInTime(ss: seq<State>, es: seq<Event>, a: nat, q: nat, f: nat, r: nat, id: Id, value: Option<Row>)
    returns (k: nat, j: nat)
    requires Execution(ss, es) && a < |es|
    requires AnsweredIn(ss, es, a, r, id, value) && FromFlight(ss, es, a, q, f, id, value)
    ensures k < j < a && es[k] == Call(r, id) && es[j] == Join(r)
    ensures j < q && ss[a].now - ss[k].now < TimeToLive(value) ==> WithinBound(ss, a, q, f, value)
  {
    k, j := EarlyJoinerGetsARowOfItsOwnTime(ss, es, a, q, f, r, id, value);
    ClockNeverTurnsBack(ss, es, q, f);
  }

  // ---------------------------------------------------------------- batches

  /** What a batch answers for an id: the row it has read from the table, or else what it has found in the cache. */
  function BatchTold(s: State, b: nat, id: Id): Option<Option<Row>> {
    if b in s.batches && id in s.batches[b] then Some(s.batches[b][id])
    else if id in LookedBy(s, b) then Some(LookedBy(s, b)[id])
    else None
  }

  lemma NextLooks(s: State, e: Event, s': State, b: nat, id: Id)
    requires Next(s, e, s') && id in LookedBy(s', b)
    ensures if e == BatchLook(b, id) then LiveAt(s, id) && LookedBy(s', b)[id] == s.cache[id].value
            else id in LookedBy(s, b) && LookedBy(s', b)[id] == LookedBy(s, b)[id]
  {
  }

  lemma {:induction false} LookOrigin(ss: seq<State>, es: seq<Event>, n: nat, b: nat, id: Id) returns (a: nat)
    requires Execution(ss, es) && n <= |es| && id in LookedBy(ss[n], b)
    ensures a < n && es[a] == BatchLook(b, id) && LiveAt(ss[a], id) && ss[a].cache[id].value == LookedBy(ss[n], b)[id]
  {
    assert Moves(ss, es, n - 1);
    NextLooks(ss[n - 1], es[n - 1], ss[n], b, id);
    if es[n - 1] == BatchLook(b, id) {
      a := n - 1;
    } else {
      a := LookOrigin(ss, es, n - 1, b, id);
    }
  }

  /**
   What a batch answers for an id was the committed row at step `q`: of the batch's own query, or of the
   fill `f` of the entry that its own step `a` found in the cache, within the same bound.
   */
  lemma BatchAnswerIsFreshEnough(ss: seq<State>, es: seq<Event>, n: nat, b: nat, id: Id, value: Option<Row>)
    returns (a: nat, q: nat, f: nat)
    requires Execution(ss, es) && n <= |es| && BatchTold(ss[n], b, id) == Some(value)
    ensures q < n && Lookup(ss[q].rows, id) == value
    ensures || QueriedForBatch(ss, es, q, n, b, id, value)
            || (a < n && es[a] == BatchLook(b, id) && FromCache(ss, es, a, q, f, id, value)
                && WithinBound(ss, a, q, f, value))
  {
    if b in ss[n].batches && id in ss[n].batches[b] {
      q := BatchOrigin(ss, es, n, b, id);
      a, f := q, q;
    } else {
      a := LookOrigin(ss, es, n, b, id);
      q, f := EntryOrigin(ss, es, a, id);
    }
  }

  // ---------------------------------------------------------------- what the bound does not say

  lemma Extended(ss: seq<State>, es: seq<Event>, e: Event, s': State) returns (ss': seq<State>, es': seq<Event>)
    requires Execution(ss, es) && Next(ss[|es|], e, s')
    ensures ss' == ss + [s'] && es' == es + [e] && Execution(ss', es')
  {
    ss', es' := ss + [s'], es + [e];
    forall i: nat | i < |es'|
      ensures Moves(ss', es', i)
    {
      if i < |es| {
        assert Moves(ss, es, i);
      }
    }
  }

  /** A reader of row 1 that has queried the table but not yet stored what it read. */
  function Reading(row: Row): State {
    State(0, map[1 := row], map[], map[1 := Loaded(Some(row))], map[0 := Joined(1)], map[], map[])
  }

  lemma ReadingIsReached(row: Row) returns (ss: seq<State>, es: seq<Event>)
    ensures Execution(ss, es) && ss[|es|] == Reading(row) && |es| == 4 && es[3] == Query(1, true) && ss[3].now == 0
  {
    var s0 := State(0, map[1 := row], map[], map[], map[], map[], map[]);
    var s1 := s0.(readers := map[0 := Called(1)]);
    var s2 := s1.(readers := map[0 := Missed(1)]);
    var s3 := s2.(readers := map[0 := Joined(1)], flights := map[1 := Opened]);
    ss, es := [s0], [];
    assert ReaderStep(s0, Call(0, 1), s1);
    assert ReaderStep(s1, CacheGet(0, true), s2);
    assert ReaderStep(s2, Join(0), s3);
    assert FlightStep(s3, Query(1, true), Reading(row));
    ss, es := Extended(ss, es, Call(0, 1), s1);
    ss, es := Extended(ss, es, CacheGet(0, true), s2);
    ss, es := Extended(ss, es, Join(0), s3);
    ss, es := Extended(ss, es, Query(1, true), Reading(row));
  }

  /** The writer commits and invalidates; then the reader stores the old row, and another reader finds it. */
  lemma RevivingSteps(row: Row, newer: Row)
    ensures var s4 := Reading(row);
            var s5 := s4.(rows := map[1 := newer]);
            var s6 := s5.(flights := map[1 := Stored(Some(row))], cache := map[1 := EntryFor(Some(row), 0)]);
            var s7 := s6.(readers := map[0 := Joined(1), 1 := Called(1)]);
            && Next(s4, Commit(1, Some(newer)), s5) && Next(s5, Drop(1), s5) && Next(s5, Store(1, true), s6)
            && Next(s6, Call(1, 1), s7)
            && Next(s7, CacheGet(1, true), s7.(readers := map[0 := Joined(1), 1 := Answered(1, Got(Some(row)))]))
  {
    var s4 := Reading(row);
    var s5 := s4.(rows := map[1 := newer]);
    var s6 := s5.(flights := map[1 := Stored(Some(row))], cache := map[1 := EntryFor(Some(row), 0)]);
    var s7 := s6.(readers := map[0 := Joined(1), 1 := Called(1)]);
    assert s5.rows == WithRow(s4.rows, 1, Some(newer)) && s5.cache == s5.cache - {1};
    assert FlightStep(s5, Store(1, true), s6);
    assert ReaderStep(s6, Call(1, 1), s7);
    assert ReaderStep(s7, CacheGet(1, true), s7.(readers := map[0 := Joined(1), 1 := Answered(1, Got(Some(row)))]));
  }

  /**
   The bound is needed: a reader that is slow between its query and its Set puts an old row back after
   a writer has committed and invalidated, and the next reader is answered with it.
   */
  lemma SlowReaderRevivesOldRow(old': Row, new': Row) returns (ss: seq<State>, es: seq<Event>)
    requires old'.id == new'.id == 1 && old' != new'
    ensures Execution(ss, es)
    ensures var last := ss[|es|];
            1 in last.readers && last.readers[1] == Answered(1, Got(Some(old'))) && Lookup(last.rows, 1) == Some(new')
  {
    var s4 := Reading(old');
    var s5 := s4.(rows := map[1 := new']);
    var s6 := s5.(flights := map[1 := Stored(Some(old'))], cache := map[1 := EntryFor(Some(old'), 0)]);
    var s7 := s6.(readers := map[0 := Joined(1), 1 := Called(1)]);
    var s8 := s7.(readers := map[0 := Joined(1), 1 := Answered(1, Got(Some(old')))]);
    ss, es := ReadingIsReached(old');
    RevivingSteps(old', new');
    ss, es := Extended(ss, es, Commit(1, Some(new')), s5);
    ss, es := Extended(ss, es, Drop(1), s5);
    ss, es := Extended(ss, es, Store(1, true), s6);
    ss, es := Extended(ss, es, Call(1, 1), s7);
    ss, es := Extended(ss, es, CacheGet(1, true), s8);
  }

  /** The row is stored at once and then replaced. */
  function Replaced(row: Row, newer: Row): State {
    Reading(row).(rows := map[1 := newer], flights := map[1 := Stored(Some(row))],
                  cache := map[1 := EntryFor(Some(row), 0)])
  }

  lemma ReplacedIsReached(row: Row, newer: Row) returns (ss: seq<State>, es: seq<Event>)
    ensures Execution(ss, es) && ss[|es|] == Replaced(row, newer) && |es| == 6
    ensures es[3] == Query(1, true) && es[4] == Store(1, true) && es[5] == Commit(1, Some(newer))
    ensures ss[3].now == ss[4].now == 0
  {
    var stored := Reading(row).(flights := map[1 := Stored(Some(row))], cache := map[1 := EntryFor(Some(row), 0)]);
    ss, es := ReadingIsReached(row);
    assert FlightStep(Reading(row), Store(1, true), stored);
    assert WithRow(stored.rows, 1, Some(newer)) == map[1 := newer];
    ss, es := Extended(ss, es, Store(1, true), stored);
    ss, es := Extended(ss, es, Commit(1, Some(newer)), Replaced(row, newer));
  }

  /** After a wait, the entry has expired, and another reader joins the flight that has not been delivered yet. */
  lemma LateJoin(row: Row, newer: Row, wait: nat)
    requires wait >= USERS_EXPIRE_TIME
    ensures var s := Replaced(row, newer).(now := wait);
            && Next(Replaced(row, newer), Tick(wait), s)
            && Next(s, Call(1, 1), s.(readers := map[0 := Joined(1), 1 := Called(1)]))
            && Next(s.(readers := map[0 := Joined(1), 1 := Called(1)]), CacheGet(1, true),
                    s.(readers := map[0 := Joined(1), 1 := Missed(1)]))
            && Next(s.(readers := map[0 := Joined(1), 1 := Missed(1)]), Join(1),
                    s.(readers := map[0 := Joined(1), 1 := Joined(1)]))
  {
    var s := Replaced(row, newer).(now := wait);
    assert ReaderStep(s, Call(1, 1), s.(readers := map[0 := Joined(1), 1 := Called(1)]));
    assert ReaderStep(s.(readers := map[0 := Joined(1), 1 := Called(1)]), CacheGet(1, true),
                      s.(readers := map[0 := Joined(1), 1 := Missed(1)]));
    assert ReaderStep(s.(readers := map[0 := Joined(1), 1 := Missed(1)]), Join(1),
                      s.(readers := map[0 := Joined(1), 1 := Joined(1)]));
  }

  lemma LateJoinIsReached(row: Row, newer: Row, wait: nat) returns (ss: seq<State>, es: seq<Event>)
    requires wait >= USERS_EXPIRE_TIME
    ensures Execution(ss, es) && |es| == 10
    ensures ss[10] == Replaced(row, newer).(now := wait, readers := map[0 := Joined(1), 1 := Joined(1)])
    ensures es[3] == Query(1, true) && es[4] == Store(1, true) && es[5] == Commit(1, Some(newer)) && es[7] == Call(1, 1)
    ensures ss[3].now == ss[4].now == 0
  {
    var s := Replaced(row, newer).(now := wait);
    ss, es := ReplacedIsReached(row, newer);
    LateJoin(row, newer, wait);
    ss, es := Extended(ss, es, Tick(wait), s);
    ss, es := Extended(ss, es, Call(1, 1), s.(readers := map[0 := Joined(1), 1 := Called(1)]));
    ss, es := Extended(ss, es, CacheGet(1, true), s.(readers := map[0 := Joined(1), 1 := Missed(1)]));
    ss, es := Extended(ss, es, Join(1), s.(readers := map[0 := Joined(1), 1 := Joined(1)]));
  }

  lemma BothAreAnswered(s: State, value: Option<Row>)
    requires s.readers == map[0 := Joined(1), 1 := Joined(1)] && 1 in s.flights && s.flights[1] == Stored(value)
    ensures var answered := Answered(1, Got(value));
            Next(s, Deliver(1), s.(flights := s.flights - {1}, readers := map[0 := answered, 1 := answered]))
  {
    var answered := Answered(1, Got(value));
    assert map[0 := answered, 1 := answered] == Delivered(s, 1, Got(value));
    assert FlightStep(s, Deliver(1), s.(flights := s.flights - {1}, readers := Delivered(s, 1, Got(value))));
  }

  /**
   Nor does the lifetime bound what a flight delivers late: query and Set at instant 0, a commit at 0, and
   an answer after any wait of five minutes or more; reader 1 calls when the row has long been replaced.
   */
  lemma LateDeliveryIsOlder(old': Row, new': Row, wait: nat) returns (ss: seq<State>, es: seq<Event>)
    requires old'.id == new'.id == 1 && old' != new' && wait >= USERS_EXPIRE_TIME
    ensures Execution(ss, es) && |es| == 11
    ensures es[3] == Query(1, true) && es[4] == Store(1, true) && ss[3].now == ss[4].now == 0
    ensures es[5] == Commit(1, Some(new')) && es[7] == Call(1, 1) && es[10] == Deliver(1) && ss[10].now == wait
    ensures AnsweredIn(ss, es, 10, 0, 1, Some(old')) && AnsweredIn(ss, es, 10, 1, 1, Some(old'))
    ensures !WithinBound(ss, 10, 3, 4, Some(old'))
  {
    ss, es := LateJoinIsReached(old', new', wait);
    var answered := Answered(1, Got(Some(old')));
    BothAreAnswered(ss[10], Some(old'));
    ss, es := Extended(ss, es, Deliver(1),
                       ss[10].(flights := ss[10].flights - {1}, readers := map[0 := answered, 1 := answered]));
  }
}
