/**
 When a request is sure to be answered from the cache.

 While the origin's Vary for a URL stays the same and nothing is forgotten, a stored response is
 served to every later request of its variant until it expires, whatever else goes on: other
 variants and other URLs cannot displace what has been learned, nor what has been stored.
 */
module CacheWarmth {
  import opened CacheIndexes
  import opened CacheProtocol
  import opened Freshness
  import opened MemoryCaching
  import opened Variants
  import opened Wrappers

  /** The index says that this request's URL varies by exactly these names. */
  ghost predicate Knows(c: Config, s: Shared, r: Request, names: seq<string>) {
    LoadNames(s.index, BaseKey(c, r), []) == names
  }

  /** The store has an entry for this request's variant that is live until then at least. */
  ghost predicate Keeps(c: Config, s: Shared, r: Request, names: seq<string>, until: Time) {
    KeyOf(c, r, names) in s.store && s.store[KeyOf(c, r, names)].expiry >= until
  }

  /** All the origin's storable answers for this request's URL, so far, vary by the same names. */
  ghost predicate VaryConstant(c: Config, s: Shared, r: Request, names: seq<string>) {
    forall x | x in s.log && SameTarget(x.request, r) && x.until.Some? :: x.names == names
  }

  /** A move that neither forgets the entry nor replaces it by one that expires sooner. */
  ghost predicate Undisturbed(c: Config, s: State, m: Move, key: CacheKey, until: Time) {
    && (m.Forget? ==> key !in m.gone)
    && (m.Store? && m.pid in s.procs && s.procs[m.pid].pc.Storing? ==>
          var x := s.procs[m.pid].pc.exchange;
          x.until.Some? && KeyOf(c, x.request, x.names) == key ==> x.until.value >= until)
  }

  lemma LogGrows(c: Config, s: State, m: Move, s': State)
    requires Next(c, s, m, s')
    ensures s.shared.log <= s'.shared.log && s.shared.now <= s'.shared.now
  {
  }

  /** Learning names for a URL leaves what is known of another URL, and of this one if they are the same names. */
  lemma RememberKeepsKnown(c: Config, u: Universe, s: Shared, r: Request, names: seq<string>, other: Request,
                           learned: seq<string>)
    requires CollisionFree(c, u) && r in u.requests && other in u.requests
    requires Knows(c, s, r, names)
    requires SameTarget(other, r) ==> learned == names
    ensures Knows(c, s.(index := Remember(s.index, BaseKey(c, other), learned)), r, names)
  {
    if BaseKey(c, other) == BaseKey(c, r) {
      BaseKeyMeansTarget(c, u, other, r);
    }
  }

  lemma NextKeepsKnown(c: Config, u: Universe, s: State, m: Move, s': State, r: Request, names: seq<string>)
    requires RoundTrips(c) && CollisionFree(c, u) && Inv(c, u, s) && r in u.requests
    requires Next(c, s, m, s') && VaryConstant(c, s'.shared, r, names)
    requires Knows(c, s.shared, r, names)
    ensures Knows(c, s'.shared, r, names)
  {
    LogGrows(c, s, m, s');
    if m.Proceed? {
      var p := s.procs[m.pid];
      assert ProcOk(c, u, s.shared, p);
      if p.pc.Learning? {
        var x :| x in s.shared.log && Answers(c, x, p.request, p.pc.stored, p.pc.at);
        assert ExchangeIn(c, u, x);
        RememberKeepsKnown(c, u, s.shared, r, names, p.request, NamesIn(p.pc.stored.header));
      } else if p.pc.Remembering? {
        RememberKeepsKnown(c, u, s.shared, r, names, p.request, p.pc.exchange.names);
      }
    }
  }

  /** A Set that replaces an entry gives it exactly the expiry of the exchange it stores. */
  lemma StoredExpiry(c: Config, u: Universe, s: Shared, x: Exchange, admitted: bool, key: CacheKey)
    requires SharedOk(c, u, s) && x in s.log && x.until.Some?
    requires key in StoreExchange(c, s, x, admitted)
    ensures (key in s.store && StoreExchange(c, s, x, admitted)[key] == s.store[key])
         || (key == KeyOf(c, x.request, x.names) && StoreExchange(c, s, x, admitted)[key].expiry == x.until.value)
  {
    assert x.until.value - s.now <= MAX_INT64;
  }

  /** What a move makes of the store. */
  ghost predicate StoreMoved(c: Config, s: State, m: Move, store: map<CacheKey, Held>) {
    if m.Store? then
      && m.pid in s.procs && s.procs[m.pid].pc.Storing? && s.procs[m.pid].pc.exchange.until.Some?
      && store == StoreExchange(c, s.shared, s.procs[m.pid].pc.exchange, m.admitted)
    else store == if m.Forget? then s.shared.store - m.gone else s.shared.store
  }

  lemma NextMovesStore(c: Config, s: State, m: Move, s': State)
    requires Next(c, s, m, s')
    ensures StoreMoved(c, s, m, s'.shared.store)
  {
  }

  lemma StoringKeepsEntry(c: Config, u: Universe, s: Shared, x: Exchange, admitted: bool, key: CacheKey, until: Time)
    requires SharedOk(c, u, s) && x in s.log && x.until.Some?
    requires KeyOf(c, x.request, x.names) == key ==> x.until.value >= until
    requires key in s.store && s.store[key].expiry >= until
    ensures var store := StoreExchange(c, s, x, admitted); key in store && store[key].expiry >= until
  {
    StoredExpiry(c, u, s, x, admitted, key);
  }

  lemma StorerHasLogged(c: Config, u: Universe, s: State, pid: nat)
    requires Inv(c, u, s) && pid in s.procs && s.procs[pid].pc.Storing?
    ensures SharedOk(c, u, s.shared) && s.procs[pid].pc.exchange in s.shared.log && s.procs[pid].pc.exchange.until.Some?
  {
    assert ProcOk(c, u, s.shared, s.procs[pid]);
  }

  lemma NextKeepsEntry(c: Config, u: Universe, s: State, m: Move, s': State, key: CacheKey, until: Time)
    requires Inv(c, u, s) && Next(c, s, m, s') && Undisturbed(c, s, m, key, until)
    requires key in s.shared.store && s.shared.store[key].expiry >= until
    ensures key in s'.shared.store && s'.shared.store[key].expiry >= until
  {
    NextMovesStore(c, s, m, s');
    if m.Store? {
      StorerHasLogged(c, u, s, m.pid);
      StoringKeepsEntry(c, u, s.shared, s.procs[m.pid].pc.exchange, m.admitted, key, until);
    }
  }

  /** A lookup under the key of a live entry succeeds. */
  lemma LiveIsFetched(c: Config, u: Universe, s: Shared, key: CacheKey)
    requires RoundTrips(c) && SharedOk(c, u, s) && key in s.store && s.now < s.store[key].expiry
    ensures Fetch(c, s, key).Some?
  {
    var x :| x in s.log && EntryOf(c, x, key, s.store[key]);
  }

  lemma KeptMeansFetched(c: Config, u: Universe, s: Shared, r: Request, names: seq<string>, until: Time)
    requires RoundTrips(c) && SharedOk(c, u, s) && Keeps(c, s, r, names, until) && s.now < until
    ensures Fetch(c, s, KeyOf(c, r, names)).Some?
  {
    LiveIsFetched(c, u, s, KeyOf(c, r, names));
  }

  /** On its way to a hit: the request has asked only for what the cache has. */
  ghost predicate OnTrack(p: Proc, names: seq<string>) {
    || p.pc == Loading([], false)
    || p.pc == Looking(names, false)
    || p.pc.Learning?
    || (p.pc.Done? && p.pc.outcome.FromCache?)
  }

  /** How many moves of its own are left to a request on track. */
  function MovesLeft(pc: Pc): nat {
    match pc
    case Loading(_, _) => 3
    case Looking(_, _) => 2
    case Learning(_, _) => 1
    case _ => 0
  }

  /** What a request of the variant finds: the names, the entry, and that it fits. */
  lemma TrackLeadsOn(c: Config, u: Universe, s: Shared, p: Proc, names: seq<string>)
    requires ProcOk(c, u, s, p) && OnTrack(p, names) && !p.pc.Done?
    requires LoadNames(s.index, BaseKey(c, p.request), []) == names && Fetch(c, s, KeyOf(c, p.request, names)).Some?
    ensures var pc := Proceeded(c, s, p).1;
            OnTrack(Proc(p.request, pc), names) && MovesLeft(pc) == MovesLeft(p.pc) - 1
  {
  }

  /** What is known and kept for a request is known and kept for every request of its variant. */
  lemma SameForTheVariant(c: Config, u: Universe, s: Shared, r: Request, other: Request, names: seq<string>,
                          until: Time)
    requires RoundTrips(c) && SharedOk(c, u, s) && Knows(c, s, r, names) && Keeps(c, s, r, names, until)
             && s.now < until
    requires SameTarget(r, other) && Agree(names, r, other)
    ensures LoadNames(s.index, BaseKey(c, other), []) == names && Fetch(c, s, KeyOf(c, other, names)).Some?
  {
    SameVariantSameMaterial(r, other, []);
    SameVariantSameMaterial(r, other, names);
    KeptMeansFetched(c, u, s, r, names, until);
  }

  lemma StaysOnTrack(c: Config, u: Universe, s: State, pid: nat, s': State, r: Request, names: seq<string>, until: Time)
    requires RoundTrips(c) && CollisionFree(c, u) && Inv(c, u, s)
    requires Knows(c, s.shared, r, names) && Keeps(c, s.shared, r, names, until) && s.shared.now < until
    requires pid in s.procs && OnTrack(s.procs[pid], names)
    requires SameTarget(r, s.procs[pid].request) && Agree(names, r, s.procs[pid].request)
    requires Next(c, s, Proceed(pid), s')
    ensures OnTrack(s'.procs[pid], names) && MovesLeft(s'.procs[pid].pc) == MovesLeft(s.procs[pid].pc) - 1
  {
    SameForTheVariant(c, u, s.shared, r, s.procs[pid].request, names, until);
    TrackLeadsOn(c, u, s.shared, s.procs[pid], names);
  }

  /** No move from step `i` up to step `n` disturbs the entry. */
  ghost predicate Calm(c: Config, ss: seq<State>, ms: seq<Move>, i: nat, n: nat, key: CacheKey, until: Time)
    requires |ss| == |ms| + 1 && n <= |ms|
    decreases n
  {
    n <= i || (Undisturbed(c, ss[n - 1], ms[n - 1], key, until) && Calm(c, ss, ms, i, n - 1, key, until))
  }

  lemma VaryWasConstant(c: Config, s: Shared, s': Shared, r: Request, names: seq<string>)
    requires s.log <= s'.log && VaryConstant(c, s', r, names)
    ensures VaryConstant(c, s, r, names)
  {
  }

  /** One move of a run, and what is true before it. */
  lemma MoveOf(c: Config, u: Universe, ss: seq<State>, ms: seq<Move>, k: nat)
    requires Execution(c, u, ss, ms) && k < |ms|
    ensures Inv(c, u, ss[k]) && Next(c, ss[k], ms[k], ss[k + 1])
    ensures ss[k].shared.log <= ss[k + 1].shared.log && ss[k].shared.now <= ss[k + 1].shared.now
  {
    InvHolds(c, u, ss, ms, k);
    assert Moves(c, u, ss, ms, k);
    LogGrows(c, ss[k], ms[k], ss[k + 1]);
  }

  lemma MoveLogs(c: Config, u: Universe, ss: seq<State>, ms: seq<Move>, k: nat)
    requires Execution(c, u, ss, ms) && k < |ms|
    ensures ss[k].shared.log <= ss[k + 1].shared.log && ss[k].shared.now <= ss[k + 1].shared.now
  {
    MoveOf(c, u, ss, ms, k);
  }

  ghost predicate Warm(c: Config, s: Shared, r: Request, names: seq<string>, until: Time) {
    Knows(c, s, r, names) && Keeps(c, s, r, names, until)
  }

  lemma NextKeepsWarm(c: Config, u: Universe, s: State, m: Move, s': State, r: Request, names: seq<string>, until: Time)
    requires RoundTrips(c) && CollisionFree(c, u) && Inv(c, u, s) && r in u.requests
    requires Next(c, s, m, s') && VaryConstant(c, s'.shared, r, names)
    requires Undisturbed(c, s, m, KeyOf(c, r, names), until)
    requires Warm(c, s.shared, r, names, until)
    ensures Warm(c, s'.shared, r, names, until)
  {
    NextKeepsKnown(c, u, s, m, s', r, names);
    NextKeepsEntry(c, u, s, m, s', KeyOf(c, r, names), until);
  }

  lemma MoveKeepsWarm(c: Config, u: Universe, ss: seq<State>, ms: seq<Move>, k: nat, r: Request, names: seq<string>,
                      until: Time)
    requires Execution(c, u, ss, ms) && k < |ms| && r in u.requests
    requires VaryConstant(c, ss[k + 1].shared, r, names)
    requires Undisturbed(c, ss[k], ms[k], KeyOf(c, r, names), until)
    ensures VaryConstant(c, ss[k].shared, r, names)
    ensures Warm(c, ss[k].shared, r, names, until) ==> Warm(c, ss[k + 1].shared, r, names, until)
  {
    MoveOf(c, u, ss, ms, k);
    VaryWasConstant(c, ss[k].shared, ss[k + 1].shared, r, names);
    if Warm(c, ss[k].shared, r, names, until) {
      NextKeepsWarm(c, u, ss[k], ms[k], ss[k + 1], r, names, until);
    }
  }

  /** What is known and kept at step `i` is known and kept at step `n`. */
  lemma {:induction false} WarmthLasts(c: Config, u: Universe, ss: seq<State>, ms: seq<Move>, i: nat, n: nat,
                                       r: Request, names: seq<string>, until: Time)
    requires Execution(c, u, ss, ms) && i <= n <= |ms| && r in u.requests
    requires Warm(c, ss[i].shared, r, names, until)
    requires VaryConstant(c, ss[n].shared, r, names)
    requires Calm(c, ss, ms, i, n, KeyOf(c, r, names), until)
    ensures Warm(c, ss[n].shared, r, names, until)
  {
    if i < n {
      MoveKeepsWarm(c, u, ss, ms, n - 1, r, names, until);
      WarmthLasts(c, u, ss, ms, i, n - 1, r, names, until);
    }
  }

  /** The moves of others, of the clock and of evictions leave a request on track where it is. */
  lemma OthersLeaveOnTrack(c: Config, s: State, m: Move, s': State, pid: nat, names: seq<string>)
    requires Next(c, s, m, s') && m != Proceed(pid)
    requires pid in s.procs && OnTrack(s.procs[pid], names)
    ensures pid in s'.procs && s'.procs[pid] == s.procs[pid]
  {
  }

  lemma ProceedKeepsRequest(c: Config, s: State, s': State, pid: nat)
    requires Next(c, s, Proceed(pid), s')
    ensures pid in s'.procs
  {
  }

  lemma NewRequestIsOnTrack(c: Config, s: State, m: Move, s': State, pid: nat, names: seq<string>)
    requires Next(c, s, m, s') && pid !in s.procs && pid in s'.procs
    ensures OnTrack(s'.procs[pid], names) && MovesLeft(s'.procs[pid].pc) == 3 && m != Proceed(pid)
  {
  }

  /** How often a request has moved on from step `i` to step `n`. */
  ghost function OwnMoves(ms: seq<Move>, i: nat, n: nat, pid: nat): nat
    requires n <= |ms|
    decreases n
  {
    if n <= i then 0 else OwnMoves(ms, i, n - 1, pid) + (if ms[n - 1] == Proceed(pid) then 1 else 0)
  }

  lemma AbsentDoesNotMove(c: Config, s: State, m: Move, s': State, pid: nat)
    requires Next(c, s, m, s') && pid !in s'.procs
    ensures pid !in s.procs && m != Proceed(pid)
  {
  }

  lemma {:induction false} NoMovesBeforeArrival(c: Config, u: Universe, ss: seq<State>, ms: seq<Move>, i: nat, n: nat,
                                                pid: nat)
    requires Execution(c, u, ss, ms) && n <= |ms| && pid !in ss[n].procs
    ensures OwnMoves(ms, i, n, pid) == 0
    decreases n
  {
    if n > i {
      MoveOf(c, u, ss, ms, n - 1);
      AbsentDoesNotMove(c, ss[n - 1], ms[n - 1], ss[n], pid);
      NoMovesBeforeArrival(c, u, ss, ms, i, n - 1, pid);
    }
  }

  lemma RequestIsKept(c: Config, s: State, m: Move, s': State, pid: nat)
    requires Next(c, s, m, s') && pid in s.procs
    ensures pid in s'.procs && s'.procs[pid].request == s.procs[pid].request
  {
  }

  lemma MoveStaysOnTrack(c: Config, u: Universe, ss: seq<State>, ms: seq<Move>, k: nat, pid: nat, r: Request,
                         names: seq<string>, until: Time)
    requires Execution(c, u, ss, ms) && k < |ms|
    requires Warm(c, ss[k].shared, r, names, until) && ss[k].shared.now < until
    requires pid in ss[k].procs && OnTrack(ss[k].procs[pid], names)
    requires SameTarget(r, ss[k].procs[pid].request) && Agree(names, r, ss[k].procs[pid].request)
    ensures pid in ss[k + 1].procs && OnTrack(ss[k + 1].procs[pid], names)
    ensures MovesLeft(ss[k + 1].procs[pid].pc)
         == MovesLeft(ss[k].procs[pid].pc) - (if ms[k] == Proceed(pid) then 1 else 0)
  {
    MoveOf(c, u, ss, ms, k);
    if ms[k] == Proceed(pid) {
      ProceedKeepsRequest(c, ss[k], ss[k + 1], pid);
      StaysOnTrack(c, u, ss[k], pid, ss[k + 1], r, names, until);
    } else {
      OthersLeaveOnTrack(c, ss[k], ms[k], ss[k + 1], pid, names);
    }
  }

  /** Who is there after a move: a request that was there before, or one that has just arrived. */
  lemma MoveKeepsRequests(c: Config, u: Universe, ss: seq<State>, ms: seq<Move>, k: nat, pid: nat, names: seq<string>)
    requires Execution(c, u, ss, ms) && k < |ms| && pid in ss[k + 1].procs
    ensures ss[k].shared.log <= ss[k + 1].shared.log && ss[k].shared.now <= ss[k + 1].shared.now
    ensures if pid in ss[k].procs then ss[k].procs[pid].request == ss[k + 1].procs[pid].request
            else (OnTrack(ss[k + 1].procs[pid], names) && MovesLeft(ss[k + 1].procs[pid].pc) == 3
                  && ms[k] != Proceed(pid))
  {
    MoveOf(c, u, ss, ms, k);
    if pid in ss[k].procs {
      RequestIsKept(c, ss[k], ms[k], ss[k + 1], pid);
    } else {
      NewRequestIsOnTrack(c, ss[k], ms[k], ss[k + 1], pid, names);
    }
  }

  /**
   A request of the same variant that arrives after step `i` never leaves the track that ends in a hit, three
   moves on.
   */
  lemma {:induction false} WarmRequestsStayOnTrack(c: Config, u: Universe, ss: seq<State>, ms: seq<Move>, i: nat,
                                                   n: nat, r: Request, names: seq<string>, until: Time, pid: nat)
    requires Execution(c, u, ss, ms) && i <= n <= |ms| && r in u.requests
    requires Warm(c, ss[i].shared, r, names, until)
    requires VaryConstant(c, ss[n].shared, r, names) && ss[n].shared.now < until
    requires Calm(c, ss, ms, i, n, KeyOf(c, r, names), until)
    requires pid !in ss[i].procs && pid in ss[n].procs
    requires SameTarget(r, ss[n].procs[pid].request) && Agree(names, r, ss[n].procs[pid].request)
    ensures OnTrack(ss[n].procs[pid], names) && MovesLeft(ss[n].procs[pid].pc) + OwnMoves(ms, i, n, pid) == 3
  {
    MoveKeepsRequests(c, u, ss, ms, n - 1, pid, names);
    if pid in ss[n - 1].procs {
      VaryWasConstant(c, ss[n - 1].shared, ss[n].shared, r, names);
      WarmthLasts(c, u, ss, ms, i, n - 1, r, names, until);
      WarmRequestsStayOnTrack(c, u, ss, ms, i, n - 1, r, names, until, pid);
      MoveStaysOnTrack(c, u, ss, ms, n - 1, pid, r, names, until);
    } else {
      NoMovesBeforeArrival(c, u, ss, ms, i, n - 1, pid);
    }
  }

  /** One move of a request that is about to store, or of another request meanwhile. */
  lemma StorerMove(c: Config, u: Universe, ss: seq<State>, ms: seq<Move>, k: nat, pid: nat, x: Exchange)
    requires Execution(c, u, ss, ms) && k < |ms| && pid in ss[k + 1].procs && ss[k + 1].procs[pid].pc == Storing(x)
    requires VaryConstant(c, ss[k + 1].shared, x.request, x.names)
    ensures VaryConstant(c, ss[k].shared, x.request, x.names) && pid in ss[k].procs
    ensures ss[k].procs[pid].pc == Storing(x) || Knows(c, ss[k + 1].shared, x.request, x.names)
    ensures ss[k].procs[pid].pc == Storing(x) && Knows(c, ss[k].shared, x.request, x.names) ==>
              Knows(c, ss[k + 1].shared, x.request, x.names)
  {
    MoveOf(c, u, ss, ms, k);
    VaryWasConstant(c, ss[k].shared, ss[k + 1].shared, x.request, x.names);
    assert ProcOk(c, u, ss[k].shared, ss[k].procs[pid]);
    if ss[k].procs[pid].pc == Storing(x) && Knows(c, ss[k].shared, x.request, x.names) {
      NextKeepsKnown(c, u, ss[k], ms[k], ss[k + 1], x.request, x.names);
    }
  }

  /** A request about to store an exchange has seen to it that the index knows its names. */
  lemma {:induction false} StorerIsKnown(c: Config, u: Universe, ss: seq<State>, ms: seq<Move>, n: nat, pid: nat,
                                         x: Exchange)
    requires Execution(c, u, ss, ms) && n <= |ms| && pid in ss[n].procs && ss[n].procs[pid].pc == Storing(x)
    requires VaryConstant(c, ss[n].shared, x.request, x.names)
    ensures Knows(c, ss[n].shared, x.request, x.names)
  {
    StorerMove(c, u, ss, ms, n - 1, pid, x);
    if ss[n - 1].procs[pid].pc == Storing(x) {
      StorerIsKnown(c, u, ss, ms, n - 1, pid, x);
    }
  }

  /**
   Once step `i` has stored a response that fits the limits, every later request of the same variant,
   looked at before the response expires, is on its way to a hit, or has been served from the cache once
   it has made three moves of its own. The origin is never called for it.
   */
  lemma StoredResponseIsServed(c: Config, u: Universe, ss: seq<State>, ms: seq<Move>, i: nat, n: nat, storer: nat,
                               pid: nat)
    requires Execution(c, u, ss, ms) && i < n <= |ms|
    requires ms[i] == Store(storer, true) && storer in ss[i].procs && ss[i].procs[storer].pc.Storing?
    requires var x := ss[i].procs[storer].pc.exchange;
             && c.encode(x.stored).Some? && FitsLimits(c.limits, |c.encode(x.stored).value|)
             && x.until.Some? && ss[n].shared.now < x.until.value
             && VaryConstant(c, ss[n].shared, x.request, x.names)
             && Calm(c, ss, ms, i + 1, n, KeyOf(c, x.request, x.names), x.until.value)
             && pid !in ss[i + 1].procs && pid in ss[n].procs
             && SameTarget(x.request, ss[n].procs[pid].request) && Agree(x.names, x.request, ss[n].procs[pid].request)
    ensures OnTrack(ss[n].procs[pid], ss[i].procs[storer].pc.exchange.names)
    ensures MovesLeft(ss[n].procs[pid].pc) == 3 - OwnMoves(ms, i + 1, n, pid)
    ensures OwnMoves(ms, i + 1, n, pid) == 3 <==> ss[n].procs[pid].pc.Done? && ss[n].procs[pid].pc.outcome.FromCache?
  {
    var x := ss[i].procs[storer].pc.exchange;
    var names, until := x.names, x.until.value;
    MoveOf(c, u, ss, ms, i);
    assert ProcOk(c, u, ss[i].shared, ss[i].procs[storer]);
    LogOnlyGrows(c, u, ss, ms, i, n);
    StorerIsKnown(c, u, ss, ms, i, storer, x);
    assert Warm(c, ss[i + 1].shared, x.request, names, until);
    WarmRequestsStayOnTrack(c, u, ss, ms, i + 1, n, x.request, names, until, pid);
  }

  /** A request that has found a response needs one more move, which serves it, whatever has expired by then. */
  lemma FoundIsServed(c: Config, u: Universe, ss: seq<State>, ms: seq<Move>, n: nat, pid: nat)
    requires Execution(c, u, ss, ms) && n <= |ms| && pid in ss[n].procs && ss[n].procs[pid].pc.Learning?
    ensures var p := ss[n].procs[pid];
            var served := Proc(p.request, Done(FromCache(p.pc.stored, p.pc.at)));
            && (exists s' :: Next(c, ss[n], Proceed(pid), s'))
            && (forall s' | Next(c, ss[n], Proceed(pid), s') :: pid in s'.procs && s'.procs[pid] == served)
  {
    EveryHitFits(c, u, ss, ms, n, pid);
    var p := ss[n].procs[pid];
    var (shared, pc) := Proceeded(c, ss[n].shared, p);
    assert Next(c, ss[n], Proceed(pid), State(shared, ss[n].procs[pid := Proc(p.request, pc)]));
  }

  /** Serving it also teaches the index the names of its Vary, whichever key it was found under. */
  lemma HitTeaches(c: Config, u: Universe, ss: seq<State>, ms: seq<Move>, k: nat, pid: nat)
    requires Execution(c, u, ss, ms) && k < |ms| && ms[k] == Proceed(pid)
    requires pid in ss[k].procs && ss[k].procs[pid].pc.Learning?
    ensures Knows(c, ss[k + 1].shared, ss[k].procs[pid].request, NamesIn(ss[k].procs[pid].pc.stored.header))
  {
    MoveOf(c, u, ss, ms, k);
  }

  /** Where a request is that has not found anything yet. */
  predicate Searching(pc: Pc) {
    pc.Loading? || pc.Looking? || pc.LookingBase? || pc.Missed?
  }

  /** How a request came to where it is: the names were loaded in step `l`, and looked by in vain in `a` and `b`. */
  ghost predicate SearchedSo(c: Config, ss: seq<State>, n: nat, p: Proc, l: nat, a: nat, b: nat)
    requires n < |ss| && Searching(p.pc)
  {
    var base := BaseKey(c, p.request);
    && (p.pc.Loading? ==> p.pc == Loading([], false))
    && (!p.pc.Loading? ==> l < n && p.pc.names == LoadNames(ss[l].shared.index, base, []))
    && (p.pc.LookingBase? || p.pc.Missed? ==>
          l < a < n && Fetch(c, ss[a].shared, KeyOf(c, p.request, p.pc.names)).None?)
    && (p.pc.Missed? ==> a <= b < n && Fetch(c, ss[b].shared, base).None?)
  }

  /** The move by which a searching request gets where it is. */
  lemma SearchStep(c: Config, u: Universe, s: State, m: Move, s': State, pid: nat)
    requires Next(c, s, m, s') && Inv(c, u, s') && pid in s'.procs && Searching(s'.procs[pid].pc)
    ensures || (pid in s.procs && s'.procs[pid] == s.procs[pid])
            || s'.procs[pid].pc == Loading([], false)
            || (&& pid in s.procs && Searching(s.procs[pid].pc) && !s.procs[pid].pc.Missed?
                && s'.procs[pid] == Proc(s.procs[pid].request, Proceeded(c, s.shared, s.procs[pid]).1))
  {
    assert ProcOk(c, u, s'.shared, s'.procs[pid]);
  }

  lemma SearchStays(c: Config, ss: seq<State>, n: nat, p: Proc, l: nat, a: nat, b: nat)
    requires n + 1 < |ss| && Searching(p.pc) && SearchedSo(c, ss, n, p, l, a, b)
    ensures SearchedSo(c, ss, n + 1, p, l, a, b)
  {
  }

  /** After a first look in vain the request looks under its base key, or that is the key it has looked under. */
  lemma FirstLookLeads(c: Config, s: Shared, p: Proc, pc: Pc)
    requires p.pc.Looking? && pc == Proceeded(c, s, p).1 && Searching(pc)
    ensures Fetch(c, s, KeyOf(c, p.request, p.pc.names)).None? && (pc.LookingBase? || pc.Missed?)
    ensures pc.names == p.pc.names
    ensures pc.Missed? ==> Fetch(c, s, BaseKey(c, p.request)).None?
  {
  }

  lemma SearchGoesOn(c: Config, ss: seq<State>, n: nat, p: Proc, l: nat, a: nat, b: nat, pc: Pc)
    returns (l': nat, a': nat, b': nat)
    requires n + 1 < |ss| && Searching(p.pc) && !p.pc.Missed? && SearchedSo(c, ss, n, p, l, a, b)
    requires pc == Proceeded(c, ss[n].shared, p).1 && Searching(pc)
    ensures SearchedSo(c, ss, n + 1, Proc(p.request, pc), l', a', b')
  {
    l', a', b' := l, a, n;
    if p.pc.Loading? {
      l' := n;
    } else if p.pc.Looking? {
      a' := n;
      FirstLookLeads(c, ss[n].shared, p, pc);
    }
  }

  /** The request before and after, as `SearchStep` says. */
  ghost predicate SearchesOn(c: Config, s: Shared, was: Proc, p: Proc) {
    && Searching(was.pc)
    && (p == was || (!was.pc.Missed? && p == Proc(was.request, Proceeded(c, s, was).1)))
  }

  lemma SearchMove(c: Config, u: Universe, ss: seq<State>, ms: seq<Move>, k: nat, pid: nat)
    requires Execution(c, u, ss, ms) && k < |ms| && pid in ss[k + 1].procs && Searching(ss[k + 1].procs[pid].pc)
    ensures ss[k + 1].procs[pid].pc != Loading([], false) ==>
              pid in ss[k].procs && SearchesOn(c, ss[k].shared, ss[k].procs[pid], ss[k + 1].procs[pid])
  {
    MoveOf(c, u, ss, ms, k);
    InvHolds(c, u, ss, ms, k + 1);
    SearchStep(c, u, ss[k], ms[k], ss[k + 1], pid);
  }

  lemma SearchContinues(c: Config, ss: seq<State>, n: nat, was: Proc, l: nat, a: nat, b: nat, p: Proc)
    returns (l': nat, a': nat, b': nat)
    requires n + 1 < |ss| && SearchesOn(c, ss[n].shared, was, p)
    requires Searching(p.pc) && SearchedSo(c, ss, n, was, l, a, b)
    ensures SearchedSo(c, ss, n + 1, p, l', a', b')
  {
    l', a', b' := l, a, b;
    if p == was {
      SearchStays(c, ss, n, p, l, a, b);
    } else {
      l', a', b' := SearchGoesOn(c, ss, n, was, l, a, b, p.pc);
    }
  }

  lemma {:induction false} SearchOrigin(c: Config, u: Universe, ss: seq<State>, ms: seq<Move>, n: nat, pid: nat)
    returns (l: nat, a: nat, b: nat)
    requires Execution(c, u, ss, ms) && n <= |ms| && pid in ss[n].procs && Searching(ss[n].procs[pid].pc)
    ensures SearchedSo(c, ss, n, ss[n].procs[pid], l, a, b)
  {
    l, a, b := 0, 0, 0;
    SearchMove(c, u, ss, ms, n - 1, pid);
    if ss[n].procs[pid].pc != Loading([], false) {
      l, a, b := SearchOrigin(c, u, ss, ms, n - 1, pid);
      l, a, b := SearchContinues(c, ss, n - 1, ss[n - 1].procs[pid], l, a, b, ss[n].procs[pid]);
    }
  }

  /**
   A request goes to the origin, or past the cache, only if it has looked under both of its keys and found
   nothing: in step `a` under that of the names known in step `l`, and in step `b` under the URL's base key.
   */
  lemma MissMeansNothingWasKept(c: Config, u: Universe, ss: seq<State>, ms: seq<Move>, n: nat, pid: nat)
    returns (l: nat, a: nat, b: nat)
    requires Execution(c, u, ss, ms) && n <= |ms| && pid in ss[n].procs && ss[n].procs[pid].pc.Missed?
    ensures l < a <= b < n
    ensures var r := ss[n].procs[pid].request;
            && Fetch(c, ss[a].shared, KeyOf(c, r, LoadNames(ss[l].shared.index, BaseKey(c, r), []))).None?
            && Fetch(c, ss[b].shared, BaseKey(c, r)).None?
  {
    l, a, b := SearchOrigin(c, u, ss, ms, n, pid);
  }

  lemma {:induction false} LogOnlyGrows(c: Config, u: Universe, ss: seq<State>, ms: seq<Move>, i: nat, n: nat)
    requires Execution(c, u, ss, ms) && i <= n <= |ms|
    ensures ss[i].shared.log <= ss[n].shared.log && ss[i].shared.now <= ss[n].shared.now
  {
    if i < n {
      LogOnlyGrows(c, u, ss, ms, i, n - 1);
      MoveLogs(c, u, ss, ms, n - 1);
    }
  }
}
