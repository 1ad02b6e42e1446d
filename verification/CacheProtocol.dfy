/**
 Concurrent requests through the caching proxy.

 Loading the learned names, each lookup, learning, the origin's answer and storing are steps of
 their own, and requests interleave between them. Time passes and the store forgets at any point.
 */
module CacheProtocol {
  import opened CacheIndexes
  import opened Freshness
  import opened Headers
  import opened Responses
  import opened Variants
  import opened Wrappers

  datatype Outcome =
    | FromCache(stored: Stored, at: Time)
    | FromOrigin(script: seq<Event>)
    | Bypassed

  /** Where a request is. `again` marks the second fetch, after a hit whose variant header did not match. */
  datatype Pc =
    | Loading(names: seq<string>, again: bool)
    | Looking(names: seq<string>, again: bool)
    | LookingBase(names: seq<string>, again: bool)
    | Learning(stored: Stored, at: Time)
    | Missed(names: seq<string>)
    | Remembering(exchange: Exchange)
    | Storing(exchange: Exchange)
    | Done(outcome: Outcome)

  datatype Proc = Proc(request: Request, pc: Pc)

  datatype State = State(shared: Shared, procs: map<nat, Proc>)

  datatype Move =
    | Arrive(pid: nat, request: Request)
    | Proceed(pid: nat)
    | AnswerFromOrigin(pid: nat, script: seq<Event>)
    | Store(pid: nat, admitted: bool)
    | Tick(elapsed: nat)
    | Forget(gone: set<CacheKey>)

  /** What a hit leads to: learning from it the first time, serving it the second. */
  function OnHit(stored: Stored, again: bool, now: Time): Pc {
    if again then Done(FromCache(stored, now)) else Learning(stored, now)
  }

  /** The step of a request whose next move is its own. */
  function Proceeded(c: Config, s: Shared, p: Proc): (Shared, Pc)
    requires p.pc.Loading? || p.pc.Looking? || p.pc.LookingBase? || p.pc.Learning? || p.pc.Missed? || p.pc.Remembering?
  {
    var base := BaseKey(c, p.request);
    match p.pc
    case Loading(names, again) =>
      (s, Looking(LoadNames(s.index, base, names), again))
    case Looking(names, again) =>
      var key := KeyOf(c, p.request, names);
      (match Fetch(c, s, key)
       case Some(stored) => (s, OnHit(stored, again, s.now))
       case None => (s, if key != base then LookingBase(names, again) else Missed(names)))
    case LookingBase(names, again) =>
      (match Fetch(c, s, base)
       case Some(stored) => (s, OnHit(stored, again, s.now))
       case None => (s, Missed(names)))
    case Learning(stored, at) =>
      var names := NamesIn(stored.header);
      (s.(index := Remember(s.index, base, names)),
       if Fitting(names, stored.variantHeader, p.request) then Done(FromCache(stored, at)) else Loading(names, true))
    case Missed(names) =>
      (s, if ShouldCache(p.request) then p.pc else Done(Bypassed))
    case Remembering(x) =>
      (s.(index := Remember(s.index, base, x.names)), Storing(x))
  }

  /** `Variants.Fits`, computed. */
  predicate Fitting(names: seq<string>, values: Header, r: Request)
    ensures Fitting(names, values, r) <==> Fits(names, values, r)
  {
    forall n | n in names :: Get(values, n) == Get(r.header, n)
  }

  ghost predicate Next(c: Config, s: State, m: Move, s': State) {
    match m
    case Arrive(pid, request) =>
      pid !in s.procs && s' == s.(procs := s.procs[pid := Proc(request, Loading([], false))])
    case Proceed(pid) =>
      && pid in s.procs
      && var p := s.procs[pid];
         && (p.pc.Loading? || p.pc.Looking? || p.pc.LookingBase? || p.pc.Learning? || p.pc.Missed? || p.pc.Remembering?)
         && var (shared, pc) := Proceeded(c, s.shared, p);
            s' == State(shared, s.procs[pid := Proc(p.request, pc)])
    case AnswerFromOrigin(pid, script) =>
      && pid in s.procs && s.procs[pid].pc.Missed? && ShouldCache(s.procs[pid].request)
      && var x := Observe(c, s.procs[pid].request, script, s.shared.now);
         s' == State(s.shared.(log := s.shared.log + {x}),
                     s.procs[pid := Proc(x.request,
                                         if x.until.Some? then Remembering(x) else Done(FromOrigin(script)))])
    case Store(pid, admitted) =>
      && pid in s.procs && s.procs[pid].pc.Storing?
      && var x := s.procs[pid].pc.exchange;
         && x.until.Some?
         && s' == State(s.shared.(store := StoreExchange(c, s.shared, x, admitted)),
                        s.procs[pid := Proc(s.procs[pid].request, Done(FromOrigin(x.script)))])
    case Tick(elapsed) => s' == s.(shared := s.shared.(now := s.shared.now + elapsed))
    case Forget(gone) => s' == s.(shared := s.shared.(store := s.shared.store - gone))
  }

  /** The moves of a run stay within a universe of requests and learned lists. */
  ghost predicate Within(c: Config, u: Universe, s: State, m: Move) {
    && (m.Arrive? ==> m.request in u.requests)
    && (m.AnswerFromOrigin? && m.pid in s.procs ==> AnswerIn(c, u, s.procs[m.pid].request, m.script, s.shared.now))
  }

  ghost predicate Moves(c: Config, u: Universe, ss: seq<State>, ms: seq<Move>, i: nat)
    requires |ss| == |ms| + 1 && i < |ms|
  {
    Within(c, u, ss[i], ms[i]) && Next(c, ss[i], ms[i], ss[i + 1])
  }

  /** Any number of moves from cold indexes with no request under way. */
  ghost predicate Run(c: Config, u: Universe, ss: seq<State>, ms: seq<Move>) {
    && RoundTrips(c)
    && |ss| == |ms| + 1
    && ss[0].procs == map[] && ss[0].shared.index == map[] && ss[0].shared.store == map[] && ss[0].shared.log == {}
    && forall i: nat {:trigger Moves(c, u, ss, ms, i)} | i < |ms| :: Moves(c, u, ss, ms, i)
  }

  /** A run in which no keys coincide by accident. */
  ghost predicate Execution(c: Config, u: Universe, ss: seq<State>, ms: seq<Move>) {
    CollisionFree(c, u) && Run(c, u, ss, ms)
  }

  // ---------------------------------------------------------------- the invariant

  ghost predicate SoundHit(c: Config, s: Shared, r: Request, stored: Stored, at: Time) {
    at <= s.now && exists x :: x in s.log && Answers(c, x, r, stored, at)
  }

  ghost predicate FirstFetch(u: Universe, r: Request, names: seq<string>, again: bool) {
    !again && names in Lists(u, r)
  }

  ghost predicate OwnExchange(c: Config, s: Shared, r: Request, x: Exchange) {
    x in s.log && x.request == r && x.until.Some?
  }

  ghost predicate ProcOk(c: Config, u: Universe, s: Shared, p: Proc) {
    && p.request in u.requests
    && match p.pc
       case Loading(names, again) => FirstFetch(u, p.request, names, again)
       case Looking(names, again) => FirstFetch(u, p.request, names, again)
       case LookingBase(names, again) => FirstFetch(u, p.request, names, again)
       case Learning(stored, at) =>
         && SoundHit(c, s, p.request, stored, at)
         && NamesIn(stored.header) in Lists(u, p.request)
         && Fits(NamesIn(stored.header), stored.variantHeader, p.request)
       case Missed(_) => true
       case Remembering(x) => OwnExchange(c, s, p.request, x)
       case Storing(x) => OwnExchange(c, s, p.request, x)
       case Done(outcome) => outcome.FromCache? ==> SoundHit(c, s, p.request, outcome.stored, outcome.at)
  }

  ghost predicate Inv(c: Config, u: Universe, s: State) {
    SharedOk(c, u, s.shared) && forall pid | pid in s.procs :: ProcOk(c, u, s.shared, s.procs[pid])
  }

  /** What a request has seen stays true as the log and the clock grow. */
  lemma ProcOkGrows(c: Config, u: Universe, s: Shared, s': Shared, p: Proc)
    requires ProcOk(c, u, s, p) && s.log <= s'.log && s.now <= s'.now
    ensures ProcOk(c, u, s', p)
  {
    var hit := if p.pc.Learning? then Some((p.pc.stored, p.pc.at))
               else if p.pc.Done? && p.pc.outcome.FromCache? then Some((p.pc.outcome.stored, p.pc.outcome.at))
               else None;
    if hit.Some? {
      var x :| x in s.log && Answers(c, x, p.request, hit.value.0, hit.value.1);
      assert x in s'.log;
    }
  }

  lemma OthersStayOk(c: Config, u: Universe, s: State, s': State, pid: nat)
    requires Inv(c, u, s) && SharedOk(c, u, s'.shared)
    requires s.shared.log <= s'.shared.log && s.shared.now <= s'.shared.now
    requires pid in s'.procs && s'.procs == s.procs[pid := s'.procs[pid]]
    requires ProcOk(c, u, s'.shared, s'.procs[pid])
    ensures Inv(c, u, s')
  {
    forall other | other in s'.procs && other != pid
      ensures ProcOk(c, u, s'.shared, s'.procs[other])
    {
      ProcOkGrows(c, u, s.shared, s'.shared, s.procs[other]);
    }
  }

  /** A successful lookup under a key of the request's own yields a sound answer that fits the request. */
  lemma LookupIsSound(c: Config, u: Universe, s: Shared, r: Request, names: seq<string>)
    requires RoundTrips(c) && CollisionFree(c, u) && SharedOk(c, u, s)
    requires r in u.requests && names in Lists(u, r)
    requires Fetch(c, s, KeyOf(c, r, names)).Some?
    ensures ProcOk(c, u, s, Proc(r, Learning(Fetch(c, s, KeyOf(c, r, names)).value, s.now)))
  {
    var x := FetchIsSound(c, u, s, r, names);
    assert SoundHit(c, s, r, Fetch(c, s, KeyOf(c, r, names)).value, s.now);
  }

  lemma ProceedKeepsInv(c: Config, u: Universe, s: State, pid: nat, s': State)
    requires RoundTrips(c) && CollisionFree(c, u) && Inv(c, u, s)
    requires Next(c, s, Proceed(pid), s')
    ensures Inv(c, u, s')
  {
    var p := s.procs[pid];
    assert ProcOk(c, u, s.shared, p);
    match p.pc {
      case Looking(names, again) =>
        if Fetch(c, s.shared, KeyOf(c, p.request, names)).Some? { LookupIsSound(c, u, s.shared, p.request, names); }
      case LookingBase(names, again) =>
        if Fetch(c, s.shared, BaseKey(c, p.request)).Some? { LookupIsSound(c, u, s.shared, p.request, []); }
      case Learning(stored, at) =>
        RememberKeepsShared(c, u, s.shared, p.request, NamesIn(stored.header));
        ProcOkGrows(c, u, s.shared, s'.shared, p);
      case Remembering(x) =>
        assert ExchangeIn(c, u, x);
        RememberKeepsShared(c, u, s.shared, p.request, x.names);
      case _ =>
    }
    OthersStayOk(c, u, s, s', pid);
  }

  lemma NextKeepsInv(c: Config, u: Universe, s: State, m: Move, s': State)
    requires RoundTrips(c) && CollisionFree(c, u) && Inv(c, u, s)
    requires Within(c, u, s, m) && Next(c, s, m, s')
    ensures Inv(c, u, s')
  {
    match m
    case Arrive(pid, request) =>
      OthersStayOk(c, u, s, s', pid);
    case Proceed(pid) =>
      ProceedKeepsInv(c, u, s, pid, s');
    case AnswerFromOrigin(pid, script) =>
      assert ProcOk(c, u, s.shared, s.procs[pid]);
      var x := Observe(c, s.procs[pid].request, script, s.shared.now);
      AnswerKeepsShared(c, u, s.shared, x);
      OthersStayOk(c, u, s, s', pid);
    case Store(pid, admitted) =>
      assert ProcOk(c, u, s.shared, s.procs[pid]);
      StoreKeepsShared(c, u, s.shared, s.procs[pid].pc.exchange, admitted);
      OthersStayOk(c, u, s, s', pid);
    case Tick(elapsed) =>
      ForgetKeepsShared(c, u, s.shared, {}, s'.shared.now);
      assert s.shared.store - {} == s.shared.store;
      forall pid | pid in s'.procs { ProcOkGrows(c, u, s.shared, s'.shared, s.procs[pid]); }
    case Forget(gone) =>
      ForgetKeepsShared(c, u, s.shared, gone, s.shared.now);
      forall pid | pid in s'.procs { ProcOkGrows(c, u, s.shared, s'.shared, s.procs[pid]); }
  }

  lemma ColdStateIsOk(c: Config, u: Universe, s: State)
    requires s.procs == map[] && s.shared.index == map[] && s.shared.store == map[] && s.shared.log == {}
    ensures Inv(c, u, s)
  {
  }

  lemma MoveOfRun(c: Config, u: Universe, ss: seq<State>, ms: seq<Move>, k: nat)
    requires Execution(c, u, ss, ms) && k < |ms|
    ensures Within(c, u, ss[k], ms[k]) && Next(c, ss[k], ms[k], ss[k + 1])
  {
    assert Moves(c, u, ss, ms, k);
  }

  lemma MoveKeepsInv(c: Config, u: Universe, ss: seq<State>, ms: seq<Move>, k: nat)
    requires Execution(c, u, ss, ms) && k < |ms| && Inv(c, u, ss[k])
    ensures Inv(c, u, ss[k + 1])
  {
    MoveOfRun(c, u, ss, ms, k);
    NextKeepsInv(c, u, ss[k], ms[k], ss[k + 1]);
  }

  lemma {:induction false} InvHolds(c: Config, u: Universe, ss: seq<State>, ms: seq<Move>, n: nat)
    requires Execution(c, u, ss, ms) && n <= |ms|
    ensures Inv(c, u, ss[n])
  {
    if n == 0 {
      ColdStateIsOk(c, u, ss[0]);
    } else {
      InvHolds(c, u, ss, ms, n - 1);
      MoveKeepsInv(c, u, ss, ms, n - 1);
    }
  }

  /** The move that logged an exchange. */
  lemma {:induction false} LoggedAt(c: Config, u: Universe, ss: seq<State>, ms: seq<Move>, n: nat, x: Exchange)
    returns (k: nat)
    requires Execution(c, u, ss, ms) && n <= |ms| && x in ss[n].shared.log
    ensures k < n && x !in ss[k].shared.log && x in ss[k + 1].shared.log
  {
    k := n - 1;
    if x in ss[n - 1].shared.log {
      k := LoggedAt(c, u, ss, ms, n - 1, x);
    }
  }

  /** Move `k` is the origin's answer of this exchange. */
  ghost predicate OriginAnswered(ss: seq<State>, ms: seq<Move>, k: nat, x: Exchange)
    requires |ss| == |ms| + 1
  {
    && k < |ms| && ms[k].AnswerFromOrigin? && ms[k].script == x.script
    && ms[k].pid in ss[k].procs && ss[k].procs[ms[k].pid].request == x.request
    && ss[k].shared.now == x.at
  }

  /** The log holds what the origin really answered. */
  lemma LogIsTheOrigins(c: Config, u: Universe, ss: seq<State>, ms: seq<Move>, n: nat, x: Exchange) returns (k: nat)
    requires Execution(c, u, ss, ms) && n <= |ms| && x in ss[n].shared.log
    ensures k < n && OriginAnswered(ss, ms, k, x)
  {
    k := LoggedAt(c, u, ss, ms, n, x);
    assert Moves(c, u, ss, ms, k);
  }

  /** And what it holds of an answer is what the capture makes of the origin's events. */
  lemma LogIsObserved(c: Config, u: Universe, ss: seq<State>, ms: seq<Move>, n: nat, x: Exchange)
    requires Execution(c, u, ss, ms) && n <= |ms| && x in ss[n].shared.log
    ensures Observed(c, x)
  {
    var k := LoggedAt(c, u, ss, ms, n, x);
    assert Moves(c, u, ss, ms, k);
  }

  // ---------------------------------------------------------------- soundness of hits

  /**
   In every interleaving, a response served from the cache is one that the origin produced before, in
   move `k`, for a request with the same target that agrees on every header its Vary names, and is
   still fresh.
   */
  lemma EveryHitIsSound(c: Config, u: Universe, ss: seq<State>, ms: seq<Move>, n: nat, pid: nat, stored: Stored,
                        at: Time)
    returns (x: Exchange, k: nat)
    requires Execution(c, u, ss, ms) && n <= |ms|
    requires pid in ss[n].procs && ss[n].procs[pid].pc == Done(FromCache(stored, at))
    ensures k < n && OriginAnswered(ss, ms, k, x) && x in ss[n].shared.log
    ensures Answers(c, x, ss[n].procs[pid].request, stored, at)
  {
    InvHolds(c, u, ss, ms, n);
    assert ProcOk(c, u, ss[n].shared, ss[n].procs[pid]);
    x :| x in ss[n].shared.log && Answers(c, x, ss[n].procs[pid].request, stored, at);
    k := LogIsTheOrigins(c, u, ss, ms, n, x);
  }

  /** No request ever fetches a second time. */
  lemma NoSecondFetch(c: Config, u: Universe, ss: seq<State>, ms: seq<Move>, n: nat, pid: nat)
    requires Execution(c, u, ss, ms) && n <= |ms| && pid in ss[n].procs
    ensures var pc := ss[n].procs[pid].pc; pc.Loading? || pc.Looking? || pc.LookingBase? ==> !pc.again
  {
    InvHolds(c, u, ss, ms, n);
    assert ProcOk(c, u, ss[n].shared, ss[n].procs[pid]);
  }

  /** Because the variant header of what it finds always matches. */
  lemma EveryHitFits(c: Config, u: Universe, ss: seq<State>, ms: seq<Move>, n: nat, pid: nat)
    requires Execution(c, u, ss, ms) && n <= |ms| && pid in ss[n].procs && ss[n].procs[pid].pc.Learning?
    ensures var pc := ss[n].procs[pid].pc;
            Fits(NamesIn(pc.stored.header), pc.stored.variantHeader, ss[n].procs[pid].request)
  {
    InvHolds(c, u, ss, ms, n);
    assert ProcOk(c, u, ss[n].shared, ss[n].procs[pid]);
  }

  /** Every entry of a reachable store decodes to a storable answer of the origin, within all the limits. */
  lemma EveryEntryIsFitToStore(c: Config, u: Universe, ss: seq<State>, ms: seq<Move>, n: nat, key: CacheKey)
    returns (x: Exchange)
    requires Execution(c, u, ss, ms) && n <= |ms| && key in ss[n].shared.store
    ensures x in ss[n].shared.log && Observed(c, x) && EntryOf(c, x, key, ss[n].shared.store[key])
    ensures c.decode(ss[n].shared.store[key].value) == Some(x.stored)
    ensures FitToStore(c, x)
  {
    InvHolds(c, u, ss, ms, n);
    x :| x in ss[n].shared.log && EntryOf(c, x, key, ss[n].shared.store[key]);
    LogIsObserved(c, u, ss, ms, n, x);
    StorableIsFitToStore(c, x);
  }
}
