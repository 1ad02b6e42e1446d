/**
 What serving one request does to the indexes, and that it is a run of the protocol.

 `ServesTo` is the contract of the handler on objects (`CacheHandling`); `ServingIsARun` makes every
 call of it one particular interleaving of `CacheProtocol`, whose theorems therefore apply to it.
 */
module CacheRefinement {
  import opened CacheIndexes
  import opened CacheProtocol
  import opened Freshness
  import opened Responses
  import opened Variants
  import opened Wrappers

  /** What a fetch finds: under the key of the learned names, or else under the base key. */
  function Found(c: Config, s: Shared, r: Request, had: seq<string>): Option<Stored> {
    var first := Fetch(c, s, KeyOf(c, r, LoadNames(s.index, BaseKey(c, r), had)));
    if first.Some? then first else Fetch(c, s, BaseKey(c, r))
  }

  /** Whatever a request finds is a sound answer, under names that are in its own Vary and match the request. */
  lemma FoundIsSound(c: Config, u: Universe, s: Shared, r: Request)
    requires RoundTrips(c) && CollisionFree(c, u) && SharedOk(c, u, s)
    requires r in u.requests && Found(c, s, r, []).Some?
    ensures var stored := Found(c, s, r, []).value;
            && SoundHit(c, s, r, stored, s.now)
            && NamesIn(stored.header) in Lists(u, r)
            && Fits(NamesIn(stored.header), stored.variantHeader, r)
  {
    var names := LoadNames(s.index, BaseKey(c, r), []);
    LookupIsSound(c, u, s, r, if Fetch(c, s, KeyOf(c, r, names)).Some? then names else []);
  }

  /** The indexes once the origin has given the answer `x` and it has been learned from and stored, if it may be. */
  function AfterAnswer(c: Config, s: Shared, x: Exchange, end: Time, admitted: bool): Shared {
    if x.until.None? then s.(log := s.log + {x}, now := end)
    else Shared(Remember(s.index, BaseKey(c, x.request), x.names), StoreExchange(c, s.(now := end), x, admitted),
                s.log + {x}, end)
  }

  /**
   A request that arrives in `s` is answered with `outcome` and leaves `s'`: a hit exactly when there
   is something to find; otherwise the origin's own answer, complete at `done` and stored at `end`.
   */
  ghost predicate ServesTo(c: Config, s: Shared, r: Request, script: seq<Event>, done: Time, end: Time, admitted: bool,
                           outcome: Outcome, s': Shared)
  {
    match Found(c, s, r, [])
    case Some(stored) =>
      && outcome == FromCache(stored, s.now)
      && s' == s.(index := Remember(s.index, BaseKey(c, r), NamesIn(stored.header)), now := end)
    case None =>
      if ShouldCache(r) then
        && outcome == FromOrigin(script)
        && s' == AfterAnswer(c, s, Observe(c, r, script, done), end, admitted)
      else outcome == Bypassed && s' == s.(now := end)
  }

  // ---------------------------------------------------------------- runs

  ghost predicate StepTo(c: Config, u: Universe, s: State, m: Move, s': State) {
    Within(c, u, s, m) && Next(c, s, m, s')
  }

  ghost predicate Leads(c: Config, u: Universe, s: State, ms: seq<Move>, s': State)
    decreases |ms|
  {
    if ms == [] then s == s' else exists mid :: StepTo(c, u, s, ms[0], mid) && Leads(c, u, mid, ms[1..], s')
  }

  lemma Single(c: Config, u: Universe, s: State, m: Move, s': State)
    requires StepTo(c, u, s, m, s')
    ensures Leads(c, u, s, [m], s')
  {
    assert Leads(c, u, s', [m][1..], s');
  }

  lemma {:induction false} Chain(c: Config, u: Universe, s: State, ms: seq<Move>, mid: State, ns: seq<Move>, s': State)
    requires Leads(c, u, s, ms, mid) && Leads(c, u, mid, ns, s')
    ensures Leads(c, u, s, ms + ns, s')
    decreases |ms|
  {
    if ms == [] {
      assert ms + ns == ns;
    } else {
      var next :| StepTo(c, u, s, ms[0], next) && Leads(c, u, next, ms[1..], mid);
      Chain(c, u, next, ms[1..], mid, ns, s');
      assert (ms + ns)[1..] == ms[1..] + ns;
    }
  }

  /** One request among others. */
  function At(s: Shared, others: map<nat, Proc>, pid: nat, r: Request, pc: Pc): State {
    State(s, others[pid := Proc(r, pc)])
  }

  lemma ProceedLeads(c: Config, u: Universe, s: Shared, others: map<nat, Proc>, pid: nat, r: Request, pc: Pc)
    requires pc.Loading? || pc.Looking? || pc.LookingBase? || pc.Learning? || pc.Missed? || pc.Remembering?
    ensures var (shared, pc') := Proceeded(c, s, Proc(r, pc));
            Leads(c, u, At(s, others, pid, r, pc), [Proceed(pid)], At(shared, others, pid, r, pc'))
  {
    var (shared, pc') := Proceeded(c, s, Proc(r, pc));
    assert At(s, others, pid, r, pc).procs[pid := Proc(r, pc')] == others[pid := Proc(r, pc')];
    Single(c, u, At(s, others, pid, r, pc), Proceed(pid), At(shared, others, pid, r, pc'));
  }

  /** A run that goes on until a later instant. */
  lemma ThenTick(c: Config, u: Universe, s: State, ms: seq<Move>, s1: State, later: Time)
    requires Leads(c, u, s, ms, s1) && s1.shared.now <= later
    ensures Leads(c, u, s, ms + [Tick(later - s1.shared.now)], s1.(shared := s1.shared.(now := later)))
  {
    Single(c, u, s1, Tick(later - s1.shared.now), s1.(shared := s1.shared.(now := later)));
    Chain(c, u, s, ms, s1, [Tick(later - s1.shared.now)], s1.(shared := s1.shared.(now := later)));
  }

  /** Where the lookup leaves a request. */
  function LookedUp(c: Config, s: Shared, r: Request): Pc {
    match Found(c, s, r, [])
    case Some(stored) => Learning(stored, s.now)
    case None => Missed(LoadNames(s.index, BaseKey(c, r), []))
  }

  /** Loading the names and looking under one key or two. */
  lemma LookupLeads(c: Config, u: Universe, s: Shared, others: map<nat, Proc>, pid: nat, r: Request)
    returns (ms: seq<Move>)
    ensures Leads(c, u, At(s, others, pid, r, Loading([], false)), ms, At(s, others, pid, r, LookedUp(c, s, r)))
  {
    var names := LoadNames(s.index, BaseKey(c, r), []);
    var pc := Proceeded(c, s, Proc(r, Looking(names, false))).1;
    ProceedLeads(c, u, s, others, pid, r, Loading([], false));
    ProceedLeads(c, u, s, others, pid, r, Looking(names, false));
    ms := [Proceed(pid)] + [Proceed(pid)];
    Chain(c, u, At(s, others, pid, r, Loading([], false)), [Proceed(pid)], At(s, others, pid, r, Looking(names, false)),
          [Proceed(pid)], At(s, others, pid, r, pc));
    if pc.LookingBase? {
      ProceedLeads(c, u, s, others, pid, r, pc);
      Chain(c, u, At(s, others, pid, r, Loading([], false)), ms, At(s, others, pid, r, pc),
            [Proceed(pid)], At(s, others, pid, r, Proceeded(c, s, Proc(r, pc)).1));
      ms := ms + [Proceed(pid)];
    }
  }

  /** Where a request stands once the origin has given the answer `x`. */
  function Answered(x: Exchange): Pc {
    if x.until.Some? then Remembering(x) else Done(FromOrigin(x.script))
  }

  lemma AnswerSteps(c: Config, u: Universe, s: State, pid: nat, script: seq<Event>)
    requires pid in s.procs && s.procs[pid].pc.Missed? && ShouldCache(s.procs[pid].request)
    requires AnswerIn(c, u, s.procs[pid].request, script, s.shared.now)
    ensures var x := Observe(c, s.procs[pid].request, script, s.shared.now);
            StepTo(c, u, s, AnswerFromOrigin(pid, script),
                   State(s.shared.(log := s.shared.log + {x}), s.procs[pid := Proc(s.procs[pid].request, Answered(x))]))
  {
  }

  lemma AtTwice(s: Shared, others: map<nat, Proc>, pid: nat, r: Request, pc: Pc, pc': Pc)
    ensures State(s, At(s, others, pid, r, pc).procs[pid := Proc(r, pc')]) == At(s, others, pid, r, pc')
  {
    assert others[pid := Proc(r, pc)][pid := Proc(r, pc')] == others[pid := Proc(r, pc')];
  }

  /** The origin answers: one move, at the instant `s.now`. */
  lemma AnswerLeads(c: Config, u: Universe, s: Shared, others: map<nat, Proc>, pid: nat, r: Request, names: seq<string>,
                    script: seq<Event>, x: Exchange, asked: Shared)
    requires ShouldCache(r) && AnswerIn(c, u, r, script, s.now)
    requires x == Observe(c, r, script, s.now) && asked == s.(log := s.log + {x})
    ensures Leads(c, u, At(s, others, pid, r, Missed(names)), [AnswerFromOrigin(pid, script)],
                  At(asked, others, pid, r, Answered(x)))
  {
    AnswerSteps(c, u, At(s, others, pid, r, Missed(names)), pid, script);
    AtTwice(asked, others, pid, r, Missed(names), Answered(x));
    Single(c, u, At(s, others, pid, r, Missed(names)), AnswerFromOrigin(pid, script),
           At(asked, others, pid, r, Answered(x)));
  }

  lemma StoreLeads(c: Config, u: Universe, s: Shared, others: map<nat, Proc>, pid: nat, r: Request, x: Exchange,
                   admitted: bool)
    requires x.until.Some?
    ensures Leads(c, u, At(s, others, pid, r, Storing(x)), [Store(pid, admitted)],
                  At(s.(store := StoreExchange(c, s, x, admitted)), others, pid, r, Done(FromOrigin(x.script))))
  {
    var pc := Done(FromOrigin(x.script));
    assert At(s, others, pid, r, Storing(x)).procs[pid := Proc(r, pc)] == others[pid := Proc(r, pc)];
    Single(c, u, At(s, others, pid, r, Storing(x)), Store(pid, admitted),
           At(s.(store := StoreExchange(c, s, x, admitted)), others, pid, r, pc));
  }

  /** What may be stored is learned from, and then stored at `end`. */
  lemma KeepLeads(c: Config, u: Universe, s: Shared, others: map<nat, Proc>, pid: nat, r: Request, x: Exchange,
                  end: Time, admitted: bool)
    returns (ms: seq<Move>)
    requires x.until.Some? && x.request == r && s.now <= end
    ensures Leads(c, u, At(s, others, pid, r, Remembering(x)), ms,
                  At(s.(index := Remember(s.index, BaseKey(c, r), x.names), now := end,
                        store := StoreExchange(c, s.(now := end), x, admitted)),
                     others, pid, r, Done(FromOrigin(x.script))))
  {
    var learned := s.(index := Remember(s.index, BaseKey(c, r), x.names));
    var start, storing := At(s, others, pid, r, Remembering(x)), At(learned, others, pid, r, Storing(x));
    ProceedLeads(c, u, s, others, pid, r, Remembering(x));
    ThenTick(c, u, start, [Proceed(pid)], storing, end);
    StoreLeads(c, u, learned.(now := end), others, pid, r, x, admitted);
    ms := [Proceed(pid)] + [Tick(end - s.now)];
    Chain(c, u, start, ms, storing.(shared := learned.(now := end)), [Store(pid, admitted)],
          At(learned.(now := end, store := StoreExchange(c, learned.(now := end), x, admitted)), others, pid, r,
             Done(FromOrigin(x.script))));
    ms := ms + [Store(pid, admitted)];
  }

  /** From the answer to the end, after some moves up to the answer. */
  lemma AfterwardsLeads(c: Config, u: Universe, start: State, before: seq<Move>, s: Shared, others: map<nat, Proc>,
                        pid: nat, r: Request, x: Exchange, done: Time, end: Time, admitted: bool)
    returns (ms: seq<Move>)
    requires x.request == r && done <= end
    requires Leads(c, u, start, before, At(s.(log := s.log + {x}, now := done), others, pid, r, Answered(x)))
    ensures Leads(c, u, start, ms, At(AfterAnswer(c, s, x, end, admitted), others, pid, r, Done(FromOrigin(x.script))))
  {
    var asked := s.(log := s.log + {x}, now := done);
    if x.until.Some? {
      var rest := KeepLeads(c, u, asked, others, pid, r, x, end, admitted);
      ms := before + rest;
      Chain(c, u, start, before, At(asked, others, pid, r, Answered(x)), rest,
            At(AfterAnswer(c, s, x, end, admitted), others, pid, r, Done(FromOrigin(x.script))));
    } else {
      ThenTick(c, u, start, before, At(asked, others, pid, r, Answered(x)), end);
      ms := before + [Tick(end - done)];
    }
  }

  /** From a miss to the end, given the moves in which the origin answers. */
  lemma OriginLeads(c: Config, u: Universe, start: State, before: seq<Move>, s: Shared, others: map<nat, Proc>,
                    pid: nat, r: Request, missed: Pc, ask: seq<Move>, x: Exchange, done: Time, end: Time,
                    admitted: bool)
    returns (ms: seq<Move>)
    requires x.request == r && s.now <= done <= end
    requires Leads(c, u, start, before, At(s, others, pid, r, missed))
    requires Leads(c, u, At(s.(now := done), others, pid, r, missed), ask,
                   At(s.(log := s.log + {x}, now := done), others, pid, r, Answered(x)))
    ensures Leads(c, u, start, ms, At(AfterAnswer(c, s, x, end, admitted), others, pid, r, Done(FromOrigin(x.script))))
  {
    ThenTick(c, u, start, before, At(s, others, pid, r, missed), done);
    ms := before + [Tick(done - s.now)];
    Chain(c, u, start, ms, At(s.(now := done), others, pid, r, missed), ask,
          At(s.(log := s.log + {x}, now := done), others, pid, r, Answered(x)));
    ms := AfterwardsLeads(c, u, start, ms + ask, s, others, pid, r, x, done, end, admitted);
  }

  /** From the end of the lookup to the end, without the origin: a hit, which always fits the request, or a bypass. */
  lemma SettledLeads(c: Config, u: Universe, start: State, before: seq<Move>, s: Shared, others: map<nat, Proc>,
                     pid: nat, r: Request, script: seq<Event>, done: Time, end: Time, admitted: bool,
                     outcome: Outcome, s': Shared)
    returns (ms: seq<Move>)
    requires RoundTrips(c) && CollisionFree(c, u) && SharedOk(c, u, s) && r in u.requests && s.now <= end
    requires ServesTo(c, s, r, script, done, end, admitted, outcome, s') && !outcome.FromOrigin?
    requires Leads(c, u, start, before, At(s, others, pid, r, LookedUp(c, s, r)))
    ensures Leads(c, u, start, ms, At(s', others, pid, r, Done(outcome)))
  {
    var pc := LookedUp(c, s, r);
    if pc.Learning? {
      FoundIsSound(c, u, s, r);
    }
    var (shared, last) := Proceeded(c, s, Proc(r, pc));
    ProceedLeads(c, u, s, others, pid, r, pc);
    Chain(c, u, start, before, At(s, others, pid, r, pc), [Proceed(pid)], At(shared, others, pid, r, last));
    ThenTick(c, u, start, before + [Proceed(pid)], At(shared, others, pid, r, last), end);
    ms := before + [Proceed(pid)] + [Tick(end - s.now)];
  }

  /** A request arrives and has looked. */
  lemma ArrivalLeads(c: Config, u: Universe, s: Shared, others: map<nat, Proc>, pid: nat, r: Request)
    returns (ms: seq<Move>)
    requires r in u.requests && pid !in others
    ensures Leads(c, u, State(s, others), ms, At(s, others, pid, r, LookedUp(c, s, r)))
  {
    var start, arrived := State(s, others), At(s, others, pid, r, Loading([], false));
    Single(c, u, start, Arrive(pid, r), arrived);
    var lookup := LookupLeads(c, u, s, others, pid, r);
    Chain(c, u, start, [Arrive(pid, r)], arrived, lookup, At(s, others, pid, r, LookedUp(c, s, r)));
    ms := [Arrive(pid, r)] + lookup;
  }

  /** From a miss to the end, by way of the origin. */
  lemma MissLeads(c: Config, u: Universe, start: State, before: seq<Move>, s: Shared, others: map<nat, Proc>, pid: nat,
                  r: Request, script: seq<Event>, x: Exchange, done: Time, end: Time, admitted: bool)
    returns (ms: seq<Move>)
    requires s.now <= done <= end && LookedUp(c, s, r).Missed? && ShouldCache(r)
    requires AnswerIn(c, u, r, script, done) && x == Observe(c, r, script, done)
    requires Leads(c, u, start, before, At(s, others, pid, r, LookedUp(c, s, r)))
    ensures Leads(c, u, start, ms, At(AfterAnswer(c, s, x, end, admitted), others, pid, r, Done(FromOrigin(script))))
  {
    var missed := LookedUp(c, s, r);
    AnswerLeads(c, u, s.(now := done), others, pid, r, missed.names, script, x, s.(log := s.log + {x}, now := done));
    ms := OriginLeads(c, u, start, before, s, others, pid, r, missed, [AnswerFromOrigin(pid, script)], x, done, end,
                      admitted);
  }

  /**
   Whatever the handler makes of a request is what the protocol makes of it in some run, in which the
   other requests under way stand still.
   */
  lemma ServingIsARun(c: Config, u: Universe, s: Shared, others: map<nat, Proc>, pid: nat, r: Request,
                      script: seq<Event>, done: Time, end: Time, admitted: bool, outcome: Outcome, s': Shared)
    returns (ms: seq<Move>)
    requires RoundTrips(c) && CollisionFree(c, u) && SharedOk(c, u, s) && s.now <= done <= end
    requires r in u.requests && AnswerIn(c, u, r, script, done) && pid !in others
    requires ServesTo(c, s, r, script, done, end, admitted, outcome, s')
    ensures Leads(c, u, State(s, others), ms, At(s', others, pid, r, Done(outcome)))
  {
    var start := State(s, others);
    ms := ArrivalLeads(c, u, s, others, pid, r);
    if outcome.FromOrigin? {
      ms := MissLeads(c, u, start, ms, s, others, pid, r, script, Observe(c, r, script, done), done, end, admitted);
    } else {
      ms := SettledLeads(c, u, start, ms, s, others, pid, r, script, done, end, admitted, outcome, s');
    }
  }
}
