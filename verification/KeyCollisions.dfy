/**
 Whether keys tell requests apart, and what happens where they do not.

 Nothing separates the parts that are hashed into a key. Under conditions that a caller can check of
 the requests and name lists, only the hash itself can make two keys coincide; without them requests
 for different variants share a key under every hash, and then one is served the other's response.
 */
module KeyCollisions {
  import opened CacheIndexes
  import opened CacheProtocol
  import opened CacheRefinement
  import opened Freshness
  import opened Headers
  import opened MemoryCaching
  import opened Responses
  import opened Variants
  import opened Wrappers

  // ---------------------------------------------------------------- when only the hash matters

  function TargetText(r: Request): string {
    r.method_ + r.path + r.query + r.host
  }

  /** No target's text begins with that of another target. */
  ghost predicate TargetsApart(u: Universe) {
    forall a, b | a in u.requests && b in u.requests && TargetText(a) <= TargetText(b) :: SameTarget(a, b)
  }

  /** Of each length, a target has one list of names at most: so it is if its Vary never changes. */
  ghost predicate ListsApart(u: Universe) {
    forall r, m, n | r in u.requests && m in Lists(u, r) && n in Lists(u, r) && |m| == |n| :: m == n
  }

  /** Neither the listed names nor a request's values of them have the sign that is written between the two. */
  ghost predicate NoEqualsSigns(names: seq<string>, r: Request) {
    forall n | n in names :: '=' !in n && '=' !in Get(r.header, n)
  }

  ghost predicate Separable(u: Universe) {
    && TargetsApart(u) && ListsApart(u)
    && forall r, n | r in u.requests && n in Lists(u, r) :: NoEqualsSigns(n, r)
  }

  /** The hash does not make the same key of two texts. */
  ghost predicate HashedApart(c: Config, r1: Request, n1: seq<string>, r2: Request, n2: seq<string>) {
    KeyOf(c, r1, n1) == KeyOf(c, r2, n2) ==> Material(r1, n1) == Material(r2, n2)
  }

  ghost predicate HashApart(c: Config, u: Universe) {
    forall r1, n1, r2, n2 {:trigger HashedApart(c, r1, n1, r2, n2)}
      | r1 in u.requests && n1 in Lists(u, r1) && r2 in u.requests && n2 in Lists(u, r2) ::
      HashedApart(c, r1, n1, r2, n2)
  }

  lemma {:induction false} SuffixCountsNames(r: Request, names: seq<string>)
    requires NoEqualsSigns(names, r)
    ensures multiset(Suffix(r, names))['='] == |names|
  {
    if names != [] {
      var init, last := names[..|names| - 1], names[|names| - 1];
      SuffixCountsNames(r, init);
      assert multiset(last)['='] == 0 && multiset(Get(r.header, last))['='] == 0;
      assert multiset(last + "=" + Get(r.header, last))['='] == 1;
    }
  }

  lemma LastSign(p: string, v: string, i: nat)
    requires '=' !in v && i < |p + "=" + v| && (p + "=" + v)[i] == '='
    ensures i <= |p|
  {
    var s := p + "=" + v;
    assert forall j | |p| < j < |s| :: s[j] == v[j - |p| - 1];
  }

  /** What comes before the last of such signs and what follows it is determined by the text. */
  lemma LastValue(p: string, v: string, q: string, w: string)
    requires p + "=" + v == q + "=" + w && '=' !in v && '=' !in w
    ensures p == q && v == w
  {
    var s, t := p + "=" + v, q + "=" + w;
    LastSign(p, v, |q|);
    LastSign(q, w, |p|);
    assert p == s[..|p|] && q == t[..|q|];
    assert v == s[|p| + 1..] && w == t[|q| + 1..];
  }

  lemma SplitAlike(x: string, y: string, z: string, w: string)
    requires x + y == z + w
    ensures x <= z || z <= x
    ensures x == z ==> y == w
  {
    assert x == (x + y)[..|x|] && z == (z + w)[..|z|];
    assert y == (x + y)[|x|..] && w == (z + w)[|z|..];
  }

  lemma CancelRight(x: string, y: string, t: string)
    requires x + t == y + t
    ensures x == y
  {
    assert |x + t| == |x| + |t| && |y + t| == |y| + |t|;
    assert x == (x + t)[..|x|] && y == (y + t)[..|y|];
  }

  lemma LastPair(x: string, y: string, name: string, v: string, w: string)
    requires x + (name + "=" + v) == y + (name + "=" + w) && '=' !in v && '=' !in w
    ensures x == y && v == w
  {
    assert x + (name + "=" + v) == (x + name) + "=" + v;
    assert y + (name + "=" + w) == (y + name) + "=" + w;
    LastValue(x + name, v, y + name, w);
    CancelRight(x, y, name);
  }

  lemma {:induction false} SameSuffixSameValues(a: Request, b: Request, names: seq<string>)
    requires NoEqualsSigns(names, a) && NoEqualsSigns(names, b)
    requires Suffix(a, names) == Suffix(b, names)
    ensures Agree(names, a, b)
  {
    if names != [] {
      var init, last := names[..|names| - 1], names[|names| - 1];
      LastPair(Suffix(a, init), Suffix(b, init), last, Get(a.header, last), Get(b.header, last));
      SameSuffixSameValues(a, b, init);
    }
  }

  lemma SameMaterialSplitsAlike(a: Request, m: seq<string>, b: Request, n: seq<string>)
    requires Material(a, m) == Material(b, n)
    ensures TargetText(a) <= TargetText(b) || TargetText(b) <= TargetText(a)
    ensures TargetText(a) == TargetText(b) ==> Suffix(a, m) == Suffix(b, n)
  {
    SplitAlike(TargetText(a), Suffix(a, m), TargetText(b), Suffix(b, n));
  }

  lemma PrefixMeansSameTarget(u: Universe, a: Request, b: Request)
    requires TargetsApart(u) && a in u.requests && b in u.requests
    requires TargetText(a) <= TargetText(b) || TargetText(b) <= TargetText(a)
    ensures SameTarget(a, b) && TargetText(a) == TargetText(b)
  {
  }

  lemma SameSuffixSameNames(u: Universe, a: Request, m: seq<string>, b: Request, n: seq<string>)
    requires ListsApart(u) && a in u.requests && m in Lists(u, a) && n in Lists(u, b) && SameTarget(a, b)
    requires NoEqualsSigns(m, a) && NoEqualsSigns(n, b) && Suffix(a, m) == Suffix(b, n)
    ensures m == n
  {
    SuffixCountsNames(a, m);
    SuffixCountsNames(b, n);
  }

  lemma SameMaterialSameVariant(u: Universe, a: Request, m: seq<string>, b: Request, n: seq<string>)
    requires Separable(u) && a in u.requests && m in Lists(u, a) && b in u.requests && n in Lists(u, b)
    requires Material(a, m) == Material(b, n)
    ensures SameTarget(a, b) && m == n && Agree(m, a, b)
  {
    SameMaterialSplitsAlike(a, m, b, n);
    PrefixMeansSameTarget(u, a, b);
    SameSuffixSameNames(u, a, m, b, n);
    SameSuffixSameValues(a, b, m);
  }

  /**
   Two requests that form the same key, each under a list of names, do so under the same list and for the same
   variant.
   */
  ghost predicate Distinct(c: Config, r1: Request, n1: seq<string>, r2: Request, n2: seq<string>) {
    KeyOf(c, r1, n1) == KeyOf(c, r2, n2) ==> SameTarget(r1, r2) && n1 == n2 && Agree(n1, r1, r2)
  }

  ghost predicate KeysDistinct(c: Config, u: Universe) {
    forall r1, n1, r2, n2 {:trigger Distinct(c, r1, n1, r2, n2)}
      | r1 in u.requests && n1 in Lists(u, r1) && r2 in u.requests && n2 in Lists(u, r2) ::
      Distinct(c, r1, n1, r2, n2)
  }

  lemma DistinctMeansDiscerned(c: Config, u: Universe)
    requires KeysDistinct(c, u)
    ensures CollisionFree(c, u)
  {
    forall a, m, b, n | a in u.requests && m in Lists(u, a) && b in u.requests && n in Lists(u, b)
      ensures Discerned(c, a, m, b, n)
    {
      assert Distinct(c, a, m, b, n);
    }
  }

  /**
   For requests whose targets' texts do not begin with one another, with one Vary of any length for each
   target and no '=' in a listed name or value: keys coincide only for the same list and variant exactly
   when the hash makes no two texts coincide. Then they are free of collisions.
   */
  lemma OnlyTheHashMatters(c: Config, u: Universe)
    requires Separable(u)
    ensures KeysDistinct(c, u) <==> HashApart(c, u)
    ensures HashApart(c, u) ==> CollisionFree(c, u)
  {
    forall a, m, b, n | a in u.requests && m in Lists(u, a) && b in u.requests && n in Lists(u, b)
      ensures Distinct(c, a, m, b, n) <==> HashedApart(c, a, m, b, n)
    {
      if Material(a, m) == Material(b, n) {
        SameMaterialSameVariant(u, a, m, b, n);
      } else if SameTarget(a, b) && m == n && Agree(m, a, b) {
        SameVariantSameMaterial(a, b, m);
      }
    }
    if HashApart(c, u) {
      DistinctMeansDiscerned(c, u);
    }
  }

  // ---------------------------------------------------------------- requests that no hash tells apart

  /** Two targets: what is path of the one is query of the other. */
  lemma NoHashTellsPathFromQuery(c: Config, host: string)
    ensures var a, b := Request("GET", "/a=", "", host, map[]), Request("GET", "/", "a=", host, map[]);
            && !SameTarget(a, b) && BaseKey(c, a) == BaseKey(c, b)
            && forall u: Universe | a in u.requests && b in u.requests :: !CollisionFree(c, u)
  {
    var a, b := Request("GET", "/a=", "", host, map[]), Request("GET", "/", "a=", host, map[]);
    assert "/a=" + "" == "/" + "a=";
    assert Material(a, []) == Material(b, []) by {
      assert a.method_ + a.path + a.query == b.method_ + b.path + b.query;
    }
    assert !Discerned(c, a, [], b, []);
    forall u: Universe | a in u.requests && b in u.requests
      ensures !CollisionFree(c, u)
    {
      assert [] in Lists(u, a) && [] in Lists(u, b);
    }
  }

  /** A request with two header fields set. */
  function With(r: Request, p: string, v: string, q: string, w: string): Request {
    r.(header := Set(Set(r.header, p, v), q, w))
  }

  lemma WithHas(r: Request, p: string, v: string, q: string, w: string)
    requires Canonical(p) != Canonical(q)
    ensures Get(With(r, p, v, q, w).header, p) == v && Get(With(r, p, v, q, w).header, q) == w
    ensures Suffix(With(r, p, v, q, w), [p, q]) == (p + "=" + v) + (q + "=" + w)
  {
    var b := With(r, p, v, q, w);
    assert Get(b.header, p) == v && Get(b.header, q) == w;
    assert [p, q][..1] == [p] && [p][..0] == [];
    assert Suffix(b, [p]) == "" + (p + "=" + v);
    assert Suffix(b, [p]) == p + "=" + v;
  }

  /** One target that varies by two headers: the end of one value and the beginning of the next can be shifted. */
  lemma NoHashTellsTheseValues(c: Config, r: Request, p: string, q: string, x: string, y: string, z: string)
    requires Canonical(p) != Canonical(q)
    ensures var a, b := With(r, p, x, q, y + q + "=" + z), With(r, p, x + q + "=" + y, q, z);
            SameTarget(a, b) && !Agree([p, q], a, b) && KeyOf(c, a, [p, q]) == KeyOf(c, b, [p, q])
  {
    var a, b := With(r, p, x, q, y + q + "=" + z), With(r, p, x + q + "=" + y, q, z);
    WithHas(r, p, x, q, y + q + "=" + z);
    WithHas(r, p, x + q + "=" + y, q, z);
    ShiftedText(p, q, x, y, z);
    MaterialOf(a, [p, q]);
    MaterialOf(b, [p, q]);
    assert p in [p, q] && |x + q + "=" + y| > |x|;
  }

  lemma ShiftedText(p: string, q: string, x: string, y: string, z: string)
    ensures (p + "=" + x) + (q + "=" + (y + q + "=" + z)) == (p + "=" + (x + q + "=" + y)) + (q + "=" + z)
  {
  }

  /**
   One target whose Vary names one header in one answer and two in another: the end of the value under the
   shorter list can be read as the second header under the longer one.
   */
  lemma NoHashTellsTheseLists(c: Config, r: Request, p: string, q: string, x: string, y: string)
    requires Canonical(p) != Canonical(q)
    ensures var a, b := r.(header := Set(r.header, p, x + q + "=" + y)), With(r, p, x, q, y);
            SameTarget(a, b) && !Agree([p], a, b) && KeyOf(c, a, [p]) == KeyOf(c, b, [p, q])
  {
    WithHas(r, p, x, q, y);
    OneHas(r, p, x + q + "=" + y);
    ShiftedPair(p, q, x, y);
    MaterialOf(r.(header := Set(r.header, p, x + q + "=" + y)), [p]);
    MaterialOf(With(r, p, x, q, y), [p, q]);
    assert p in [p] && |x + q + "=" + y| > |x|;
  }

  lemma OneHas(r: Request, p: string, v: string)
    ensures var b := r.(header := Set(r.header, p, v)); Get(b.header, p) == v && Suffix(b, [p]) == p + "=" + v
  {
    var b := r.(header := Set(r.header, p, v));
    assert [p][..0] == [];
    assert Suffix(b, [p]) == "" + (p + "=" + v);
  }

  lemma ShiftedPair(p: string, q: string, x: string, y: string)
    ensures p + "=" + (x + q + "=" + y) == (p + "=" + x) + (q + "=" + y)
  {
  }

  lemma MaterialOf(r: Request, names: seq<string>)
    ensures Material(r, names) == TargetText(r) + Suffix(r, names)
  {
  }

  // ---------------------------------------------------------------- what a collision does

  /** An origin's answer that may be stored, for a while at least, and varies by these names. */
  ghost predicate Lasting(c: Config, script: seq<Event>, names: seq<string>) {
    var kept := RecordAll(c.maxBody, script);
    Storable(kept, 0).Some? && Storable(kept, 0).value > 0 && NamesIn(kept.header) == names
  }

  /** What is stored of it for a request. */
  function StoredFor(c: Config, script: seq<Event>, r: Request, names: seq<string>): Stored {
    Freeze(RecordAll(c.maxBody, script), ValuesOf(r, names), 0)
  }

  ghost predicate Keepable(c: Config, stored: Stored) {
    c.encode(stored).Some? && FitsLimits(c.limits, |c.encode(stored).value|)
  }

  lemma ObserveLasting(c: Config, r: Request, script: seq<Event>, names: seq<string>, at: Time) returns (x: Exchange)
    requires ShouldCache(r) && Lasting(c, script, names)
    ensures x == Observe(c, r, script, at) && x.request == r && x.script == script && x.at == at
    ensures x.names == names && x.stored == StoredFor(c, script, r, names)
    ensures x.until.Some? && at < x.until.value <= at + MAX_INT64
    ensures NamesIn(x.stored.header) == names && x.stored.variantHeader == ValuesOf(r, names)
  {
    x := Observe(c, r, script, at);
    ObservedIsLawful(c, x);
  }

  ghost predicate Unsound(c: Config, s: State, pid: nat) {
    && pid in s.procs && s.procs[pid].pc.Done? && s.procs[pid].pc.outcome.FromCache?
    && var outcome := s.procs[pid].pc.outcome;
       !SoundHit(c, s.shared, s.procs[pid].request, outcome.stored, outcome.at)
  }

  /** A request whose names are known and whose key holds a response: it is served, whether or not it matches. */
  lemma KnownKeyIsServed(c: Config, u: Universe, s: Shared, others: map<nat, Proc>, pid: nat, r: Request,
                         names: seq<string>, stored: Stored)
    returns (before: seq<Move>, after: seq<Move>)
    requires r in u.requests && pid !in others && NamesIn(stored.header) == names
    requires LoadNames(s.index, BaseKey(c, r), []) == names && Remember(s.index, BaseKey(c, r), names) == s.index
    requires Fetch(c, s, KeyOf(c, r, names)) == Some(stored)
    ensures var end := Done(FromCache(stored, s.now));
            var mid := if Fits(names, stored.variantHeader, r) then end else Loading(names, true);
            && Leads(c, u, State(s, others), before, At(s, others, pid, r, mid))
            && Leads(c, u, At(s, others, pid, r, mid), after, At(s, others, pid, r, end))
  {
    var start, learning := State(s, others), Learning(stored, s.now);
    before := ArrivalLeads(c, u, s, others, pid, r);
    ProceedLeads(c, u, s, others, pid, r, learning);
    var mid := if Fits(names, stored.variantHeader, r) then Done(FromCache(stored, s.now)) else Loading(names, true);
    Chain(c, u, start, before, At(s, others, pid, r, learning), [Proceed(pid)], At(s, others, pid, r, mid));
    before := before + [Proceed(pid)];
    if mid.Done? {
      after := [];
    } else {
      ProceedLeads(c, u, s, others, pid, r, mid);
      ProceedLeads(c, u, s, others, pid, r, Looking(names, true));
      after := [Proceed(pid)] + [Proceed(pid)];
      Chain(c, u, At(s, others, pid, r, mid), [Proceed(pid)], At(s, others, pid, r, Looking(names, true)),
            [Proceed(pid)], At(s, others, pid, r, Done(FromCache(stored, s.now))));
    }
  }

  /** A request that the store has nothing for: the origin answers it at once. */
  lemma EmptyStoreAsksOrigin(c: Config, u: Universe, s: Shared, others: map<nat, Proc>, pid: nat, x: Exchange,
                             admitted: bool)
    returns (ms: seq<Move>)
    requires x.request in u.requests && pid !in others && s.store == map[] && ShouldCache(x.request)
    requires x == Observe(c, x.request, x.script, s.now) && (x.until.Some? ==> x.names in Lists(u, x.request))
    ensures Leads(c, u, State(s, others), ms, At(AfterAnswer(c, s, x, s.now, admitted), others, pid, x.request,
                                                 Done(FromOrigin(x.script))))
  {
    ms := ArrivalLeads(c, u, s, others, pid, x.request);
    ms := MissLeads(c, u, State(s, others), ms, s, others, pid, x.request, x.script, x, s.now, s.now, admitted);
  }

  // ---------------------------------------------------------------- from moves to runs

  lemma SameMove(c: Config, u: Universe, ss: seq<State>, ms: seq<Move>, m: Move, next: State, i: nat)
    requires |ss| == |ms| + 1 && i < |ms| && Moves(c, u, ss, ms, i)
    ensures Moves(c, u, ss + [next], ms + [m], i)
  {
    assert (ss + [next])[i] == ss[i] && (ss + [next])[i + 1] == ss[i + 1] && (ms + [m])[i] == ms[i];
  }

  lemma LastMove(c: Config, u: Universe, ss: seq<State>, ms: seq<Move>, m: Move, next: State)
    requires |ss| == |ms| + 1 && StepTo(c, u, ss[|ms|], m, next)
    ensures Moves(c, u, ss + [next], ms + [m], |ms|)
  {
    assert (ss + [next])[|ms|] == ss[|ms|] && (ss + [next])[|ms| + 1] == next && (ms + [m])[|ms|] == m;
  }

  lemma StepRun(c: Config, u: Universe, ss: seq<State>, ms: seq<Move>, m: Move, next: State)
    requires Run(c, u, ss, ms) && StepTo(c, u, ss[|ms|], m, next)
    ensures Run(c, u, ss + [next], ms + [m])
  {
    forall i: nat | i < |ms| + 1
      ensures Moves(c, u, ss + [next], ms + [m], i)
    {
      if i < |ms| {
        assert Moves(c, u, ss, ms, i);
        SameMove(c, u, ss, ms, m, next, i);
      } else {
        LastMove(c, u, ss, ms, m, next);
      }
    }
    assert (ss + [next])[0] == ss[0];
  }

  /** A run can be continued by any moves from where it ends. */
  lemma {:induction false} ExtendRun(c: Config, u: Universe, ss: seq<State>, ms: seq<Move>, more: seq<Move>, end: State)
    returns (ss': seq<State>)
    requires Run(c, u, ss, ms) && Leads(c, u, ss[|ms|], more, end)
    ensures Run(c, u, ss', ms + more) && ss'[|ms + more|] == end
    ensures |ss| <= |ss'| && ss'[..|ss|] == ss
    decreases |more|
  {
    if more == [] {
      ss' := ss;
      assert ms + more == ms;
    } else {
      var next :| StepTo(c, u, ss[|ms|], more[0], next) && Leads(c, u, next, more[1..], end);
      var longer, moves := ss + [next], ms + [more[0]];
      StepRun(c, u, ss, ms, more[0], next);
      ss' := ExtendRun(c, u, longer, moves, more[1..], end);
      assert moves + more[1..] == ms + more;
      assert ss'[..|ss|] == ss'[..|longer|][..|ss|] == ss;
    }
  }

  // ---------------------------------------------------------------- the converse

  const COLD := Shared(map[], map[], {}, 0)

  lemma ColdRun(c: Config, u: Universe)
    requires RoundTrips(c)
    ensures Run(c, u, [State(COLD, map[])], [])
  {
  }

  /** What has been learned for a URL is this list, or nothing if it is empty. */
  predicate Learned(index: map<CacheKey, seq<string>>, base: CacheKey, names: seq<string>) {
    if names == [] then base !in index else base in index && index[base] == names
  }

  /** The store has one response, `x1`, and no other that the origin has answered with is still fresh. */
  ghost predicate Stocked(c: Config, s: Shared, x1: Exchange, x2: Exchange) {
    && s.log == {x2, x1} && s.now == x1.at && x2.until.Some? && x2.until.value <= s.now
    && NamesIn(x1.stored.header) == x1.names
    && forall k {:trigger Fetch(c, s, k)} ::
         Fetch(c, s, k) == if k == KeyOf(c, x1.request, x1.names) then Some(x1.stored) else None
  }

  lemma StockedIgnoresIndex(c: Config, s: Shared, x1: Exchange, x2: Exchange, index: map<CacheKey, seq<string>>)
    requires Stocked(c, s, x1, x2)
    ensures Stocked(c, s.(index := index), x1, x2)
  {
    forall k
      ensures Fetch(c, s.(index := index), k) == Fetch(c, s, k)
    {
    }
  }

  lemma AnswerStocks(c: Config, s: Shared, x1: Exchange, x2: Exchange)
    requires RoundTrips(c) && x1.until.Some? && Keepable(c, x1.stored) && NamesIn(x1.stored.header) == x1.names
    requires x1.at < x1.until.value <= x1.at + MAX_INT64 && x2.until.Some? && x2.until.value <= x1.at
    requires s.store == map[] && s.log == {x2} && s.now == x1.at
    ensures Stocked(c, AfterAnswer(c, s, x1, x1.at, true), x1, x2)
  {
  }

  lemma StockIsUnsound(c: Config, s: Shared, x1: Exchange, x2: Exchange, r: Request)
    requires Stocked(c, s, x1, x2) && !(SameTarget(x1.request, r) && Agree(x1.names, x1.request, r))
    ensures !SoundHit(c, s, r, x1.stored, s.now)
  {
    forall x | x in s.log
      ensures !Answers(c, x, r, x1.stored, s.now)
    {
      assert x == x1 || x == x2;
    }
  }

  lemma AtItself(s: Shared, procs: map<nat, Proc>, pid: nat)
    requires pid in procs
    ensures At(s, procs, pid, procs[pid].request, procs[pid].pc) == State(s, procs)
  {
    assert procs[pid := procs[pid]] == procs;
  }

  /** A request misses and has its answer, from which it has not learned yet. */
  lemma AskAndWait(c: Config, u: Universe, s: Shared, others: map<nat, Proc>, pid: nat, x: Exchange)
    returns (ms: seq<Move>)
    requires x.request in u.requests && pid !in others && s.store == map[] && ShouldCache(x.request)
    requires x == Observe(c, x.request, x.script, s.now) && x.until.Some? && x.names in Lists(u, x.request)
    ensures Leads(c, u, State(s, others), ms, At(s.(log := s.log + {x}), others, pid, x.request, Remembering(x)))
  {
    var missed := LookedUp(c, s, x.request);
    ms := ArrivalLeads(c, u, s, others, pid, x.request);
    AnswerLeads(c, u, s, others, pid, x.request, missed.names, x.script, x, s.(log := s.log + {x}));
    Chain(c, u, State(s, others), ms, At(s, others, pid, x.request, missed), [AnswerFromOrigin(pid, x.script)],
          At(s.(log := s.log + {x}), others, pid, x.request, Answered(x)));
    ms := ms + [AnswerFromOrigin(pid, x.script)];
  }

  /** Such a request learns the names of its answer. */
  lemma RelearnLeads(c: Config, u: Universe, s: Shared, procs: map<nat, Proc>, pid: nat, x: Exchange)
    requires pid in procs && procs[pid] == Proc(x.request, Remembering(x))
    ensures Leads(c, u, State(s, procs), [Proceed(pid)],
                  At(s.(index := Remember(s.index, BaseKey(c, x.request), x.names)), procs, pid, x.request, Storing(x)))
  {
    AtItself(s, procs, pid);
    ProceedLeads(c, u, s, procs, pid, x.request, Remembering(x));
  }

  /** Two requests that will learn the names of the same answer, both waiting while it expires. */
  function Waiting(x: Exchange): map<nat, Proc> {
    map[0 := Proc(x.request, Remembering(x)), 1 := Proc(x.request, Remembering(x))]
  }

  lemma TwoWait(c: Config, u: Universe, x: Exchange) returns (ms: seq<Move>)
    requires x == Observe(c, x.request, x.script, 0) && x.until.Some? && x.names in Lists(u, x.request)
    requires x.request in u.requests && ShouldCache(x.request)
    ensures Leads(c, u, State(COLD, map[]), ms, State(COLD.(log := {x}), Waiting(x)))
  {
    var one := map[0 := Proc(x.request, Remembering(x))];
    var asked := COLD.(log := {x});
    var first := AskAndWait(c, u, COLD, map[], 0, x);
    assert COLD.log + {x} == {x} && asked.log + {x} == {x};
    var second := AskAndWait(c, u, asked, one, 1, x);
    assert one[1 := Proc(x.request, Remembering(x))] == Waiting(x);
    Chain(c, u, State(COLD, map[]), first, State(asked, one), second, State(asked, Waiting(x)));
    ms := first + second;
  }

  lemma WaitIsReached(c: Config, u: Universe, x: Exchange, later: Time) returns (ss: seq<State>, ms: seq<Move>)
    requires RoundTrips(c) && x == Observe(c, x.request, x.script, 0) && x.until.Some? && x.names in Lists(u, x.request)
    requires x.request in u.requests && ShouldCache(x.request) && later >= 0
    ensures Run(c, u, ss, ms) && ss[|ms|] == State(Shared(map[], map[], {x}, later), Waiting(x))
  {
    var wait := TwoWait(c, u, x);
    ColdRun(c, u);
    ThenTick(c, u, State(COLD, map[]), wait, State(COLD.(log := {x}), Waiting(x)), later);
    ms := wait + [Tick(later)];
    ss := ExtendRun(c, u, [State(COLD, map[])], [], ms, State(Shared(map[], map[], {x}, later), Waiting(x)));
    assert [] + ms == ms;
  }

  /** The other answer is stored. */
  lemma StockIsReached(c: Config, u: Universe, x1: Exchange, x2: Exchange) returns (ss: seq<State>, ms: seq<Move>)
    requires RoundTrips(c) && x1.until.Some? && x2.until.Some? && Keepable(c, x1.stored)
             && NamesIn(x1.stored.header) == x1.names
    requires 0 < x2.until.value == x1.at < x1.until.value <= x1.at + MAX_INT64
    requires x1 == Observe(c, x1.request, x1.script, x1.at) && x2 == Observe(c, x2.request, x2.script, 0)
    requires x1.request in u.requests && ShouldCache(x1.request) && x1.names in Lists(u, x1.request)
    requires x2.request in u.requests && ShouldCache(x2.request) && x2.names in Lists(u, x2.request)
    ensures Run(c, u, ss, ms) && Stocked(c, ss[|ms|].shared, x1, x2)
    ensures ss[|ms|].procs == Waiting(x2)[2 := Proc(x1.request, Done(FromOrigin(x1.script)))]
  {
    ss, ms := WaitIsReached(c, u, x2, x1.at);
    var s := ss[|ms|].shared;
    AnswerStocks(c, s, x1, x2);
    var more := EmptyStoreAsksOrigin(c, u, s, Waiting(x2), 2, x1, true);
    ss := ExtendRun(c, u, ss, ms, more,
                    At(AfterAnswer(c, s, x1, x1.at, true), Waiting(x2), 2, x1.request, Done(FromOrigin(x1.script))));
    ms := ms + more;
  }

  /** And then the first of the two learns. */
  lemma FirstLearns(c: Config, u: Universe, ss: seq<State>, ms: seq<Move>, x1: Exchange, x2: Exchange, last: Proc)
    returns (ss': seq<State>, ms': seq<Move>)
    requires Run(c, u, ss, ms) && Stocked(c, ss[|ms|].shared, x1, x2)
    requires ss[|ms|].procs == Waiting(x2)[2 := last]
    ensures Run(c, u, ss', ms') && Stocked(c, ss'[|ms'|].shared, x1, x2)
    ensures Learned(ss'[|ms'|].shared.index, BaseKey(c, x2.request), x2.names)
    ensures 3 !in ss'[|ms'|].procs && 1 in ss'[|ms'|].procs && ss'[|ms'|].procs[1] == Proc(x2.request, Remembering(x2))
  {
    var s, procs := ss[|ms|].shared, ss[|ms|].procs;
    var learned := s.(index := Remember(s.index, BaseKey(c, x2.request), x2.names));
    RelearnLeads(c, u, s, procs, 0, x2);
    StockedIgnoresIndex(c, s, x1, x2, learned.index);
    ss' := ExtendRun(c, u, ss, ms, [Proceed(0)], At(learned, procs, 0, x2.request, Storing(x2)));
    ms' := ms + [Proceed(0)];
  }

  /** A request that goes by the learned names finds the response, and learns the response's own names. */
  lemma FirstLookFinds(c: Config, u: Universe, s: Shared, others: map<nat, Proc>, pid: nat, r: Request,
                       names: seq<string>, x1: Exchange, x2: Exchange)
    returns (ms: seq<Move>)
    requires r in u.requests && pid !in others && Stocked(c, s, x1, x2)
    requires Learned(s.index, BaseKey(c, r), names) && KeyOf(c, r, names) == KeyOf(c, x1.request, x1.names)
    ensures Leads(c, u, State(s, others), ms,
                  At(s.(index := Remember(s.index, BaseKey(c, r), x1.names)), others, pid, r,
                     if Fits(x1.names, x1.stored.variantHeader, r) then Done(FromCache(x1.stored, s.now))
                     else Loading(x1.names, true)))
  {
    var learning := Learning(x1.stored, s.now);
    ms := ArrivalLeads(c, u, s, others, pid, r);
    ProceedLeads(c, u, s, others, pid, r, learning);
    var (shared, pc) := Proceeded(c, s, Proc(r, learning));
    Chain(c, u, State(s, others), ms, At(s, others, pid, r, learning), [Proceed(pid)], At(shared, others, pid, r, pc));
    ms := ms + [Proceed(pid)];
  }

  /** And if other names have been learned again by then, it finds it once more, and is served it. */
  lemma SecondLookServes(c: Config, u: Universe, s: Shared, others: map<nat, Proc>, pid: nat, r: Request,
                         names: seq<string>, x1: Exchange, x2: Exchange)
    returns (ms: seq<Move>)
    requires Stocked(c, s, x1, x2)
    requires Learned(s.index, BaseKey(c, r), names) && KeyOf(c, r, names) == KeyOf(c, x1.request, x1.names)
    ensures Leads(c, u, At(s, others, pid, r, Loading(x1.names, true)), ms,
                  At(s, others, pid, r, Done(FromCache(x1.stored, s.now))))
  {
    var start, end := Loading(x1.names, true), Done(FromCache(x1.stored, s.now));
    var looking := Looking(LoadNames(s.index, BaseKey(c, r), x1.names), true);
    ProceedLeads(c, u, s, others, pid, r, start);
    ProceedLeads(c, u, s, others, pid, r, looking);
    ms := [Proceed(pid)] + [Proceed(pid)];
    var next := Proceeded(c, s, Proc(r, looking)).1;
    Chain(c, u, At(s, others, pid, r, start), [Proceed(pid)], At(s, others, pid, r, looking), [Proceed(pid)],
          At(s, others, pid, r, next));
    if next != end {
      ProceedLeads(c, u, s, others, pid, r, next);
      Chain(c, u, At(s, others, pid, r, start), ms, At(s, others, pid, r, next), [Proceed(pid)],
            At(s, others, pid, r, end));
      ms := ms + [Proceed(pid)];
    }
  }

  /**
   The request looks, learns and, if the response does not fit, finds the other names learned again before it
   looks once more.
   */
  lemma LookAndLookAgain(c: Config, u: Universe, ss: seq<State>, ms: seq<Move>, x1: Exchange, x2: Exchange)
    returns (ss': seq<State>, ms': seq<Move>, k: nat)
    requires Run(c, u, ss, ms) && Stocked(c, ss[|ms|].shared, x1, x2) && x2.request in u.requests
    requires Learned(ss[|ms|].shared.index, BaseKey(c, x2.request), x2.names)
    requires KeyOf(c, x2.request, x2.names) == KeyOf(c, x1.request, x1.names)
    requires 3 !in ss[|ms|].procs && 1 in ss[|ms|].procs && ss[|ms|].procs[1] == Proc(x2.request, Remembering(x2))
    ensures Run(c, u, ss', ms') && Stocked(c, ss'[|ms'|].shared, x1, x2) && 3 in ss'[|ms'|].procs
    ensures ss'[|ms'|].procs[3] == Proc(x2.request, Done(FromCache(x1.stored, x1.at)))
    ensures k <= |ms'| && (!Fits(x1.names, x1.stored.variantHeader, x2.request) ==>
                             3 in ss'[k].procs && ss'[k].procs[3] == Proc(x2.request, Loading(x1.names, true)))
  {
    var s, procs, r, base := ss[|ms|].shared, ss[|ms|].procs, x2.request, BaseKey(c, x2.request);
    var look := FirstLookFinds(c, u, s, procs, 3, r, x2.names, x1, x2);
    var learned := s.(index := Remember(s.index, base, x1.names));
    var fits := Fits(x1.names, x1.stored.variantHeader, r);
    var mid := At(learned, procs, 3, r, if fits then Done(FromCache(x1.stored, s.now)) else Loading(x1.names, true));
    StockedIgnoresIndex(c, s, x1, x2, learned.index);
    ss' := ExtendRun(c, u, ss, ms, look, mid);
    ms' := ms + look;
    k := |ms'|;
    if !fits {
      var end := LookAgain(c, u, ss', ms', x1, x2);
      assert end.0[k] == end.0[..|ss'|][k] == ss'[k];
      ss', ms' := end.0, end.1;
    }
  }

  lemma LookAgain(c: Config, u: Universe, ss: seq<State>, ms: seq<Move>, x1: Exchange, x2: Exchange)
    returns (end: (seq<State>, seq<Move>))
    requires Run(c, u, ss, ms) && Stocked(c, ss[|ms|].shared, x1, x2)
    requires KeyOf(c, x2.request, x2.names) == KeyOf(c, x1.request, x1.names)
    requires 1 in ss[|ms|].procs && ss[|ms|].procs[1] == Proc(x2.request, Remembering(x2))
    requires 3 in ss[|ms|].procs && ss[|ms|].procs[3] == Proc(x2.request, Loading(x1.names, true))
    ensures Run(c, u, end.0, end.1) && |ss| <= |end.0| && end.0[..|ss|] == ss
    ensures Stocked(c, end.0[|end.1|].shared, x1, x2) && 3 in end.0[|end.1|].procs
    ensures end.0[|end.1|].procs[3] == Proc(x2.request, Done(FromCache(x1.stored, x1.at)))
  {
    var s, procs, r := ss[|ms|].shared, ss[|ms|].procs, x2.request;
    var relearned := s.(index := Remember(s.index, BaseKey(c, r), x2.names));
    var procs' := procs[1 := Proc(r, Storing(x2))];
    RelearnLeads(c, u, s, procs, 1, x2);
    StockedIgnoresIndex(c, s, x1, x2, relearned.index);
    var ss' := ExtendRun(c, u, ss, ms, [Proceed(1)], State(relearned, procs'));
    var ms' := ms + [Proceed(1)];
    AtItself(relearned, procs', 3);
    var look := SecondLookServes(c, u, relearned, procs', 3, r, x2.names, x1, x2);
    var ss'' := ExtendRun(c, u, ss', ms', look, At(relearned, procs', 3, r, Done(FromCache(x1.stored, s.now))));
    assert ss''[..|ss|] == ss''[..|ss'|][..|ss|] == ss;
    end := (ss'', ms' + look);
  }

  /**
   The converse of `EveryHitIsSound`. Where a response to `r1`, stored by the names `n1`, has the key that
   `r2` forms with the names `n2`, although the two have different targets or disagree on a header in `n1`,
   there is a run in which `r2` is served what the origin answered to `r1`. If they disagree, the handler
   sees it by move `k`, looks again under names that have been learned anew, and serves it all the same.
   */
  lemma CollisionServesAnotherVariant(c: Config, u: Universe, r1: Request, n1: seq<string>, r2: Request,
                                      n2: seq<string>, script1: seq<Event>, script2: seq<Event>)
    returns (ss: seq<State>, ms: seq<Move>, k: nat)
    requires RoundTrips(c) && r1 in u.requests && r2 in u.requests && ShouldCache(r1) && ShouldCache(r2)
    requires n1 in Lists(u, r1) && n2 in Lists(u, r2)
    requires KeyOf(c, r1, n1) == KeyOf(c, r2, n2) && !(SameTarget(r1, r2) && Agree(n1, r1, r2))
    requires Lasting(c, script1, n1) && Keepable(c, StoredFor(c, script1, r1, n1)) && Lasting(c, script2, n2)
    ensures Run(c, u, ss, ms) && Unsound(c, ss[|ms|], 3)
    ensures ss[|ms|].procs[3].request == r2 && ss[|ms|].procs[3].pc.outcome.stored == StoredFor(c, script1, r1, n1)
    ensures k <= |ms|
    ensures !Agree(n1, r1, r2) ==> 3 in ss[k].procs && ss[k].procs[3] == Proc(r2, Loading(n1, true))
  {
    var x2 := ObserveLasting(c, r2, script2, n2, 0);
    var x1 := ObserveLasting(c, r1, script1, n1, x2.until.value);
    ss, ms := StockIsReached(c, u, x1, x2);
    ss, ms := FirstLearns(c, u, ss, ms, x1, x2, Proc(r1, Done(FromOrigin(script1))));
    ss, ms, k := LookAndLookAgain(c, u, ss, ms, x1, x2);
    MatchesExactlyAgreeing(n1, r1, r2);
    StockIsUnsound(c, ss[|ms|].shared, x1, x2, r2);
  }

  /** So it is for two requests of one target that any two listed header values can be shifted between. */
  lemma ShiftedValuesAreServed(c: Config, u: Universe, r: Request, p: string, q: string, x: string, y: string,
                               z: string, script: seq<Event>)
    returns (ss: seq<State>, ms: seq<Move>, k: nat)
    requires RoundTrips(c) && Canonical(p) != Canonical(q)
    requires var a, b := With(r, p, x, q, y + q + "=" + z), With(r, p, x + q + "=" + y, q, z);
             && a in u.requests && b in u.requests && ShouldCache(a) && ShouldCache(b) && [p, q] in Lists(u, a)
             && Lasting(c, script, [p, q]) && Keepable(c, StoredFor(c, script, a, [p, q]))
    ensures Run(c, u, ss, ms) && Unsound(c, ss[|ms|], 3) && k <= |ms| && 3 in ss[k].procs
    ensures ss[|ms|].procs[3].request == With(r, p, x + q + "=" + y, q, z)
    ensures ss[k].procs[3] == Proc(With(r, p, x + q + "=" + y, q, z), Loading([p, q], true))
  {
    var a, b := With(r, p, x, q, y + q + "=" + z), With(r, p, x + q + "=" + y, q, z);
    NoHashTellsTheseValues(c, r, p, q, x, y, z);
    ss, ms, k := CollisionServesAnotherVariant(c, u, a, [p, q], b, [p, q], script, script);
  }

  /** And for a target that varies by one header in one answer and by two in another. */
  lemma LongerVaryIsServed(c: Config, u: Universe, r: Request, p: string, q: string, x: string, y: string,
                           script1: seq<Event>, script2: seq<Event>)
    returns (ss: seq<State>, ms: seq<Move>, k: nat)
    requires RoundTrips(c) && Canonical(p) != Canonical(q)
    requires var a, b := r.(header := Set(r.header, p, x + q + "=" + y)), With(r, p, x, q, y);
             && a in u.requests && b in u.requests && ShouldCache(a) && ShouldCache(b)
             && [p] in Lists(u, a) && [p, q] in Lists(u, b)
             && Lasting(c, script1, [p]) && Keepable(c, StoredFor(c, script1, a, [p])) && Lasting(c, script2, [p, q])
    ensures Run(c, u, ss, ms) && Unsound(c, ss[|ms|], 3) && k <= |ms| && 3 in ss[k].procs
    ensures ss[|ms|].procs[3].request == With(r, p, x, q, y)
    ensures ss[k].procs[3] == Proc(With(r, p, x, q, y), Loading([p], true))
  {
    var a, b := r.(header := Set(r.header, p, x + q + "=" + y)), With(r, p, x, q, y);
    NoHashTellsTheseLists(c, r, p, q, x, y);
    ss, ms, k := CollisionServesAnotherVariant(c, u, a, [p], b, [p, q], script1, script2);
  }

  /** Such an answer is nothing unusual: `Vary: A,B` with any max-age. */
  function TwoNamesScript(age: nat): seq<Event> {
    [SetHeader(Set(Set(map[], CACHE_CONTROL, PUBLIC_MAX_AGE + Text.Decimal(age)), VARY, "A,B")), WriteHeader(200)]
  }

  lemma TwoNames()
    ensures VaryNames("A,B") == ["A", "B"]
  {
    assert "A,B"[1..] == ",B" && ",B"[1..] == "B" && "B"[1..] == "";
    assert Text.SplitComma("") == [""] && [""][1..] == [] && ['B'] + "" == "B";
    assert Text.SplitComma("B") == ["B"] + [];
    assert Text.SplitComma(",B") == [""] + ["B"];
    assert ([""] + ["B"])[1..] == ["B"] && ['A'] + "" == "A";
    assert Text.SplitComma("A,B") == ["A"] + ["B"];
    assert CanonicalNames(["A", "B"]) == ["A", "B"];
    assert ["A", "B"][1..] == ["B"] && ["B"][1..] == [];
  }

  lemma TwoNamesRead(header: Header, value: string)
    requires header == Set(Set(map[], CACHE_CONTROL, value), VARY, "A,B")
    ensures Get(header, CACHE_CONTROL) == value && Get(header, VARY) == "A,B"
  {
    CanonicalLength(CACHE_CONTROL);
    CanonicalLength(VARY);
  }

  lemma TwoNamesAreStorable(kept: Recorder, age: nat)
    requires !kept.overflowed && kept.status == 200 && 0 < age <= MAX_EXACT_AGE
    requires MaxAge(Get(kept.header, CACHE_CONTROL)) == Some(age) && Get(kept.header, VARY) == "A,B"
    ensures Storable(kept, 0) == Some(age * SECOND)
  {
    WrapNeverAdds(age * SECOND);
  }

  lemma TwoEvents(limit: int, header: Header)
    ensures var kept := RecordAll(limit, [SetHeader(header), WriteHeader(200)]);
            !kept.overflowed && kept.status == 200 && kept.header == header
  {
    var script := [SetHeader(header), WriteHeader(200)];
    assert script[..1] == [script[0]] && script[..1][..0] == [];
    assert RecordAll(limit, script[..1]) == Record(NewRecorder(limit), script[0]);
  }

  lemma TwoNamesLast(c: Config, age: nat)
    requires 0 < age <= MAX_EXACT_AGE
    ensures Lasting(c, TwoNamesScript(age), ["A", "B"])
  {
    var value := PUBLIC_MAX_AGE + Text.Decimal(age);
    var header := Set(Set(map[], CACHE_CONTROL, value), VARY, "A,B");
    MaxAgeReadsBack(age);
    TwoEvents(c.maxBody, header);
    TwoNamesRead(header, value);
    TwoNamesAreStorable(RecordAll(c.maxBody, TwoNamesScript(age)), age);
    TwoNames();
  }

  // ---------------------------------------------------------------- sound exactly when discerned

  ghost predicate AllHitsSound(c: Config, u: Universe) {
    forall ss, ms, n: nat, pid | Run(c, u, ss, ms) && n <= |ms| :: !Unsound(c, ss[n], pid)
  }

  /** Every list of every request is one that the origin may send, with an answer that can be kept. */
  ghost predicate Live(c: Config, u: Universe) {
    forall r, names | r in u.requests && names in Lists(u, r) ::
      ShouldCache(r) && exists script :: Lasting(c, script, names) && Keepable(c, StoredFor(c, script, r, names))
  }

  lemma DiscernedMeansSound(c: Config, u: Universe, ss: seq<State>, ms: seq<Move>, n: nat, pid: nat)
    requires Run(c, u, ss, ms) && CollisionFree(c, u) && n <= |ms|
    ensures !Unsound(c, ss[n], pid)
  {
    InvHolds(c, u, ss, ms, n);
    if pid in ss[n].procs {
      assert ProcOk(c, u, ss[n].shared, ss[n].procs[pid]);
    }
  }

  lemma UndiscernedMeansUnsound(c: Config, u: Universe, r1: Request, n1: seq<string>, r2: Request, n2: seq<string>)
    requires RoundTrips(c) && Live(c, u) && !Discerned(c, r1, n1, r2, n2)
    requires r1 in u.requests && n1 in Lists(u, r1) && r2 in u.requests && n2 in Lists(u, r2)
    ensures !AllHitsSound(c, u)
  {
    var script1 :| Lasting(c, script1, n1) && Keepable(c, StoredFor(c, script1, r1, n1));
    var script2 :| Lasting(c, script2, n2) && Keepable(c, StoredFor(c, script2, r2, n2));
    var ss, ms, k := CollisionServesAnotherVariant(c, u, r1, n1, r2, n2, script1, script2);
    assert Unsound(c, ss[|ms|], 3);
  }

  /**
   Where every request may be cached and every list is a live possibility: every hit of every run is sound
   exactly when keys are free of collisions, between any two lists of names.
   */
  lemma SoundExactlyWhenDiscerned(c: Config, u: Universe)
    requires RoundTrips(c) && Live(c, u)
    ensures AllHitsSound(c, u) <==> CollisionFree(c, u)
  {
    if CollisionFree(c, u) {
      forall ss, ms, n: nat, pid | Run(c, u, ss, ms) && n <= |ms|
        ensures !Unsound(c, ss[n], pid)
      {
        DiscernedMeansSound(c, u, ss, ms, n, pid);
      }
    } else {
      var r1, n1, r2, n2 :| r1 in u.requests && n1 in Lists(u, r1) && r2 in u.requests && n2 in Lists(u, r2)
                            && !Discerned(c, r1, n1, r2, n2);
      UndiscernedMeansUnsound(c, u, r1, n1, r2, n2);
    }
  }

  // ---------------------------------------------------------------- what is looked up before it is judged

  /** A request that may not be cached itself is answered all the same, with a whole stored response of its variant. */
  lemma RangeIsServedFromCache(c: Config, u: Universe, r1: Request, r2: Request, names: seq<string>, script: seq<Event>)
    returns (ss: seq<State>, ms: seq<Move>)
    requires RoundTrips(c) && r1 in u.requests && r2 in u.requests && names in Lists(u, r1) && ShouldCache(r1)
    requires SameTarget(r1, r2) && Agree(names, r1, r2) && Get(r2.header, RANGE) != ""
    requires Lasting(c, script, names) && Keepable(c, StoredFor(c, script, r1, names))
    ensures Run(c, u, ss, ms) && 1 in ss[|ms|].procs && !ShouldCache(r2)
    ensures ss[|ms|].procs[1] == Proc(r2, Done(FromCache(StoredFor(c, script, r1, names), 0)))
    ensures StoredFor(c, script, r1, names).body == Written(script)
  {
    var x := ObserveLasting(c, r1, script, names, 0);
    var one := map[0 := Proc(r1, Done(FromOrigin(script)))];
    var s := AfterAnswer(c, COLD, x, 0, true);
    StashKeepsAllOrOverflows(c.maxBody, script);
    SameVariantSameMaterial(r1, r2, []);
    SameVariantSameMaterial(r1, r2, names);
    FirstIsKept(c, x);
    ColdRun(c, u);
    var ask := EmptyStoreAsksOrigin(c, u, COLD, map[], 0, x, true);
    ss := ExtendRun(c, u, [State(COLD, map[])], [], ask, State(s, one));
    ms := [] + ask;
    var before, after := KnownKeyIsServed(c, u, s, one, 1, r2, names, x.stored);
    MatchesExactlyAgreeing(names, r1, r2);
    var end := At(s, one, 1, r2, Done(FromCache(x.stored, 0)));
    ss := ExtendRun(c, u, ss, ms, before, end);
    ms := ms + before;
  }

  lemma FirstIsKept(c: Config, x: Exchange)
    requires RoundTrips(c) && x.until.Some? && 0 < x.until.value <= MAX_INT64 && Keepable(c, x.stored)
    ensures var s := AfterAnswer(c, COLD, x, 0, true);
            && s.now == 0 && LoadNames(s.index, BaseKey(c, x.request), []) == x.names
            && Remember(s.index, BaseKey(c, x.request), x.names) == s.index
            && Fetch(c, s, KeyOf(c, x.request, x.names)) == Some(x.stored)
  {
  }
}
