/**
 The Start/Stop handshake of the upstream supervisor.

 `Server` holds the three fields behind the source's mutex, with one method for each of its
 critical sections. The protocol around them is a state machine whose steps are those critical
 sections and the calls that happen between them: any number of Stops interleave with Starts
 that do not overlap one another. A run is the one Start and the child process it launches.
 */
module Supervisor {
  import opened Wrappers

  /** Runs are numbered in the order in which their Starts publish them. */
  type Run = nat

  /** The fields that the mutex guards. `cmd` and `done` belong to the run that published them. */
  datatype Shared = Shared(cmd: Option<Run>, done: Option<Run>, stopping: bool) {
    function Published(run: Run): Shared {
      Shared(Some(run), Some(run), false)
    }

    function Cleared(): Shared {
      Shared(None, None, stopping)
    }

    function Captured(): Shared {
      this.(stopping := true)
    }
  }

  class Server {
    var cmd: Option<Run>
    var done: Option<Run>
    var stopping: bool
    var closed: multiset<Run>     // the channels that have been closed, and how often

    ghost function State(): Shared
      reads this
    {
      Shared(cmd, done, stopping)
    }

    constructor ()
      ensures State() == Shared(None, None, false) && closed == multiset{}
    {
      cmd, done, stopping, closed := None, None, false, multiset{};
    }

    /** Start, before it launches the child. */
    method Publish(run: Run)
      modifies `cmd, `done, `stopping
      ensures State() == old(State()).Published(run)
    {
      cmd := Some(run);
      done := Some(run);
      stopping := false;
    }

    /** Start, after the child has failed. */
    method ReadStopping() returns (r: bool)
      ensures r == State().stopping
    {
      r := stopping;
    }

    /** Start's deferred function, after it has closed the channel. */
    method Clear()
      modifies `cmd, `done
      ensures State() == old(State()).Cleared()
    {
      cmd := None;
      done := None;
    }

    /** The beginning of Stop. */
    method Capture() returns (c: Option<Run>, d: Option<Run>)
      modifies `stopping
      ensures c == old(State()).cmd && d == old(State()).done
      ensures State() == old(State()).Captured()
    {
      c := cmd;
      d := done;
      stopping := true;
    }

    /** Start's deferred function, at its beginning. */
    method CloseChannel(run: Run)
      modifies `closed
      ensures closed == old(closed) + multiset{run}
    {
      closed := closed + multiset{run};
    }

    /** Any number of Stops enter. */
    method StopsEnter(n: nat)
      modifies `stopping
      ensures stopping == (old(stopping) || n > 0)
    {
      for i := 0 to n
        invariant stopping == (old(stopping) || i > 0)
      {
        var _, _ := Capture();
      }
    }

    /** Start of one run, from publishing it on, with any number of Stops entering at any point. */
    method Start(run: Run, w: StartWorld) returns (result: StartResult)
      modifies this
      ensures cmd == None && done == None && closed == old(closed) + multiset{run}
      ensures stopping <==> w.early + w.late + w.tooLate > 0
      ensures !w.spawned ==> result == SpawnError
      ensures w.spawned ==> (result == Success <==> w.status.Clean? || (w.status.NonZero? && w.early + w.late > 0))
      ensures w.spawned && w.status.NonZero? && w.early + w.late == 0 ==> result == ExitCode(w.status.code)
      ensures w.spawned && w.status.WaitFailed? ==> result == WaitError
    {
      Publish(run);
      StopsEnter(w.early);
      if !w.spawned {
        result := SpawnError;
        StopsEnter(w.late);
      } else {
        StopsEnter(w.late);
        match w.status {
          case Clean =>
            result := Success;
          case WaitFailed =>
            result := WaitError;
          case NonZero(code) =>
            var forgiven := ReadStopping();
            result := if forgiven then Success else ExitCode(code);
        }
      }
      StopsEnter(w.tooLate);
      CloseChannel(run);
      Clear();
    }

    /**
     Stop: it always asks Start to forgive, and answers nil for a run it has seen only if its signal or its
     kill gets through.
     */
    method Stop(w: StopWorld) returns (answer: StopPc)
      modifies `stopping
      ensures State() == old(State()).Captured()
      ensures old(cmd).None? || !w.spawned ==> answer == ReturnedNil(None)
      ensures old(cmd).Some? && w.spawned ==>
                answer == if w.delivered && (old(done).None? || w.inTime || w.killed) then ReturnedNil(old(cmd))
                          else ReturnedError(old(cmd).value)
    {
      var c, d := Capture();
      if c.None? || !w.spawned {
        return ReturnedNil(None);
      }
      if !w.delivered {
        return ReturnedError(c.value);
      }
      if d.Some? && !w.inTime {
        if !w.killed {
          return ReturnedError(c.value);
        }
      }
      answer := ReturnedNil(c);
    }
  }

  /**
   What Stop meets: a process that has begun, a signal that gets through, a child that ends in time, a kill
   that gets through.
   */
  datatype StopWorld = StopWorld(spawned: bool, delivered: bool, inTime: bool, killed: bool)

  /**
   What Start meets: Stops that enter before the child begins, while it runs and after its end has been looked
   at, and the child.
   */
  datatype StartWorld = StartWorld(early: nat, spawned: bool, late: nat, status: ExitStatus, tooLate: nat)

  // ---------------------------------------------------------------- the protocol

  datatype ExitStatus = Clean | NonZero(code: int) | WaitFailed

  datatype StartResult = Success | SpawnError | ExitCode(code: int) | WaitError

  /** Where the current Start is. */
  datatype StartPc =
    | Idle
    | Published
    | Running
    | Exited(status: ExitStatus)
    | Unwinding(result: StartResult)
    | ChannelClosed(result: StartResult)

  /** Where a Stop is. From `Signalling` on, it holds a run whose process it has seen. */
  datatype StopPc =
    | Entered(cmd: Option<Run>, done: Option<Run>)
    | Signalling(run: Run, done: Option<Run>)
    | Waiting(run: Run, channel: Run)
    | Killing(run: Run, channel: Run)
    | Reaping(run: Run, channel: Run)
    | ReturnedNil(held: Option<Run>)
    | ReturnedError(run: Run)

  datatype State = State(
    shared: Shared,
    runs: nat,                    // runs published so far
    start: StartPc,
    spawned: set<Run>,            // cmd.Process is set
    waited: set<Run>,             // cmd.Wait has returned
    closed: multiset<Run>,        // how often each run's channel was closed
    results: seq<StartResult>,    // what each finished Start returned
    stops: map<nat, StopPc>)

  datatype Event =
    | Publish
    | Spawn(ok: bool)
    | Exit(status: ExitStatus)
    | Decide
    | ReadStopping
    | CloseChannel
    | Clear
    | StopEnters(stop: nat)
    | StopChecksProcess(stop: nat)
    | StopSignals(stop: nat, delivered: bool)   // an already finished process counts as delivered
    | StopSeesChannelClosed(stop: nat)
    | StopTimesOut(stop: nat)
    | StopKills(stop: nat, delivered: bool)

  const INITIAL := State(Shared(None, None, false), 0, Idle, {}, {}, multiset{}, [], map[])

  ghost predicate StartStep(s: State, e: Event, s': State) {
    match e
    case Publish =>
      s.start == Idle && s' == s.(shared := s.shared.Published(s.runs), runs := s.runs + 1, start := Published)
    case Spawn(ok) =>
      && s.start == Published && s.runs > 0
      && s' == if ok then s.(start := Running, spawned := s.spawned + {s.runs - 1})
               else s.(start := Unwinding(SpawnError))
    case Exit(status) =>
      s.start == Running && s.runs > 0 && s' == s.(start := Exited(status), waited := s.waited + {s.runs - 1})
    case Decide =>
      && s.start.Exited? && !s.start.status.NonZero?
      && s' == s.(start := Unwinding(if s.start.status.Clean? then Success else WaitError))
    case ReadStopping =>
      && s.start.Exited? && s.start.status.NonZero?
      && s' == s.(start := Unwinding(if s.shared.stopping then Success else ExitCode(s.start.status.code)))
    case CloseChannel =>
      && s.start.Unwinding? && s.runs > 0
      && s' == s.(start := ChannelClosed(s.start.result), closed := s.closed + multiset{s.runs - 1})
    case Clear =>
      && s.start.ChannelClosed?
      && s' == s.(shared := s.shared.Cleared(), start := Idle, results := s.results + [s.start.result])
    case _ => false
  }

  /** Stop's own moves: where it goes next, given the state it sees. */
  ghost predicate StopMove(s: State, e: Event, pc: StopPc, pc': StopPc) {
    match e
    case StopChecksProcess(_) =>
      && pc.Entered?
      && pc' == if pc.cmd.Some? && pc.cmd.value in s.spawned then Signalling(pc.cmd.value, pc.done)
                else ReturnedNil(None)
    case StopSignals(_, delivered) =>
      && pc.Signalling?
      && pc' == if !delivered then ReturnedError(pc.run)
                else if pc.done.Some? then Waiting(pc.run, pc.done.value)
                else ReturnedNil(Some(pc.run))
    case StopSeesChannelClosed(_) =>
      && (pc.Waiting? || pc.Reaping?) && pc.channel in s.closed
      && pc' == ReturnedNil(Some(pc.run))
    case StopTimesOut(_) =>
      pc.Waiting? && pc' == Killing(pc.run, pc.channel)
    case StopKills(_, delivered) =>
      pc.Killing? && pc' == if delivered then Reaping(pc.run, pc.channel) else ReturnedError(pc.run)
    case _ => false
  }

  ghost predicate StopStep(s: State, e: Event, s': State) {
    if e.StopEnters? then
      && e.stop !in s.stops
      && s' == s.(shared := s.shared.Captured(), stops := s.stops[e.stop := Entered(s.shared.cmd, s.shared.done)])
    else
      && (e.StopChecksProcess? || e.StopSignals? || e.StopSeesChannelClosed? || e.StopTimesOut? || e.StopKills?)
      && e.stop in s.stops
      && e.stop in s'.stops
      && StopMove(s, e, s.stops[e.stop], s'.stops[e.stop])
      && s' == s.(stops := s.stops[e.stop := s'.stops[e.stop]])
  }

  ghost predicate Next(s: State, e: Event, s': State) {
    StartStep(s, e, s') || StopStep(s, e, s')
  }

  ghost predicate Moves(ss: seq<State>, es: seq<Event>, i: nat)
    requires |ss| == |es| + 1 && i < |es|
  {
    Next(ss[i], es[i], ss[i + 1])
  }

  ghost predicate Execution(ss: seq<State>, es: seq<Event>) {
    && |ss| == |es| + 1
    && ss[0] == INITIAL
    && forall i: nat {:trigger Moves(ss, es, i)} | i < |es| :: Moves(ss, es, i)
  }

  // ---------------------------------------------------------------- invariants

  /** The run that a Stop has in hand, once it has seen a process. */
  function Held(pc: StopPc): Option<Run> {
    match pc
    case Entered(_, _) => None
    case ReturnedNil(held) => held
    case Signalling(run, _) => Some(run)
    case Waiting(run, _) => Some(run)
    case Killing(run, _) => Some(run)
    case Reaping(run, _) => Some(run)
    case ReturnedError(run) => Some(run)
  }

  /** The run that a Stop found when it entered, whether or not it had a process yet. */
  function Found(pc: StopPc): Option<Run> {
    if pc.Entered? then pc.cmd else Held(pc)
  }

  ghost predicate Finished(s: State, run: Run) {
    run in s.waited && s.closed[run] == 1
  }

  /** A Stop holds one run throughout, and answers nil for it only when that run is over. */
  ghost predicate StopOk(s: State, pc: StopPc) {
    && (Found(pc).Some? ==> Found(pc).value < s.runs)
    && (Held(pc).Some? ==> Held(pc).value in s.spawned)
    && (pc.Entered? ==> pc.cmd == pc.done)
    && (pc.Signalling? ==> pc.done == Some(pc.run))
    && (pc.Waiting? || pc.Killing? || pc.Reaping? ==> pc.channel == pc.run)
    && (pc.ReturnedNil? && pc.held.Some? ==> Finished(s, pc.held.value))
  }

  ghost predicate StartOk(s: State) {
    && (s.start == Idle ==> s.shared.cmd == None)
    && (s.start != Idle ==> s.runs > 0 && s.shared.cmd == Some(s.runs - 1))
    && s.shared.cmd == s.shared.done
    && (forall r | r in s.spawned :: r < s.runs)
    && (s.start == Published ==> s.runs - 1 !in s.spawned)
    && (s.start.Running? || s.start.Exited? ==> s.runs - 1 in s.spawned)
    && (s.start.Exited? ==> s.runs - 1 in s.waited)
    && (s.start.Unwinding? && s.runs - 1 in s.spawned ==> s.runs - 1 in s.waited)
    && |s.results| == (if s.start == Idle then s.runs else s.runs - 1)
  }

  ghost predicate ChannelsOk(s: State) {
    && (forall r: Run :: s.closed[r] <= 1)
    && (forall r: Run :: r in s.closed <==>
          (r < s.runs && (r == s.runs - 1 ==> s.start.ChannelClosed? || s.start == Idle)))
    && (forall r: Run | r in s.closed && r in s.spawned :: r in s.waited)
  }

  /** Once any Stop has found the current run, `stopping` stays set until the next run is published. */
  ghost predicate StoppingOk(s: State) {
    s.start != Idle ==>
      forall k | k in s.stops && Found(s.stops[k]) == Some(s.runs - 1) :: s.shared.stopping
  }

  ghost predicate Inv(s: State) {
    StartOk(s) && ChannelsOk(s) && StoppingOk(s) && forall k | k in s.stops :: StopOk(s, s.stops[k])
  }

  lemma StartKeepsInv(s: State, e: Event, s': State)
    requires Inv(s) && StartStep(s, e, s')
    ensures Inv(s')
  {
    assert StartOk(s');
    assert ChannelsOk(s');
    forall k | k in s'.stops
      ensures StopOk(s', s'.stops[k])
    {
      assert StopOk(s, s.stops[k]);
    }
  }

  lemma StopKeepsInv(s: State, e: Event, s': State)
    requires Inv(s) && StopStep(s, e, s')
    ensures Inv(s')
  {
    forall k | k in s'.stops
      ensures StopOk(s', s'.stops[k])
    {
      if k in s.stops {
        assert StopOk(s, s.stops[k]);
      }
    }
  }

  lemma {:induction false} InvHolds(ss: seq<State>, es: seq<Event>, n: nat)
    requires Execution(ss, es) && n <= |es|
    ensures Inv(ss[n])
  {
    if n > 0 {
      InvHolds(ss, es, n - 1);
      assert Moves(ss, es, n - 1);
      if StartStep(ss[n - 1], es[n - 1], ss[n]) {
        StartKeepsInv(ss[n - 1], es[n - 1], ss[n]);
      } else {
        StopKeepsInv(ss[n - 1], es[n - 1], ss[n]);
      }
    }
  }

  // ---------------------------------------------------------------- what Stop's answer means

  /**
   A Stop that found a running child and answers nil does so after that run's Wait has returned and
   its channel has been closed, once. No channel is ever closed twice.
   */
  lemma NilStopMeansFinished(ss: seq<State>, es: seq<Event>, n: nat, stop: nat, run: Run)
    requires Execution(ss, es) && n <= |es|
    requires stop in ss[n].stops && ss[n].stops[stop] == ReturnedNil(Some(run))
    ensures Finished(ss[n], run)
    ensures forall r: Run :: ss[n].closed[r] <= 1
  {
    InvHolds(ss, es, n);
    assert StopOk(ss[n], ss[n].stops[stop]);
  }

  /** Under the lock there is a command exactly when there is a channel, and both are of one run. */
  lemma CommandAndChannelAgree(ss: seq<State>, es: seq<Event>, n: nat)
    requires Execution(ss, es) && n <= |es|
    ensures ss[n].shared.cmd == ss[n].shared.done
    ensures ss[n].shared.cmd.Some? <==> ss[n].start != Idle
  {
    InvHolds(ss, es, n);
  }

  /** Once the Start of the run it holds is over, a Stop that waits for a channel is able to return. */
  lemma NoStopIsStranded(ss: seq<State>, es: seq<Event>, n: nat, stop: nat)
    requires Execution(ss, es) && n <= |es|
    requires stop in ss[n].stops && (ss[n].stops[stop].Waiting? || ss[n].stops[stop].Reaping?)
    requires ss[n].start == Idle || ss[n].stops[stop].run != ss[n].runs - 1
    ensures var s := ss[n];
            Next(s, StopSeesChannelClosed(stop),
                 s.(stops := s.stops[stop := ReturnedNil(Some(s.stops[stop].run))]))
  {
    InvHolds(ss, es, n);
    var s := ss[n];
    assert StopOk(s, s.stops[stop]);
    var s' := s.(stops := s.stops[stop := ReturnedNil(Some(s.stops[stop].run))]);
    assert StopMove(s, StopSeesChannelClosed(stop), s.stops[stop], s'.stops[stop]);
  }

  // ---------------------------------------------------------------- what Start's answer means

  ghost predicate NoPublish(es: seq<Event>, from: int, to: int)
    requires -1 <= from && to <= |es|
  {
    forall i | from < i < to :: !es[i].Publish?
  }

  ghost predicate StopEnteredBetween(es: seq<Event>, from: nat, to: nat)
    requires to <= |es|
  {
    exists i :: from < i < to && es[i].StopEnters?
  }

  lemma {:induction false} StoppingMeansStopEntered(ss: seq<State>, es: seq<Event>, p: nat, k: nat)
    requires Execution(ss, es) && p < k <= |es|
    requires es[p].Publish? && NoPublish(es, p, k)
    ensures ss[k].shared.stopping <==> StopEnteredBetween(es, p, k)
  {
    assert Moves(ss, es, k - 1);
    if k > p + 1 {
      StoppingMeansStopEntered(ss, es, p, k - 1);
      if StopEnteredBetween(es, p, k - 1) {
        var i :| p < i < k - 1 && es[i].StopEnters?;
        assert StopEnteredBetween(es, p, k);
      }
    }
  }

  ghost predicate ReturnsOrReturned(s: State, result: StartResult) {
    || s.start == Unwinding(result)
    || s.start == ChannelClosed(result)
    || (s.start == Idle && s.results != [] && s.results[|s.results| - 1] == result)
  }

  lemma {:induction false} ResultIsKept(ss: seq<State>, es: seq<Event>, q: nat, k: nat, result: StartResult)
    requires Execution(ss, es) && q < k <= |es|
    requires ss[q + 1].start == Unwinding(result) && NoPublish(es, q, k)
    ensures ReturnsOrReturned(ss[k], result)
  {
    if k > q + 1 {
      ResultIsKept(ss, es, q, k - 1, result);
      assert Moves(ss, es, k - 1);
    }
  }

  lemma {:induction false} RunIsKept(ss: seq<State>, es: seq<Event>, p: nat, k: nat)
    requires Execution(ss, es) && p < k <= |es|
    requires es[p].Publish? && NoPublish(es, p, k)
    ensures ss[k].runs == ss[p].runs + 1
  {
    assert Moves(ss, es, k - 1);
    if k > p + 1 {
      RunIsKept(ss, es, p, k - 1);
    }
  }

  /**
   Of a run published at step `p` whose child fails and is looked at in step `q`: its Start, which
   returns in step `c`, answers nil exactly when some Stop entered between `p` and `q`; otherwise it
   reports the child's exit code.
   */
  lemma FailedRunIsForgivenExactlyWhenStopped(ss: seq<State>, es: seq<Event>, p: nat, q: nat, c: nat)
    requires Execution(ss, es) && p < q < c < |es|
    requires es[p].Publish? && es[q].ReadStopping? && es[c].Clear? && NoPublish(es, p, c)
    ensures var run := ss[p].runs;
            && |ss[c + 1].results| == run + 1
            && ss[q].start.Exited? && ss[q].start.status.NonZero?
            && ss[c + 1].results[run] == (if StopEnteredBetween(es, p, q) then Success
                                          else ExitCode(ss[q].start.status.code))
  {
    assert Moves(ss, es, q);
    assert Moves(ss, es, c);
    StoppingMeansStopEntered(ss, es, p, q);
    ResultIsKept(ss, es, q, c + 1, ss[q + 1].start.result);
    RunIsKept(ss, es, p, c + 1);
    InvHolds(ss, es, c + 1);
  }

  lemma {:induction false} HeldRunIsKept(ss: seq<State>, es: seq<Event>, i: nat, k: nat, stop: nat)
    requires Execution(ss, es) && i <= k <= |es|
    requires stop in ss[i].stops && Held(ss[i].stops[stop]).Some?
    ensures stop in ss[k].stops && Held(ss[k].stops[stop]) == Held(ss[i].stops[stop])
  {
    if k > i {
      HeldRunIsKept(ss, es, i, k - 1, stop);
      assert Moves(ss, es, k - 1);
    }
  }

  /** The failure of a child that some Stop has signalled, or is about to, is never reported. */
  lemma StoppedChildIsNotAFailure(ss: seq<State>, es: seq<Event>, i: nat, q: nat, stop: nat)
    requires Execution(ss, es) && i <= q < |es|
    requires stop in ss[i].stops && Held(ss[i].stops[stop]).Some?
    requires es[q].ReadStopping? && ss[q].runs > 0
    requires Held(ss[i].stops[stop]).value == ss[q].runs - 1
    ensures ss[q + 1].start == Unwinding(Success)
  {
    InvHolds(ss, es, q);
    HeldRunIsKept(ss, es, i, q, stop);
    assert Moves(ss, es, q);
    assert Found(ss[q].stops[stop]) == Some(ss[q].runs - 1);
  }

  // ---------------------------------------------------------------- what a Stop has done, from its events alone

  /** An event of one Stop, after it has entered. */
  predicate MoveOfStop(e: Event, k: nat) {
    match e
    case StopChecksProcess(stop) => stop == k
    case StopSignals(stop, _) => stop == k
    case StopSeesChannelClosed(stop) => stop == k
    case StopTimesOut(stop) => stop == k
    case StopKills(stop, _) => stop == k
    case _ => false
  }

  lemma OthersKeepStop(s: State, e: Event, s': State, k: nat)
    requires Next(s, e, s') && k in s.stops && !MoveOfStop(e, k)
    ensures k in s'.stops && s'.stops[k] == s.stops[k]
  {
  }

  lemma OwnMoveOfStop(s: State, e: Event, s': State, k: nat)
    requires Next(s, e, s') && MoveOfStop(e, k)
    ensures k in s.stops && k in s'.stops && StopMove(s, e, s.stops[k], s'.stops[k])
  {
  }

  ghost predicate Happened(es: seq<Event>, from: nat, to: nat, e: Event)
    requires to <= |es|
  {
    exists m :: from < m < to && es[m] == e
  }

  lemma HappenedGrows(es: seq<Event>, from: nat, to: nat, e: Event)
    requires from < to < |es|
    ensures Happened(es, from, to + 1, e) <==> Happened(es, from, to, e) || es[to] == e
  {
  }

  ghost predicate Signalled(es: seq<Event>, from: nat, to: nat, k: nat)
    requires to <= |es|
  {
    Happened(es, from, to, StopSignals(k, true)) || Happened(es, from, to, StopSignals(k, false))
  }

  /** Step `j` is where the Stop that entered in step `i` looked for a process. */
  ghost predicate ChecksIn(es: seq<Event>, i: nat, n: nat, k: nat, j: nat)
    requires n <= |es|
  {
    i < j < n && es[j] == StopChecksProcess(k)
  }

  /** Where a Stop is that has found the process of `run`. */
  ghost predicate AfterFinding(es: seq<Event>, i: nat, n: nat, k: nat, run: Run, pc: StopPc)
    requires n <= |es|
  {
    match pc
    case Signalling(r, _) => r == run && !Signalled(es, i, n, k)
    case Waiting(r, _) => r == run && Happened(es, i, n, StopSignals(k, true))
    case Killing(r, _) =>
      r == run && Happened(es, i, n, StopSignals(k, true)) && Happened(es, i, n, StopTimesOut(k))
    case Reaping(r, _) =>
      && r == run && Happened(es, i, n, StopSignals(k, true)) && Happened(es, i, n, StopTimesOut(k))
      && Happened(es, i, n, StopKills(k, true))
    case ReturnedNil(held) => held == Some(run) && Happened(es, i, n, StopSignals(k, true))
    case ReturnedError(r) =>
      && r == run
      && (|| Happened(es, i, n, StopSignals(k, false))
          || (Happened(es, i, n, StopTimesOut(k)) && Happened(es, i, n, StopKills(k, false))))
    case Entered(_, _) => false
  }

  /** The Stop looked for a process in step `j`; what has become of it since. */
  ghost predicate StoryFrom(ss: seq<State>, es: seq<Event>, i: nat, n: nat, k: nat, j: nat, pc: StopPc)
    requires |ss| == |es| + 1 && i < n <= |es|
  {
    var cmd := ss[i].shared.cmd;
    && ChecksIn(es, i, n, k, j)
    && if cmd.Some? && cmd.value in ss[j].spawned then AfterFinding(es, i, n, k, cmd.value, pc)
       else pc == ReturnedNil(None) && !Signalled(es, i, n, k)
  }

  /** What a Stop found and did, read off the events and the shared state since it entered in step `i`. */
  ghost predicate Story(ss: seq<State>, es: seq<Event>, i: nat, n: nat, k: nat)
    requires |ss| == |es| + 1 && i < n <= |es| && k in ss[n].stops
  {
    var pc := ss[n].stops[k];
    if pc.Entered? then
      && pc == Entered(ss[i].shared.cmd, ss[i].shared.done)
      && !Signalled(es, i, n, k) && forall j: nat :: !ChecksIn(es, i, n, k, j)
    else
      exists j: nat :: StoryFrom(ss, es, i, n, k, j, pc)
  }

  lemma AllHappenedGrow(es: seq<Event>, i: nat, n: nat, k: nat)
    requires i < n < |es|
    ensures forall e {:trigger Happened(es, i, n + 1, e)} ::
              Happened(es, i, n + 1, e) <==> (Happened(es, i, n, e) || es[n] == e)
    ensures forall j: nat {:trigger ChecksIn(es, i, n + 1, k, j)} ::
              ChecksIn(es, i, n + 1, k, j) <==> (ChecksIn(es, i, n, k, j) || (j == n && es[n] == StopChecksProcess(k)))
  {
    forall j: nat
      ensures ChecksIn(es, i, n + 1, k, j) <==> (ChecksIn(es, i, n, k, j) || (j == n && es[n] == StopChecksProcess(k)))
    {
    }
    forall e
      ensures Happened(es, i, n + 1, e) <==> Happened(es, i, n, e) || es[n] == e
    {
      HappenedGrows(es, i, n, e);
    }
  }

  lemma FindingStep(s: State, es: seq<Event>, i: nat, n: nat, k: nat, run: Run, pc: StopPc, pc': StopPc)
    requires i < n < |es| && MoveOfStop(es[n], k) && StopMove(s, es[n], pc, pc') && !pc.Entered?
    requires AfterFinding(es, i, n, k, run, pc)
    ensures AfterFinding(es, i, n + 1, k, run, pc')
  {
    AllHappenedGrow(es, i, n, k);
  }

  lemma FindingWaits(es: seq<Event>, i: nat, n: nat, k: nat, run: Run, pc: StopPc)
    requires i < n < |es| && !MoveOfStop(es[n], k) && AfterFinding(es, i, n, k, run, pc)
    ensures AfterFinding(es, i, n + 1, k, run, pc)
  {
    AllHappenedGrow(es, i, n, k);
    SignalledGrows(es, i, n, k);
  }

  lemma SignalledGrows(es: seq<Event>, i: nat, n: nat, k: nat)
    requires i < n < |es| && (!MoveOfStop(es[n], k) || es[n].StopChecksProcess?)
    ensures Signalled(es, i, n + 1, k) <==> Signalled(es, i, n, k)
  {
    AllHappenedGrow(es, i, n, k);
  }

  lemma StoryWaits(ss: seq<State>, es: seq<Event>, i: nat, n: nat, k: nat)
    requires Execution(ss, es) && i < n < |es| && k in ss[n].stops && Story(ss, es, i, n, k)
    requires !MoveOfStop(es[n], k) && k in ss[n + 1].stops && ss[n + 1].stops[k] == ss[n].stops[k]
    ensures Story(ss, es, i, n + 1, k)
  {
    var pc, cmd := ss[n].stops[k], ss[i].shared.cmd;
    AllHappenedGrow(es, i, n, k);
    SignalledGrows(es, i, n, k);
    if !pc.Entered? {
      var j: nat :| StoryFrom(ss, es, i, n, k, j, pc);
      if cmd.Some? && cmd.value in ss[j].spawned {
        FindingWaits(es, i, n, k, cmd.value, pc);
      }
      assert StoryFrom(ss, es, i, n + 1, k, j, pc);
    }
  }

  lemma StoryChecks(ss: seq<State>, es: seq<Event>, i: nat, n: nat, k: nat)
    requires Execution(ss, es) && i < n < |es| && k in ss[n].stops && Story(ss, es, i, n, k)
    requires es[n] == StopChecksProcess(k) && k in ss[n + 1].stops
    requires StopMove(ss[n], es[n], ss[n].stops[k], ss[n + 1].stops[k])
    ensures Story(ss, es, i, n + 1, k)
  {
    AllHappenedGrow(es, i, n, k);
    SignalledGrows(es, i, n, k);
    CommandAndChannelAgree(ss, es, i);
    assert StoryFrom(ss, es, i, n + 1, k, n, ss[n + 1].stops[k]);
  }

  lemma StoryMoves(ss: seq<State>, es: seq<Event>, i: nat, n: nat, k: nat)
    requires Execution(ss, es) && i < n < |es| && k in ss[n].stops && Story(ss, es, i, n, k)
    requires MoveOfStop(es[n], k) && !es[n].StopChecksProcess? && k in ss[n + 1].stops
    requires StopMove(ss[n], es[n], ss[n].stops[k], ss[n + 1].stops[k])
    ensures Story(ss, es, i, n + 1, k)
  {
    var pc, pc', cmd := ss[n].stops[k], ss[n + 1].stops[k], ss[i].shared.cmd;
    AllHappenedGrow(es, i, n, k);
    var j: nat :| StoryFrom(ss, es, i, n, k, j, pc);
    FindingStep(ss[n], es, i, n, k, cmd.value, pc, pc');
    assert StoryFrom(ss, es, i, n + 1, k, j, pc');
  }

  lemma StoryBegins(ss: seq<State>, es: seq<Event>, i: nat, k: nat)
    requires Execution(ss, es) && i < |es| && es[i] == StopEnters(k)
    ensures k in ss[i + 1].stops && Story(ss, es, i, i + 1, k)
  {
    assert Moves(ss, es, i);
  }

  lemma StoryGoesOn(ss: seq<State>, es: seq<Event>, i: nat, n: nat, k: nat)
    requires Execution(ss, es) && i < n < |es| && k in ss[n].stops && Story(ss, es, i, n, k)
    ensures k in ss[n + 1].stops && Story(ss, es, i, n + 1, k)
  {
    assert Moves(ss, es, n);
    if !MoveOfStop(es[n], k) {
      OthersKeepStop(ss[n], es[n], ss[n + 1], k);
      StoryWaits(ss, es, i, n, k);
    } else {
      OwnMoveOfStop(ss[n], es[n], ss[n + 1], k);
      if es[n].StopChecksProcess? {
        StoryChecks(ss, es, i, n, k);
      } else {
        StoryMoves(ss, es, i, n, k);
      }
    }
  }

  /** So it is for every Stop that has entered, at any later step of any run. */
  lemma {:induction false} StopHasAStory(ss: seq<State>, es: seq<Event>, i: nat, n: nat, k: nat)
    requires Execution(ss, es) && i < n <= |es| && es[i] == StopEnters(k)
    ensures k in ss[n].stops && Story(ss, es, i, n, k)
  {
    if n == i + 1 {
      StoryBegins(ss, es, i, k);
    } else {
      StopHasAStory(ss, es, i, n - 1, k);
      StoryGoesOn(ss, es, i, n - 1, k);
    }
  }

  /**
   A Stop that answers nil has looked for a process in some step `j`. If the command it found on entering
   had one by then, it has delivered a signal, that run's Wait has returned and its channel has been closed
   once. So nil without a signal means that there was no command on entering, or no process yet.
   */
  lemma NilStopHasSignalled(ss: seq<State>, es: seq<Event>, i: nat, n: nat, k: nat) returns (j: nat)
    requires Execution(ss, es) && i < n <= |es| && es[i] == StopEnters(k)
    requires k in ss[n].stops && ss[n].stops[k].ReturnedNil?
    ensures i < j < n && es[j] == StopChecksProcess(k)
    ensures var cmd := ss[i].shared.cmd;
            if cmd.Some? && cmd.value in ss[j].spawned then
              Happened(es, i, n, StopSignals(k, true)) && cmd.value in ss[n].waited && ss[n].closed[cmd.value] == 1
            else !Signalled(es, i, n, k)
  {
    StopHasAStory(ss, es, i, n, k);
    var pc, cmd := ss[n].stops[k], ss[i].shared.cmd;
    j :| StoryFrom(ss, es, i, n, k, j, pc);
    if cmd.Some? && cmd.value in ss[j].spawned {
      NilStopMeansFinished(ss, es, n, k, cmd.value);
    }
  }

  /** A Stop answers an error only if its signal did not get through, or after a timeout its kill. */
  lemma FailedStopMeansUndelivered(ss: seq<State>, es: seq<Event>, i: nat, n: nat, k: nat)
    requires Execution(ss, es) && i < n <= |es| && es[i] == StopEnters(k)
    requires k in ss[n].stops && ss[n].stops[k].ReturnedError?
    ensures ss[i].shared.cmd == Some(ss[n].stops[k].run)
    ensures || Happened(es, i, n, StopSignals(k, false))
            || (Happened(es, i, n, StopTimesOut(k)) && Happened(es, i, n, StopKills(k, false)))
  {
    StopHasAStory(ss, es, i, n, k);
  }

  /** A Stop that has not answered can always move on, unless it waits for a channel that is not yet closed. */
  lemma StopCanMove(ss: seq<State>, es: seq<Event>, n: nat, k: nat)
    requires Execution(ss, es) && n <= |es| && k in ss[n].stops
    requires !ss[n].stops[k].ReturnedNil? && !ss[n].stops[k].ReturnedError?
    requires ss[n].stops[k].Reaping? ==> ss[n].stops[k].channel in ss[n].closed
    ensures exists e, s' :: MoveOfStop(e, k) && Next(ss[n], e, s')
  {
    var s, pc := ss[n], ss[n].stops[k];
    var e := match pc
             case Entered(_, _) => StopChecksProcess(k)
             case Signalling(_, _) => StopSignals(k, true)
             case Waiting(_, _) => StopTimesOut(k)
             case Killing(_, _) => StopKills(k, true)
             case _ => StopSeesChannelClosed(k);
    var pc' := match pc
               case Entered(cmd, done) =>
                 if cmd.Some? && cmd.value in s.spawned then Signalling(cmd.value, done) else ReturnedNil(None)
               case Signalling(run, done) => if done.Some? then Waiting(run, done.value) else ReturnedNil(Some(run))
               case Waiting(run, channel) => Killing(run, channel)
               case Killing(run, channel) => Reaping(run, channel)
               case _ => ReturnedNil(Held(pc));
    var s' := s.(stops := s.stops[k := pc']);
    assert StopMove(s, e, pc, s'.stops[k]);
    assert StopStep(s, e, s');
    assert MoveOfStop(e, k) && Next(s, e, s');
  }

  /** Nothing can hold up a Start: whatever the Stops have done, its next step can be taken. */
  lemma StartCanMove(ss: seq<State>, es: seq<Event>, n: nat)
    requires Execution(ss, es) && n <= |es|
    ensures exists e, s' :: StartStep(ss[n], e, s')
  {
    InvHolds(ss, es, n);
    var s := ss[n];
    var last := s.runs - 1;
    var (e, s') := match s.start
                   case Idle =>
                     (Publish, s.(shared := s.shared.Published(s.runs), runs := s.runs + 1, start := Published))
                   case Published => (Spawn(true), s.(start := Running, spawned := s.spawned + {last}))
                   case Running => (Exit(Clean), s.(start := Exited(Clean), waited := s.waited + {last}))
                   case Exited(status) =>
                     if status.NonZero? then
                       var result := if s.shared.stopping then Success else ExitCode(status.code);
                       (ReadStopping, s.(start := Unwinding(result)))
                     else (Decide, s.(start := Unwinding(if status.Clean? then Success else WaitError)))
                   case Unwinding(result) =>
                     (CloseChannel, s.(start := ChannelClosed(result), closed := s.closed + multiset{last}))
                   case ChannelClosed(result) =>
                     (Clear, s.(shared := s.shared.Cleared(), start := Idle, results := s.results + [result]));
    assert StartStep(s, e, s');
  }

  // ---------------------------------------------------------------- what a Start answers, from its events alone

  /** What explains a Start's answer: how its child began and ended, and whether a Stop had entered by then. */
  ghost predicate Explains(es: seq<Event>, p: nat, n: nat, result: StartResult)
    requires n <= |es|
  {
    match result
    case SpawnError => Happened(es, p, n, Spawn(false))
    case WaitError => Happened(es, p, n, Exit(WaitFailed))
    case Success =>
      || Happened(es, p, n, Exit(Clean))
      || exists q: nat, code :: q < n && FailedIn(es, p, q, code) && StopEnteredBetween(es, p, q)
    case ExitCode(code) =>
      exists q: nat :: q < n && FailedIn(es, p, q, code) && !StopEnteredBetween(es, p, q)
  }

  /** The child exited with this code, and step `q` reads whether a Stop has entered. */
  ghost predicate FailedIn(es: seq<Event>, p: nat, q: nat, code: int) {
    p < q < |es| && es[q].ReadStopping? && Happened(es, p, q, Exit(NonZero(code)))
  }

  ghost predicate StartStory(s: State, es: seq<Event>, p: nat, n: nat)
    requires n <= |es|
  {
    match s.start
    case Published => true
    case Running => Happened(es, p, n, Spawn(true))
    case Exited(status) => Happened(es, p, n, Exit(status))
    case Unwinding(result) => Explains(es, p, n, result)
    case ChannelClosed(result) => Explains(es, p, n, result)
    case Idle => s.results != [] && Explains(es, p, n, s.results[|s.results| - 1])
  }

  lemma FailedInGrows(es: seq<Event>, p: nat, n: nat, result: StartResult)
    requires p < n < |es| && Explains(es, p, n, result)
    ensures Explains(es, p, n + 1, result)
  {
    AllHappenedGrow(es, p, n, 0);
  }

  lemma StartStoryStep(s: State, es: seq<Event>, p: nat, n: nat, s': State)
    requires p < n < |es| && !es[n].Publish? && StartStory(s, es, p, n) && s.start != Idle
    requires StartStep(s, es[n], s') && (es[n].ReadStopping? ==> (s.shared.stopping <==> StopEnteredBetween(es, p, n)))
    ensures StartStory(s', es, p, n + 1)
  {
    AllHappenedGrow(es, p, n, 0);
    if s.start.Unwinding? || s.start.ChannelClosed? {
      FailedInGrows(es, p, n, s.start.result);
    }
    if es[n].ReadStopping? {
      var code := s.start.status.code;
      assert FailedIn(es, p, n, code);
    }
  }

  lemma StartStoryWaits(s: State, es: seq<Event>, p: nat, n: nat, s': State)
    requires p < n < |es| && StartStory(s, es, p, n) && s'.start == s.start && s'.results == s.results
    ensures StartStory(s', es, p, n + 1)
  {
    AllHappenedGrow(es, p, n, 0);
    match s.start {
      case Unwinding(result) => FailedInGrows(es, p, n, result);
      case ChannelClosed(result) => FailedInGrows(es, p, n, result);
      case Idle => FailedInGrows(es, p, n, s.results[|s.results| - 1]);
      case _ =>
    }
  }

  lemma StopKeepsStart(s: State, e: Event, s': State)
    requires StopStep(s, e, s')
    ensures s'.start == s.start && s'.results == s.results
  {
  }

  lemma IdleWaits(s: State, e: Event, s': State)
    requires StartStep(s, e, s') && s.start == Idle
    ensures e.Publish?
  {
  }

  lemma StartStoryBegins(ss: seq<State>, es: seq<Event>, p: nat)
    requires Execution(ss, es) && p < |es| && es[p].Publish?
    ensures StartStory(ss[p + 1], es, p, p + 1)
  {
    assert Moves(ss, es, p);
  }

  lemma StartStoryGoesOn(s: State, es: seq<Event>, p: nat, n: nat, s': State)
    requires p < n < |es| && !es[n].Publish? && StartStory(s, es, p, n) && Next(s, es[n], s')
    requires s.shared.stopping <==> StopEnteredBetween(es, p, n)
    ensures StartStory(s', es, p, n + 1)
  {
    if StopStep(s, es[n], s') {
      StopKeepsStart(s, es[n], s');
      StartStoryWaits(s, es, p, n, s');
    } else {
      if s.start == Idle {
        IdleWaits(s, es[n], s');
      }
      StartStoryStep(s, es, p, n, s');
    }
  }

  lemma StartStoryStays(ss: seq<State>, es: seq<Event>, p: nat, k: nat)
    requires Execution(ss, es) && p < k < |es| && es[p].Publish? && NoPublish(es, p, k) && !es[k].Publish?
    requires StartStory(ss[k], es, p, k)
    ensures StartStory(ss[k + 1], es, p, k + 1)
  {
    StoppingMeansStopEntered(ss, es, p, k);
    StepOf(ss, es, k);
    StartStoryGoesOn(ss[k], es, p, k, ss[k + 1]);
  }

  lemma {:induction false} StartHasAStory(ss: seq<State>, es: seq<Event>, p: nat, n: nat)
    requires Execution(ss, es) && p < n <= |es| && es[p].Publish? && NoPublish(es, p, n)
    ensures StartStory(ss[n], es, p, n)
  {
    if n == p + 1 {
      StartStoryBegins(ss, es, p);
    } else {
      StartHasAStory(ss, es, p, n - 1);
      StartStoryStays(ss, es, p, n - 1);
    }
  }

  lemma StepOf(ss: seq<State>, es: seq<Event>, k: nat)
    requires Execution(ss, es) && k < |es|
    ensures Next(ss[k], es[k], ss[k + 1])
  {
    assert Moves(ss, es, k);
  }

  /**
   The answer of the Start that was published in step `p` and returns in step `c`: a start error if its child
   did not begin, a wait error if waiting failed, nil if the child ended well or failed when a Stop had
   entered by the time that was looked at, and otherwise the child's own exit code.
   */
  lemma StartAnswersByItsChild(ss: seq<State>, es: seq<Event>, p: nat, c: nat)
    requires Execution(ss, es) && p < c < |es| && es[p].Publish? && es[c].Clear? && NoPublish(es, p, c)
    ensures |ss[c + 1].results| == ss[p].runs + 1
    ensures Explains(es, p, c + 1, ss[c + 1].results[ss[p].runs])
  {
    assert Moves(ss, es, c);
    StartHasAStory(ss, es, p, c + 1);
    RunIsKept(ss, es, p, c + 1);
    InvHolds(ss, es, c + 1);
  }
}
