/** What the worker pool promises, over every run: at-least-once delivery, draining, progress, order. */
module PoolTheorems {
  import opened Common
  import opened PoolProtocol
  import opened PoolSafety

  /** Some run from a first process start leads to s. */
  ghost predicate Reachable(s: State) {
    exists s0: State, run: seq<Action> :: Initial(s0) && ValidRun(s0, run) && After(s0, run) == s
  }

  lemma ReachableIsInv(s: State)
    requires Reachable(s)
    ensures Inv(s)
  {
    var s0: State, run: seq<Action> :| Initial(s0) && ValidRun(s0, run) && After(s0, run) == s;
    InitialIsInv(s0);
    RunKeepsInv(s0, run);
  }

  lemma {:induction false} RunsConcatenate(s: State, run: seq<Action>, more: seq<Action>)
    requires ValidRun(s, run) && ValidRun(After(s, run), more)
    ensures ValidRun(s, run + more) && After(s, run + more) == After(After(s, run), more)
    decreases |run|
  {
    if run == [] {
      assert run + more == more;
    } else {
      RunsConcatenate(Apply(s, run[0]), run[1..], more);
      assert (run + more)[0] == run[0] && (run + more)[1..] == run[1..] + more;
    }
  }

  lemma RunsThen(s: State, a: Action, rest: seq<Action>)
    requires Enabled(s, a) && ValidRun(Apply(s, a), rest)
    ensures ValidRun(s, [a] + rest) && After(s, [a] + rest) == After(Apply(s, a), rest)
  {
    assert ([a] + rest)[1..] == rest;
  }

  // ---------------------------------------------------------------- at-least-once

  /**
   * Over any number of sessions, with commits that fail, arrive out of order or move backwards, each crash
   * loses at most N-1 messages and a shutdown that lets Run return loses none; in particular nothing is
   * lost over graceful restarts. What a returned session fetched and did not handle is fetched again.
   */
  lemma AtMostConcurrencyLessOneLostPerCrash(s: State)
    requires Reachable(s)
    ensures |Lost(s)| <= (s.crashes + 1) * (|s.workers| - 1)
    ensures s.dispatcher.Returned? ==> |Lost(s)| <= s.crashes * (|s.workers| - 1)
    ensures s.dispatcher.Returned? && s.crashes == 0 ==> Lost(s) == {}
    ensures s.dispatcher.Returned? ==> UnhandledIsAhead(s)
  {
    ReachableIsInv(s);
    LossBound(s);
    OneMore(s.crashes, |s.workers| - 1);
    if s.dispatcher.Returned? {
      UnhandledStaysAhead(s);
    }
  }

  /** A message that was fetched and not handled is the last one, and no commit has passed it: it will be fetched again. */
  predicate UnhandledIsAhead(s: State) {
    forall i: nat | i < |s.fetched| && i !in s.completed ::
      && i == |s.fetched| - 1 && s.fetched[i].partition < |s.committed|
      && s.committed[s.fetched[i].partition] <= s.fetched[i].offset
  }

  /** When Run has returned, only the message the dispatcher dropped is unhandled, and no commit has passed it. */
  lemma UnhandledStaysAhead(s: State)
    requires Inv(s) && s.dispatcher.Returned?
    ensures UnhandledIsAhead(s)
  {
    forall i: nat | i < |s.fetched| && i !in s.completed
      ensures i == |s.fetched| - 1 && s.fetched[i].partition < |s.committed|
      ensures s.committed[s.fetched[i].partition] <= s.fetched[i].offset
    {
      var p := s.fetched[i].partition;
      if s.committed[p] != s.start[p] {
        assert Explained(s.start, s.committed, s.fetched, s.completed, p);
        var c: nat :| CommittedBy(s.committed, s.fetched, s.completed, p, c);
        assert c < i;
      }
    }
  }

  // The bound is reached: N workers take one message each and the one with the last message finishes first.

  const SOME_EVENT := Event(0, 0, "email", "", "", "")

  /** One partition with n jobs, the first k of them handed to workers 0 to k-1. */
  function Spread(n: nat, k: nat): State {
    State(1, [seq(n, _ => Job(SOME_EVENT))], [0], {}, 0, [0], [k], seq(k, i requires 0 <= i => Msg(0, i)),
          seq(k, i requires 0 <= i => i), [], seq(n, w requires 0 <= w => if w < k then Busy(w, Received) else Idle),
          Fetching, false, false)
  }

  lemma SpreadStep(n: nat, k: nat)
    requires k < n
    ensures ValidRun(Spread(n, k), [FetchReturns(0), HandOff(k)])
    ensures After(Spread(n, k), [FetchReturns(0), HandOff(k)]) == Spread(n, k + 1)
  {
    var s := Spread(n, k);
    var s1 := Apply(s, FetchReturns(0));
    assert s1.fetched == Spread(n, k + 1).fetched && s1.cursor == [k + 1];
    assert Enabled(s1, HandOff(k));
    var s2 := Apply(s1, HandOff(k));
    assert s2.workers == Spread(n, k + 1).workers;
    assert s2.owner == Spread(n, k + 1).owner;
    assert s2 == Spread(n, k + 1);
    RunsThen(s1, HandOff(k), []);
    RunsThen(s, FetchReturns(0), [HandOff(k)]);
  }

  lemma {:induction false} SpreadRun(n: nat, k: nat) returns (run: seq<Action>)
    requires k <= n
    ensures ValidRun(Spread(n, 0), run) && After(Spread(n, 0), run) == Spread(n, k)
    ensures forall i | 0 <= i < |run| :: run[i].FetchReturns? || run[i].HandOff?
  {
    if k == 0 {
      run := [];
    } else {
      run := SpreadRun(n, k - 1);
      SpreadStep(n, k - 1);
      RunsConcatenate(Spread(n, 0), run, [FetchReturns(0), HandOff(k - 1)]);
      run := run + [FetchReturns(0), HandOff(k - 1)];
    }
  }

  /** A worker delivers its message at the first attempt. */
  lemma Delivers(s: State, w: nat, rest: seq<Action>) returns (run: seq<Action>)
    requires s.budget == 1 && !s.cancelled && WorkerAt(s, w) && s.workers[w].stage.Received?
    requires InLog(s, MessageOf(s, w)) && PayloadOf(s, w).Job?
    requires ValidRun(AtStage(s, w, Persisting(Retry.Result(1, None))), rest)
    ensures ValidRun(s, run) && After(s, run) == After(AtStage(s, w, Persisting(Retry.Result(1, None))), rest)
  {
    var s1 := Apply(s, Parse(w));
    assert s1 == AtStage(s, w, Delivering(Retry.AtCheck(1)));
    var s2 := Apply(s1, CheckContext(w));
    assert s2 == AtStage(s, w, Delivering(Retry.Sending(1)));
    var s3 := Apply(s2, SendReturns(w, Retry.Delivered));
    assert s3 == AtStage(s, w, Persisting(Retry.Result(1, None)));
    RunsThen(s2, SendReturns(w, Retry.Delivered), rest);
    run := [SendReturns(w, Retry.Delivered)] + rest;
    RunsThen(s1, CheckContext(w), run);
    run := [CheckContext(w)] + run;
    RunsThen(s, Parse(w), run);
    run := [Parse(w)] + run;
  }

  /** It records the outcome and commits. */
  lemma Concludes(s: State, w: nat) returns (run: seq<Action>)
    requires WorkerAt(s, w) && s.workers[w].stage.Persisting? && MessageOf(s, w).partition < |s.committed|
    ensures ValidRun(s, run)
    ensures var m, t := MessageOf(s, w), After(s, run);
            && t.committed == s.committed[m.partition := m.offset + 1]
            && t.finished == s.finished + {m} && t.completed == s.completed + [s.workers[w].job]
            && t.crashes == s.crashes && t.dispatcher == s.dispatcher
  {
    var s1 := Apply(s, PersistReturns(w, true));
    RunsThen(s1, CommitReturns(w, true), []);
    RunsThen(s, PersistReturns(w, true), [CommitReturns(w, true)] + []);
    run := [PersistReturns(w, true)] + ([CommitReturns(w, true)] + []);
  }

  /** For every concurrency N some run of one session has N-1 messages a crash would lose. */
  lemma BoundIsReached(n: nat) returns (s0: State, run: seq<Action>)
    requires n >= 1
    ensures Initial(s0) && |s0.workers| == n && ValidRun(s0, run) && After(s0, run).crashes == 0
    ensures |Lost(After(s0, run))| == n - 1 && After(s0, run).completed == [n - 1]
    ensures Enabled(After(s0, run), Crash)
  {
    s0 := Spread(n, 0);
    assert FreshSession(s0) == s0;
    run := SpreadRun(n, n);
    var last := Concludes(AtStage(Spread(n, n), n - 1, Persisting(Retry.Result(1, None))), n - 1);
    last := Delivers(Spread(n, n), n - 1, last);
    RunsConcatenate(s0, run, last);
    run := run + last;
    LostOfSpread(n, After(s0, run));
  }

  lemma LostOfSpread(n: nat, s: State)
    requires n >= 1 && s.committed == [n] && s.finished == {Msg(0, n - 1)}
    ensures |Lost(s)| == n - 1
  {
    assert Lost(s) == OffsetsBelow(n - 1);
    OffsetsBelowSize(n - 1);
  }

  ghost function OffsetsBelow(n: nat): set<Msg> {
    set o: nat | o < n :: Msg(0, o)
  }

  lemma {:induction false} OffsetsBelowSize(n: nat)
    ensures |OffsetsBelow(n)| == n
  {
    if n > 0 {
      OffsetsBelowSize(n - 1);
      assert OffsetsBelow(n) == OffsetsBelow(n - 1) + {Msg(0, n - 1)};
    }
  }

  lemma NothingLostByOneWorker(s: State)
    requires Inv(s) && |s.workers| == 1
    ensures Lost(s) == {}
  {
    LossBound(s);
  }

  /** No message is ever at risk of a crash exactly when there is one worker. */
  lemma NothingAtRiskIffOneWorker(n: nat)
    requires n >= 1
    ensures (forall s0, run | Initial(s0) && |s0.workers| == n && ValidRun(s0, run) :: Lost(After(s0, run)) == {})
            <==> n == 1
  {
    if n == 1 {
      forall s0, run | Initial(s0) && |s0.workers| == n && ValidRun(s0, run)
        ensures Lost(After(s0, run)) == {}
      {
        InitialIsInv(s0);
        RunKeepsInv(s0, run);
        NothingLostByOneWorker(After(s0, run));
      }
    } else {
      var s0, run := BoundIsReached(n);
    }
  }

  // ---------------------------------------------------------------- draining

  /**
   * When Run returns, every job handed to a worker was handled to the end, once for its one fetch, and at
   * most one fetched message was not handed over. Nobody ever sends on, or closes, a closed channel.
   */
  lemma ReturnMeansDrained(s: State)
    requires Reachable(s)
    ensures s.dispatcher.Returned? ==>
      && |s.completed| == |s.owner| && Distinct(s.completed)
      && (forall i: nat | i < |s.owner| :: i in s.completed)
      && |s.owner| <= |s.fetched| <= |s.owner| + 1
      && forall w | 0 <= w < |s.workers| :: s.workers[w].Exited?
    ensures s.dispatcher.Offering? || s.dispatcher.Leaving? ==> !s.channelClosed
  {
    ReachableIsInv(s);
    if s.dispatcher.Returned? {
      PermutationLength(s.completed, |s.owner|);
    }
  }

  lemma {:induction false} PermutationLength(jobs: seq<nat>, n: nat)
    requires Distinct(jobs) && (forall i | i in jobs :: i < n) && forall i: nat | i < n :: i in jobs
    ensures |jobs| == n
  {
    DistinctSize(jobs);
    BelowBound(Elements(jobs), n);
  }

  ghost function Elements(jobs: seq<nat>): set<nat> {
    set i | i in jobs
  }

  lemma {:induction false} DistinctSize(jobs: seq<nat>)
    requires Distinct(jobs)
    ensures |Elements(jobs)| == |jobs|
  {
    if jobs != [] {
      var rest, last := jobs[..|jobs| - 1], jobs[|jobs| - 1];
      DistinctSize(rest);
      assert jobs == rest + [last];
      assert last !in rest;
      assert Elements(jobs) == Elements(rest) + {last};
    }
  }

  // ---------------------------------------------------------------- progress

  /** A step of the pool's own; without cancellation a failing fetch does not count as progress. */
  predicate Moves(s: State, a: Action) {
    !IsWorld(a) && Enabled(s, a) && (a.FetchFails? ==> s.cancelled)
  }

  /** Nothing to do: no message to fetch, no job in hand, nobody asked to stop. */
  predicate AtRest(s: State) {
    && s.dispatcher.Fetching? && !s.cancelled
    && |s.cursor| == |s.log| && (forall p | 0 <= p < |s.log| :: s.cursor[p] == |s.log[p]|)
    && (forall w | 0 <= w < |s.workers| :: s.workers[w].Idle?)
  }

  /** A worker with a job can always move. */
  lemma BusyMoves(s: State, w: nat) returns (a: Action)
    requires Inv(s) && w < |s.workers| && s.workers[w].Busy?
    ensures Moves(s, a)
  {
    var m := s.fetched[s.workers[w].job];
    assert WorkerAt(s, w) && m.partition < |s.log| && m.offset < s.cursor[m.partition];
    match s.workers[w].stage
    case Received => a := Parse(w);
    case Delivering(phase) =>
      assert ValidStage(s.budget, s.workers[w].stage);
      match phase {
        case AtCheck(_) => a := CheckContext(w);
        case Sending(_) => a := SendReturns(w, Retry.Delivered);
        case BackingOff(_) => a := BackoffEnds(w, false);
      }
    case Persisting(_) => a := PersistReturns(w, true);
    case Committing => a := CommitReturns(w, true);
  }

  /** With no job in anybody's hands, it is the dispatcher's or an idle worker's turn. */
  lemma DispatcherMoves(s: State)
    requires Inv(s) && !s.dispatcher.Returned? && !s.dispatcher.Fetching?
    requires forall w | 0 <= w < |s.workers| :: !s.workers[w].Busy?
    ensures exists a :: Moves(s, a)
  {
    match s.dispatcher
    case Pausing => assert Moves(s, PauseEnds);
    case Offering => assert Moves(s, HandOff(0));
    case Leaving => assert Moves(s, CloseChannel);
    case Waiting =>
      if w :| 0 <= w < |s.workers| && s.workers[w].Idle? {
        assert Moves(s, WorkerExits(w));
      } else {
        assert Moves(s, WaitEnds);
      }
  }

  lemma FetcherMoves(s: State)
    requires Inv(s) && s.dispatcher.Fetching?
    requires forall w | 0 <= w < |s.workers| :: !s.workers[w].Busy?
    ensures (exists a :: Moves(s, a)) || AtRest(s)
  {
    if s.cancelled {
      assert Moves(s, FetchFails(true));
    } else if p :| 0 <= p < |s.log| && s.cursor[p] < |s.log[p]| {
      assert Moves(s, FetchReturns(p));
    }
  }

  /** No deadlock: until Run returns, something can move, or there is nothing to do. */
  lemma NeverStuck(s: State)
    requires Reachable(s) && !s.dispatcher.Returned?
    ensures (exists a :: Moves(s, a)) || AtRest(s)
  {
    ReachableIsInv(s);
    if w :| 0 <= w < |s.workers| && s.workers[w].Busy? {
      var a := BusyMoves(s, w);
    } else if s.dispatcher.Fetching? {
      FetcherMoves(s);
    } else {
      DispatcherMoves(s);
    }
  }

  /** The most steps a job can take from hand-off to the end of its commit. */
  function JobSteps(budget: int): int {
    3 * Max(0, budget) + 4
  }

  function WorkerRank(budget: int, w: Worker): nat {
    match w
    case Exited => 0
    case Idle => 1
    case Busy(_, stage) =>
      match stage
      case Committing => 2
      case Persisting(_) => 3
      case Delivering(phase) => if Retry.ValidPhase(budget, phase) then 3 + Retry.Position(budget, phase) else 0
      case Received => JobSteps(budget)
  }

  function SumRanks(budget: int, workers: seq<Worker>): nat {
    if workers == [] then 0 else SumRanks(budget, workers[..|workers| - 1]) + WorkerRank(budget, workers[|workers| - 1])
  }

  function DispatcherRank(budget: int, d: Dispatcher): int {
    match d
    case Returned => 0
    case Waiting => 1
    case Leaving => 2
    case Fetching => 3
    case Pausing => 4
    case Offering => 3 + JobSteps(budget)
  }

  /** How far the pool is from having returned. */
  function Remaining(s: State): int {
    DispatcherRank(s.budget, s.dispatcher) + SumRanks(s.budget, s.workers)
  }

  lemma {:induction false} RankUpdate(budget: int, workers: seq<Worker>, w: nat, x: Worker)
    requires w < |workers|
    ensures SumRanks(budget, workers[w := x])
            == SumRanks(budget, workers) - WorkerRank(budget, workers[w]) + WorkerRank(budget, x)
    decreases |workers|
  {
    var n := |workers| - 1;
    if w == n {
      assert workers[w := x][..n] == workers[..n];
    } else {
      assert workers[w := x][..n] == workers[..n][w := x];
      RankUpdate(budget, workers[..n], w, x);
    }
  }

  lemma {:induction false} RanksBounded(budget: int, workers: seq<Worker>)
    requires forall w | 0 <= w < |workers| && workers[w].Busy? :: ValidStage(budget, workers[w].stage)
    ensures SumRanks(budget, workers) <= |workers| * JobSteps(budget)
  {
    if workers != [] {
      var n := |workers| - 1;
      RanksBounded(budget, workers[..n]);
      assert workers[n].Busy? ==> ValidStage(budget, workers[n].stage);
      assert |workers| * JobSteps(budget) == n * JobSteps(budget) + JobSteps(budget);
    }
  }

  /** A worker's step uses up one of its own. */
  lemma WorkerUsesUp(s: State, w: nat, x: Worker)
    requires w < |s.workers| && WorkerRank(s.budget, x) < WorkerRank(s.budget, s.workers[w])
    ensures SumRanks(s.budget, s.workers[w := x]) < SumRanks(s.budget, s.workers)
  {
    RankUpdate(s.budget, s.workers, w, x);
  }

  /** The retry loop only moves forward. */
  lemma PhaseUsesUp(s: State, w: nat, phase: Retry.Phase)
    requires Inv(s) && InPhase(s, w) && Retry.ValidPhase(s.budget, phase)
    requires phase.Done? || Retry.Position(s.budget, phase) < Retry.Position(s.budget, s.workers[w].stage.phase)
    requires Retry.ValidPhase(s.budget, s.workers[w].stage.phase) && !s.workers[w].stage.phase.Done?
    ensures Remaining(AtPhase(s, w, phase)) < Remaining(s)
  {
    WorkerUsesUp(s, w, AtPhase(s, w, phase).workers[w]);
  }

  lemma ParsingUsesUp(s: State, w: nat)
    requires Inv(s) && Enabled(s, Parse(w))
    ensures Remaining(Apply(s, Parse(w))) < Remaining(s)
  {
    WorkerUsesUp(s, w, Apply(s, Parse(w)).workers[w]);
  }

  lemma HandlingUsesUp(s: State, a: Action)
    requires Inv(s) && Enabled(s, a)
    requires a.Parse? || a.CheckContext? || a.SendReturns? || a.BackoffEnds?
    ensures Remaining(Apply(s, a)) < Remaining(s)
  {
    assert ValidStage(s.budget, s.workers[a.worker].stage);
    match a
    case Parse(w) => ParsingUsesUp(s, w);
    case CheckContext(w) => PhaseUsesUp(s, w, Retry.AfterCheck(s.workers[w].stage.phase.attempt, s.cancelled));
    case SendReturns(w, answer) =>
      PhaseUsesUp(s, w, Retry.AfterSend(s.workers[w].stage.phase.attempt, s.budget, answer));
    case BackoffEnds(w, tookDone) =>
      PhaseUsesUp(s, w, Retry.AfterBackoff(s.workers[w].stage.phase.attempt, tookDone));
  }

  lemma FinishingUsesUp(s: State, a: Action)
    requires Inv(s) && Enabled(s, a)
    requires a.PersistReturns? || a.CommitReturns? || a.WorkerExits?
    ensures Remaining(Apply(s, a)) < Remaining(s)
  {
    WorkerUsesUp(s, a.worker, Apply(s, a).workers[a.worker]);
  }

  /** After cancellation every step of the pool uses up a bounded stock, except a fetch that still succeeds. */
  lemma StepUsesUp(s: State, a: Action)
    requires Inv(s) && s.cancelled && Enabled(s, a) && !IsWorld(a)
    ensures Remaining(Apply(s, a)) <= Remaining(s) - 1 + (if a.FetchReturns? then JobSteps(s.budget) + 1 else 0)
  {
    if a.Parse? || a.CheckContext? || a.SendReturns? || a.BackoffEnds? {
      HandlingUsesUp(s, a);
    } else if a.PersistReturns? || a.CommitReturns? || a.WorkerExits? {
      FinishingUsesUp(s, a);
    } else if a.HandOff? {
      RankUpdate(s.budget, s.workers, a.worker, Busy(|s.owner|, Received));
    }
  }

  lemma StaysCancelled(s: State, a: Action)
    requires s.cancelled && Enabled(s, a) && !a.Crash? && !a.Restart?
    ensures Apply(s, a).cancelled
    ensures IsWorld(a) ==> Remaining(Apply(s, a)) == Remaining(s)
  {
  }

  predicate SameSession(run: seq<Action>) {
    run == [] || (!run[0].Crash? && !run[0].Restart? && SameSession(run[1..]))
  }

  function PoolSteps(run: seq<Action>): nat {
    if run == [] then 0 else (if IsWorld(run[0]) then 0 else 1) + PoolSteps(run[1..])
  }

  function Fetches(run: seq<Action>): nat {
    if run == [] then 0 else (if run[0].FetchReturns? then 1 else 0) + Fetches(run[1..])
  }

  /** What a step takes from the stock: nothing, one, or less than nothing for a fetch. */
  function Cost(budget: int, a: Action): int {
    if IsWorld(a) then 0 else if a.FetchReturns? then -JobSteps(budget) else 1
  }

  function Costs(budget: int, run: seq<Action>): int {
    if run == [] then 0 else Cost(budget, run[0]) + Costs(budget, run[1..])
  }

  lemma {:induction false} CostsCount(budget: int, run: seq<Action>)
    ensures Costs(budget, run) == PoolSteps(run) - Fetches(run) * (JobSteps(budget) + 1)
  {
    if run != [] {
      CostsCount(budget, run[1..]);
      OneMore(Fetches(run[1..]), JobSteps(budget) + 1);
    }
  }

  lemma OneMore(n: int, c: int)
    ensures (n + 1) * c == n * c + c
  {
  }

  lemma StepAccount(s: State, a: Action)
    requires Inv(s) && s.cancelled && Enabled(s, a) && !a.Crash? && !a.Restart?
    ensures Inv(Apply(s, a)) && Apply(s, a).cancelled && Apply(s, a).budget == s.budget
    ensures Remaining(Apply(s, a)) + Cost(s.budget, a) <= Remaining(s)
  {
    StepKeepsInv(s, a);
    StepKeepsConfiguration(s, a);
    StaysCancelled(s, a);
    if !IsWorld(a) {
      StepUsesUp(s, a);
    }
  }

  lemma {:induction false} RunAccount(s: State, run: seq<Action>)
    requires Inv(s) && s.cancelled && ValidRun(s, run) && SameSession(run)
    ensures Remaining(After(s, run)) + Costs(s.budget, run) <= Remaining(s)
    decreases |run|
  {
    if run != [] {
      StepAccount(s, run[0]);
      RunAccount(Apply(s, run[0]), run[1..]);
    }
  }

  /** The stock of a reachable state is bounded by its configuration. */
  lemma RemainingBounds(s: State)
    requires Inv(s)
    ensures 0 <= Remaining(s) <= (|s.workers| + 1) * JobSteps(s.budget) + 3
  {
    RanksBounded(s.budget, s.workers);
    OneMore(|s.workers|, JobSteps(s.budget));
  }

  /**
   * Shutdown terminates: after cancellation the pool takes at most (N + 1) * (3B + 4) + 3 steps, B being
   * the attempt budget (0 if it is negative), plus 3B + 5 for each fetch that succeeds in spite of the cancellation; and where
   * it cannot move any more, Run has returned.
   */
  lemma ShutdownTerminates(s: State, run: seq<Action>)
    requires Reachable(s) && s.cancelled && ValidRun(s, run) && SameSession(run)
    ensures PoolSteps(run) <= (|s.workers| + 1) * JobSteps(s.budget) + 3 + Fetches(run) * (JobSteps(s.budget) + 1)
    ensures (forall a :: !Moves(After(s, run), a)) ==> After(s, run).dispatcher.Returned?
  {
    ReachableIsInv(s);
    RunAccount(s, run);
    CostsCount(s.budget, run);
    RemainingBounds(s);
    RunStaysCancelled(s, run);
    StillReachable(s, run);
    SettlesReturned(After(s, run));
  }

  /** A cancelled pool that cannot move has returned, and its stock is never negative. */
  lemma SettlesReturned(s: State)
    requires Reachable(s) && s.cancelled
    ensures Remaining(s) >= 0
    ensures (forall a :: !Moves(s, a)) ==> s.dispatcher.Returned?
  {
    ReachableIsInv(s);
    RemainingBounds(s);
    if !s.dispatcher.Returned? {
      NeverStuck(s);
    }
  }

  lemma {:induction false} RunStaysCancelled(s: State, run: seq<Action>)
    requires s.cancelled && ValidRun(s, run) && SameSession(run)
    ensures After(s, run).cancelled
    decreases |run|
  {
    if run != [] {
      StaysCancelled(s, run[0]);
      RunStaysCancelled(Apply(s, run[0]), run[1..]);
    }
  }

  lemma StillReachable(s: State, run: seq<Action>)
    requires Reachable(s) && ValidRun(s, run)
    ensures Reachable(After(s, run))
  {
    var s0: State, before: seq<Action> :| Initial(s0) && ValidRun(s0, before) && After(s0, before) == s;
    RunsConcatenate(s0, before, run);
  }

  // The world answers as it likes, and a select takes either case that is ready.

  predicate StageIs(s: State, w: nat, stage: Stage) {
    w < |s.workers| && s.workers[w].Busy? && s.workers[w].stage == stage
  }

  /** What a busy worker can meet, in every reachable state: nothing is ruled out but a cancellation before its time. */
  lemma WorkersMeetAnything(s: State, w: nat, a: nat, answer: Retry.SendResult, r: Retry.Result, b: bool)
    requires Reachable(s)
    ensures StageIs(s, w, Received) ==> Enabled(s, Parse(w))
    ensures StageIs(s, w, Delivering(Retry.AtCheck(a))) ==> Enabled(s, CheckContext(w))
    ensures StageIs(s, w, Delivering(Retry.Sending(a))) ==> Enabled(s, SendReturns(w, answer))
    ensures StageIs(s, w, Delivering(Retry.BackingOff(a))) ==> (Enabled(s, BackoffEnds(w, b)) <==> b ==> s.cancelled)
    ensures StageIs(s, w, Persisting(r)) ==> Enabled(s, PersistReturns(w, b))
    ensures StageIs(s, w, Committing) ==> Enabled(s, CommitReturns(w, b))
  {
    if w < |s.workers| && s.workers[w].Busy? {
      BusyHoldsLogged(s, w);
    }
  }

  lemma BusyHoldsLogged(s: State, w: nat)
    requires Reachable(s) && w < |s.workers| && s.workers[w].Busy?
    ensures WorkerAt(s, w) && InLog(s, MessageOf(s, w)) && |s.committed| == |s.log|
  {
    ReachableIsInv(s);
    var m := s.fetched[s.workers[w].job];
    assert m.partition < |s.log| && m.offset < s.cursor[m.partition];
  }

  /** And the dispatcher: any fetch may fail or find what is next, and an offer ends either way once cancelled. */
  lemma DispatcherMeetsAnything(s: State, w: nat, p: nat, b: bool)
    requires Reachable(s)
    ensures s.dispatcher.Fetching? ==> Enabled(s, FetchFails(b))
    ensures s.dispatcher.Fetching? ==>
      && |s.cursor| == |s.log|
      && (Enabled(s, FetchReturns(p)) <==> p < |s.log| && s.cursor[p] < |s.log[p]|)
    ensures s.dispatcher.Offering? ==> (Enabled(s, HandOff(w)) <==> w < |s.workers| && s.workers[w].Idle?)
    ensures s.dispatcher.Offering? ==> (Enabled(s, DropOnCancel) <==> s.cancelled)
    ensures s.dispatcher.Pausing? ==> Enabled(s, PauseEnds)
    ensures Enabled(s, Crash) <==> !s.dispatcher.Returned?
    ensures Enabled(s, Restart) <==> s.dispatcher.Returned?
  {
    ReachableIsInv(s);
  }

  // Nothing else stops the pool.

  /** No fetch reported a cancellation of its own. */
  predicate NoFetchSaysCanceled(run: seq<Action>) {
    run == [] || ((run[0].FetchFails? ==> !run[0].saysCanceled) && NoFetchSaysCanceled(run[1..]))
  }

  /** Out of the fetching loop, on the way out of Run. */
  predicate Stopping(s: State) {
    s.dispatcher.Leaving? || s.dispatcher.Waiting? || s.dispatcher.Returned?
  }

  lemma {:induction false} StopsOnlyWhenCancelled(s: State, run: seq<Action>)
    requires (Stopping(s) ==> s.cancelled) && ValidRun(s, run) && NoFetchSaysCanceled(run)
    ensures Stopping(After(s, run)) ==> After(s, run).cancelled
    decreases |run|
  {
    if run != [] {
      StopsOnlyWhenCancelled(Apply(s, run[0]), run[1..]);
    }
  }

  /**
   * As long as nobody cancels, and no fetch claims that somebody did, the pool goes on over any number of
   * failed fetches, writes and commits: it neither stops nor gives up a message it has fetched.
   */
  lemma FailuresDoNotStopThePool(s0: State, run: seq<Action>)
    requires Initial(s0) && ValidRun(s0, run) && NoFetchSaysCanceled(run) && !After(s0, run).cancelled
    ensures var s := After(s0, run);
            && !Stopping(s) && !s.channelClosed
            && (forall i: nat | i < |s.fetched| && i !in s.completed ::
                  (i == |s.fetched| - 1 && s.dispatcher.Offering?)
                  || exists w :: 0 <= w < |s.workers| && Holds(s.workers, w, i))
  {
    StopsOnlyWhenCancelled(s0, run);
    InitialIsInv(s0);
    RunKeepsInv(s0, run);
    var s := After(s0, run);
    forall i: nat | i < |s.fetched| && i !in s.completed && i < |s.owner|
      ensures exists w :: 0 <= w < |s.workers| && Holds(s.workers, w, i)
    {
      assert Holds(s.workers, s.owner[i], i);
    }
  }

  lemma StepReaches(s: State, a: Action)
    requires Reachable(s) && Enabled(s, a)
    ensures Reachable(Apply(s, a))
  {
    assert ValidRun(Apply(s, a), []);
    RunsThen(s, a, []);
    StillReachable(s, [a] + []);
  }

  // ---------------------------------------------------------------- order

  ghost function Unfinished(s: State): set<nat> {
    set i: nat | i < |s.owner| && i !in s.completed
  }

  /** When a worker is given a message, at most N-1 earlier ones are unfinished. */
  lemma BoundedOvertaking(s: State, w: nat)
    requires Reachable(s) && Enabled(s, HandOff(w))
    ensures |Unfinished(s)| <= |s.workers| - 1
  {
    ReachableIsInv(s);
    var busy := set v: nat | v < |s.workers| && s.workers[v].Busy?;
    var jobOf := (v: nat) => if v < |s.workers| && s.workers[v].Busy? then s.workers[v].job else 0;
    forall i | i in Unfinished(s)
      ensures exists v :: v in busy && jobOf(v) == i
    {
      assert Holds(s.workers, s.owner[i], i);
      assert s.owner[i] in busy && jobOf(s.owner[i]) == i;
    }
    Covered(Unfinished(s), busy, jobOf);
    assert w !in busy;
    BelowBound(busy, |s.workers|);
  }

  /** Jobs are completed in the order of their fetches. */
  predicate InFetchOrder(completed: seq<nat>) {
    forall k | 0 <= k < |completed| :: completed[k] == k
  }

  /** The only worker is at the next job. */
  lemma OnlyWorkerIsNext(budget: int, workers: seq<Worker>, owner: seq<nat>, completed: seq<nat>)
    requires WorkersOk(budget, workers, owner, completed) && |workers| == 1 && InFetchOrder(completed)
    requires workers[0].Busy? && !workers[0].stage.Committing?
    ensures workers[0].job == |completed|
  {
    var job, c := workers[0].job, |completed|;
    FetchOrderMembers(completed);
    assert job !in completed && c !in completed;
    assert Holds(workers, owner[c], c);
  }

  lemma FetchOrderMembers(completed: seq<nat>)
    requires InFetchOrder(completed)
    ensures forall i: nat :: i in completed <==> i < |completed|
  {
    forall i: nat
      ensures i in completed <==> i < |completed|
    {
      if i < |completed| {
        assert completed[i] == i;
      }
    }
  }

  lemma OneWorkerStep(s: State, a: Action)
    requires Inv(s) && Enabled(s, a) && |s.workers| == 1 && InFetchOrder(s.completed)
    ensures InFetchOrder(Apply(s, a).completed)
  {
    if a.PersistReturns? || (a.Parse? && !PayloadOf(s, a.worker).Job?) {
      OnlyWorkerIsNext(s.budget, s.workers, s.owner, s.completed);
      assert Apply(s, a).completed == s.completed + [s.workers[0].job];
    } else {
      CompletesNothing(s, a);
    }
  }

  lemma CompletesNothing(s: State, a: Action)
    requires Enabled(s, a) && !a.PersistReturns? && (a.Parse? ==> PayloadOf(s, a.worker).Job?)
    ensures Apply(s, a).completed == s.completed || Apply(s, a).completed == []
  {
  }

  lemma {:induction false} OneWorkerRun(s: State, run: seq<Action>)
    requires Inv(s) && |s.workers| == 1 && InFetchOrder(s.completed) && ValidRun(s, run)
    ensures InFetchOrder(After(s, run).completed)
    decreases |run|
  {
    if run != [] {
      OneWorkerStep(s, run[0]);
      StepKeepsInv(s, run[0]);
      StepKeepsConfiguration(s, run[0]);
      OneWorkerRun(Apply(s, run[0]), run[1..]);
    }
  }

  /** Within a session, messages are handled in fetch order in every run exactly when there is one worker. */
  lemma FetchOrderIffOneWorker(n: nat)
    requires n >= 1
    ensures (forall s0, run | Initial(s0) && |s0.workers| == n && ValidRun(s0, run) ::
               InFetchOrder(After(s0, run).completed))
            <==> n == 1
  {
    if n == 1 {
      forall s0, run | Initial(s0) && |s0.workers| == n && ValidRun(s0, run)
        ensures InFetchOrder(After(s0, run).completed)
      {
        InitialIsInv(s0);
        OneWorkerRun(s0, run);
      }
    } else {
      var s0, run := BoundIsReached(n);
      assert After(s0, run).completed[0] == n - 1;
    }
  }

  /** So with one worker the messages of one partition finish in log order. */
  lemma OneWorkerKeepsLogOrder(s0: State, run: seq<Action>, j: nat, k: nat)
    requires Initial(s0) && |s0.workers| == 1 && ValidRun(s0, run)
    requires j < k < |After(s0, run).completed|
    ensures var s := After(s0, run);
            && s.completed[j] < |s.fetched| && s.completed[k] < |s.fetched|
            && (s.fetched[s.completed[j]].partition == s.fetched[s.completed[k]].partition ==>
                  s.fetched[s.completed[j]].offset < s.fetched[s.completed[k]].offset)
  {
    InitialIsInv(s0);
    RunKeepsInv(s0, run);
    OneWorkerRun(s0, run);
    var s := After(s0, run);
    assert s.completed[j] in s.completed && s.completed[k] in s.completed;
  }
}
