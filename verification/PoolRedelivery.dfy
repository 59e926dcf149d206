/** Which messages a run can still handle, for the first time or again, after commits that passed them or moved back. */
module PoolRedelivery {
  import opened PoolProtocol
  import opened PoolSafety
  import opened PoolTheorems

  /** The step takes message m to the end of its handling. */
  predicate Finishes(s: State, a: Action, m: Msg)
    requires Enabled(s, a)
  {
    (a.PersistReturns? || (a.Parse? && !PayloadOf(s, a.worker).Job?)) && MessageOf(s, a.worker) == m
  }

  /** How often a run handles m to the end. */
  function FinishCount(s: State, run: seq<Action>, m: Msg): nat
    requires ValidRun(s, run)
    decreases |run|
  {
    if run == [] then 0 else (if Finishes(s, run[0], m) then 1 else 0) + FinishCount(Apply(s, run[0]), run[1..], m)
  }

  lemma {:induction false} FinishedIffCounted(s: State, run: seq<Action>, m: Msg)
    requires ValidRun(s, run)
    ensures m in After(s, run).finished <==> m in s.finished || FinishCount(s, run, m) > 0
    decreases |run|
  {
    if run != [] {
      StepFinishes(s, run[0], m);
      FinishedIffCounted(Apply(s, run[0]), run[1..], m);
    }
  }

  lemma StepFinishes(s: State, a: Action, m: Msg)
    requires Enabled(s, a)
    ensures m in Apply(s, a).finished <==> m in s.finished || Finishes(s, a, m)
  {
  }

  lemma CountThen(s: State, a: Action, rest: seq<Action>, m: Msg)
    requires Enabled(s, a) && ValidRun(Apply(s, a), rest)
    ensures ValidRun(s, [a] + rest) && After(s, [a] + rest) == After(Apply(s, a), rest)
    ensures FinishCount(s, [a] + rest, m) == (if Finishes(s, a, m) then 1 else 0) + FinishCount(Apply(s, a), rest, m)
  {
    assert ([a] + rest)[1..] == rest;
  }

  lemma {:induction false} CountsAdd(s: State, run: seq<Action>, more: seq<Action>, m: Msg)
    requires ValidRun(s, run) && ValidRun(After(s, run), more)
    ensures ValidRun(s, run + more) && After(s, run + more) == After(After(s, run), more)
    ensures FinishCount(s, run + more, m) == FinishCount(s, run, m) + FinishCount(After(s, run), more, m)
    decreases |run|
  {
    if run == [] {
      assert run + more == more;
    } else {
      CountsAdd(Apply(s, run[0]), run[1..], more, m);
      assert (run + more)[0] == run[0] && (run + more)[1..] == run[1..] + more;
    }
  }

  // ---------------------------------------------------------------- behind for good

  /** Worker w holds nothing of m's partition but later messages, or m itself with only the commit left to do. */
  predicate Past(s: State, w: nat, m: Msg) {
    WorkerAt(s, w) && MessageOf(s, w).partition == m.partition ==>
      m.offset < MessageOf(s, w).offset || (m.offset == MessageOf(s, w).offset && s.workers[w].stage.Committing?)
  }

  /** The offsets have passed m, and no worker can handle it or move them back before it. */
  ghost predicate Behind(s: State, m: Msg) {
    && m.partition < |s.committed| && m.offset < s.committed[m.partition]
    && forall w: nat | w < |s.workers| :: Past(s, w, m)
  }

  /** The message on offer is later than any that the offsets have passed. */
  lemma OfferedIsLater(s: State, m: Msg)
    requires Inv(s) && s.dispatcher.Offering? && s.fetched[|s.owner|].partition == m.partition
    requires m.partition < |s.committed| && m.offset < s.committed[m.partition]
    ensures m.offset < s.fetched[|s.owner|].offset
  {
    assert Explained(s.start, s.committed, s.fetched, s.completed, m.partition);
    if c: nat :| CommittedBy(s.committed, s.fetched, s.completed, m.partition, c) {
      assert c < |s.owner|;
    }
  }

  lemma HandOffKeepsBehind(s: State, w: nat, m: Msg)
    requires Inv(s) && Enabled(s, HandOff(w)) && Behind(s, m)
    ensures Behind(Apply(s, HandOff(w)), m)
  {
    var t := Apply(s, HandOff(w));
    forall v: nat | v < |t.workers|
      ensures Past(t, v, m)
    {
      assert Past(s, v, m);
      if v == w && s.fetched[|s.owner|].partition == m.partition {
        OfferedIsLater(s, m);
      }
    }
  }

  /** A worker that moves on, short of its commit, stays past m. */
  lemma MovingKeepsBehind(s: State, t: State, w: nat, stage: Stage, m: Msg)
    requires Behind(s, m) && WorkerAt(s, w) && !s.workers[w].stage.Committing?
    requires t.committed == s.committed && t.fetched == s.fetched
    requires t.workers == s.workers[w := Busy(s.workers[w].job, stage)]
    ensures Behind(t, m) && MessageOf(s, w) != m
  {
    assert Past(s, w, m);
    forall v: nat | v < |t.workers|
      ensures Past(t, v, m)
    {
      assert Past(s, v, m);
    }
  }

  lemma HandlingKeepsBehind(s: State, a: Action, m: Msg)
    requires Enabled(s, a) && Behind(s, m) && IsHandling(a)
    ensures Behind(Apply(s, a), m) && !Finishes(s, a, m)
  {
    var t := Apply(s, a);
    MovingKeepsBehind(s, t, a.worker, t.workers[a.worker].stage, m);
  }

  /** A commit does not fall behind m. */
  lemma CommitKeepsBehind(s: State, w: nat, applied: bool, m: Msg)
    requires Enabled(s, CommitReturns(w, applied)) && Behind(s, m)
    ensures Behind(Apply(s, CommitReturns(w, applied)), m)
  {
    assert Past(s, w, m);
    var t := Apply(s, CommitReturns(w, applied));
    forall v: nat | v < |t.workers|
      ensures Past(t, v, m)
    {
      assert Past(s, v, m);
    }
  }

  lemma OthersKeepBehind(s: State, a: Action, m: Msg)
    requires Enabled(s, a) && Behind(s, m) && !IsHandling(a) && !a.CommitReturns? && !a.HandOff?
    requires forall v: nat | v < |s.workers| && s.workers[v].Busy? :: WorkerAt(s, v)
    ensures Behind(Apply(s, a), m)
  {
    var t := Apply(s, a);
    forall v: nat | v < |t.workers|
      ensures Past(t, v, m)
    {
      assert Past(s, v, m);
    }
  }

  lemma StepKeepsBehind(s: State, a: Action, m: Msg)
    requires Inv(s) && Enabled(s, a) && Behind(s, m)
    ensures Behind(Apply(s, a), m) && !Finishes(s, a, m)
  {
    if IsHandling(a) {
      HandlingKeepsBehind(s, a, m);
    } else if a.CommitReturns? {
      CommitKeepsBehind(s, a.worker, a.applied, m);
    } else if a.HandOff? {
      HandOffKeepsBehind(s, a.worker, m);
    } else {
      OthersKeepBehind(s, a, m);
    }
  }

  lemma {:induction false} RunKeepsBehind(s: State, run: seq<Action>, m: Msg)
    requires Inv(s) && ValidRun(s, run) && Behind(s, m)
    ensures Behind(After(s, run), m) && FinishCount(s, run, m) == 0
    decreases |run|
  {
    if run != [] {
      StepKeepsBehind(s, run[0], m);
      StepKeepsInv(s, run[0]);
      RunKeepsBehind(Apply(s, run[0]), run[1..], m);
    }
  }

  // ---------------------------------------------------------------- otherwise some run handles it

  /** Nobody writes to the topic, and every write and commit takes effect. */
  predicate Smooth(a: Action) {
    !a.Append? && (a.PersistReturns? ==> a.applied) && (a.CommitReturns? ==> a.applied)
  }

  predicate AllSmooth(run: seq<Action>) {
    forall i | 0 <= i < |run| :: Smooth(run[i])
  }

  predicate NoCrash(run: seq<Action>) {
    forall i | 0 <= i < |run| :: !run[i].Crash?
  }

  /** Worker w has a message of the log in hand and has not finished with it. */
  predicate Working(s: State, w: nat) {
    && WorkerAt(s, w) && InLog(s, MessageOf(s, w))
    && ValidStage(s.budget, s.workers[w].stage) && !s.workers[w].stage.Committing?
  }

  lemma BusyIsWorking(s: State, w: nat)
    requires Inv(s) && w < |s.workers| && s.workers[w].Busy? && !s.workers[w].stage.Committing?
    ensures Working(s, w)
  {
    var m := s.fetched[s.workers[w].job];
    assert m.partition < |s.log| && m.offset < s.cursor[m.partition];
  }

  /** A next step of the worker, towards its end. */
  function Onward(s: State, w: nat): Action
    requires WorkerAt(s, w)
  {
    match s.workers[w].stage
    case Received => Parse(w)
    case Delivering(phase) =>
      if phase.AtCheck? then CheckContext(w)
      else if phase.Sending? then SendReturns(w, Retry.Delivered) else BackoffEnds(w, s.cancelled)
    case _ => PersistReturns(w, true)
  }

  /** The step finishes w's message, or brings w closer to that and changes nothing else. */
  predicate Advances(s: State, w: nat, a: Action)
    requires WorkerAt(s, w)
  {
    && Enabled(s, a) && Smooth(a) && !a.Crash?
    && var t := Apply(s, a);
       if Finishes(s, a, MessageOf(s, w)) then t == Finish(s, w)
       else && Working(t, w) && t == AtStage(s, w, t.workers[w].stage)
            && WorkerRank(s.budget, t.workers[w]) < WorkerRank(s.budget, s.workers[w])
  }

  lemma DeliveringAdvances(s: State, w: nat)
    requires Working(s, w) && s.workers[w].stage.Delivering?
    ensures Advances(s, w, Onward(s, w))
  {
  }

  lemma OnwardAdvances(s: State, w: nat)
    requires Working(s, w)
    ensures Advances(s, w, Onward(s, w))
  {
    if s.workers[w].stage.Delivering? {
      DeliveringAdvances(s, w);
    }
  }

  /** A worker takes the message it holds to the end of handling it, alone. */
  lemma {:induction false} FinishesHeld(s: State, w: nat) returns (run: seq<Action>)
    requires Working(s, w)
    ensures ValidRun(s, run) && AllSmooth(run) && NoCrash(run)
    ensures After(s, run) == Finish(s, w) && FinishCount(s, run, MessageOf(s, w)) > 0
    decreases WorkerRank(s.budget, s.workers[w])
  {
    OnwardAdvances(s, w);
    var a, m := Onward(s, w), MessageOf(s, w);
    var rest: seq<Action> := [];
    if !Finishes(s, a, m) {
      rest := FinishesHeld(Apply(s, a), w);
      assert Finish(Apply(s, a), w) == Finish(s, w);
    }
    CountThen(s, a, rest, m);
    run := [a] + rest;
  }

  /** The next message of the partition can be handed to worker 0. */
  predicate Ready(s: State, p: nat) {
    && s.dispatcher.Fetching? && 0 < |s.workers| && s.workers[0].Idle? && |s.fetched| == |s.owner|
    && p < |s.log| == |s.cursor| == |s.committed| && s.cursor[p] < |s.log[p]|
  }

  /** The state in which worker 0 has got it. */
  function Given(s: State, p: nat): State
    requires Ready(s, p)
  {
    s.(fetched := s.fetched + [Msg(p, s.cursor[p])], cursor := s.cursor[p := s.cursor[p] + 1],
       workers := s.workers[0 := Busy(|s.owner|, Received)], owner := s.owner + [0])
  }

  lemma GivesNext(s: State, p: nat)
    requires Ready(s, p)
    ensures ValidRun(s, [FetchReturns(p), HandOff(0)]) && After(s, [FetchReturns(p), HandOff(0)]) == Given(s, p)
    ensures Working(Given(s, p), 0) && MessageOf(Given(s, p), 0) == Msg(p, s.cursor[p])
  {
    var s1 := Apply(s, FetchReturns(p));
    RunsThen(s1, HandOff(0), []);
    RunsThen(s, FetchReturns(p), [HandOff(0)] + []);
    assert [FetchReturns(p)] + ([HandOff(0)] + []) == [FetchReturns(p), HandOff(0)];
  }

  /** The state in which worker 0 has handled it, committed, and waits for another. */
  function Passed(s: State, p: nat): State
    requires Ready(s, p)
  {
    var t := Given(s, p);
    t.(workers := s.workers[0 := Idle], committed := s.committed[p := s.cursor[p] + 1],
       finished := s.finished + {Msg(p, s.cursor[p])}, completed := s.completed + [|s.owner|])
  }

  lemma CommitPasses(s: State, p: nat)
    requires Ready(s, p)
    ensures WorkerAt(Given(s, p), 0) && Enabled(Finish(Given(s, p), 0), CommitReturns(0, true))
    ensures Apply(Finish(Given(s, p), 0), CommitReturns(0, true)) == Passed(s, p)
  {
  }

  /** One message is fetched, handled and committed before anything else happens. */
  lemma Passes(s: State, p: nat) returns (run: seq<Action>)
    requires Ready(s, p)
    ensures ValidRun(s, run) && AllSmooth(run) && NoCrash(run)
    ensures After(s, run) == Passed(s, p) && FinishCount(s, run, Msg(p, s.cursor[p])) > 0
  {
    var m, give := Msg(p, s.cursor[p]), [FetchReturns(p), HandOff(0)];
    GivesNext(s, p);
    var t := Given(s, p);
    run := FinishesHeld(t, 0);
    var commit := CommitReturns(0, true);
    CommitPasses(s, p);
    CountThen(Finish(t, 0), commit, [], m);
    CountsAdd(t, run, [commit] + [], m);
    run := run + ([commit] + []);
    CountsAdd(s, give, run, m);
    run := give + run;
  }

  /** A session that has not reached m yet gets to it, message by message. */
  lemma {:induction false} GetsTo(s: State, m: Msg) returns (run: seq<Action>)
    requires Ready(s, m.partition) && InLog(s, m) && s.cursor[m.partition] <= m.offset
    ensures ValidRun(s, run) && AllSmooth(run) && NoCrash(run) && FinishCount(s, run, m) > 0
    decreases m.offset - s.cursor[m.partition]
  {
    run := Passes(s, m.partition);
    if s.cursor[m.partition] < m.offset {
      var rest := GetsTo(Passed(s, m.partition), m);
      CountsAdd(s, run, rest, m);
      run := run + rest;
    }
  }

  /** A new process fetches what the offsets have not passed; a returned Run needs no crash for that. */
  lemma Refetches(s: State, m: Msg) returns (run: seq<Action>)
    requires |s.committed| == |s.log| && 0 < |s.workers| && InLog(s, m) && s.committed[m.partition] <= m.offset
    ensures ValidRun(s, run) && AllSmooth(run) && FinishCount(s, run, m) > 0
    ensures s.dispatcher.Returned? ==> NoCrash(run)
  {
    var a := if s.dispatcher.Returned? then Restart else Crash;
    run := GetsTo(Apply(s, a), m);
    CountThen(s, a, run, m);
    run := [a] + run;
  }

  /** The commit of an earlier message moves the offset back before m. */
  lemma MovesBack(s: State, w: nat, m: Msg) returns (run: seq<Action>)
    requires Inv(s) && InLog(s, m) && WorkerAt(s, w) && s.workers[w].stage.Committing?
    requires MessageOf(s, w).partition == m.partition && MessageOf(s, w).offset < m.offset
    ensures ValidRun(s, run) && AllSmooth(run) && FinishCount(s, run, m) > 0
  {
    var commit := CommitReturns(w, true);
    assert Enabled(s, commit);
    StepKeepsInv(s, commit);
    run := Refetches(Apply(s, commit), m);
    CountThen(s, commit, run, m);
    run := [commit] + run;
  }

  /** A worker that is not past m handles it, or moves the offset back before it. */
  lemma HeldMayBeHandled(s: State, w: nat, m: Msg) returns (run: seq<Action>)
    requires Inv(s) && InLog(s, m) && w < |s.workers| && !Past(s, w, m)
    ensures ValidRun(s, run) && AllSmooth(run) && FinishCount(s, run, m) > 0
  {
    if s.workers[w].stage.Committing? {
      run := MovesBack(s, w, m);
    } else {
      BusyIsWorking(s, w);
      run := FinishesHeld(s, w);
      if MessageOf(s, w) != m {
        var more := FinishedMovesBack(s, w, m);
        CountsAdd(s, run, more, m);
        run := run + more;
      }
    }
  }

  lemma FinishedMovesBack(s: State, w: nat, m: Msg) returns (run: seq<Action>)
    requires Inv(s) && InLog(s, m) && WorkerAt(s, w) && !s.workers[w].stage.Committing?
    requires MessageOf(s, w).partition == m.partition && MessageOf(s, w).offset < m.offset
    ensures ValidRun(Finish(s, w), run) && AllSmooth(run) && FinishCount(Finish(s, w), run, m) > 0
  {
    KeepsFinish(s, w);
    run := MovesBack(Finish(s, w), w, m);
  }

  lemma MayBeHandled(s: State, m: Msg) returns (run: seq<Action>)
    requires Inv(s) && InLog(s, m) && !Behind(s, m)
    ensures ValidRun(s, run) && AllSmooth(run) && FinishCount(s, run, m) > 0
  {
    if s.committed[m.partition] <= m.offset {
      run := Refetches(s, m);
    } else {
      var w: nat :| w < |s.workers| && !Past(s, w, m);
      run := HeldMayBeHandled(s, w, m);
    }
  }

  /**
   * From a reachable state on, no run handles a message of the log, for the first time or again, exactly if the
   * offsets have passed it and no worker can handle it or move them back before it.
   */
  lemma NotHandledAgainIffBehind(s: State, m: Msg)
    requires Reachable(s) && InLog(s, m)
    ensures (forall run | ValidRun(s, run) :: FinishCount(s, run, m) == 0) <==> Behind(s, m)
  {
    ReachableIsInv(s);
    if Behind(s, m) {
      forall run | ValidRun(s, run)
        ensures FinishCount(s, run, m) == 0
      {
        RunKeepsBehind(s, run, m);
      }
    } else {
      var run := MayBeHandled(s, m);
    }
  }

  // ---------------------------------------------------------------- lost messages

  /** No continuation handles m to the end. */
  ghost predicate NeverHandled(s: State, m: Msg) {
    forall run | ValidRun(s, run) :: m !in After(s, run).finished
  }

  lemma NeverHandledIff(s: State, m: Msg)
    requires Reachable(s) && InLog(s, m)
    ensures NeverHandled(s, m) <==> m !in s.finished && Behind(s, m)
  {
    NotHandledAgainIffBehind(s, m);
    if m in s.finished {
      assert After(s, []) == s && ValidRun(s, []);
    } else if Behind(s, m) {
      forall run | ValidRun(s, run)
        ensures m !in After(s, run).finished
      {
        FinishedIffCounted(s, run, m);
      }
    } else {
      var run :| ValidRun(s, run) && FinishCount(s, run, m) > 0;
      FinishedIffCounted(s, run, m);
    }
  }

  /** What a crash loses is lost: a message of the log is handled in no continuation exactly if it is in Lost. */
  lemma LostForGoodIff(s: State, m: Msg)
    requires Reachable(s) && Enabled(s, Crash) && InLog(s, m)
    ensures NeverHandled(Apply(s, Crash), m) <==> m in Lost(Apply(s, Crash))
  {
    var t := Apply(s, Crash);
    StepReaches(s, Crash);
    NeverHandledIff(t, m);
    assert forall w: nat | w < |t.workers| :: Past(t, w, m);
  }

  /** For every concurrency N, one crash of some run leaves exactly N-1 messages that no continuation handles. */
  lemma LossIsReached(n: nat) returns (s0: State, run: seq<Action>)
    requires n >= 1
    ensures Initial(s0) && |s0.workers| == n && ValidRun(s0, run) && After(s0, run).crashes == 1
    ensures |Lost(After(s0, run))| == n - 1
    ensures forall m | m in Lost(After(s0, run)) :: InLog(After(s0, run), m) && NeverHandled(After(s0, run), m)
  {
    s0, run := BoundIsReached(n);
    var s := After(s0, run);
    StartsReachable(s0, run);
    ReachableIsInv(s);
    RunsThen(s, Crash, []);
    RunsConcatenate(s0, run, [Crash] + []);
    run := run + ([Crash] + []);
    assert Lost(After(s0, run)) == Lost(s);
    forall m | m in Lost(s)
      ensures InLog(s, m) && NeverHandled(Apply(s, Crash), m)
    {
      LostForGoodIff(s, m);
    }
  }

  /** With n workers, a crash at any point of any run leaves every unhandled message of the log to be handled yet. */
  ghost predicate CrashRedelivers(n: nat) {
    forall s0, run, m | Initial(s0) && |s0.workers| == n && ValidRun(s0, run) && Enabled(After(s0, run), Crash)
                        && InLog(After(s0, run), m) ::
      !NeverHandled(Apply(After(s0, run), Crash), m)
  }

  /** "A crash mid-processing re-delivers the message": true of every run exactly when there is one worker. */
  lemma CrashRedeliversIffOneWorker(n: nat)
    requires n >= 1
    ensures CrashRedelivers(n) <==> n == 1
  {
    if n == 1 {
      forall s0, run, m | Initial(s0) && |s0.workers| == n && ValidRun(s0, run) && Enabled(After(s0, run), Crash)
                          && InLog(After(s0, run), m)
        ensures !NeverHandled(Apply(After(s0, run), Crash), m)
      {
        var s := After(s0, run);
        StartsReachable(s0, run);
        NothingAtRiskIffOneWorker(n);
        assert Lost(Apply(s, Crash)) == Lost(s);
        LostForGoodIff(s, m);
      }
    } else {
      CrashLosesSome(n);
    }
  }

  lemma StartsReachable(s0: State, run: seq<Action>)
    requires Initial(s0) && ValidRun(s0, run)
    ensures Reachable(After(s0, run))
  {
  }

  lemma CrashLosesSome(n: nat)
    requires n >= 2
    ensures !CrashRedelivers(n)
  {
    var s0, run := BoundIsReached(n);
    var s := After(s0, run);
    StartsReachable(s0, run);
    ReachableIsInv(s);
    var m :| m in Lost(s);
    LostForGoodIff(s, m);
  }

  // ---------------------------------------------------------------- redelivery over graceful sessions

  /** No crash, and every commit takes effect. */
  predicate Graceful(run: seq<Action>) {
    forall i | 0 <= i < |run| :: !run[i].Crash? && (run[i].CommitReturns? ==> run[i].applied)
  }

  /** The only worker has handled m and is about to commit it. */
  predicate AboutToCommit(s: State, m: Msg) {
    |s.workers| == 1 && WorkerAt(s, 0) && MessageOf(s, 0) == m && s.workers[0].stage.Committing?
  }

  /** The only worker has handled m, and has committed past it or is about to. */
  ghost predicate Settled(s: State, m: Msg) {
    Behind(s, m) || AboutToCommit(s, m)
  }

  lemma CommitSettles(s: State, m: Msg)
    requires AboutToCommit(s, m) && m.partition < |s.committed|
    ensures Behind(Apply(s, CommitReturns(0, true)), m)
  {
    assert Past(Apply(s, CommitReturns(0, true)), 0, m);
  }

  /** Nothing else befalls the only worker before its commit. */
  lemma WaitsForCommit(s: State, a: Action, m: Msg)
    requires AboutToCommit(s, m) && Enabled(s, a) && !a.Crash? && !a.Restart? && !a.CommitReturns?
    ensures AboutToCommit(Apply(s, a), m) && !Finishes(s, a, m)
  {
  }

  lemma OnlyWorkerSettles(s: State, a: Action, m: Msg)
    requires Inv(s) && |s.workers| == 1 && Enabled(s, a) && !a.Crash? && (a.CommitReturns? ==> a.applied)
    ensures Settled(s, m) ==> Settled(Apply(s, a), m) && !Finishes(s, a, m)
    ensures Finishes(s, a, m) ==> Settled(Apply(s, a), m)
  {
    if Behind(s, m) {
      StepKeepsBehind(s, a, m);
    } else if AboutToCommit(s, m) {
      assert !s.dispatcher.Returned?;
      if a.CommitReturns? {
        CommitSettles(s, m);
      } else {
        WaitsForCommit(s, a, m);
      }
    } else if Finishes(s, a, m) {
      assert AboutToCommit(Apply(s, a), m);
    }
  }

  lemma {:induction false} OnlyWorkerFinishesOnce(s: State, run: seq<Action>, m: Msg)
    requires Inv(s) && |s.workers| == 1 && ValidRun(s, run) && Graceful(run)
    ensures FinishCount(s, run, m) <= if Settled(s, m) then 0 else 1
    decreases |run|
  {
    if run != [] {
      assert !run[0].Crash? && (run[0].CommitReturns? ==> run[0].applied);
      OnlyWorkerSettles(s, run[0], m);
      StepKeepsInv(s, run[0]);
      StepKeepsConfiguration(s, run[0]);
      assert Graceful(run[1..]);
      OnlyWorkerFinishesOnce(Apply(s, run[0]), run[1..], m);
    }
  }

  /** With n workers, graceful sessions whose commits all take effect handle no message twice. */
  ghost predicate RedeliversNothing(n: nat) {
    forall s0, run, m | Initial(s0) && |s0.workers| == n && ValidRun(s0, run) && Graceful(run) ::
      FinishCount(s0, run, m) <= 1
  }

  lemma GracefulRedeliversNothingIffOneWorker(n: nat)
    requires n >= 1
    ensures RedeliversNothing(n) <==> n == 1
  {
    if n == 1 {
      forall s0, run, m | Initial(s0) && |s0.workers| == n && ValidRun(s0, run) && Graceful(run)
        ensures FinishCount(s0, run, m) <= 1
      {
        InitialIsInv(s0);
        OnlyWorkerFinishesOnce(s0, run, m);
      }
    } else {
      var s0, run := GracefulRedelivery(n);
    }
  }

  lemma BothFinish(s: State, v: nat, w: nat) returns (run: seq<Action>)
    requires Working(s, v) && Working(s, w) && v != w
    ensures ValidRun(s, run) && Graceful(run)
    ensures After(s, run) == Finish(Finish(s, v), w) && FinishCount(s, run, MessageOf(s, v)) >= 1
  {
    run := FinishesHeld(s, v);
    var more := FinishesHeld(Finish(s, v), w);
    CountsAdd(s, run, more, MessageOf(s, v));
    run := run + more;
  }

  /** The later message is committed first, so the earlier one's commit moves the offset back. */
  lemma BothCommit(s: State) returns (run: seq<Action>)
    requires WorkerAt(s, 0) && s.workers[0].stage.Committing? && MessageOf(s, 0) == Msg(0, 0)
    requires WorkerAt(s, 1) && s.workers[1].stage.Committing? && MessageOf(s, 1) == Msg(0, 1)
    requires |s.committed| == 1 && forall w | 2 <= w < |s.workers| :: s.workers[w].Idle?
    ensures ValidRun(s, run) && Graceful(run)
    ensures var t := After(s, run);
            && t.committed == [1] && t.log == s.log && t.dispatcher == s.dispatcher
            && |t.workers| == |s.workers| && forall w | 0 <= w < |t.workers| :: t.workers[w].Idle?
  {
    var second, first := CommitReturns(1, true), CommitReturns(0, true);
    var s1 := Apply(s, second);
    RunsThen(s1, first, []);
    RunsThen(s, second, [first] + []);
    run := [second] + ([first] + []);
  }

  /** What a drain with nothing in hand leaves alone. */
  predicate SameData(s: State, t: State) {
    && t.committed == s.committed && t.log == s.log && t.finished == s.finished && t.crashes == s.crashes
    && t.budget == s.budget && |t.workers| == |s.workers|
  }

  predicate NoHandling(run: seq<Action>) {
    forall i | 0 <= i < |run| :: !IsHandling(run[i]) && !run[i].Append?
  }

  /** The workers from k on see the closed channel, one after the other, and Run returns. */
  lemma {:induction false} AllExit(s: State, k: nat) returns (run: seq<Action>)
    requires s.dispatcher.Waiting? && s.channelClosed && k <= |s.workers|
    requires forall w | 0 <= w < |s.workers| :: if w < k then s.workers[w].Exited? else s.workers[w].Idle?
    ensures ValidRun(s, run) && Graceful(run) && NoHandling(run)
    ensures After(s, run).dispatcher.Returned? && SameData(s, After(s, run))
    decreases |s.workers| - k
  {
    var a := if k < |s.workers| then WorkerExits(k) else WaitEnds;
    var rest: seq<Action> := [];
    if k < |s.workers| {
      rest := AllExit(Apply(s, a), k + 1);
    }
    RunsThen(s, a, rest);
    run := [a] + rest;
  }

  /** A pool with nothing in hand returns on cancellation. */
  lemma IdleDrains(s: State) returns (run: seq<Action>)
    requires s.dispatcher.Fetching? && forall w | 0 <= w < |s.workers| :: s.workers[w].Idle?
    ensures ValidRun(s, run) && Graceful(run) && NoHandling(run)
    ensures After(s, run).dispatcher.Returned? && SameData(s, After(s, run))
  {
    var a1, a2, a3 := Cancel, FetchFails(true), CloseChannel;
    var s1 := Apply(s, a1);
    var s2 := Apply(s1, a2);
    var s3 := Apply(s2, a3);
    run := AllExit(s3, 0);
    RunsThen(s2, a3, run);
    run := [a3] + run;
    RunsThen(s1, a2, run);
    run := [a2] + run;
    RunsThen(s, a1, run);
    run := [a1] + run;
  }

  /** Two workers commit in the wrong order, and Run returns with the second message handled but not passed. */
  lemma CommitsInWrongOrder(n: nat) returns (run: seq<Action>)
    requires n >= 2
    ensures ValidRun(Spread(n, 2), run) && Graceful(run) && FinishCount(Spread(n, 2), run, Msg(0, 1)) >= 1
    ensures var t := After(Spread(n, 2), run);
            t.dispatcher.Returned? && |t.workers| == n && t.committed == [1] && t.log == Spread(n, 2).log
  {
    var s, m := Spread(n, 2), Msg(0, 1);
    run := BothFinish(s, 1, 0);
    var more := BothCommit(After(s, run));
    CountsAdd(s, run, more, m);
    run := run + more;
    more := IdleDrains(After(s, run));
    CountsAdd(s, run, more, m);
    run := run + more;
  }

  lemma FirstSession(n: nat) returns (run: seq<Action>)
    requires n >= 2
    ensures Initial(Spread(n, 0)) && ValidRun(Spread(n, 0), run) && Graceful(run)
    ensures FinishCount(Spread(n, 0), run, Msg(0, 1)) >= 1
    ensures var t := After(Spread(n, 0), run);
            t.dispatcher.Returned? && |t.workers| == n && t.committed == [1] && t.log == Spread(n, 0).log
  {
    var s0 := Spread(n, 0);
    assert FreshSession(s0) == s0;
    run := SpreadRun(n, 2);
    var more := CommitsInWrongOrder(n);
    CountsAdd(s0, run, more, Msg(0, 1));
    run := run + more;
  }

  /** So the next session handles it again. */
  lemma GracefulRedelivery(n: nat) returns (s0: State, run: seq<Action>)
    requires n >= 2
    ensures Initial(s0) && |s0.workers| == n && ValidRun(s0, run) && Graceful(run)
    ensures FinishCount(s0, run, Msg(0, 1)) >= 2
  {
    s0 := Spread(n, 0);
    run := FirstSession(n);
    var t, m := After(s0, run), Msg(0, 1);
    assert InLog(t, m);
    var more := Refetches(t, m);
    CountsAdd(s0, run, more, m);
    run := run + more;
  }
}
