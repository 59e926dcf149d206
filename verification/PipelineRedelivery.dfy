/** When the outcome of an event is final, and when a redelivery can still overwrite it. */
module PipelineRedelivery {
  import opened Repository
  import opened Pipeline
  import opened PipelineTheorems
  import Redelivery = PoolRedelivery

  // ---------------------------------------------------------------- final outcomes

  /** Events stay where they were logged. */
  lemma StepKeepsLogged(s: State, a: Action, p: nat, o: nat, e: P.Event)
    requires Enabled(s, a) && LoggedAt(s.pool.log, p, o, e)
    ensures LoggedAt(Apply(s, a).pool.log, p, o, e)
  {
    if a.Publish? && a.appended {
      AppendAdds(s.pool.log, a.partition, P.Job(s.publishing[a.id]));
    } else if a.Worker? && a.step.Append? {
      AppendAdds(s.pool.log, a.step.partition, a.step.payload);
    } else if a.Worker? {
      LogUnchanged(s.pool, a.step);
    }
  }

  lemma StepKeepsBehind(s: State, a: Action, m: P.Msg)
    requires Inv(s) && Enabled(s, a) && Redelivery.Behind(s.pool, m)
    ensures Redelivery.Behind(Apply(s, a).pool, m)
    ensures a.Worker? ==> !Redelivery.Finishes(s.pool, a.step, m)
  {
    if a.Publish? && a.appended {
      Redelivery.StepKeepsBehind(s.pool, P.Append(a.partition, P.Job(s.publishing[a.id])), m);
    } else if a.Worker? {
      Redelivery.StepKeepsBehind(s.pool, a.step, m);
    }
  }

  /** Writing an event's outcome is handling its message. */
  lemma WriteFinishes(s: State, a: Action, p: nat, o: nat, e: P.Event)
    requires LogOk(s.pool.log, s.rows) && Enabled(s, a) && LoggedAt(s.pool.log, p, o, e) && Writes(s, a, e.id)
    ensures Redelivery.Finishes(s.pool, a.step, P.Msg(p, o))
  {
    var m := P.MessageOf(s.pool, a.step.worker);
    assert LoggedAt(s.pool.log, m.partition, m.offset, EventAt(s.pool, a.step.worker));
  }

  lemma {:induction false} BehindIsUnwritten(s: State, run: seq<Action>, p: nat, o: nat, e: P.Event)
    requires Inv(s) && ValidRun(s, run) && LoggedAt(s.pool.log, p, o, e) && Redelivery.Behind(s.pool, P.Msg(p, o))
    ensures WriteCount(s, run, e.id) == 0
    decreases |run|
  {
    if run != [] {
      StepKeepsBehind(s, run[0], P.Msg(p, o));
      StepKeepsLogged(s, run[0], p, o, e);
      StepKeepsInv(s, run[0]);
      if Writes(s, run[0], e.id) {
        WriteFinishes(s, run[0], p, o, e);
      }
      BehindIsUnwritten(Apply(s, run[0]), run[1..], p, o, e);
    }
  }

  /** A run of the pool as a run of the pipeline. */
  function Lift(run: seq<P.Action>): seq<Action> {
    if run == [] then [] else [Worker(run[0])] + Lift(run[1..])
  }

  /** The pool does in the pipeline what it does alone. */
  lemma {:induction false} LiftRuns(s: State, run: seq<P.Action>)
    requires P.ValidRun(s.pool, run) && forall i | 0 <= i < |run| :: !run[i].Append?
    ensures ValidRun(s, Lift(run)) && After(s, Lift(run)).pool == P.After(s.pool, run)
    decreases |run|
  {
    if run != [] {
      LiftRuns(Apply(s, Worker(run[0])), run[1..]);
      RunsThen(s, Worker(run[0]), Lift(run[1..]));
    }
  }

  /** And what it handles with writes that take effect, it writes. */
  lemma {:induction false} LiftWrites(s: State, run: seq<P.Action>, p: nat, o: nat, e: P.Event)
    requires P.ValidRun(s.pool, run) && Redelivery.AllSmooth(run) && LoggedAt(s.pool.log, p, o, e)
    ensures ValidRun(s, Lift(run))
    ensures WriteCount(s, Lift(run), e.id) >= Redelivery.FinishCount(s.pool, run, P.Msg(p, o))
    decreases |run|
  {
    if run != [] {
      var a := Worker(run[0]);
      assert Redelivery.Smooth(run[0]);
      StepKeepsLogged(s, a, p, o, e);
      LiftWrites(Apply(s, a), run[1..], p, o, e);
      RunsThen(s, a, Lift(run[1..]));
      assert Lift(run)[1..] == Lift(run[1..]);
    }
  }

  lemma {:induction false} UnwrittenIsUnchanged(s: State, run: seq<Action>, id: nat)
    requires ValidRun(s, run) && id in s.rows && WriteCount(s, run, id) == 0
    ensures id in After(s, run).rows && After(s, run).rows[id] == s.rows[id]
    decreases |run|
  {
    if run != [] {
      OthersLeaveRow(s, run[0], id);
      UnwrittenIsUnchanged(Apply(s, run[0]), run[1..], id);
    }
  }

  lemma OthersLeaveRow(s: State, a: Action, id: nat)
    requires Enabled(s, a) && !Writes(s, a, id) && id in s.rows
    ensures id in Apply(s, a).rows && Apply(s, a).rows[id] == s.rows[id]
  {
  }

  /** No continuation writes row id. */
  ghost predicate NeverWritten(s: State, id: nat) {
    forall run | ValidRun(s, run) :: WriteCount(s, run, id) == 0
  }

  /**
   * From a reachable state on, the row of a logged event is never written, for the first time or again, exactly if
   * the offsets have passed the event and no worker can write it or move them back before it; a row that is
   * not written again stays as it is.
   */
  lemma OutcomeIsFinalIff(s: State, p: nat, o: nat, e: P.Event)
    requires Reachable(s) && LoggedAt(s.pool.log, p, o, e)
    ensures NeverWritten(s, e.id) <==> Redelivery.Behind(s.pool, P.Msg(p, o))
    ensures e.id in s.rows
    ensures NeverWritten(s, e.id) ==>
              forall run | ValidRun(s, run) :: e.id in After(s, run).rows && After(s, run).rows[e.id] == s.rows[e.id]
  {
    ReachableIsInv(s);
    if Redelivery.Behind(s.pool, P.Msg(p, o)) {
      forall run | ValidRun(s, run)
        ensures WriteCount(s, run, e.id) == 0
      {
        BehindIsUnwritten(s, run, p, o, e);
      }
    } else {
      var run := Redelivery.MayBeHandled(s.pool, P.Msg(p, o));
      LiftWrites(s, run, p, o, e);
    }
    if NeverWritten(s, e.id) {
      forall run | ValidRun(s, run)
        ensures e.id in After(s, run).rows && After(s, run).rows[e.id] == s.rows[e.id]
      {
        UnwrittenIsUnchanged(s, run, e.id);
      }
    }
  }

  // ---------------------------------------------------------------- concrete runs

  /** One Enqueue, delivered at the first attempt, with its outcome written and its commit to come. */
  lemma SentOnce() returns (s0: State, run: seq<Action>)
    ensures Initial(s0) && ValidRun(s0, run)
    ensures After(s0, run).pool == P.Finish(Enqueued(Start(1).pool, 0, 7), 0)
    ensures After(s0, run).pool.log == [[P.Job(EventNo(7))]]
    ensures var rows := After(s0, run).rows; 7 in rows && rows[7].status == Sent && rows[7].sentAt.Some?
  {
    s0 := Start(1);
    StartIsInitial(1);
    run := EnqueueReachesWorker(s0, 0, 7);
    var more := Handles(After(s0, run), 0, Retry.Delivered, true);
    RunsConcatenate(s0, run, more);
    run := run + more;
    assert Start(1).pool.log[0] + [P.Job(EventNo(7))] == [P.Job(EventNo(7))];
  }

  /** Once the process starts anew, the uncommitted event is delivered again, in vain. */
  lemma StartedAnewRefuses(s: State, start: P.Action, reason: string) returns (run: seq<Action>)
    requires P.Enabled(s.pool, start) && (start.Crash? || start.Restart?)
    requires s.pool.budget == 1 && |s.pool.workers| == 1
    requires s.pool.committed == [0] && s.pool.log == [[P.Job(EventNo(7))]]
    ensures ValidRun(s, run)
    ensures After(s, run).rows == MarkedFailed(s.rows, 7, 1, reason, s.now)
    ensures After(s, run).pool.crashes == s.pool.crashes + if start.Crash? then 1 else 0
  {
    var a1, a2, a3 := Worker(start), Worker(P.FetchReturns(0)), Worker(P.HandOff(0));
    var s1 := Apply(s, a1);
    var s2 := Apply(s1, a2);
    var s3 := Apply(s2, a3);
    run := Handles(s3, 0, Retry.Refused(reason), true);
    RunsThen(s2, a3, run);
    run := [a3] + run;
    RunsThen(s1, a2, run);
    run := [a2] + run;
    RunsThen(s, a1, run);
    run := [a1] + run;
  }

  /** "Terminal" does not mean final: a crash before the commit redelivers a sent event, and its row turns failed. */
  lemma SentRowTurnsFailed(reason: string) returns (s0: State, run: seq<Action>, more: seq<Action>)
    ensures Initial(s0) && ValidRun(s0, run) && ValidRun(After(s0, run), more)
    ensures 7 in After(s0, run).rows && After(s0, run).rows[7].status == Sent
    ensures var s := After(After(s0, run), more);
            && 7 in s.rows && s.rows[7].status == Failed && s.rows[7].lastError == reason && s.rows[7].sentAt.Some?
  {
    s0, run := SentOnce();
    more := StartedAnewRefuses(After(s0, run), P.Crash, reason);
  }

  /** The commit of the sent event fails, and Run returns. */
  lemma CommitFailsThenDrains(s: State) returns (run: seq<Action>)
    requires s.pool == P.Finish(Enqueued(Start(1).pool, 0, 7), 0) && s.pool.log == [[P.Job(EventNo(7))]]
    ensures ValidRun(s, run)
    ensures var t := After(s, run);
            && t.pool.dispatcher.Returned? && t.pool.crashes == 0 && t.pool.budget == 1 && |t.pool.workers| == 1
            && t.pool.committed == [0] && t.pool.log == [[P.Job(EventNo(7))]] && t.rows == s.rows
  {
    var commit := Worker(P.CommitReturns(0, false));
    var s1 := Apply(s, commit);
    var drain := Redelivery.IdleDrains(s1.pool);
    LiftRuns(s1, drain);
    LiftKeepsRows(s1, drain);
    RunsThen(s, commit, Lift(drain));
    run := [commit] + Lift(drain);
  }

  lemma {:induction false} LiftKeepsRows(s: State, run: seq<P.Action>)
    requires P.ValidRun(s.pool, run) && Redelivery.NoHandling(run)
    ensures ValidRun(s, Lift(run)) && After(s, Lift(run)).rows == s.rows
    decreases |run|
  {
    if run != [] {
      assert !P.IsHandling(run[0]) && !run[0].Append?;
      LiftKeepsRows(Apply(s, Worker(run[0])), run[1..]);
      RunsThen(s, Worker(run[0]), Lift(run[1..]));
    }
  }

  /** No crash is needed: a commit fails, Run returns, and the next session turns the sent row into a failed one. */
  lemma GracefulRestartTurnsSentFailed(reason: string) returns (s0: State, run: seq<Action>, more: seq<Action>)
    ensures Initial(s0) && ValidRun(s0, run) && ValidRun(After(s0, run), more)
    ensures 7 in After(s0, run).rows && After(s0, run).rows[7].status == Sent
    ensures var s := After(After(s0, run), more);
            && s.pool.crashes == 0
            && 7 in s.rows && s.rows[7].status == Failed && s.rows[7].lastError == reason && s.rows[7].sentAt.Some?
  {
    s0, run := SentOnce();
    var s := After(s0, run);
    more := CommitFailsThenDrains(s);
    var again := StartedAnewRefuses(After(s, more), P.Restart, reason);
    RunsConcatenate(s, more, again);
    more := more + again;
  }
}
