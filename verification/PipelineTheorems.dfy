/** What the pipeline promises about commits, about rewriting rows, and about the order of a user's events. */
module PipelineTheorems {
  import opened Common
  import opened Repository
  import opened Pipeline
  import PoolTheorems

  lemma {:induction false} RunsConcatenate(s: State, run: seq<Action>, more: seq<Action>)
    requires ValidRun(s, run) && ValidRun(After(s, run), more)
    ensures ValidRun(s, run + more) && After(s, run + more) == After(After(s, run), more)
    decreases |run|
  {
    if run == [] {
      assert run + more == more;
    } else {
      RunsConcatenate(Apply(s, run[0]), run[1..], more);
      assert (run + more)[0] == run[0] && (run + more)[1..] == run[1..] + more;
    }
  }

  lemma RunsThen(s: State, a: Action, rest: seq<Action>)
    requires Enabled(s, a) && ValidRun(Apply(s, a), rest)
    ensures ValidRun(s, [a] + rest) && After(s, [a] + rest) == After(Apply(s, a), rest)
  {
    assert ([a] + rest)[1..] == rest;
  }

  // ---------------------------------------------------------------- the writes of a row

  /** The step records an outcome in row id. */
  predicate Writes(s: State, a: Action, id: nat) {
    && a.Worker? && a.step.PersistReturns? && a.step.applied
    && HasEvent(s.pool, a.step.worker) && EventAt(s.pool, a.step.worker).id == id
  }

  function WriteCount(s: State, run: seq<Action>, id: nat): nat
    requires ValidRun(s, run)
    decreases |run|
  {
    if run == [] then 0 else (if Writes(s, run[0], id) then 1 else 0) + WriteCount(Apply(s, run[0]), run[1..], id)
  }

  /** Row id has an outcome. */
  predicate Terminal(t: Table, id: nat) {
    id in t && !t[id].status.Pending?
  }

  lemma WriteIsTerminal(s: State, a: Action, id: nat)
    requires Inv(s) && Enabled(s, a) && Writes(s, a, id)
    ensures Terminal(Apply(s, a).rows, id)
  {
    var m := P.MessageOf(s.pool, a.step.worker);
    assert LoggedAt(s.pool.log, m.partition, m.offset, EventAt(s.pool, a.step.worker));
  }

  lemma OthersLeavePending(s: State, a: Action, id: nat)
    requires Enabled(s, a) && !Writes(s, a, id) && !Terminal(s.rows, id)
    ensures !Terminal(Apply(s, a).rows, id)
  {
  }

  lemma {:induction false} TerminalIffWritten(s: State, run: seq<Action>, id: nat)
    requires Inv(s) && ValidRun(s, run)
    ensures Terminal(After(s, run).rows, id) <==> Terminal(s.rows, id) || WriteCount(s, run, id) > 0
    decreases |run|
  {
    if run != [] {
      var t := Apply(s, run[0]);
      StepKeepsInv(s, run[0]);
      TerminalIffWritten(t, run[1..], id);
      if Writes(s, run[0], id) {
        WriteIsTerminal(s, run[0], id);
      } else if !Terminal(s.rows, id) {
        OthersLeavePending(s, run[0], id);
      }
    }
  }

  /** Along every run, a pending row is still pending exactly if no write of its outcome took effect. */
  lemma PendingIffUnwritten(s: State, run: seq<Action>, id: nat)
    requires Reachable(s) && ValidRun(s, run) && id in s.rows && s.rows[id].status.Pending?
    ensures id in After(s, run).rows
    ensures After(s, run).rows[id].status.Pending? <==> WriteCount(s, run, id) == 0
  {
    ReachableIsInv(s);
    RunKeepsInv(s, run);
    TerminalIffWritten(s, run, id);
  }

  // ---------------------------------------------------------------- terminal state before commit

  predicate AllWritesApplied(run: seq<Action>) {
    run == [] ||
    ((run[0].Worker? && run[0].step.PersistReturns? ==> run[0].step.applied) && AllWritesApplied(run[1..]))
  }

  /** Handled events have left the pending state. */
  ghost predicate Settled(pool: P.State, t: Table) {
    forall m | m in pool.finished ::
      P.InLog(pool, m) && (pool.log[m.partition][m.offset].Job? ==>
        var id := pool.log[m.partition][m.offset].event.id; id in t && !t[id].status.Pending?)
  }

  lemma AdvancingKeepsSettled(pool: P.State, after: P.State, t: Table, u: Table)
    requires Settled(pool, t) && Advances(t, u) && pool.finished == after.finished && |pool.log| == |after.log|
    requires forall p | 0 <= p < |pool.log| :: pool.log[p] <= after.log[p]
    ensures Settled(after, u)
  {
    forall m | m in after.finished
      ensures P.InLog(after, m) && (after.log[m.partition][m.offset].Job? ==>
        var id := after.log[m.partition][m.offset].event.id; id in u && !u[id].status.Pending?)
    {
      assert pool.log[m.partition] <= after.log[m.partition];
    }
  }

  /** A step that handles no message to the end changes neither what is finished nor what was logged. */
  lemma FinishedUnchanged(pool: P.State, step: P.Action)
    requires P.Enabled(pool, step) && !step.PersistReturns? && !step.Parse?
    ensures P.Apply(pool, step).finished == pool.finished && |P.Apply(pool, step).log| == |pool.log|
    ensures forall p | 0 <= p < |pool.log| :: pool.log[p] <= P.Apply(pool, step).log[p]
  {
  }

  lemma FinishKeepsSettled(pool: P.State, w: nat, t: Table, u: Table)
    requires Settled(pool, t) && Advances(t, u) && P.WorkerAt(pool, w) && P.InLog(pool, P.MessageOf(pool, w))
    requires P.PayloadOf(pool, w).Job? ==> EventAt(pool, w).id in u && !u[EventAt(pool, w).id].status.Pending?
    ensures Settled(P.Finish(pool, w), u)
  {
  }

  lemma WorkerKeepsSettled(s: State, step: P.Action)
    requires Inv(s) && Enabled(s, Worker(step)) && Settled(s.pool, s.rows) && (step.PersistReturns? ==> step.applied)
    ensures Settled(Apply(s, Worker(step)).pool, Apply(s, Worker(step)).rows)
  {
    EffectsKeepRows(s, step);
    if step.PersistReturns? {
      BusyHasPayload(s.pool, step.worker);
      var m := P.MessageOf(s.pool, step.worker);
      if HasEvent(s.pool, step.worker) {
        assert LoggedAt(s.pool.log, m.partition, m.offset, EventAt(s.pool, step.worker));
      }
      FinishKeepsSettled(s.pool, step.worker, s.rows, Effects(s, step).rows);
    } else if step.Parse? {
      ParseKeepsSettled(s.pool, step.worker, s.rows);
    } else {
      FinishedUnchanged(s.pool, step);
      AdvancingKeepsSettled(s.pool, P.Apply(s.pool, step), s.rows, Effects(s, step).rows);
    }
  }

  lemma ParseKeepsSettled(pool: P.State, w: nat, t: Table)
    requires Settled(pool, t) && P.Enabled(pool, P.Parse(w))
    ensures Settled(P.Apply(pool, P.Parse(w)), t)
  {
    if !P.PayloadOf(pool, w).Job? {
      FinishKeepsSettled(pool, w, t, t);
    }
  }

  lemma {:induction false} RunKeepsSettled(s: State, run: seq<Action>)
    requires Inv(s) && ValidRun(s, run) && Settled(s.pool, s.rows) && AllWritesApplied(run)
    ensures Settled(After(s, run).pool, After(s, run).rows)
    decreases |run|
  {
    if run != [] {
      var t := Apply(s, run[0]);
      StepKeepsInv(s, run[0]);
      match run[0] {
        case Worker(step) => WorkerKeepsSettled(s, step);
        case _ => AdvancingKeepsSettled(s.pool, t.pool, s.rows, t.rows);
      }
      RunKeepsSettled(t, run[1..]);
    }
  }

  lemma SettledFromStart(s0: State, run: seq<Action>)
    requires Initial(s0) && ValidRun(s0, run)
    ensures Inv(After(s0, run))
    ensures AllWritesApplied(run) ==> Settled(After(s0, run).pool, After(s0, run).rows)
  {
    InitialIsInv(s0);
    RunKeepsInv(s0, run);
    if AllWritesApplied(run) {
      RunKeepsSettled(s0, run);
    }
  }

  /**
   * "Offsets commit only after the terminal state is persisted", at each commit of every run, with crashes and
   * redeliveries: when a worker comes to commit an event, its row has left pending exactly if some write of its
   * outcome has taken effect, which is so in particular if no write ever failed.
   */
  lemma CommitsTerminalIffWritten(s0: State, run: seq<Action>, w: nat, applied: bool)
    requires Initial(s0) && ValidRun(s0, run)
    requires P.Enabled(After(s0, run).pool, P.CommitReturns(w, applied)) && HasEvent(After(s0, run).pool, w)
    ensures var s := After(s0, run);
            var id := EventAt(s.pool, w).id;
            && id in s.rows
            && (Terminal(s.rows, id) <==> WriteCount(s0, run, id) > 0)
            && (AllWritesApplied(run) ==> Terminal(s.rows, id))
  {
    SettledFromStart(s0, run);
    InitialIsInv(s0);
    var s := After(s0, run);
    var m, e := P.MessageOf(s.pool, w), EventAt(s.pool, w);
    assert LoggedAt(s.pool.log, m.partition, m.offset, e);
    TerminalIffWritten(s0, run, e.id);
    assert m in s.pool.finished;
  }

  /** The events below the committed offsets whose rows are still pending. */
  ghost function PendingBelow(s: State): set<P.Msg> {
    set p: nat, o: nat | p < |s.pool.committed| && o < s.pool.committed[p] && PendingAt(s, p, o) :: P.Msg(p, o)
  }

  predicate PendingAt(s: State, p: nat, o: nat) {
    && p < |s.pool.log| && o < |s.pool.log[p]| && s.pool.log[p][o].Job?
    && !Terminal(s.rows, s.pool.log[p][o].event.id)
  }

  /**
   * As long as no database write fails, every event that is pending below a committed offset is one that a crash
   * lost or may yet lose: at most N-1 for each crash and the running session, and none of the running
   * session once Run has returned.
   */
  lemma PendingBelowIsLost(s0: State, run: seq<Action>)
    requires Initial(s0) && ValidRun(s0, run) && AllWritesApplied(run)
    ensures var s := After(s0, run);
            && PendingBelow(s) <= P.Lost(s.pool)
            && |PendingBelow(s)| <= (s.pool.crashes + 1) * (|s.pool.workers| - 1)
            && (s.pool.dispatcher.Returned? ==> |PendingBelow(s)| <= s.pool.crashes * (|s.pool.workers| - 1))
  {
    SettledFromStart(s0, run);
    var s := After(s0, run);
    Safety.LossBound(s.pool);
    PoolTheorems.OneMore(s.pool.crashes, |s.pool.workers| - 1);
    SubsetSize(PendingBelow(s), P.Lost(s.pool));
  }

  /** So after graceful sessions every event below a committed offset has an outcome. */
  lemma CommittedMeansTerminal(s0: State, run: seq<Action>, p: nat, o: nat, e: P.Event)
    requires Initial(s0) && ValidRun(s0, run) && AllWritesApplied(run)
    requires var pool := After(s0, run).pool;
             && pool.dispatcher.Returned? && pool.crashes == 0
             && p < |pool.committed| && o < pool.committed[p] && LoggedAt(pool.log, p, o, e)
    ensures e.id in After(s0, run).rows && !After(s0, run).rows[e.id].status.Pending?
  {
    PendingBelowIsLost(s0, run);
    assert P.Msg(p, o) in PendingBelow(After(s0, run)) || !PendingAt(After(s0, run), p, o);
  }

  // ---------------------------------------------------------------- one write for each row and session

  predicate InSession(a: Action) {
    a.Worker? ==> !a.step.Crash? && !a.step.Restart?
  }

  predicate SameSession(run: seq<Action>) {
    run == [] || (InSession(run[0]) && SameSession(run[1..]))
  }

  /** The i-th message of the session is an event that names row id. */
  predicate Names(pool: P.State, i: nat, id: nat) {
    && i < |pool.fetched| && P.InLog(pool, pool.fetched[i])
    && var payload := pool.log[pool.fetched[i].partition][pool.fetched[i].offset];
       payload.Job? && payload.event.id == id
  }

  /** The session has handled an event that names row id. */
  ghost predicate Handled(pool: P.State, id: nat) {
    exists i: nat :: i in pool.completed && Names(pool, i, id)
  }

  /** A session fetches no two messages that name the same row. */
  lemma NamedOnce(s: State, i: nat, j: nat, id: nat)
    requires Inv(s) && Names(s.pool, i, id) && Names(s.pool, j, id)
    ensures i == j
  {
    var m, n := s.pool.fetched[i], s.pool.fetched[j];
    var e, f := s.pool.log[m.partition][m.offset].event, s.pool.log[n.partition][n.offset].event;
    assert LoggedAt(s.pool.log, m.partition, m.offset, e) && LoggedAt(s.pool.log, n.partition, n.offset, f);
  }

  lemma WritesOnlyUnhandled(s: State, a: Action, id: nat)
    requires Inv(s) && Enabled(s, a) && Writes(s, a, id)
    ensures !Handled(s.pool, id) && Handled(Apply(s, a).pool, id)
  {
    var t, job := Apply(s, a), s.pool.workers[a.step.worker].job;
    assert Names(s.pool, job, id) && job !in s.pool.completed;
    if i: nat :| i in s.pool.completed && Names(s.pool, i, id) {
      NamedOnce(s, i, job, id);
    }
    assert job in t.pool.completed && Names(t.pool, job, id);
  }

  /** Within a session, what was fetched, logged and completed stays. */
  predicate Grows(before: P.State, after: P.State) {
    && before.fetched <= after.fetched && before.completed <= after.completed && |before.log| == |after.log|
    && forall p | 0 <= p < |before.log| :: before.log[p] <= after.log[p]
  }

  lemma StepGrows(s: State, a: Action)
    requires Enabled(s, a) && InSession(a)
    ensures Grows(s.pool, Apply(s, a).pool)
  {
  }

  lemma GrowingKeepsHandled(before: P.State, after: P.State, id: nat)
    requires Grows(before, after) && Handled(before, id)
    ensures Handled(after, id)
  {
    var i: nat :| i in before.completed && Names(before, i, id);
    assert before.log[before.fetched[i].partition] <= after.log[before.fetched[i].partition];
    assert Names(after, i, id);
  }

  lemma {:induction false} WritesBounded(s: State, run: seq<Action>, id: nat)
    requires Inv(s) && ValidRun(s, run) && SameSession(run)
    ensures WriteCount(s, run, id) <= if Handled(s.pool, id) then 0 else 1
    decreases |run|
  {
    if run != [] {
      var t := Apply(s, run[0]);
      StepKeepsInv(s, run[0]);
      WritesBounded(t, run[1..], id);
      if Writes(s, run[0], id) {
        WritesOnlyUnhandled(s, run[0], id);
      } else if Handled(s.pool, id) {
        StepGrows(s, run[0]);
        GrowingKeepsHandled(s.pool, t.pool, id);
      }
    }
  }

  /** Between two starts of the process each row is written at most once; only a redelivery can write it again. */
  lemma WrittenOncePerSession(s: State, run: seq<Action>, id: nat)
    requires Reachable(s) && ValidRun(s, run) && SameSession(run)
    ensures WriteCount(s, run, id) <= 1
  {
    ReachableIsInv(s);
    WritesBounded(s, run, id);
  }

  // ---------------------------------------------------------------- the order of a user's events

  /** The user is the key of an event, and the balancer maps a key to one partition. */
  predicate Keyed(s: State, run: seq<Action>, partitionOf: nat -> nat)
    requires ValidRun(s, run)
    decreases |run|
  {
    run == [] ||
    ((run[0].Publish? ==> run[0].partition == partitionOf(s.publishing[run[0].id].user))
     && Keyed(Apply(s, run[0]), run[1..], partitionOf))
  }

  ghost predicate LoggedByUser(log: seq<seq<P.Payload>>, partitionOf: nat -> nat) {
    forall p, o, e | LoggedAt(log, p, o, e) :: p == partitionOf(e.user)
  }

  lemma StepKeepsLoggedByUser(s: State, a: Action, partitionOf: nat -> nat)
    requires Enabled(s, a) && LoggedByUser(s.pool.log, partitionOf)
    requires a.Publish? ==> a.partition == partitionOf(s.publishing[a.id].user)
    ensures LoggedByUser(Apply(s, a).pool.log, partitionOf)
  {
    if a.Publish? && a.appended {
      AppendAdds(s.pool.log, a.partition, P.Job(s.publishing[a.id]));
    } else if a.Worker? && a.step.Append? {
      AppendAdds(s.pool.log, a.step.partition, a.step.payload);
    } else if a.Worker? {
      LogUnchanged(s.pool, a.step);
    }
  }

  lemma {:induction false} RunKeepsLoggedByUser(s: State, run: seq<Action>, partitionOf: nat -> nat)
    requires ValidRun(s, run) && Keyed(s, run, partitionOf) && LoggedByUser(s.pool.log, partitionOf)
    ensures LoggedByUser(After(s, run).pool.log, partitionOf)
    decreases |run|
  {
    if run != [] {
      StepKeepsLoggedByUser(s, run[0], partitionOf);
      RunKeepsLoggedByUser(Apply(s, run[0]), run[1..], partitionOf);
    }
  }

  lemma StepKeepsFetchOrder(s: State, a: Action)
    requires Inv(s) && Enabled(s, a) && |s.pool.workers| == 1 && PoolTheorems.InFetchOrder(s.pool.completed)
    ensures PoolTheorems.InFetchOrder(Apply(s, a).pool.completed) && |Apply(s, a).pool.workers| == 1
  {
    if a.Worker? {
      PoolTheorems.OneWorkerStep(s.pool, a.step);
      Safety.StepKeepsConfiguration(s.pool, a.step);
    }
  }

  lemma {:induction false} RunKeepsFetchOrder(s: State, run: seq<Action>)
    requires Inv(s) && ValidRun(s, run) && |s.pool.workers| == 1 && PoolTheorems.InFetchOrder(s.pool.completed)
    ensures PoolTheorems.InFetchOrder(After(s, run).pool.completed)
    decreases |run|
  {
    if run != [] {
      StepKeepsFetchOrder(s, run[0]);
      StepKeepsInv(s, run[0]);
      RunKeepsFetchOrder(Apply(s, run[0]), run[1..]);
    }
  }

  /** The event of the k-th completed job is e. */
  predicate CompletedEvent(pool: P.State, k: nat, e: P.Event) {
    && k < |pool.completed| && pool.completed[k] < |pool.fetched|
    && var m := pool.fetched[pool.completed[k]]; LoggedAt(pool.log, m.partition, m.offset, e)
  }

  /** In one session, the events of any one user lie in one partition and are completed in the order of their log. */
  ghost predicate InUserOrder(pool: P.State) {
    forall j: nat, k: nat, e, f | j < k && CompletedEvent(pool, j, e) && CompletedEvent(pool, k, f) && e.user == f.user ::
      var m, n := pool.fetched[pool.completed[j]], pool.fetched[pool.completed[k]];
      m.partition == n.partition && m.offset < n.offset
  }

  lemma UserOrder(pool: P.State, partitionOf: nat -> nat)
    requires Safety.FetchedOk(pool.start, pool.cursor, pool.fetched)
    requires LoggedByUser(pool.log, partitionOf) && PoolTheorems.InFetchOrder(pool.completed)
    ensures InUserOrder(pool)
  {
  }

  /**
   * What keying by user is for: with one worker, events of one user are completed in the order in which they
   * were logged.
   */
  lemma OneWorkerKeepsUserOrder(s0: State, run: seq<Action>, partitionOf: nat -> nat)
    requires Initial(s0) && ValidRun(s0, run) && Keyed(s0, run, partitionOf) && |s0.pool.workers| == 1
    ensures InUserOrder(After(s0, run).pool)
  {
    InitialIsInv(s0);
    RunKeepsInv(s0, run);
    RunKeepsLoggedByUser(s0, run, partitionOf);
    RunKeepsFetchOrder(s0, run);
    UserOrder(After(s0, run).pool, partitionOf);
  }

  /** With n workers, whatever the run and the partitioner, events of one user are completed in log order. */
  ghost predicate UsersInOrder(n: nat) {
    forall s0, run, partitionOf: nat -> nat |
      Initial(s0) && |s0.pool.workers| == n && ValidRun(s0, run) && Keyed(s0, run, partitionOf) ::
      InUserOrder(After(s0, run).pool)
  }

  lemma UserOrderIffOneWorker(n: nat)
    requires n >= 1
    ensures UsersInOrder(n) <==> n == 1
  {
    if n == 1 {
      forall s0, run, partitionOf: nat -> nat |
        Initial(s0) && |s0.pool.workers| == n && ValidRun(s0, run) && Keyed(s0, run, partitionOf)
        ensures InUserOrder(After(s0, run).pool)
      {
        OneWorkerKeepsUserOrder(s0, run, partitionOf);
      }
    } else {
      OvertakenWithTwo(n);
    }
  }

  lemma OvertakenWithTwo(n: nat)
    requires n >= 2
    ensures !UsersInOrder(n)
  {
    var s0, run := SecondOvertakesFirst(n);
    var onePartition := (user: nat) => 0;
    PublishedToIsKeyed(s0, run, 0, onePartition);
  }

  // ---------------------------------------------------------------- concrete runs

  /** One empty partition, n idle workers, one attempt for each event. */
  function Start(n: nat): State {
    State(P.State(1, [[]], [0], {}, 0, [0], [0], [], [], [], seq(n, _ => P.Idle), P.Fetching, false, false),
          map[], map[], {}, {}, 0)
  }

  lemma StartIsInitial(n: nat)
    requires n >= 1
    ensures Initial(Start(n))
  {
    assert P.FreshSession(Start(n).pool).workers == Start(n).pool.workers;
  }

  /** An event of user 1. */
  function EventNo(id: nat): P.Event {
    P.Event(id, 1, "email", "", "", "")
  }

  predicate PublishesTo(run: seq<Action>, p: nat) {
    forall i | 0 <= i < |run| && run[i].Publish? :: run[i].partition == p
  }

  lemma {:induction false} PublishedToIsKeyed(s: State, run: seq<Action>, p: nat, partitionOf: nat -> nat)
    requires ValidRun(s, run) && PublishesTo(run, p) && forall u :: partitionOf(u) == p
    ensures Keyed(s, run, partitionOf)
    decreases |run|
  {
    if run != [] {
      PublishedToIsKeyed(Apply(s, run[0]), run[1..], p, partitionOf);
    }
  }

  /** Everything in the only partition has been fetched and handed over, and worker w waits. */
  predicate Waits(s: State, w: nat) {
    && s.pool.dispatcher.Fetching? && |s.pool.log| == 1 && s.pool.cursor == [|s.pool.log[0]|]
    && |s.pool.fetched| == |s.pool.owner| && w < |s.pool.workers| && s.pool.workers[w].Idle?
  }

  function Enqueued(pool: P.State, w: nat, id: nat): P.State
    requires |pool.log| == 1 && w < |pool.workers|
  {
    pool.(log := [pool.log[0] + [P.Job(EventNo(id))]], cursor := [|pool.log[0]| + 1],
          fetched := pool.fetched + [P.Msg(0, |pool.log[0]|)], owner := pool.owner + [w],
          workers := pool.workers[w := P.Busy(|pool.owner|, P.Received)])
  }

  /** An Enqueue's event reaches a waiting worker. */
  lemma EnqueueReachesWorker(s: State, w: nat, id: nat) returns (run: seq<Action>)
    requires Waits(s, w) && id !in s.rows && id !in s.publishing
    ensures ValidRun(s, run) && PublishesTo(run, 0)
    ensures var t := After(s, run);
            && t.pool == Enqueued(s.pool, w, id) && t.publishing == s.publishing && t.now == s.now
            && t.rows == Insert(s.rows, id, 1, "email", "", "", "", s.now)
  {
    var a1, a2 := Create(id, 1, "email", "", "", ""), Publish(id, 0, true);
    var a3, a4 := Worker(P.FetchReturns(0)), Worker(P.HandOff(w));
    var s1 := Apply(s, a1);
    var s2 := Apply(s1, a2);
    assert s2.pool.log == [s.pool.log[0] + [P.Job(EventNo(id))]];
    var s3 := Apply(s2, a3);
    assert s3.pool.cursor == [|s.pool.log[0]| + 1];
    RunsThen(s3, a4, []);
    RunsThen(s2, a3, [a4] + []);
    run := [a3] + ([a4] + []);
    RunsThen(s1, a2, run);
    run := [a2] + run;
    RunsThen(s, a1, run);
    run := [a1] + run;
  }

  function ResultOf(answer: Retry.SendResult): Retry.Result {
    match answer
    case Delivered => Retry.Result(1, None)
    case Refused(reason) => Retry.Result(1, Some(Retry.LastSend(reason)))
  }

  /** A worker with one attempt takes its event to the write of its outcome. */
  lemma Sends(s: State, w: nat, answer: Retry.SendResult) returns (run: seq<Action>)
    requires s.pool.budget == 1 && !s.pool.cancelled && HasEvent(s.pool, w) && s.pool.workers[w].stage.Received?
    ensures ValidRun(s, run) && PublishesTo(run, 0)
    ensures var t := After(s, run);
            && t.pool == P.AtStage(s.pool, w, P.Persisting(ResultOf(answer)))
            && t.publishing == s.publishing && t.now == s.now && t.rows == s.rows
  {
    var a1, a2, a3 := Worker(P.Parse(w)), Worker(P.CheckContext(w)), Worker(P.SendReturns(w, answer));
    var s1 := Apply(s, a1);
    assert s1.pool == P.AtStage(s.pool, w, P.Delivering(Retry.AtCheck(1)));
    var s2 := Apply(s1, a2);
    assert s2.pool == P.AtStage(s.pool, w, P.Delivering(Retry.Sending(1)));
    var s3 := Apply(s2, a3);
    assert s3.pool == P.AtStage(s.pool, w, P.Persisting(ResultOf(answer)));
    RunsThen(s2, a3, []);
    RunsThen(s1, a2, [a3] + []);
    run := [a2] + ([a3] + []);
    RunsThen(s, a1, run);
    run := [a1] + run;
  }

  /** And to the end of handling it. */
  lemma Handles(s: State, w: nat, answer: Retry.SendResult, applied: bool) returns (run: seq<Action>)
    requires s.pool.budget == 1 && !s.pool.cancelled && HasEvent(s.pool, w) && s.pool.workers[w].stage.Received?
    ensures ValidRun(s, run) && PublishesTo(run, 0)
    ensures var t := After(s, run);
            && t.pool == P.Finish(s.pool, w) && t.publishing == s.publishing && t.now == s.now
            && t.rows == if applied then Recorded(s.rows, EventAt(s.pool, w).id, ResultOf(answer), s.now) else s.rows
  {
    run := Sends(s, w, answer);
    var write := Worker(P.PersistReturns(w, applied));
    RunsThen(After(s, run), write, []);
    RunsConcatenate(s, run, [write] + []);
    run := run + ([write] + []);
  }

  /** With a second worker the second event of a user is completed before the first. */
  lemma SecondOvertakesFirst(n: nat) returns (s0: State, run: seq<Action>)
    requires n >= 2
    ensures Initial(s0) && |s0.pool.workers| == n && ValidRun(s0, run) && PublishesTo(run, 0)
    ensures !InUserOrder(After(s0, run).pool)
  {
    s0 := Start(n);
    StartIsInitial(n);
    run := EnqueueReachesWorker(s0, 0, 0);
    var s1 := After(s0, run);
    var more := EnqueueReachesWorker(s1, 1, 1);
    RunsConcatenate(s0, run, more);
    run := run + more;
    var s2 := After(s0, run);
    more := Handles(s2, 1, Retry.Delivered, true);
    RunsConcatenate(s0, run, more);
    run := run + more;
    var s3 := After(s0, run);
    more := Handles(s3, 0, Retry.Delivered, true);
    RunsConcatenate(s0, run, more);
    run := run + more;
    var pool := After(s0, run).pool;
    assert pool.completed == [1, 0] && pool.fetched == [P.Msg(0, 0), P.Msg(0, 1)];
    assert CompletedEvent(pool, 0, EventNo(1)) && CompletedEvent(pool, 1, EventNo(0));
  }

  /** A failed write is logged, the offset is committed, and the row stays pending. */
  lemma FailedWriteIsCommitted() returns (s0: State, run: seq<Action>)
    ensures Initial(s0) && ValidRun(s0, run)
    ensures var s := After(s0, run);
            && s.pool.crashes == 0 && s.pool.committed == [1] && LoggedAt(s.pool.log, 0, 0, EventNo(7))
            && 7 in s.rows && s.rows[7].status == Pending
  {
    s0 := Start(1);
    StartIsInitial(1);
    run := EnqueueReachesWorker(s0, 0, 7);
    var more := Handles(After(s0, run), 0, Retry.Delivered, false);
    RunsConcatenate(s0, run, more);
    run := run + more;
    var commit := Worker(P.CommitReturns(0, true));
    RunsThen(After(s0, run), commit, []);
    RunsConcatenate(s0, run, [commit] + []);
    run := run + ([commit] + []);
  }
}
