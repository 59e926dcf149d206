/** What every run of the worker pool keeps, and how much a crash can lose. */
module PoolSafety {
  import opened Common
  import opened PoolProtocol

  // ---------------------------------------------------------------- the invariant, component by component

  predicate ValidStage(budget: int, stage: Stage) {
    match stage
    case Received => true
    case Delivering(phase) => !phase.Done? && Retry.ValidPhase(budget, phase)
    case Persisting(result) => Retry.PlausibleResult(budget, result)
    case Committing => true
  }

  /** The log only grows past the cursor, and a commit never passes it. */
  ghost predicate OffsetsOk(log: seq<seq<Payload>>, start: seq<nat>, cursor: seq<nat>, committed: seq<nat>) {
    && |committed| == |start| == |cursor| == |log|
    && (forall p | 0 <= p < |log| :: start[p] <= cursor[p] <= |log[p]|)
    && (forall p | 0 <= p < |log| :: committed[p] <= cursor[p])
  }

  /** The session fetched each partition from its start, in offset order and without gaps. */
  ghost predicate FetchedOk(start: seq<nat>, cursor: seq<nat>, fetched: seq<Msg>) {
    && |start| == |cursor|
    && (forall i | 0 <= i < |fetched| ::
          fetched[i].partition < |start|
          && start[fetched[i].partition] <= fetched[i].offset < cursor[fetched[i].partition])
    && (forall i, j | 0 <= i < j < |fetched| ::
          fetched[i].partition == fetched[j].partition ==> fetched[i].offset < fetched[j].offset)
    && (forall p, o | 0 <= p < |start| && start[p] <= o < cursor[p] :: Msg(p, o) in fetched)
  }

  /** The dispatcher holds at most one message, and offers it on an open channel. */
  ghost predicate DispatcherOk(workers: seq<Worker>, dispatcher: Dispatcher, closed: bool, handed: nat, fetched: nat) {
    && handed <= fetched <= handed + 1
    && (dispatcher.Fetching? || dispatcher.Pausing? ==> fetched == handed)
    && (dispatcher.Offering? ==> fetched == handed + 1)
    && (closed <==> dispatcher.Waiting? || dispatcher.Returned?)
    && (forall w | 0 <= w < |workers| && workers[w].Exited? :: closed)
    && (dispatcher.Returned? ==> forall w | 0 <= w < |workers| :: workers[w].Exited?)
  }

  predicate Holds(workers: seq<Worker>, w: int, i: int) {
    0 <= w < |workers| && workers[w].Busy? && workers[w].job == i
  }

  /** A worker holds the latest of the jobs it was handed, and has finished the earlier ones. */
  ghost predicate WorkersOk(budget: int, workers: seq<Worker>, owner: seq<nat>, completed: seq<nat>) {
    && (forall i | 0 <= i < |owner| :: owner[i] < |workers|)
    && (forall w | 0 <= w < |workers| && workers[w].Busy? ::
          && workers[w].job < |owner| && owner[workers[w].job] == w
          && ValidStage(budget, workers[w].stage)
          && (workers[w].job in completed <==> workers[w].stage.Committing?))
    && (forall i: nat | i < |owner| && i !in completed :: Holds(workers, owner[i], i))
    && (forall w, i | 0 <= w < |workers| && workers[w].Busy? && 0 <= i < |owner| && owner[i] == w ::
          i <= workers[w].job)
  }

  predicate Distinct(jobs: seq<nat>) {
    forall i, j | 0 <= i < j < |jobs| :: jobs[i] != jobs[j]
  }

  /** Only handed-off jobs are completed, once each. */
  ghost predicate CompletedOk(fetched: seq<Msg>, handed: nat, completed: seq<nat>, finished: set<Msg>) {
    && handed <= |fetched|
    && Distinct(completed)
    && (forall i | i in completed :: i < handed && fetched[i] in finished)
  }

  predicate CommittedBy(committed: seq<nat>, fetched: seq<Msg>, completed: seq<nat>, p: nat, i: nat) {
    && i in completed && i < |fetched| && p < |committed|
    && fetched[i].partition == p && fetched[i].offset + 1 == committed[p]
  }

  /** A partition's offset is where the session found it, or speaks for a completed job. */
  ghost predicate Explained(start: seq<nat>, committed: seq<nat>, fetched: seq<Msg>, completed: seq<nat>, p: nat) {
    p < |start| == |committed| &&
    (committed[p] == start[p] || exists i: nat :: CommittedBy(committed, fetched, completed, p, i))
  }

  ghost predicate CommitsOk(start: seq<nat>, committed: seq<nat>, fetched: seq<Msg>, completed: seq<nat>) {
    |start| == |committed| && forall p: nat | p < |committed| :: Explained(start, committed, fetched, completed, p)
  }

  /** Unfinished messages below some offsets, one for each partition. */
  ghost function UnfinishedBelow(offsets: seq<nat>, finished: set<Msg>): set<Msg> {
    set p: nat, o: nat | p < |offsets| && o < offsets[p] && Msg(p, o) !in finished :: Msg(p, o)
  }

  ghost predicate Inv(s: State) {
    && 1 <= |s.workers|
    && OffsetsOk(s.log, s.start, s.cursor, s.committed)
    && FetchedOk(s.start, s.cursor, s.fetched)
    && DispatcherOk(s.workers, s.dispatcher, s.channelClosed, |s.owner|, |s.fetched|)
    && WorkersOk(s.budget, s.workers, s.owner, s.completed)
    && CompletedOk(s.fetched, |s.owner|, s.completed, s.finished)
    && CommitsOk(s.start, s.committed, s.fetched, s.completed)
    && |UnfinishedBelow(s.start, s.finished)| <= s.crashes * (|s.workers| - 1)
  }

  // ---------------------------------------------------------------- what a session can lose

  /** Worker w holds a message below its partition's committed offset that it has not handled to the end. */
  ghost predicate HoldsLost(s: State, w: nat) {
    && WorkerAt(s, w) && !s.workers[w].stage.Committing?
    && MessageOf(s, w).partition < |s.committed|
    && MessageOf(s, w).offset < s.committed[MessageOf(s, w).partition]
  }

  ghost function LosingWorkers(s: State): set<nat> {
    set w: nat | w < |s.workers| && HoldsLost(s, w)
  }

  predicate JobLost(s: State, i: nat) {
    && i < |s.fetched| && i !in s.completed
    && s.fetched[i].partition < |s.committed| && s.fetched[i].offset < s.committed[s.fetched[i].partition]
  }

  /** The session's own messages that a crash now would lose. */
  ghost function LostNow(s: State): set<Msg> {
    set i: nat | i < |s.fetched| && i < |s.owner| && JobLost(s, i) :: s.fetched[i]
  }

  /**
   * The worker v that finished the message i whose commit passed w's message cannot hold an older lost
   * one: whatever it holds was handed to it later still.
   */
  lemma Outlived(s: State, w: nat) returns (v: nat, i: nat)
    requires Inv(s) && HoldsLost(s, w)
    ensures CommittedBy(s.committed, s.fetched, s.completed, MessageOf(s, w).partition, i)
    ensures i < |s.owner| && v == s.owner[i] < |s.workers|
    ensures s.workers[w].job < i
    ensures HoldsLost(s, v) ==> i < s.workers[v].job
  {
    var m := MessageOf(s, w);
    assert Explained(s.start, s.committed, s.fetched, s.completed, m.partition);
    i :| CommittedBy(s.committed, s.fetched, s.completed, m.partition, i);
    assert s.workers[w].job <= i;
    v := s.owner[i];
  }

  /** Of the jobs that an offset speaks for, i was fetched last. */
  ghost predicate LatestCommitted(s: State, i: nat) {
    && (exists p: nat :: CommittedBy(s.committed, s.fetched, s.completed, p, i))
    && forall p: nat, j: nat | CommittedBy(s.committed, s.fetched, s.completed, p, j) :: j <= i
  }

  /** The worker that finished the latest-fetched committed message holds no lost one. */
  lemma LatestFinisherHoldsNothingLost(s: State, i: nat)
    requires Inv(s) && LatestCommitted(s, i)
    ensures i < |s.owner| && !HoldsLost(s, s.owner[i])
  {
    var p: nat :| CommittedBy(s.committed, s.fetched, s.completed, p, i);
    if HoldsLost(s, s.owner[i]) {
      // That message was handed over after i, and the one whose commit passed it later still.
      var v, j := Outlived(s, s.owner[i]);
    }
  }

  lemma {:induction false} SomeWorkerHoldsNothingLost(s: State, w: nat) returns (v: nat)
    requires Inv(s) && w < |s.workers|
    ensures v < |s.workers| && !HoldsLost(s, v)
    decreases if HoldsLost(s, w) then |s.owner| - s.workers[w].job else -1
  {
    v := w;
    if HoldsLost(s, w) {
      var i;
      v, i := Outlived(s, w);
      assert HoldsLost(s, v) ==> s.workers[v].job < |s.owner|;
      v := SomeWorkerHoldsNothingLost(s, v);
    }
  }

  function MessageAt(s: State, w: nat): Msg {
    if WorkerAt(s, w) then MessageOf(s, w) else Msg(0, 0)
  }

  lemma LostIsHeld(s: State, i: nat)
    requires Inv(s) && i < |s.owner| && JobLost(s, i)
    ensures s.owner[i] in LosingWorkers(s) && MessageAt(s, s.owner[i]) == s.fetched[i]
  {
    assert Holds(s.workers, s.owner[i], i);
  }

  /** Every lost message of the session sits with a worker of its own, and one worker has none. */
  lemma LostNowBound(s: State)
    requires Inv(s)
    ensures |LostNow(s)| <= |s.workers| - 1
    ensures s.dispatcher.Returned? ==> LostNow(s) == {}
  {
    forall m | m in LostNow(s)
      ensures exists w :: w in LosingWorkers(s) && MessageAt(s, w) == m
    {
      var i: nat :| i < |s.owner| && JobLost(s, i) && s.fetched[i] == m;
      LostIsHeld(s, i);
    }
    Covered(LostNow(s), LosingWorkers(s), w => MessageAt(s, w));
    var v := SomeWorkerHoldsNothingLost(s, 0);
    assert v !in LosingWorkers(s);
    BelowBound(LosingWorkers(s), |s.workers|);
  }

  lemma LostSplits(s: State)
    requires Inv(s)
    ensures Lost(s) <= UnfinishedBelow(s.start, s.finished) + LostNow(s)
  {
    forall m | m in Lost(s)
      ensures m in UnfinishedBelow(s.start, s.finished) + LostNow(s)
    {
      var p, o := m.partition, m.offset;
      if s.start[p] <= o {
        assert m in s.fetched;
        var i: nat :| i < |s.fetched| && s.fetched[i] == m;
        assert Explained(s.start, s.committed, s.fetched, s.completed, p);
        var c: nat :| CommittedBy(s.committed, s.fetched, s.completed, p, c);
        assert i <= c;
        assert JobLost(s, i);
      }
    }
  }

  /** In any state, each crash so far and the session that is running account for at most N-1 lost messages. */
  lemma LossBound(s: State)
    requires Inv(s)
    ensures |Lost(s)| <= s.crashes * (|s.workers| - 1) + (|s.workers| - 1)
    ensures s.dispatcher.Returned? ==> |Lost(s)| <= s.crashes * (|s.workers| - 1)
  {
    LostSplits(s);
    LostNowBound(s);
    SubsetSize(Lost(s), UnfinishedBelow(s.start, s.finished) + LostNow(s));
  }

  // ---------------------------------------------------------------- every step keeps the invariant

  lemma UnfinishedShrinks(offsets: seq<nat>, finished: set<Msg>, m: Msg)
    ensures |UnfinishedBelow(offsets, finished + {m})| <= |UnfinishedBelow(offsets, finished)|
  {
    SubsetSize(UnfinishedBelow(offsets, finished + {m}), UnfinishedBelow(offsets, finished));
  }

  /** Moving on inside handle, short of finishing. */
  lemma StageKeepsWorkers(budget: int, workers: seq<Worker>, owner: seq<nat>, completed: seq<nat>, w: nat, stage: Stage)
    requires WorkersOk(budget, workers, owner, completed)
    requires w < |workers| && workers[w].Busy? && !workers[w].stage.Committing?
    requires !stage.Committing? && ValidStage(budget, stage)
    ensures WorkersOk(budget, workers[w := Busy(workers[w].job, stage)], owner, completed)
  {
    var ws := workers[w := Busy(workers[w].job, stage)];
    forall i: nat | i < |owner| && i !in completed
      ensures Holds(ws, owner[i], i)
    {
      assert Holds(workers, owner[i], i);
    }
  }

  lemma KeepsAtStage(s: State, w: nat, stage: Stage)
    requires Inv(s) && WorkerAt(s, w) && !s.workers[w].stage.Committing?
    requires !stage.Committing? && ValidStage(s.budget, stage)
    ensures Inv(AtStage(s, w, stage))
  {
    StageKeepsWorkers(s.budget, s.workers, s.owner, s.completed, w, stage);
  }

  lemma FinishKeepsWorkers(budget: int, workers: seq<Worker>, owner: seq<nat>, completed: seq<nat>, w: nat)
    requires WorkersOk(budget, workers, owner, completed)
    requires w < |workers| && workers[w].Busy? && !workers[w].stage.Committing?
    ensures WorkersOk(budget, workers[w := Busy(workers[w].job, Committing)], owner, completed + [workers[w].job])
  {
    var ws := workers[w := Busy(workers[w].job, Committing)];
    var done := completed + [workers[w].job];
    forall i: nat | i < |owner| && i !in done
      ensures Holds(ws, owner[i], i)
    {
      assert i !in completed && i != workers[w].job;
      assert Holds(workers, owner[i], i);
    }
    forall v | 0 <= v < |ws| && ws[v].Busy?
      ensures ws[v].job in done <==> ws[v].stage.Committing?
    {
      assert v != w ==> workers[v].job != workers[w].job;
    }
  }

  lemma FinishKeepsCommits(start: seq<nat>, committed: seq<nat>, fetched: seq<Msg>, completed: seq<nat>, job: nat)
    requires CommitsOk(start, committed, fetched, completed)
    ensures CommitsOk(start, committed, fetched, completed + [job])
  {
    forall p: nat | p < |committed|
      ensures Explained(start, committed, fetched, completed + [job], p)
    {
      assert Explained(start, committed, fetched, completed, p);
      if i: nat :| CommittedBy(committed, fetched, completed, p, i) {
        assert CommittedBy(committed, fetched, completed + [job], p, i);
      }
    }
  }

  /** A busy worker is not the dispatcher's concern, whatever it does short of exiting. */
  lemma ExitsStay(workers: seq<Worker>, dispatcher: Dispatcher, closed: bool, handed: nat, fetched: nat, w: nat, x: Worker)
    requires DispatcherOk(workers, dispatcher, closed, handed, fetched)
    requires w < |workers| && !workers[w].Exited? && !x.Exited?
    ensures DispatcherOk(workers[w := x], dispatcher, closed, handed, fetched)
  {
  }

  lemma FinishKeepsCompleted(fetched: seq<Msg>, handed: nat, completed: seq<nat>, finished: set<Msg>, job: nat)
    requires CompletedOk(fetched, handed, completed, finished) && job < handed && job !in completed
    ensures CompletedOk(fetched, handed, completed + [job], finished + {fetched[job]})
  {
  }

  lemma KeepsFinish(s: State, w: nat)
    requires Inv(s) && WorkerAt(s, w) && !s.workers[w].stage.Committing?
    ensures Inv(Finish(s, w))
  {
    FinishKeepsWorkers(s.budget, s.workers, s.owner, s.completed, w);
    FinishKeepsCommits(s.start, s.committed, s.fetched, s.completed, s.workers[w].job);
    FinishKeepsCompleted(s.fetched, |s.owner|, s.completed, s.finished, s.workers[w].job);
    UnfinishedShrinks(s.start, s.finished, MessageOf(s, w));
    ExitsStay(s.workers, s.dispatcher, s.channelClosed, |s.owner|, |s.fetched|, w, Busy(s.workers[w].job, Committing));
  }

  lemma CommitKeepsWorkers(budget: int, workers: seq<Worker>, owner: seq<nat>, completed: seq<nat>, w: nat)
    requires WorkersOk(budget, workers, owner, completed)
    requires w < |workers| && workers[w].Busy? && workers[w].stage.Committing?
    ensures WorkersOk(budget, workers[w := Idle], owner, completed)
  {
    forall i: nat | i < |owner| && i !in completed
      ensures Holds(workers[w := Idle], owner[i], i)
    {
      assert Holds(workers, owner[i], i);
    }
  }

  lemma CommitKeepsCommits(start: seq<nat>, committed: seq<nat>, fetched: seq<Msg>, completed: seq<nat>, job: nat)
    requires CommitsOk(start, committed, fetched, completed)
    requires job in completed && job < |fetched| && fetched[job].partition < |committed|
    ensures CommitsOk(start, committed[fetched[job].partition := fetched[job].offset + 1], fetched, completed)
  {
    var p := fetched[job].partition;
    var after := committed[p := fetched[job].offset + 1];
    assert CommittedBy(after, fetched, completed, p, job);
    forall q: nat | q < |after|
      ensures Explained(start, after, fetched, completed, q)
    {
      assert Explained(start, committed, fetched, completed, q);
      if i: nat :| q != p && CommittedBy(committed, fetched, completed, q, i) {
        assert CommittedBy(after, fetched, completed, q, i);
      }
    }
  }

  lemma CommitKeepsOffsets(log: seq<seq<Payload>>, start: seq<nat>, cursor: seq<nat>, committed: seq<nat>,
                           fetched: seq<Msg>, job: nat)
    requires OffsetsOk(log, start, cursor, committed) && FetchedOk(start, cursor, fetched) && job < |fetched|
    ensures OffsetsOk(log, start, cursor, committed[fetched[job].partition := fetched[job].offset + 1])
  {
  }

  /** A worker goes idle after its commit, whatever offsets that left. */
  lemma KeepsIdle(s: State, w: nat, committed: seq<nat>)
    requires Inv(s) && w < |s.workers| && s.workers[w].Busy? && s.workers[w].stage.Committing?
    requires OffsetsOk(s.log, s.start, s.cursor, committed) && CommitsOk(s.start, committed, s.fetched, s.completed)
    ensures Inv(s.(workers := s.workers[w := Idle], committed := committed))
  {
    CommitKeepsWorkers(s.budget, s.workers, s.owner, s.completed, w);
    ExitsStay(s.workers, s.dispatcher, s.channelClosed, |s.owner|, |s.fetched|, w, Idle);
  }

  lemma KeepsCommit(s: State, w: nat, applied: bool)
    requires Inv(s) && Enabled(s, CommitReturns(w, applied))
    ensures Inv(Apply(s, CommitReturns(w, applied)))
  {
    if applied {
      CommitKeepsCommits(s.start, s.committed, s.fetched, s.completed, s.workers[w].job);
      CommitKeepsOffsets(s.log, s.start, s.cursor, s.committed, s.fetched, s.workers[w].job);
    }
    KeepsIdle(s, w, Apply(s, CommitReturns(w, applied)).committed);
  }

  lemma HandOffKeepsWorkers(budget: int, workers: seq<Worker>, owner: seq<nat>, completed: seq<nat>, w: nat)
    requires WorkersOk(budget, workers, owner, completed)
    requires w < |workers| && workers[w].Idle? && |owner| !in completed
    ensures WorkersOk(budget, workers[w := Busy(|owner|, Received)], owner + [w], completed)
  {
    forall i: nat | i < |owner| && i !in completed
      ensures Holds(workers[w := Busy(|owner|, Received)], owner[i], i)
    {
      assert Holds(workers, owner[i], i);
    }
  }

  lemma KeepsHandOff(s: State, w: nat)
    requires Inv(s) && Enabled(s, HandOff(w))
    ensures Inv(Apply(s, HandOff(w)))
  {
    HandOffKeepsWorkers(s.budget, s.workers, s.owner, s.completed, w);
  }

  lemma FetchKeepsFetched(start: seq<nat>, cursor: seq<nat>, fetched: seq<Msg>, p: nat)
    requires FetchedOk(start, cursor, fetched) && p < |cursor| && start[p] <= cursor[p]
    ensures FetchedOk(start, cursor[p := cursor[p] + 1], fetched + [Msg(p, cursor[p])])
  {
    var after, more := cursor[p := cursor[p] + 1], fetched + [Msg(p, cursor[p])];
    forall q, o | 0 <= q < |start| && start[q] <= o < after[q]
      ensures Msg(q, o) in more
    {
      if q == p && o == cursor[p] {
        assert more[|fetched|] == Msg(q, o);
      } else {
        assert Msg(q, o) in fetched;
      }
    }
  }

  lemma FetchKeepsCommits(start: seq<nat>, committed: seq<nat>, fetched: seq<Msg>, completed: seq<nat>, m: Msg)
    requires CommitsOk(start, committed, fetched, completed)
    ensures CommitsOk(start, committed, fetched + [m], completed)
  {
    forall p: nat | p < |committed|
      ensures Explained(start, committed, fetched + [m], completed, p)
    {
      assert Explained(start, committed, fetched, completed, p);
      if i: nat :| CommittedBy(committed, fetched, completed, p, i) {
        assert CommittedBy(committed, fetched + [m], completed, p, i);
      }
    }
  }

  lemma FetchKeepsCompleted(fetched: seq<Msg>, handed: nat, completed: seq<nat>, finished: set<Msg>, m: Msg)
    requires CompletedOk(fetched, handed, completed, finished)
    ensures CompletedOk(fetched + [m], handed, completed, finished)
  {
  }

  lemma FetchKeepsOffsets(log: seq<seq<Payload>>, start: seq<nat>, cursor: seq<nat>, committed: seq<nat>, p: nat)
    requires OffsetsOk(log, start, cursor, committed) && p < |log| && cursor[p] < |log[p]|
    ensures OffsetsOk(log, start, cursor[p := cursor[p] + 1], committed)
  {
  }

  lemma KeepsFetch(s: State, p: nat)
    requires Inv(s) && Enabled(s, FetchReturns(p))
    ensures Inv(Apply(s, FetchReturns(p)))
  {
    FetchKeepsFetched(s.start, s.cursor, s.fetched, p);
    FetchKeepsCommits(s.start, s.committed, s.fetched, s.completed, Msg(p, s.cursor[p]));
    FetchKeepsCompleted(s.fetched, |s.owner|, s.completed, s.finished, Msg(p, s.cursor[p]));
    FetchKeepsOffsets(s.log, s.start, s.cursor, s.committed, p);
  }

  lemma ExitKeepsWorkers(budget: int, workers: seq<Worker>, owner: seq<nat>, completed: seq<nat>, w: nat)
    requires WorkersOk(budget, workers, owner, completed)
    requires w < |workers| && workers[w].Idle?
    ensures WorkersOk(budget, workers[w := Exited], owner, completed)
  {
    forall i: nat | i < |owner| && i !in completed
      ensures Holds(workers[w := Exited], owner[i], i)
    {
      assert Holds(workers, owner[i], i);
    }
  }

  lemma KeepsExit(s: State, w: nat)
    requires Inv(s) && Enabled(s, WorkerExits(w))
    ensures Inv(Apply(s, WorkerExits(w)))
  {
    ExitKeepsWorkers(s.budget, s.workers, s.owner, s.completed, w);
  }

  /** Steps that move only the dispatcher, the context or the log. */
  lemma KeepsFrame(s: State, t: State)
    requires Inv(s) && DispatcherOk(s.workers, t.dispatcher, t.channelClosed, |s.owner|, |s.fetched|)
    requires OffsetsOk(t.log, s.start, s.cursor, s.committed)
    requires t == s.(log := t.log, dispatcher := t.dispatcher, channelClosed := t.channelClosed, cancelled := t.cancelled)
    ensures Inv(t)
  {
  }

  /** A new process inherits what is lost, and nothing else that is unfinished. */
  lemma KeepsFreshSession(s: State, crashes: nat)
    requires Inv(s)
    requires crashes == s.crashes + 1 || (crashes == s.crashes && s.dispatcher.Returned?)
    ensures Inv(FreshSession(s).(crashes := crashes))
  {
    var t := FreshSession(s).(crashes := crashes);
    LossBound(s);
    assert UnfinishedBelow(t.start, t.finished) == Lost(s);
    assert (s.crashes + 1) * (|s.workers| - 1) == s.crashes * (|s.workers| - 1) + (|s.workers| - 1);
  }

  lemma InitialIsInv(s: State)
    requires Initial(s)
    ensures Inv(s)
  {
    assert UnfinishedBelow(s.start, s.finished) == Lost(s);
  }

  lemma KeepsPhase(s: State, w: nat, phase: Retry.Phase)
    requires Inv(s) && InPhase(s, w) && Retry.ValidPhase(s.budget, phase)
    ensures Inv(AtPhase(s, w, phase))
  {
    KeepsAtStage(s, w, if phase.Done? then Persisting(phase.result) else Delivering(phase));
  }

  /** A step inside handle. */
  lemma HandlingKeepsInv(s: State, a: Action)
    requires Inv(s) && Enabled(s, a)
    requires a.Parse? || a.CheckContext? || a.SendReturns? || a.BackoffEnds?
    ensures Inv(Apply(s, a))
  {
    match a
    case Parse(w) =>
      if PayloadOf(s, w).Job? {
        var phase := Retry.Start(s.budget);
        KeepsAtStage(s, w, if phase.Done? then Persisting(phase.result) else Delivering(phase));
      } else {
        KeepsFinish(s, w);
      }
    case CheckContext(w) =>
      assert ValidStage(s.budget, s.workers[w].stage);
      KeepsPhase(s, w, Retry.AfterCheck(s.workers[w].stage.phase.attempt, s.cancelled));
    case SendReturns(w, answer) =>
      assert ValidStage(s.budget, s.workers[w].stage);
      KeepsPhase(s, w, Retry.AfterSend(s.workers[w].stage.phase.attempt, s.budget, answer));
    case BackoffEnds(w, tookDone) =>
      assert ValidStage(s.budget, s.workers[w].stage);
      KeepsPhase(s, w, Retry.AfterBackoff(s.workers[w].stage.phase.attempt, tookDone));
  }

  /** A step of the dispatcher, or of the world within a session. */
  lemma DispatcherKeepsInv(s: State, a: Action)
    requires Inv(s) && Enabled(s, a)
    requires a.Append? || a.Cancel? || a.FetchFails? || a.PauseEnds? || a.DropOnCancel? || a.CloseChannel? || a.WaitEnds?
    ensures Inv(Apply(s, a))
  {
    KeepsFrame(s, Apply(s, a));
  }

  /** Any step of anybody. */
  lemma StepKeepsInv(s: State, a: Action)
    requires Inv(s) && Enabled(s, a)
    ensures Inv(Apply(s, a))
  {
    match a
    case Crash => KeepsFreshSession(s, s.crashes + 1);
    case Restart => KeepsFreshSession(s, s.crashes);
    case FetchReturns(p) => KeepsFetch(s, p);
    case HandOff(w) => KeepsHandOff(s, w);
    case Parse(_) => HandlingKeepsInv(s, a);
    case CheckContext(_) => HandlingKeepsInv(s, a);
    case SendReturns(_, _) => HandlingKeepsInv(s, a);
    case BackoffEnds(_, _) => HandlingKeepsInv(s, a);
    case PersistReturns(w, _) => KeepsFinish(s, w);
    case CommitReturns(w, applied) => KeepsCommit(s, w, applied);
    case WorkerExits(w) => KeepsExit(s, w);
    case _ => DispatcherKeepsInv(s, a);
  }

  /** Configuration does not change, and what is durable is only added to. */
  lemma StepKeepsConfiguration(s: State, a: Action)
    requires Enabled(s, a)
    ensures |Apply(s, a).workers| == |s.workers| && Apply(s, a).budget == s.budget
    ensures s.finished <= Apply(s, a).finished
  {
  }

  lemma {:induction false} RunKeepsInv(s: State, run: seq<Action>)
    requires Inv(s) && ValidRun(s, run)
    ensures Inv(After(s, run))
    ensures |After(s, run).workers| == |s.workers| && After(s, run).budget == s.budget
    decreases |run|
  {
    if run != [] {
      StepKeepsInv(s, run[0]);
      StepKeepsConfiguration(s, run[0]);
      RunKeepsInv(Apply(s, run[0]), run[1..]);
    }
  }
}
