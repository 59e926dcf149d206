/** What a worker did for the job it holds: its answer is the one of the retry loop, and a cancelled pool stops sending. */
module PoolAnswers {
  import opened Common
  import opened PoolProtocol
  import opened PoolSafety
  import opened PoolTheorems

  // ---------------------------------------------------------------- the record of a job

  /**
   * What a run gave a worker since its latest hand-off, attempt by attempt: whether the context was cancelled at the
   * check, what Send answered, and whether the backoff was cut short.
   */
  datatype Record = Record(checks: seq<bool>, sends: seq<Retry.SendResult>, backoffs: seq<bool>)

  const BLANK := Record([], [], [])

  function Recorded(rec: Record, s: State, a: Action, w: nat): Record {
    match a
    case Crash => BLANK
    case Restart => BLANK
    case HandOff(v) => if v == w then BLANK else rec
    case CheckContext(v) => if v == w then rec.(checks := rec.checks + [s.cancelled]) else rec
    case SendReturns(v, answer) => if v == w then rec.(sends := rec.sends + [answer]) else rec
    case BackoffEnds(v, tookDone) => if v == w then rec.(backoffs := rec.backoffs + [tookDone]) else rec
    case _ => rec
  }

  /** The record of worker w after a run. */
  function RecordOf(rec: Record, s: State, run: seq<Action>, w: nat): Record
    requires ValidRun(s, run)
    decreases |run|
  {
    if run == [] then rec else RecordOf(Recorded(rec, s, run[0], w), Apply(s, run[0]), run[1..], w)
  }

  /** The environment that a record describes. */
  function Met(rec: Record): Retry.Environment {
    Retry.Environment(a => 1 <= a <= |rec.checks| && rec.checks[a - 1],
                      a => if 1 <= a <= |rec.sends| then rec.sends[a - 1] else Retry.Delivered,
                      a => 1 <= a <= |rec.backoffs| && rec.backoffs[a - 1])
  }

  /** How many checks, sends and backoffs lie behind a worker in this phase. */
  predicate Lengths(rec: Record, checks: int, sends: int, backoffs: int) {
    |rec.checks| == checks && |rec.sends| == sends && |rec.backoffs| == backoffs
  }

  /** The record leads to the worker's stage, as the retry loop would be led there. */
  predicate Explains(budget: int, rec: Record, stage: Stage) {
    match stage
    case Received => rec == BLANK
    case Delivering(phase) =>
      && !phase.Done? && Retry.Reached(budget, Met(rec), phase)
      && var a := phase.attempt;
         (match phase
          case AtCheck(_) => Lengths(rec, a - 1, a - 1, a - 1)
          case Sending(_) => Lengths(rec, a, a - 1, a - 1)
          case _ => Lengths(rec, a, a, a - 1))
    case Persisting(result) => |rec.sends| == Max(0, result.attempts) && Retry.Outcome(budget, Met(rec), result)
    case Committing => true
  }

  /** Whoever was told that the context is cancelled was told the truth. */
  predicate Truthful(rec: Record, cancelled: bool) {
    true in rec.checks || true in rec.backoffs ==> cancelled
  }

  predicate RecordOk(s: State, rec: Record, w: nat) {
    Truthful(rec, s.cancelled) && (w < |s.workers| && s.workers[w].Busy? ==> Explains(s.budget, rec, s.workers[w].stage))
  }

  // ---------------------------------------------------------------- every step keeps the record

  /** Attempts that are over look the same however the record goes on. */
  lemma PastStays(rec: Record, more: Record, a: int)
    requires rec.checks <= more.checks && rec.sends <= more.sends && rec.backoffs <= more.backoffs
    requires 1 <= a <= |rec.checks| && a <= |rec.sends| && a <= |rec.backoffs|
    ensures Retry.Continues(Met(more), a) <==> Retry.Continues(Met(rec), a)
  {
  }

  lemma CheckKeepsRecord(s: State, rec: Record, w: nat)
    requires Enabled(s, CheckContext(w)) && RecordOk(s, rec, w)
    ensures RecordOk(Apply(s, CheckContext(w)), Recorded(rec, s, CheckContext(w), w), w)
  {
    var a, more := s.workers[w].stage.phase.attempt, Recorded(rec, s, CheckContext(w), w);
    forall b | 1 <= b < a
      ensures Retry.Continues(Met(more), b)
    {
      PastStays(rec, more, b);
    }
    assert Met(more).cancelledAtCheck(a) == s.cancelled;
    assert a > 1 ==> Retry.Continues(Met(more), a - 1);
  }

  lemma SendKeepsRecord(s: State, rec: Record, w: nat, answer: Retry.SendResult)
    requires Enabled(s, SendReturns(w, answer)) && RecordOk(s, rec, w)
    ensures RecordOk(Apply(s, SendReturns(w, answer)), Recorded(rec, s, SendReturns(w, answer), w), w)
  {
    var a, more := s.workers[w].stage.phase.attempt, Recorded(rec, s, SendReturns(w, answer), w);
    forall b | 1 <= b < a
      ensures Retry.Continues(Met(more), b)
    {
      PastStays(rec, more, b);
    }
    assert Met(more).send(a) == answer && !Met(more).cancelledAtCheck(a);
  }

  lemma BackoffKeepsRecord(s: State, rec: Record, w: nat, tookDone: bool)
    requires Enabled(s, BackoffEnds(w, tookDone)) && RecordOk(s, rec, w)
    ensures RecordOk(Apply(s, BackoffEnds(w, tookDone)), Recorded(rec, s, BackoffEnds(w, tookDone), w), w)
  {
    var a, more := s.workers[w].stage.phase.attempt, Recorded(rec, s, BackoffEnds(w, tookDone), w);
    forall b | 1 <= b < a
      ensures Retry.Continues(Met(more), b)
    {
      PastStays(rec, more, b);
    }
    assert Met(more).send(a).Refused? && !Met(more).cancelledAtCheck(a);
    assert Met(more).cancelledInBackoff(a) == tookDone;
  }

  /** The worker starts on a job, or is done with one. */
  lemma BoundariesKeepRecord(s: State, rec: Record, a: Action, w: nat)
    requires Enabled(s, a) && RecordOk(s, rec, w)
    requires a.Crash? || a.Restart? || ((a.HandOff? || a.Parse? || a.PersistReturns? || a.CommitReturns?) && a.worker == w)
    ensures RecordOk(Apply(s, a), Recorded(rec, s, a, w), w)
  {
  }

  predicate Concerns(a: Action, w: nat) {
    || a.Crash? || a.Restart?
    || ((a.HandOff? || IsHandling(a) || a.CommitReturns?) && a.worker == w)
  }

  /** What other goroutines do leaves the worker where it is, or sees it exit. */
  lemma OthersLeaveWorker(s: State, rec: Record, a: Action, w: nat)
    requires Enabled(s, a) && !Concerns(a, w)
    ensures Recorded(rec, s, a, w) == rec && (s.cancelled ==> Apply(s, a).cancelled) && Apply(s, a).budget == s.budget
    ensures w < |Apply(s, a).workers| && Apply(s, a).workers[w].Busy? ==>
              w < |s.workers| && Apply(s, a).workers[w] == s.workers[w]
  {
  }

  lemma StepKeepsRecord(s: State, rec: Record, a: Action, w: nat)
    requires Enabled(s, a) && RecordOk(s, rec, w)
    ensures RecordOk(Apply(s, a), Recorded(rec, s, a, w), w)
  {
    if a == CheckContext(w) {
      CheckKeepsRecord(s, rec, w);
    } else if a.SendReturns? && a.worker == w {
      SendKeepsRecord(s, rec, w, a.answer);
    } else if a.BackoffEnds? && a.worker == w {
      BackoffKeepsRecord(s, rec, w, a.tookDone);
    } else if Concerns(a, w) {
      BoundariesKeepRecord(s, rec, a, w);
    } else {
      OthersLeaveWorker(s, rec, a, w);
    }
  }

  lemma {:induction false} RunKeepsRecord(s: State, rec: Record, run: seq<Action>, w: nat)
    requires ValidRun(s, run) && RecordOk(s, rec, w)
    ensures RecordOk(After(s, run), RecordOf(rec, s, run, w), w)
    decreases |run|
  {
    if run != [] {
      StepKeepsRecord(s, rec, run[0], w);
      RunKeepsRecord(Apply(s, run[0]), Recorded(rec, s, run[0], w), run[1..], w);
    }
  }

  /**
   * The pool refines the retry loop: whatever else runs, the answer that a worker comes to persist is what
   * deliverWithRetry returns for the cancellations and Send results that the run gave this worker for this job, and
   * its attempts are its Send calls. A worker is told of a cancellation only after one.
   */
  lemma AnswersAreTheLoops(s0: State, run: seq<Action>, w: nat)
    requires Initial(s0) && ValidRun(s0, run)
    requires var s := After(s0, run); w < |s.workers| && s.workers[w].Busy? && s.workers[w].stage.Persisting?
    ensures var s, rec := After(s0, run), RecordOf(BLANK, s0, run, w);
            var result := s.workers[w].stage.result;
            && Retry.Outcome(s.budget, Met(rec), result)
            && |rec.sends| == Max(0, result.attempts)
            && Truthful(rec, s.cancelled)
  {
    RunKeepsRecord(s0, BLANK, run, w);
  }

  // ---------------------------------------------------------------- no sending after cancellation

  /** The workers inside Send. */
  ghost function Senders(s: State): set<nat> {
    set w: nat | w < |s.workers| && InPhase(s, w) && s.workers[w].stage.phase.Sending?
  }

  function SendSteps(run: seq<Action>): nat {
    if run == [] then 0 else (if run[0].SendReturns? then 1 else 0) + SendSteps(run[1..])
  }

  /** On a cancelled context nobody enters Send, and who returns from it leaves. */
  lemma SendersShrink(s: State, a: Action)
    requires s.cancelled && Enabled(s, a) && !a.Crash? && !a.Restart?
    requires forall w: nat | w < |s.workers| && s.workers[w].Busy? :: WorkerAt(s, w)
    ensures Senders(Apply(s, a)) <= if a.SendReturns? then Senders(s) - {a.worker} else Senders(s)
    ensures a.SendReturns? ==> a.worker in Senders(s)
  {
  }

  lemma {:induction false} SendsAreSenders(s: State, run: seq<Action>)
    requires Inv(s) && s.cancelled && ValidRun(s, run) && SameSession(run)
    ensures SendSteps(run) <= |Senders(s)|
    decreases |run|
  {
    if run != [] {
      var t := Apply(s, run[0]);
      SendersShrink(s, run[0]);
      StaysCancelled(s, run[0]);
      StepKeepsInv(s, run[0]);
      SendsAreSenders(t, run[1..]);
      SubsetSize(Senders(t), if run[0].SendReturns? then Senders(s) - {run[0].worker} else Senders(s));
    }
  }

  /**
   * A cancelled pool stops sending: in whatever follows within the session, at most the calls of Send that were
   * running return, one for each worker inside Send, hence at most N; no new one is made.
   */
  lemma CancelledPoolStopsSending(s: State, run: seq<Action>)
    requires Reachable(s) && s.cancelled && ValidRun(s, run) && SameSession(run)
    ensures SendSteps(run) <= |Senders(s)| <= |s.workers|
  {
    ReachableIsInv(s);
    SendsAreSenders(s, run);
    BelowBound(Senders(s), |s.workers|);
  }
}
