/** What a write records: the attempts that were made, how the last one ended, and when. */
module PipelineOutcomes {
  import opened Common
  import opened Repository
  import opened Pipeline
  import opened PipelineTheorems
  import Answers = PoolAnswers

  // ---------------------------------------------------------------- the pool's share of a run

  /** What an action is to the pool. */
  function PoolSteps(s: State, a: Action): seq<P.Action>
    requires Enabled(s, a)
  {
    match a
    case Publish(id, p, appended) => if appended then [P.Append(p, P.Job(s.publishing[id]))] else []
    case Worker(step) => [step]
    case _ => []
  }

  function PoolRun(s: State, run: seq<Action>): seq<P.Action>
    requires ValidRun(s, run)
    decreases |run|
  {
    if run == [] then [] else PoolSteps(s, run[0]) + PoolRun(Apply(s, run[0]), run[1..])
  }

  /** The pool runs in the pipeline as it would alone. */
  lemma {:induction false} PoolRunsAlone(s: State, run: seq<Action>)
    requires ValidRun(s, run)
    ensures P.ValidRun(s.pool, PoolRun(s, run)) && P.After(s.pool, PoolRun(s, run)) == After(s, run).pool
    decreases |run|
  {
    if run != [] {
      var t, first := Apply(s, run[0]), PoolSteps(s, run[0]);
      PoolRunsAlone(t, run[1..]);
      var rest := PoolRun(t, run[1..]);
      if first == [] {
        assert first + rest == rest;
      } else {
        assert first == [first[0]] && t.pool == P.Apply(s.pool, first[0]);
        PoolTheorems.RunsThen(s.pool, first[0], rest);
      }
    }
  }

  // ---------------------------------------------------------------- what a write records

  /** What the run gave worker w since its latest hand-off. */
  function RecordOf(s: State, run: seq<Action>, w: nat): Answers.Record
    requires ValidRun(s, run) && P.ValidRun(s.pool, PoolRun(s, run))
  {
    Answers.RecordOf(Answers.BLANK, s.pool, PoolRun(s, run), w)
  }

  /** The row shows how often the event was sent and what came of it. */
  predicate ShowsOutcome(before: Row, after: Row, rec: Answers.Record, budget: int, now: int) {
    && after.attempts == |rec.sends| && after.updatedAt == now
    && if rec.sends != [] && rec.sends[|rec.sends| - 1].Delivered? then
         after.status == Sent && after.lastError == "" && after.sentAt == Some(now)
       else
         && after.status == Failed && after.sentAt == before.sentAt
         && (if rec.sends != [] && |rec.sends| == budget then after.lastError == rec.sends[|rec.sends| - 1].reason
             else |rec.sends| < budget && after.lastError == "context canceled"
                  && (true in rec.checks || true in rec.backoffs))
  }

  lemma OutcomeShows(before: Row, after: Row, rec: Answers.Record, budget: int, r: Retry.Result, now: int)
    requires 1 <= budget && Retry.Outcome(budget, Answers.Met(rec), r) && |rec.sends| == Max(0, r.attempts)
    requires after == (if r.error.None? then before.(status := Sent, attempts := r.attempts, lastError := "",
                                                     sentAt := Some(now), updatedAt := now)
                       else before.(status := Failed, attempts := r.attempts, lastError := ErrorText(r.error.value),
                                    updatedAt := now))
    ensures ShowsOutcome(before, after, rec, budget, now)
  {
    var last := r.attempts;
    assert last >= 1 ==> Answers.Met(rec).send(last) == rec.sends[last - 1];
    if r.error == Some(Retry.ContextDone) {
      if Retry.CutInBackoff(Answers.Met(rec), r) {
        assert rec.backoffs[last - 1] in rec.backoffs;
      } else {
        assert rec.checks[last] in rec.checks;
      }
    }
  }

  /**
   * Over every run, whatever interleaves and however often the process restarts: a write that takes effect records
   * as attempts the Sends that its worker made for this job, as error the last one's reason or the
   * cancellation, and as time of sending the clock at the write; it changes nothing else.
   */
  lemma WriteRecordsAttempts(s0: State, run: seq<Action>, w: nat)
    requires Initial(s0) && ValidRun(s0, run)
    requires P.Enabled(After(s0, run).pool, P.PersistReturns(w, true)) && HasEvent(After(s0, run).pool, w)
    ensures P.ValidRun(s0.pool, PoolRun(s0, run))
    ensures var s := After(s0, run);
            var t, id := Apply(s, Worker(P.PersistReturns(w, true))), EventAt(s.pool, w).id;
            && id in s.rows && OnlyOutcomeChanges(s.rows, t.rows, id, s.now)
            && ShowsOutcome(s.rows[id], t.rows[id], RecordOf(s0, run, w), s.pool.budget, s.now)
            && (t.rows[id].lastError == "context canceled" && t.rows[id].attempts < s.pool.budget ==> s.pool.cancelled)
  {
    PoolRunsAlone(s0, run);
    Answers.AnswersAreTheLoops(s0.pool, PoolRun(s0, run), w);
    var s := After(s0, run);
    RowOfEvent(s0, run, w);
    var id, r := EventAt(s.pool, w).id, s.pool.workers[w].stage.result;
    var t := Apply(s, Worker(P.PersistReturns(w, true)));
    OutcomeShows(s.rows[id], t.rows[id], RecordOf(s0, run, w), s.pool.budget, r, s.now);
  }

  lemma RowOfEvent(s0: State, run: seq<Action>, w: nat)
    requires Initial(s0) && ValidRun(s0, run) && HasEvent(After(s0, run).pool, w)
    ensures var s := After(s0, run); EventAt(s.pool, w).id in s.rows && 1 <= s.pool.budget
  {
    InitialIsInv(s0);
    RunKeepsInv(s0, run);
    var s := After(s0, run);
    var m := P.MessageOf(s.pool, w);
    assert LoggedAt(s.pool.log, m.partition, m.offset, EventAt(s.pool, w));
  }

  // ---------------------------------------------------------------- what Publish logs

  /** An Enqueue's event goes to the end of its partition, with the content of its row. */
  lemma PublishedIsLogged(s: State, id: nat, p: nat)
    requires Reachable(s) && Enabled(s, Publish(id, p, true))
    ensures id in s.rows
    ensures var log := Apply(s, Publish(id, p, true)).pool.log;
            && |log| == |s.pool.log| && |log[p]| == |s.pool.log[p]| + 1
            && LoggedAt(log, p, |s.pool.log[p]|, EventOf(id, s.rows[id]))
  {
    ReachableIsInv(s);
  }
}
