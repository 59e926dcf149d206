/**
 * The pool as an object whose goroutines share its fields: each method is what one goroutine does between
 * two blocking points, updating the fields in place, and is proved against the step of the same name.
 */
module Pool {
  import opened Common
  import opened PoolProtocol
  import opened PoolSafety
  import opened PoolTheorems

  class Pool {
    const maxRetries: int
    // The broker's and the database's side.
    var log: seq<seq<Payload>>
    const committed: array<nat>
    var finished: set<Msg>
    var crashes: nat
    // This process.
    const cursor: array<nat>
    var fetched: seq<Msg>
    const workers: array<Worker>
    var dispatcher: Dispatcher
    var channelClosed: bool
    var cancelled: bool
    // Histories of the session.
    ghost var start: seq<nat>
    ghost var owner: seq<nat>
    ghost var completed: seq<nat>
    // The length of owner, which the jobs channel counts.
    var handedOff: nat

    ghost predicate Valid()
      reads this
    {
      && committed != cursor && handedOff == |owner|
    }

    ghost function Abs(): State
      reads this, committed, cursor, workers
    {
      State(Retry.Budget(maxRetries), log, committed[..], finished, crashes, start, cursor[..], fetched, owner, completed,
            workers[..], dispatcher, channelClosed, cancelled)
    }

    /** NewPool runs at least one worker; the consumer resumes at the committed offsets. */
    constructor (maxRetries: int, concurrency: int, log: seq<seq<Payload>>, offsets: seq<nat>, finished: set<Msg>)
      requires Retry.InInt64(maxRetries)
      requires |offsets| == |log| && forall p | 0 <= p < |log| :: offsets[p] <= |log[p]|
      requires forall p: nat, o: nat | p < |log| && o < offsets[p] :: Msg(p, o) in finished
      ensures Valid() && fresh(committed) && fresh(cursor) && fresh(workers)
      ensures Initial(Abs()) && |Abs().workers| == Max(1, concurrency)
      ensures Abs().budget == Retry.Budget(maxRetries) && Abs().log == log && Abs().committed == offsets
      ensures Reachable(Abs())
    {
      this.maxRetries, this.log, this.finished, this.crashes := maxRetries, log, finished, 0;
      var n := if concurrency < 1 then 1 else concurrency;
      committed := new nat[|offsets|](i requires 0 <= i < |offsets| => offsets[i]);
      cursor := new nat[|offsets|](i requires 0 <= i < |offsets| => offsets[i]);
      workers := new Worker[n](_ => Idle);
      fetched, dispatcher, channelClosed, cancelled, handedOff := [], Fetching, false, false, 0;
      start, owner, completed := offsets, [], [];
      new;
      assert committed[..] == offsets && cursor[..] == offsets;
      assert workers[..] == seq(n, _ => Idle);
      assert Lost(Abs()) == {};
      assert ValidRun(Abs(), []) && After(Abs(), []) == Abs();
    }

    // ---------------------------------------------------------------- the dispatcher (Run)

    method FetchReturns(p: nat)
      requires Valid() && Enabled(Abs(), Action.FetchReturns(p))
      modifies this`fetched, this`dispatcher, cursor
      ensures Valid() && Abs() == Apply(old(Abs()), Action.FetchReturns(p))
      ensures dispatcher == Offering && fetched == old(fetched) + [Msg(p, old(cursor[p]))] && cursor[p] == old(cursor[p]) + 1
    {
      fetched := fetched + [Msg(p, cursor[p])];
      cursor[p] := cursor[p] + 1;
      dispatcher := Offering;
    }

    method FetchFails(saysCanceled: bool)
      requires Valid() && Enabled(Abs(), Action.FetchFails(saysCanceled))
      modifies this`dispatcher
      ensures Valid() && Abs() == Apply(old(Abs()), Action.FetchFails(saysCanceled))
      ensures dispatcher == if saysCanceled || cancelled then Leaving else Pausing
    {
      if saysCanceled || cancelled {
        dispatcher := Leaving;
      } else {
        dispatcher := Pausing;
      }
    }

    method PauseEnds()
      requires Valid() && Enabled(Abs(), Action.PauseEnds)
      modifies this`dispatcher
      ensures Valid() && Abs() == Apply(old(Abs()), Action.PauseEnds)
      ensures dispatcher == Fetching
    {
      dispatcher := Fetching;
    }

    method HandOff(w: nat)
      requires Valid() && Enabled(Abs(), Action.HandOff(w))
      modifies this`dispatcher, this`owner, this`handedOff, workers
      ensures Valid() && Abs() == Apply(old(Abs()), Action.HandOff(w))
      ensures dispatcher == Fetching && workers[w] == Busy(old(handedOff), Received)
    {
      workers[w] := Busy(handedOff, Received);
      owner, handedOff := owner + [w], handedOff + 1;
      dispatcher := Fetching;
    }

    method DropOnCancel()
      requires Valid() && Enabled(Abs(), Action.DropOnCancel)
      modifies this`dispatcher
      ensures Valid() && Abs() == Apply(old(Abs()), Action.DropOnCancel)
      ensures dispatcher == Leaving
    {
      dispatcher := Leaving;
    }

    method CloseChannel()
      requires Valid() && Enabled(Abs(), Action.CloseChannel)
      modifies this`dispatcher, this`channelClosed
      ensures Valid() && Abs() == Apply(old(Abs()), Action.CloseChannel)
      ensures dispatcher == Waiting && channelClosed
    {
      channelClosed := true;
      dispatcher := Waiting;
    }

    method WaitEnds()
      requires Valid() && Enabled(Abs(), Action.WaitEnds)
      modifies this`dispatcher
      ensures Valid() && Abs() == Apply(old(Abs()), Action.WaitEnds)
      ensures dispatcher == Returned
    {
      dispatcher := Returned;
    }

    // ---------------------------------------------------------------- a worker (handle)

    method Parse(w: nat)
      requires Valid() && Enabled(Abs(), Action.Parse(w))
      modifies this`finished, this`completed, workers
      ensures Valid() && Abs() == Apply(old(Abs()), Action.Parse(w))
      ensures var job := old(workers[w].job);
              && workers[w].Busy? && workers[w].job == job
              && (if !log[fetched[job].partition][fetched[job].offset].Job? then workers[w].stage == Committing
                  else 0 <= maxRetries < Retry.TWO_63 - 1 ==> workers[w].stage == Delivering(Retry.AtCheck(1)))
    {
      var job := workers[w].job;
      var msg := fetched[job];
      if log[msg.partition][msg.offset].Job? {
        var phase := Retry.Start(Retry.Budget(maxRetries));
        workers[w] := Busy(job, if phase.Done? then Persisting(phase.result) else Delivering(phase));
      } else {
        // A poison message: commit to skip it.
        finished, completed := finished + {msg}, completed + [job];
        workers[w] := Busy(job, Committing);
      }
    }

    /** The retry loop moves to its next blocking point, or to persisting its answer. */
    method EnterPhase(w: nat, phase: Retry.Phase)
      requires Valid() && WorkerAt(Abs(), w)
      modifies workers
      ensures Valid() && Abs() == AtPhase(old(Abs()), w, phase)
    {
      workers[w] := Busy(workers[w].job, if phase.Done? then Persisting(phase.result) else Delivering(phase));
    }

    method CheckContext(w: nat)
      requires Valid() && Enabled(Abs(), Action.CheckContext(w))
      modifies workers
      ensures Valid() && Abs() == Apply(old(Abs()), Action.CheckContext(w))
      ensures var a := old(workers[w].stage.phase.attempt);
              workers[w] == Busy(old(workers[w].job), if cancelled
                                                      then Persisting(Retry.Result(a - 1, Some(Retry.ContextDone)))
                                                      else Delivering(Retry.Sending(a)))
    {
      EnterPhase(w, Retry.AfterCheck(workers[w].stage.phase.attempt, cancelled));
    }

    method SendReturns(w: nat, answer: Retry.SendResult)
      requires Valid() && Enabled(Abs(), Action.SendReturns(w, answer))
      modifies workers
      ensures Valid() && Abs() == Apply(old(Abs()), Action.SendReturns(w, answer))
      ensures answer.Delivered? ==>
        workers[w].Busy? && workers[w].stage == Persisting(Retry.Result(old(workers[w].stage.phase.attempt), None))
      ensures answer.Refused? && old(workers[w].stage.phase.attempt) < Retry.Budget(maxRetries) ==>
        workers[w].Busy? && workers[w].stage == Delivering(Retry.BackingOff(old(workers[w].stage.phase.attempt)))
    {
      EnterPhase(w, Retry.AfterSend(workers[w].stage.phase.attempt, Retry.Budget(maxRetries), answer));
    }

    method BackoffEnds(w: nat, tookDone: bool)
      requires Valid() && Enabled(Abs(), Action.BackoffEnds(w, tookDone))
      modifies workers
      ensures Valid() && Abs() == Apply(old(Abs()), Action.BackoffEnds(w, tookDone))
      ensures var a := old(workers[w].stage.phase.attempt);
              workers[w] == Busy(old(workers[w].job), if tookDone
                                                      then Persisting(Retry.Result(a, Some(Retry.ContextDone)))
                                                      else Delivering(Retry.AtCheck(a + 1)))
    {
      EnterPhase(w, Retry.AfterBackoff(workers[w].stage.phase.attempt, tookDone));
    }

    /** An error of MarkSent or MarkFailed is logged, and the message is committed all the same. */
    method PersistReturns(w: nat, applied: bool)
      requires Valid() && Enabled(Abs(), Action.PersistReturns(w, applied))
      modifies this`finished, this`completed, workers
      ensures Valid() && Abs() == Apply(old(Abs()), Action.PersistReturns(w, applied))
      ensures workers[w] == Busy(old(workers[w].job), Committing) && fetched[old(workers[w].job)] in finished
    {
      var job := workers[w].job;
      finished, completed := finished + {fetched[job]}, completed + [job];
      workers[w] := Busy(job, Committing);
    }

    /** The commit writes the next offset, whatever was committed before; a failed commit is only logged. */
    method CommitReturns(w: nat, applied: bool)
      requires Valid() && Enabled(Abs(), Action.CommitReturns(w, applied))
      modifies committed, workers
      ensures Valid() && Abs() == Apply(old(Abs()), Action.CommitReturns(w, applied))
      ensures workers[w] == Idle && (!applied ==> committed[..] == old(committed[..]))
      ensures var m := fetched[old(workers[w].job)];
              applied ==> committed[..] == old(committed[..])[m.partition := m.offset + 1]
    {
      var msg := fetched[workers[w].job];
      if applied {
        committed[msg.partition] := msg.offset + 1;
      }
      workers[w] := Idle;
    }

    method WorkerExits(w: nat)
      requires Valid() && Enabled(Abs(), Action.WorkerExits(w))
      modifies workers
      ensures Valid() && Abs() == Apply(old(Abs()), Action.WorkerExits(w))
      ensures workers[w] == Exited
    {
      workers[w] := Exited;
    }

    // ---------------------------------------------------------------- the world

    method Append(p: nat, payload: Payload)
      requires Valid() && Enabled(Abs(), Action.Append(p, payload))
      modifies this`log
      ensures Valid() && Abs() == Apply(old(Abs()), Action.Append(p, payload))
    {
      log := log[p := log[p] + [payload]];
    }

    method Cancel()
      requires Valid()
      modifies this`cancelled
      ensures Valid() && Abs() == Apply(old(Abs()), Action.Cancel) && cancelled
    {
      cancelled := true;
    }

    method ResetArrays()
      requires committed != cursor && committed.Length == cursor.Length
      modifies cursor, workers
      ensures cursor[..] == committed[..] && forall w | 0 <= w < workers.Length :: workers[w] == Idle
    {
      forall p | 0 <= p < cursor.Length {
        cursor[p] := committed[p];
      }
      forall w | 0 <= w < workers.Length {
        workers[w] := Idle;
      }
    }

    /** A new process takes over after a crash or a return: memory is gone, the offsets are not. */
    method StartProcess()
      requires Valid() && committed.Length == cursor.Length
      modifies this`fetched, this`dispatcher, this`channelClosed, this`cancelled, this`start, this`owner, this`completed,
               this`handedOff, cursor, workers
      ensures Valid() && Abs() == FreshSession(old(Abs()))
    {
      ResetArrays();
      fetched, dispatcher, channelClosed, cancelled, handedOff := [], Fetching, false, false, 0;
      start, owner, completed := committed[..], [], [];
      ghost var t := FreshSession(old(Abs()));
      assert committed[..] == old(committed[..]);
      assert cursor[..] == t.cursor;
      assert workers[..] == t.workers;
    }
  }

  /**
   * Lets the goroutines run in the order of a schedule that blocks none of them. The object stays reachable, so
   * every theorem about the pool speaks of it: in particular, whatever the schedule, it has lost at most N-1
   * messages for each crash and the running session, and none of the running session once Run has returned.
   */
  method Execute(pool: Pool, schedule: seq<Action>)
    requires pool.Valid() && Reachable(pool.Abs()) && ValidRun(pool.Abs(), schedule)
    modifies pool, pool.committed, pool.cursor, pool.workers
    ensures pool.Valid() && Reachable(pool.Abs()) && pool.Abs() == After(old(pool.Abs()), schedule)
    ensures |Lost(pool.Abs())| <= (pool.crashes + 1) * (pool.workers.Length - 1)
    ensures pool.dispatcher.Returned? ==> |Lost(pool.Abs())| <= pool.crashes * (pool.workers.Length - 1)
  {
    ReachableIsInv(pool.Abs());
    Interleave(pool, schedule);
    StillReachable(old(pool.Abs()), schedule);
    AtMostConcurrencyLessOneLostPerCrash(pool.Abs());
  }

  method Interleave(pool: Pool, schedule: seq<Action>)
    requires pool.Valid() && Inv(pool.Abs()) && ValidRun(pool.Abs(), schedule)
    modifies pool, pool.committed, pool.cursor, pool.workers
    ensures pool.Valid() && pool.Abs() == After(old(pool.Abs()), schedule)
  {
    var i := 0;
    while i < |schedule|
      invariant 0 <= i <= |schedule|
      invariant pool.Valid() && Inv(pool.Abs())
      invariant ValidRun(pool.Abs(), schedule[i..])
      invariant After(pool.Abs(), schedule[i..]) == After(old(pool.Abs()), schedule)
    {
      ghost var before, rest := pool.Abs(), schedule[i..];
      assert rest[0] == schedule[i] && rest[1..] == schedule[i + 1..];
      StepKeepsInv(before, schedule[i]);
      Perform(pool, schedule[i]);
      i := i + 1;
    }
    assert schedule[i..] == [];
  }

  method Perform(pool: Pool, a: Action)
    requires pool.Valid() && Inv(pool.Abs()) && Enabled(pool.Abs(), a)
    modifies pool, pool.committed, pool.cursor, pool.workers
    ensures pool.Valid() && pool.Abs() == Apply(old(pool.Abs()), a)
  {
    match a
    case Append(p, payload) => pool.Append(p, payload);
    case Cancel => pool.Cancel();
    case Crash => pool.StartProcess(); pool.crashes := pool.crashes + 1;
    case Restart => pool.StartProcess();
    case FetchReturns(p) => pool.FetchReturns(p);
    case FetchFails(c) => pool.FetchFails(c);
    case PauseEnds => pool.PauseEnds();
    case HandOff(w) => pool.HandOff(w);
    case DropOnCancel => pool.DropOnCancel();
    case CloseChannel => pool.CloseChannel();
    case WaitEnds => pool.WaitEnds();
    case Parse(w) => pool.Parse(w);
    case CheckContext(w) => pool.CheckContext(w);
    case SendReturns(w, answer) => pool.SendReturns(w, answer);
    case BackoffEnds(w, tookDone) => pool.BackoffEnds(w, tookDone);
    case PersistReturns(w, applied) => pool.PersistReturns(w, applied);
    case CommitReturns(w, applied) => pool.CommitReturns(w, applied);
    case WorkerExits(w) => pool.WorkerExits(w);
  }
}
