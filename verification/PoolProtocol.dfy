/**
 * The worker pool (internal/worker/pool.go) over the consumer's offset log (internal/events/consumer.go)
 * as a step system. One action is one blocking point of one goroutine, so any interleaving of the
 * dispatcher and the workers is a sequence of actions. An action carries every choice that is not the
 * pool's own: what Fetch, Send, the database and the broker answer, and which case a select takes.
 */
module PoolProtocol {
  import Retry

  /** The event a well-formed message carries (internal/events/event.go). */
  datatype Event = Event(id: nat, user: nat, channel: string, recipient: string, subject: string, body: string)

  /** A message's value: not JSON, JSON whose id is no UUID, or an event. */
  datatype Payload = Malformed | BadId | Job(event: Event)

  /** A message is known by its place in the log. */
  datatype Msg = Msg(partition: nat, offset: nat)

  /** What handle is doing with a message. */
  datatype Stage =
    | Received                               // about to parse
    | Delivering(phase: Retry.Phase)         // inside deliverWithRetry
    | Persisting(result: Retry.Result)       // MarkSent or MarkFailed is running
    | Committing                             // the offset commit is running

  /** A worker waits for a job, holds the job-th fetched message, or has seen the closed channel. */
  datatype Worker = Idle | Busy(job: nat, stage: Stage) | Exited

  /** Where the dispatcher stands in Run. */
  datatype Dispatcher =
    | Fetching      // inside consumer.Fetch
    | Pausing       // the pause after a failed fetch
    | Offering      // the select between jobs <- msg and ctx.Done()
    | Leaving       // past the loop, about to close(jobs)
    | Waiting       // inside wg.Wait()
    | Returned

  datatype State = State(
    // configuration
    budget: int,
    // durable: the topic, the group's committed offsets, the messages handled to the end; how often the process crashed
    log: seq<seq<Payload>>,
    committed: seq<nat>,
    finished: set<Msg>,
    crashes: nat,
    // one session of the process
    start: seq<nat>,          // the committed offsets it began with
    cursor: seq<nat>,         // the next offset to fetch
    fetched: seq<Msg>,        // in fetch order
    owner: seq<nat>,          // the worker that got each handed-off message, in hand-off order
    completed: seq<nat>,      // the jobs handled to the end in this session, in that order
    workers: seq<Worker>,
    dispatcher: Dispatcher,
    channelClosed: bool,
    cancelled: bool)

  datatype Action =
    // the world
    | Append(partition: nat, payload: Payload)
    | Cancel
    | Crash
    | Restart
    // the dispatcher
    | FetchReturns(partition: nat)
    | FetchFails(saysCanceled: bool)
    | PauseEnds
    | HandOff(worker: nat)
    | DropOnCancel
    | CloseChannel
    | WaitEnds
    // a worker
    | Parse(worker: nat)
    | CheckContext(worker: nat)
    | SendReturns(worker: nat, answer: Retry.SendResult)
    | BackoffEnds(worker: nat, tookDone: bool)
    | PersistReturns(worker: nat, applied: bool)
    | CommitReturns(worker: nat, applied: bool)
    | WorkerExits(worker: nat)

  predicate IsWorld(a: Action) {
    a.Append? || a.Cancel? || a.Crash? || a.Restart?
  }

  /** A step of a worker between its hand-off and its commit. */
  predicate IsHandling(a: Action) {
    a.Parse? || a.CheckContext? || a.SendReturns? || a.BackoffEnds? || a.PersistReturns?
  }

  // ---------------------------------------------------------------- the steps

  predicate WorkerAt(s: State, w: nat) {
    w < |s.workers| && s.workers[w].Busy? && s.workers[w].job < |s.fetched|
  }

  function MessageOf(s: State, w: nat): Msg
    requires WorkerAt(s, w)
  {
    s.fetched[s.workers[w].job]
  }

  predicate InLog(s: State, m: Msg) {
    m.partition < |s.log| && m.offset < |s.log[m.partition]|
  }

  function PayloadOf(s: State, w: nat): Payload
    requires WorkerAt(s, w) && InLog(s, MessageOf(s, w))
  {
    s.log[MessageOf(s, w).partition][MessageOf(s, w).offset]
  }

  predicate InPhase(s: State, w: nat) {
    WorkerAt(s, w) && s.workers[w].stage.Delivering?
  }

  /** When an action can happen. */
  predicate Enabled(s: State, a: Action) {
    match a
    case Append(p, _) => p < |s.log|
    case Cancel => true
    case Crash => !s.dispatcher.Returned?
    case Restart => s.dispatcher.Returned?
    case FetchReturns(p) =>
      s.dispatcher.Fetching? && p < |s.log| && p < |s.cursor| && s.cursor[p] < |s.log[p]|
    case FetchFails(_) => s.dispatcher.Fetching?
    case PauseEnds => s.dispatcher.Pausing?
    case HandOff(w) => s.dispatcher.Offering? && w < |s.workers| && s.workers[w].Idle?
    case DropOnCancel => s.dispatcher.Offering? && s.cancelled
    case CloseChannel => s.dispatcher.Leaving?
    case WaitEnds => s.dispatcher.Waiting? && forall w | 0 <= w < |s.workers| :: s.workers[w].Exited?
    case Parse(w) => WorkerAt(s, w) && s.workers[w].stage.Received? && InLog(s, MessageOf(s, w))
    case CheckContext(w) => InPhase(s, w) && s.workers[w].stage.phase.AtCheck?
    case SendReturns(w, _) => InPhase(s, w) && s.workers[w].stage.phase.Sending?
    case BackoffEnds(w, tookDone) =>
      InPhase(s, w) && s.workers[w].stage.phase.BackingOff? && (tookDone ==> s.cancelled)
    case PersistReturns(w, _) => WorkerAt(s, w) && s.workers[w].stage.Persisting?
    case CommitReturns(w, _) =>
      WorkerAt(s, w) && s.workers[w].stage.Committing? && MessageOf(s, w).partition < |s.committed|
    case WorkerExits(w) => w < |s.workers| && s.workers[w].Idle? && s.channelClosed
  }

  /** A worker moves on within handle; leaving the retry loop means persisting its answer. */
  function AtStage(s: State, w: nat, stage: Stage): State
    requires WorkerAt(s, w)
  {
    s.(workers := s.workers[w := Busy(s.workers[w].job, stage)])
  }

  function AtPhase(s: State, w: nat, phase: Retry.Phase): State
    requires WorkerAt(s, w)
  {
    AtStage(s, w, if phase.Done? then Persisting(phase.result) else Delivering(phase))
  }

  /** A message has been handled as far as it will be; only the commit is left. */
  function Finish(s: State, w: nat): State
    requires WorkerAt(s, w)
  {
    AtStage(s, w, Committing).(finished := s.finished + {MessageOf(s, w)}, completed := s.completed + [s.workers[w].job])
  }

  /** A new process: it fetches from the committed offsets, with nothing in memory. */
  function FreshSession(s: State): State {
    s.(start := s.committed, cursor := s.committed, fetched := [], owner := [], completed := [],
       workers := seq(|s.workers|, _ => Idle), dispatcher := Fetching, channelClosed := false, cancelled := false)
  }

  function Apply(s: State, a: Action): State
    requires Enabled(s, a)
  {
    match a
    case Append(p, payload) => s.(log := s.log[p := s.log[p] + [payload]])
    case Cancel => s.(cancelled := true)
    case Crash => FreshSession(s).(crashes := s.crashes + 1)
    case Restart => FreshSession(s)
    case FetchReturns(p) =>
      s.(fetched := s.fetched + [Msg(p, s.cursor[p])], cursor := s.cursor[p := s.cursor[p] + 1], dispatcher := Offering)
    case FetchFails(saysCanceled) =>
      s.(dispatcher := if saysCanceled || s.cancelled then Leaving else Pausing)
    case PauseEnds => s.(dispatcher := Fetching)
    case HandOff(w) =>
      s.(workers := s.workers[w := Busy(|s.owner|, Received)], owner := s.owner + [w], dispatcher := Fetching)
    case DropOnCancel => s.(dispatcher := Leaving)
    case CloseChannel => s.(dispatcher := Waiting, channelClosed := true)
    case WaitEnds => s.(dispatcher := Returned)
    case Parse(w) =>
      if PayloadOf(s, w).Job? then AtPhase(s, w, Retry.Start(s.budget)) else Finish(s, w)
    case CheckContext(w) =>
      AtPhase(s, w, Retry.AfterCheck(s.workers[w].stage.phase.attempt, s.cancelled))
    case SendReturns(w, answer) =>
      AtPhase(s, w, Retry.AfterSend(s.workers[w].stage.phase.attempt, s.budget, answer))
    case BackoffEnds(w, tookDone) =>
      AtPhase(s, w, Retry.AfterBackoff(s.workers[w].stage.phase.attempt, tookDone))
    case PersistReturns(w, _) => Finish(s, w)
    case CommitReturns(w, applied) =>
      var m := MessageOf(s, w);
      s.(workers := s.workers[w := Idle],
         committed := if applied then s.committed[m.partition := m.offset + 1] else s.committed)
    case WorkerExits(w) => s.(workers := s.workers[w := Exited])
  }

  // ---------------------------------------------------------------- runs

  /** A process about to fetch for the first time, with everything below the committed offsets finished. */
  ghost predicate Initial(s: State) {
    && 1 <= |s.workers|
    && |s.committed| == |s.log|
    && (forall p | 0 <= p < |s.log| :: s.committed[p] <= |s.log[p]|)
    && Lost(s) == {}
    && s.crashes == 0
    && s == FreshSession(s)
  }

  predicate ValidRun(s: State, run: seq<Action>)
    decreases |run|
  {
    run == [] || (Enabled(s, run[0]) && ValidRun(Apply(s, run[0]), run[1..]))
  }

  function After(s: State, run: seq<Action>): State
    requires ValidRun(s, run)
    decreases |run|
  {
    if run == [] then s else After(Apply(s, run[0]), run[1..])
  }

  /**
   * The messages below the committed offsets that were never handled to the end. A crash now loses them; without
   * one, a worker that holds such a message may still handle it, or commit an earlier one.
   */
  ghost function Lost(s: State): set<Msg> {
    set p: nat, o: nat | p < |s.committed| && o < s.committed[p] && Msg(p, o) !in s.finished :: Msg(p, o)
  }
}
