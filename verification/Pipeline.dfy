/**
 * From Enqueue to a terminal row: concurrent Enqueues (internal/service/notification.go) write rows and
 * events, the worker pool delivers them and writes their outcome. Every run of the pool, with its
 * redeliveries, failed writes and crashes, runs here against one table.
 */
module Pipeline {
  import opened Common
  import opened Repository
  import P = PoolProtocol
  import Safety = PoolSafety
  import Retry

  datatype State = State(
    pool: P.State,
    rows: Table,
    publishing: map<nat, P.Event>,   // Enqueues between their insert and the return of Publish
    delivered: set<P.Event>,         // events some Send has accepted
    everSent: set<nat>,              // rows some write has marked sent
    now: int)

  datatype Action =
    | Tick(elapsed: nat)
    | Create(id: nat, user: nat, channel: string, recipient: string, subject: string, body: string)
    | Publish(id: nat, partition: nat, appended: bool)
    | Worker(step: P.Action)

  predicate Enabled(s: State, a: Action) {
    match a
    case Tick(_) => true
    case Create(id, _, channel, _, _, _) => id !in s.rows && channel in CHANNELS
    case Publish(id, p, _) => id in s.publishing && p < |s.pool.log|
    // Strangers may write to the topic what no worker can read, but no events.
    case Worker(step) => P.Enabled(s.pool, step) && (step.Append? ==> !step.payload.Job?)
  }

  predicate HasEvent(pool: P.State, w: nat) {
    P.WorkerAt(pool, w) && P.InLog(pool, P.MessageOf(pool, w)) && P.PayloadOf(pool, w).Job?
  }

  function EventAt(pool: P.State, w: nat): P.Event
    requires HasEvent(pool, w)
  {
    P.PayloadOf(pool, w).event
  }

  function ErrorText(e: Retry.DeliveryError): string {
    match e case ContextDone => "context canceled" case LastSend(reason) => reason
  }

  /** MarkSent or MarkFailed with the answer of the retry loop. */
  function Recorded(t: Table, id: nat, r: Retry.Result, now: int): Table {
    match r.error
    case None => MarkedSent(t, id, r.attempts, now)
    case Some(e) => MarkedFailed(t, id, r.attempts, ErrorText(e), now)
  }

  /** What a pool step does outside the pool. */
  function Effects(s: State, step: P.Action): State
    requires P.Enabled(s.pool, step)
  {
    match step
    case SendReturns(w, answer) =>
      if answer.Delivered? && HasEvent(s.pool, w) then s.(delivered := s.delivered + {EventAt(s.pool, w)}) else s
    case PersistReturns(w, applied) =>
      if applied && HasEvent(s.pool, w) then
        var id, r := EventAt(s.pool, w).id, s.pool.workers[w].stage.result;
        s.(rows := Recorded(s.rows, id, r, s.now),
           everSent := if r.error.None? && id in s.rows then s.everSent + {id} else s.everSent)
      else s
    case _ => s
  }

  function Apply(s: State, a: Action): State
    requires Enabled(s, a)
  {
    match a
    case Tick(elapsed) => s.(now := s.now + elapsed)
    case Create(id, user, channel, recipient, subject, body) =>
      s.(rows := Insert(s.rows, id, user, channel, recipient, subject, body, s.now),
         publishing := s.publishing[id := P.Event(id, user, channel, recipient, subject, body)])
    // Publish may report a failure although the broker has the event.
    case Publish(id, p, appended) =>
      s.(pool := if appended then P.Apply(s.pool, P.Append(p, P.Job(s.publishing[id]))) else s.pool,
         publishing := s.publishing - {id})
    case Worker(step) => Effects(s, step).(pool := P.Apply(s.pool, step))
  }

  predicate ValidRun(s: State, run: seq<Action>)
    decreases |run|
  {
    run == [] || (Enabled(s, run[0]) && ValidRun(Apply(s, run[0]), run[1..]))
  }

  function After(s: State, run: seq<Action>): State
    requires ValidRun(s, run)
    decreases |run|
  {
    if run == [] then s else After(Apply(s, run[0]), run[1..])
  }

  ghost predicate Initial(s: State) {
    && P.Initial(s.pool) && 1 <= s.pool.budget && s.rows == map[] && s.publishing == map[] && s.delivered == {} && s.everSent == {}
    && (forall m | m in s.pool.finished :: P.InLog(s.pool, m))
    && forall p, o | 0 <= p < |s.pool.log| && 0 <= o < |s.pool.log[p]| :: !s.pool.log[p][o].Job?
  }

  // ---------------------------------------------------------------- the invariant

  /** The event and the row say the same. */
  predicate Describes(e: P.Event, t: Table) {
    && e.id in t
    && e.user == t[e.id].user && e.channel == t[e.id].channel && e.recipient == t[e.id].recipient
    && e.subject == t[e.id].subject && e.body == t[e.id].body
  }

  function EventOf(id: nat, row: Row): P.Event {
    P.Event(id, row.user, row.channel, row.recipient, row.subject, row.body)
  }

  /** An event is in the log at a place. */
  predicate LoggedAt(log: seq<seq<P.Payload>>, p: nat, o: nat, e: P.Event) {
    p < |log| && o < |log[p]| && log[p][o] == P.Job(e)
  }

  ghost predicate Logged(log: seq<seq<P.Payload>>, e: P.Event) {
    exists p, o :: LoggedAt(log, p, o, e)
  }

  /** No event in the log names this row. */
  ghost predicate Unlogged(log: seq<seq<P.Payload>>, id: nat) {
    forall p, o, e | LoggedAt(log, p, o, e) :: e.id != id
  }

  ghost predicate LogOk(log: seq<seq<P.Payload>>, t: Table) {
    && (forall p, o, e | LoggedAt(log, p, o, e) :: Describes(e, t))
    && (forall p, o, e, q, r, f | LoggedAt(log, p, o, e) && LoggedAt(log, q, r, f) && e.id == f.id ::
          p == q && o == r)
  }

  ghost predicate PublishingOk(publishing: map<nat, P.Event>, log: seq<seq<P.Payload>>, t: Table) {
    forall id | id in publishing ::
      && publishing[id].id == id && Describes(publishing[id], t)
      && Unlogged(log, id)
  }

  /** What a row can look like, given which events were accepted and which rows were ever sent. */
  predicate RowOk(budget: int, id: nat, row: Row, delivered: set<P.Event>, everSent: set<nat>) {
    && row.channel in CHANNELS
    && (row.sentAt.Some? <==> id in everSent)
    && match row.status
       case Pending => row.attempts == 0 && row.lastError == "" && row.sentAt.None?
       case Sent =>
         && 1 <= row.attempts <= budget && row.lastError == "" && row.sentAt.Some?
         && EventOf(id, row) in delivered
       case Failed =>
         && 0 <= row.attempts <= budget
         && (row.attempts < budget ==> row.lastError == ErrorText(Retry.ContextDone))
  }

  ghost predicate RowsOk(budget: int, t: Table, log: seq<seq<P.Payload>>, delivered: set<P.Event>, everSent: set<nat>) {
    forall id | id in t ::
      && RowOk(budget, id, t[id], delivered, everSent)
      && (!t[id].status.Pending? ==> Logged(log, EventOf(id, t[id])))
  }

  /** A worker about to record a success has seen one. */
  ghost predicate SuccessesOk(pool: P.State, delivered: set<P.Event>) {
    forall w: nat | HasEvent(pool, w) && pool.workers[w].stage.Persisting? && pool.workers[w].stage.result.error.None? ::
      EventAt(pool, w) in delivered
  }

  ghost predicate Inv(s: State) {
    && Safety.Inv(s.pool) && 1 <= s.pool.budget
    && LogOk(s.pool.log, s.rows)
    && PublishingOk(s.publishing, s.pool.log, s.rows)
    && RowsOk(s.pool.budget, s.rows, s.pool.log, s.delivered, s.everSent)
    && SuccessesOk(s.pool, s.delivered)
    && s.everSent <= s.rows.Keys
  }

  // ---------------------------------------------------------------- every step keeps it

  /** Appending leaves every place as it was and adds one. */
  lemma AppendAdds(log: seq<seq<P.Payload>>, p: nat, payload: P.Payload)
    requires p < |log|
    ensures var after := log[p := log[p] + [payload]];
            forall q, o, e :: LoggedAt(after, q, o, e) <==>
              LoggedAt(log, q, o, e) || (q == p && o == |log[p]| && payload == P.Job(e))
    ensures var after := log[p := log[p] + [payload]];
            forall e :: Logged(log, e) ==> Logged(after, e)
  {
    var after := log[p := log[p] + [payload]];
    forall e | Logged(log, e)
      ensures Logged(after, e)
    {
      var q, o :| LoggedAt(log, q, o, e);
      assert LoggedAt(after, q, o, e);
    }
  }

  /** A job that is present in the log stays the same job. */
  lemma AppendKeepsSuccesses(pool: P.State, p: nat, payload: P.Payload, delivered: set<P.Event>)
    requires Safety.Inv(pool) && p < |pool.log| && SuccessesOk(pool, delivered)
    ensures SuccessesOk(P.Apply(pool, P.Append(p, payload)), delivered)
  {
    var after := P.Apply(pool, P.Append(p, payload));
    forall w: nat | HasEvent(after, w) && after.workers[w].stage.Persisting? && after.workers[w].stage.result.error.None?
      ensures EventAt(after, w) in delivered
    {
      BusyHasPayload(pool, w);
    }
  }

  lemma BusyHasPayload(pool: P.State, w: nat)
    requires Safety.Inv(pool) && w < |pool.workers| && pool.workers[w].Busy?
    ensures P.WorkerAt(pool, w) && P.InLog(pool, P.MessageOf(pool, w))
  {
    var m := pool.fetched[pool.workers[w].job];
    assert m.partition < |pool.log| && m.offset < pool.cursor[m.partition];
  }

  predicate RecordsSuccess(x: P.Worker) {
    x.Busy? && x.stage.Persisting? && x.stage.result.error.None?
  }

  /** The only way to come to record a success is a Send that succeeds. */
  lemma SuccessesComeFromSend(pool: P.State, step: P.Action, w: nat)
    requires 1 <= pool.budget && P.Enabled(pool, step)
    requires w < |P.Apply(pool, step).workers| && RecordsSuccess(P.Apply(pool, step).workers[w])
    ensures w < |pool.workers| && pool.workers[w].Busy? && pool.workers[w].job == P.Apply(pool, step).workers[w].job
    ensures RecordsSuccess(pool.workers[w]) || step == P.SendReturns(w, Retry.Delivered)
  {
  }

  lemma StepKeepsSuccesses(s: State, step: P.Action)
    requires Inv(s) && P.Enabled(s.pool, step) && !step.Append?
    ensures SuccessesOk(P.Apply(s.pool, step), Effects(s, step).delivered)
  {
    var after := P.Apply(s.pool, step);
    forall w: nat | HasEvent(after, w) && after.workers[w].stage.Persisting? && after.workers[w].stage.result.error.None?
      ensures EventAt(after, w) in Effects(s, step).delivered
    {
      SuccessesComeFromSend(s.pool, step, w);
      BusyHasPayload(s.pool, w);
      SameMessage(s.pool, step, w);
    }
  }

  /** A worker that keeps its job keeps its message. */
  lemma SameMessage(pool: P.State, step: P.Action, w: nat)
    requires P.Enabled(pool, step) && !step.Append? && P.WorkerAt(pool, w) && P.WorkerAt(P.Apply(pool, step), w)
    requires pool.workers[w].job == P.Apply(pool, step).workers[w].job
    ensures P.MessageOf(P.Apply(pool, step), w) == P.MessageOf(pool, w) && P.Apply(pool, step).log == pool.log
  {
  }

  /** Recording an answer changes the outcome of a row, not its content. */
  lemma RecordingKeepsContent(t: Table, id: nat, r: Retry.Result, now: int, log: seq<seq<P.Payload>>,
                              publishing: map<nat, P.Event>)
    requires LogOk(log, t) && PublishingOk(publishing, log, t)
    ensures LogOk(log, Recorded(t, id, r, now)) && PublishingOk(publishing, log, Recorded(t, id, r, now))
    ensures Advances(t, Recorded(t, id, r, now))
    ensures forall k | k in t :: k in Recorded(t, id, r, now) && EventOf(k, Recorded(t, id, r, now)[k]) == EventOf(k, t[k])
  {
    forall e | Describes(e, t)
      ensures Describes(e, Recorded(t, id, r, now))
    {
    }
  }

  /** Recording an answer of the retry loop keeps the rows in order. */
  lemma RecordingKeepsRows(s: State, w: nat)
    requires Inv(s) && P.Enabled(s.pool, P.PersistReturns(w, true)) && HasEvent(s.pool, w)
    ensures var t := Effects(s, P.PersistReturns(w, true));
            && RowsOk(s.pool.budget, t.rows, s.pool.log, s.delivered, t.everSent)
            && LogOk(s.pool.log, t.rows) && PublishingOk(s.publishing, s.pool.log, t.rows)
            && t.everSent <= t.rows.Keys && Advances(s.rows, t.rows)
  {
    var t := Effects(s, P.PersistReturns(w, true));
    var m, e, r := P.MessageOf(s.pool, w), EventAt(s.pool, w), s.pool.workers[w].stage.result;
    RecordingKeepsContent(s.rows, e.id, r, s.now, s.pool.log, s.publishing);
    assert LoggedAt(s.pool.log, m.partition, m.offset, e);
    assert Safety.ValidStage(s.pool.budget, s.pool.workers[w].stage);
    assert EventOf(e.id, s.rows[e.id]) == e;
    forall id | id in t.rows
      ensures RowOk(s.pool.budget, id, t.rows[id], s.delivered, t.everSent)
      ensures !t.rows[id].status.Pending? ==> Logged(s.pool.log, EventOf(id, t.rows[id]))
    {
      assert id in s.rows && RowOk(s.pool.budget, id, s.rows[id], s.delivered, s.everSent);
    }
  }

  /** More accepted events put no row out of order. */
  lemma MoreDelivered(budget: int, t: Table, log: seq<seq<P.Payload>>, delivered: set<P.Event>, everSent: set<nat>,
                      e: P.Event)
    requires RowsOk(budget, t, log, delivered, everSent)
    ensures RowsOk(budget, t, log, delivered + {e}, everSent)
  {
  }

  /** What a pool step does to the rows. */
  lemma EffectsKeepRows(s: State, step: P.Action)
    requires Inv(s) && P.Enabled(s.pool, step)
    ensures var t := Effects(s, step);
            && LogOk(s.pool.log, t.rows) && PublishingOk(s.publishing, s.pool.log, t.rows)
            && RowsOk(s.pool.budget, t.rows, s.pool.log, t.delivered, t.everSent)
            && t.everSent <= t.rows.Keys && Advances(s.rows, t.rows)
  {
    if step.PersistReturns? && step.applied && HasEvent(s.pool, step.worker) {
      RecordingKeepsRows(s, step.worker);
    } else if step.SendReturns? && step.answer.Delivered? && HasEvent(s.pool, step.worker) {
      MoreDelivered(s.pool.budget, s.rows, s.pool.log, s.delivered, s.everSent, EventAt(s.pool, step.worker));
    } else {
      assert Effects(s, step) == s;
    }
  }

  lemma WorkerKeepsInv(s: State, step: P.Action)
    requires Inv(s) && Enabled(s, Worker(step)) && !step.Append?
    ensures Inv(Apply(s, Worker(step))) && Advances(s.rows, Apply(s, Worker(step)).rows)
  {
    Safety.StepKeepsInv(s.pool, step);
    StepKeepsSuccesses(s, step);
    EffectsKeepRows(s, step);
    LogUnchanged(s.pool, step);
  }

  lemma LogUnchanged(pool: P.State, step: P.Action)
    requires P.Enabled(pool, step) && !step.Append?
    ensures P.Apply(pool, step).log == pool.log && P.Apply(pool, step).budget == pool.budget
  {
  }

  lemma AppendKeepsInv(s: State, p: nat, payload: P.Payload)
    requires Inv(s) && p < |s.pool.log|
    requires payload.Job? ==>
      Describes(payload.event, s.rows) && Unlogged(s.pool.log, payload.event.id)
    requires payload.Job? ==> payload.event.id !in s.publishing
    ensures Inv(s.(pool := P.Apply(s.pool, P.Append(p, payload))))
  {
    Safety.StepKeepsInv(s.pool, P.Append(p, payload));
    AppendAdds(s.pool.log, p, payload);
    AppendKeepsSuccesses(s.pool, p, payload, s.delivered);
  }

  /** Nothing in the log can name a row that is only now inserted. */
  lemma InsertKeepsLog(t: Table, u: Table, id: nat, log: seq<seq<P.Payload>>)
    requires LogOk(log, t) && id !in t && u.Keys == t.Keys + {id} && forall k | k in t :: u[k] == t[k]
    ensures LogOk(log, u) && Unlogged(log, id)
  {
    forall p, o, e | LoggedAt(log, p, o, e)
      ensures Describes(e, u) && e.id != id
    {
      assert Describes(e, t);
    }
  }

  lemma InsertKeepsPublishing(t: Table, u: Table, id: nat, log: seq<seq<P.Payload>>, publishing: map<nat, P.Event>,
                              e: P.Event)
    requires PublishingOk(publishing, log, t) && u.Keys == t.Keys + {id} && forall k | k in t && k != id :: u[k] == t[k]
    requires id !in t && e.id == id && Describes(e, u) && Unlogged(log, id)
    ensures PublishingOk(publishing[id := e], log, u)
  {
  }

  lemma CreateKeepsInv(s: State, a: Action)
    requires Inv(s) && a.Create? && Enabled(s, a)
    ensures Inv(Apply(s, a)) && Advances(s.rows, Apply(s, a).rows)
  {
    var t := Apply(s, a);
    InsertKeepsLog(s.rows, t.rows, a.id, s.pool.log);
    InsertKeepsPublishing(s.rows, t.rows, a.id, s.pool.log, s.publishing, t.publishing[a.id]);
    assert a.id !in s.everSent;
  }

  lemma PublishKeepsInv(s: State, a: Action)
    requires Inv(s) && a.Publish? && Enabled(s, a)
    ensures Inv(Apply(s, a))
  {
    var s1 := s.(publishing := s.publishing - {a.id});
    if a.appended {
      AppendKeepsInv(s1, a.partition, P.Job(s.publishing[a.id]));
    }
  }

  lemma StepKeepsInv(s: State, a: Action)
    requires Inv(s) && Enabled(s, a)
    ensures Inv(Apply(s, a)) && Advances(s.rows, Apply(s, a).rows)
    ensures Apply(s, a).pool.budget == s.pool.budget
  {
    match a
    case Tick(_) =>
    case Create(_, _, _, _, _, _) => CreateKeepsInv(s, a);
    case Publish(_, _, _) => PublishKeepsInv(s, a);
    case Worker(step) =>
      Safety.StepKeepsConfiguration(s.pool, step);
      if step.Append? {
        AppendKeepsInv(s, step.partition, step.payload);
      } else {
        WorkerKeepsInv(s, step);
      }
  }

  lemma {:induction false} RunKeepsInv(s: State, run: seq<Action>)
    requires Inv(s) && ValidRun(s, run)
    ensures Inv(After(s, run)) && Advances(s.rows, After(s, run).rows)
    ensures After(s, run).pool.budget == s.pool.budget
    decreases |run|
  {
    if run != [] {
      var t := Apply(s, run[0]);
      StepKeepsInv(s, run[0]);
      RunKeepsInv(t, run[1..]);
      AdvancesIsTransitive(s.rows, t.rows, After(t, run[1..]).rows);
    }
  }

  lemma InitialIsInv(s: State)
    requires Initial(s)
    ensures Inv(s)
  {
    Safety.InitialIsInv(s.pool);
  }

  ghost predicate Reachable(s: State) {
    exists s0: State, run: seq<Action> :: Initial(s0) && ValidRun(s0, run) && After(s0, run) == s
  }

  lemma ReachableIsInv(s: State)
    requires Reachable(s)
    ensures Inv(s)
  {
    var s0: State, run: seq<Action> :| Initial(s0) && ValidRun(s0, run) && After(s0, run) == s;
    InitialIsInv(s0);
    RunKeepsInv(s0, run);
  }

  // ---------------------------------------------------------------- what it promises

  /**
   * The shape of a row in every reachable state, over redeliveries, failed writes and crashes, with
   * B = maxRetries + 1 attempts: pending rows are untouched, sent rows carry 1 to B attempts, no error and a
   * time of sending, failed rows carry 0 to B attempts, fewer than B only for a cancelled context, and sent_at is
   * set exactly if the row was once sent.
   */
  lemma RowShape(s: State, id: nat)
    requires Reachable(s) && id in s.rows
    ensures var row, b := s.rows[id], s.pool.budget;
            && (row.status.Pending? ==> row.attempts == 0 && row.lastError == "" && row.sentAt == None)
            && (row.status.Sent? ==> 1 <= row.attempts <= b && row.lastError == "" && row.sentAt.Some?)
            && (row.status.Failed? ==>
                  0 <= row.attempts <= b && (row.attempts < b ==> row.lastError == "context canceled"))
            && (row.sentAt.Some? <==> id in s.everSent)
  {
    ReachableIsInv(s);
    assert RowOk(s.pool.budget, id, s.rows[id], s.delivered, s.everSent);
  }

  /** From any reachable state on, rows keep their content, never return to pending, and keep sent_at set. */
  lemma RowsNeverGoBack(s: State, run: seq<Action>, id: nat)
    requires Reachable(s) && ValidRun(s, run) && id in s.rows
    ensures id in After(s, run).rows && RowAdvances(s.rows[id], After(s, run).rows[id])
  {
    ReachableIsInv(s);
    RunKeepsInv(s, run);
  }

  /**
   * Nothing appears and nothing is confused between Enqueue and the table: every event in the log describes
   * an existing row, two places of the log never name the same row, a sent row's own event was accepted by a
   * Send, and a row whose event is not in the log is still pending and untouched.
   */
  lemma PipelineConservation(s: State)
    requires Reachable(s)
    ensures forall p, o, e | LoggedAt(s.pool.log, p, o, e) :: Describes(e, s.rows)
    ensures forall p, o, e, q, r, f | LoggedAt(s.pool.log, p, o, e) && LoggedAt(s.pool.log, q, r, f) && e.id == f.id ::
              p == q && o == r
    ensures forall id | id in s.rows && s.rows[id].status.Sent? :: EventOf(id, s.rows[id]) in s.delivered
    ensures forall id | id in s.rows && !Logged(s.pool.log, EventOf(id, s.rows[id])) ::
              s.rows[id].status == Pending && s.rows[id].attempts == 0
  {
    ReachableIsInv(s);
    forall id | id in s.rows
      ensures RowOk(s.pool.budget, id, s.rows[id], s.delivered, s.everSent)
    {
    }
  }

  /** A row whose event is neither in the log nor on its way there. */
  ghost predicate Unpublished(s: State, id: nat) {
    id in s.rows && id !in s.publishing && Unlogged(s.pool.log, id)
  }

  lemma AppendKeepsUnlogged(log: seq<seq<P.Payload>>, p: nat, payload: P.Payload, id: nat)
    requires p < |log| && (payload.Job? ==> payload.event.id != id) && Unlogged(log, id)
    ensures Unlogged(log[p := log[p] + [payload]], id)
  {
    AppendAdds(log, p, payload);
  }

  /** What a step writes to the log is no event of a row that nobody is publishing. */
  lemma StepKeepsUnlogged(s: State, a: Action, id: nat)
    requires PublishingOk(s.publishing, s.pool.log, s.rows) && Enabled(s, a) && Unpublished(s, id)
    ensures Unlogged(Apply(s, a).pool.log, id)
  {
    if a.Publish? && a.appended {
      AppendKeepsUnlogged(s.pool.log, a.partition, P.Job(s.publishing[a.id]), id);
    } else if a.Worker? && a.step.Append? {
      AppendKeepsUnlogged(s.pool.log, a.step.partition, a.step.payload, id);
    } else if a.Worker? {
      LogUnchanged(s.pool, a.step);
    }
  }

  lemma StepKeepsUnpublished(s: State, a: Action, id: nat)
    requires Inv(s) && Enabled(s, a) && Unpublished(s, id)
    ensures Unpublished(Apply(s, a), id)
  {
    StepKeepsUnlogged(s, a, id);
    if a.Worker? {
      EffectsKeepRows(s, a.step);
    }
  }

  lemma {:induction false} RunKeepsUnpublished(s: State, run: seq<Action>, id: nat)
    requires Inv(s) && ValidRun(s, run) && Unpublished(s, id)
    ensures Unpublished(After(s, run), id)
    decreases |run|
  {
    if run != [] {
      StepKeepsUnpublished(s, run[0], id);
      StepKeepsInv(s, run[0]);
      RunKeepsUnpublished(Apply(s, run[0]), run[1..], id);
    }
  }

  /**
   * Nothing picks up what Enqueue could not publish: once the broker has turned an event down, its row stays
   * as it was inserted, pending with no attempts, along every run.
   */
  lemma FailedPublishStaysPending(s: State, id: nat, p: nat, run: seq<Action>)
    requires Reachable(s) && Enabled(s, Publish(id, p, false)) && ValidRun(Apply(s, Publish(id, p, false)), run)
    ensures var rows := After(Apply(s, Publish(id, p, false)), run).rows;
            && id in s.rows && id in rows && rows[id] == s.rows[id]
            && rows[id].status == Pending && rows[id].attempts == 0
  {
    ReachableIsInv(s);
    var t := Apply(s, Publish(id, p, false));
    StepKeepsInv(s, Publish(id, p, false));
    RunKeepsUnpublished(t, run, id);
    RunKeepsInv(t, run);
    UnpublishedIsPending(After(t, run), id);
  }

  lemma UnpublishedIsPending(s: State, id: nat)
    requires Inv(s) && Unpublished(s, id)
    ensures s.rows[id].status == Pending && s.rows[id].attempts == 0
  {
    assert RowOk(s.pool.budget, id, s.rows[id], s.delivered, s.everSent);
    assert !Logged(s.pool.log, EventOf(id, s.rows[id]));
  }
}
