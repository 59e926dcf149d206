/**
 * The cached notification lists (internal/service/notification.go: ListForUser, Enqueue,
 * invalidateUserCache). Every call to Redis or Postgres is one atomic step, so any number of listers,
 * enqueuers and workers interleave. Time is in milliseconds.
 */
module ListCache {
  import opened Common
  import opened KeyStore
  import opened Repository

  /** The public shape of a row (internal/model/notification.go). */
  datatype Response = Response(
    id: nat, user: nat, channel: string, recipient: string, subject: string, body: string,
    status: Status, attempts: int, lastError: string, createdAt: int, sentAt: Option<int>)

  function ToResponse(id: nat, row: Row): Response {
    Response(id, row.user, row.channel, row.recipient, row.subject, row.body, row.status, row.attempts, row.lastError,
             row.createdAt, row.sentAt)
  }

  function ToResponses(t: Table, ids: seq<nat>): seq<Response>
    requires forall i | 0 <= i < |ids| :: ids[i] in t
  {
    seq(|ids|, i requires 0 <= i < |ids| => ToResponse(ids[i], t[ids[i]]))
  }

  /** A response shows a row: every public field is the row's own. */
  predicate Shows(r: Response, id: nat, row: Row) {
    && r.id == id && r.user == row.user && r.channel == row.channel && r.recipient == row.recipient
    && r.subject == row.subject && r.body == row.body
    && r.status == row.status && r.attempts == row.attempts && r.lastError == row.lastError
    && r.createdAt == row.createdAt && r.sentAt == row.sentAt
  }

  /** A list of responses shows the rows of these ids, in this order. */
  predicate ShowsAll(items: seq<Response>, t: Table, ids: seq<nat>) {
    |items| == |ids| && forall k | 0 <= k < |ids| :: ids[k] in t && Shows(items[k], ids[k], t[ids[k]])
  }

  const LIST_TTL := 15_000
  const CLEARED_LIMITS: seq<nat> := [20, 50, 100]

  /** Limits in range are kept; any other becomes one of the limits whose lists an Enqueue deletes. */
  function NormalizeLimit(limit: int): (r: nat)
    ensures 1 <= r <= 100
    ensures r == limit <==> 1 <= limit <= 100
    ensures r != limit ==> r in CLEARED_LIMITS
    ensures limit <= 0 ==> r == 20
    ensures limit > 100 ==> r == 100
  {
    if limit <= 0 then 20 else if limit > 100 then 100 else limit
  }

  /** The cache key notif:list:<user>:<limit>. */
  datatype Key = Key(user: nat, limit: nat)

  /** The table from one write to the next. */
  datatype Version = Version(table: Table, since: int)

  /** A list as answered. Redis holds the items; the rest records which version they were read from, and when. */
  datatype Page = Page(items: seq<Response>, ids: seq<nat>, version: nat, readAt: int)

  /** A ListForUser call inside GetJSON, inside ListByUser, or inside SetJSON. */
  datatype Lister = Looking(key: Key) | Missed(key: Key) | Filling(key: Key, page: Page)

  /** An Enqueue call inside Publish, or about to delete the cleared limit of an index. */
  datatype Enqueuer = Publishing(user: nat, id: nat, version: nat) | Clearing(user: nat, id: nat, version: nat, index: nat)

  /** The answer of the call-th ListForUser: the page, when it was put into the cache, and when it was given. */
  datatype Answer = Answer(call: nat, key: Key, page: Page, wroteAt: int, at: int)

  datatype State = State(
    now: int,
    versions: seq<Version>,
    cache: map<Key, Entry<Page>>,
    calls: nat,
    listers: map<nat, Lister>,
    enqueues: nat,
    enqueuers: map<nat, Enqueuer>,
    answers: seq<Answer>)

  datatype Action =
    | Tick(elapsed: nat)
    // the worker's writes
    | WorkerMarksSent(id: nat, attempts: int)
    | WorkerMarksFailed(id: nat, attempts: int, lastError: string)
    // ListForUser
    | ListBegins(user: nat, rawLimit: int)
    | CacheAnswers(call: nat, failed: bool)
    | DatabaseAnswers(call: nat, ids: seq<nat>)
    | FillReturns(call: nat, applied: bool)
    | ListDies(call: nat)
    // Enqueue
    | InsertReturns(id: nat, user: nat, channel: string, recipient: string, subject: string, body: string)
    | PublishReturns(call: nat, ok: bool)
    | DeleteReturns(call: nat, applied: bool)

  function Current(s: State): Table
    requires s.versions != []
  {
    s.versions[|s.versions| - 1].table
  }

  predicate Enabled(s: State, a: Action) {
    s.versions != [] &&
    match a
    case Tick(_) => true
    case WorkerMarksSent(_, _) => true
    case WorkerMarksFailed(_, _, _) => true
    case ListBegins(_, _) => true
    case CacheAnswers(c, _) => c in s.listers && s.listers[c].Looking?
    case DatabaseAnswers(c, ids) =>
      c in s.listers && s.listers[c].Missed?
      && IsListing(Current(s), s.listers[c].key.user, s.listers[c].key.limit, ids)
    case FillReturns(c, _) => c in s.listers && s.listers[c].Filling?
    case ListDies(c) => c in s.listers
    case InsertReturns(id, _, _, _, _, _) => id !in Current(s)
    case PublishReturns(e, _) => e in s.enqueuers && s.enqueuers[e].Publishing?
    case DeleteReturns(e, _) =>
      e in s.enqueuers && s.enqueuers[e].Clearing? && s.enqueuers[e].index < |CLEARED_LIMITS|
  }

  function Wrote(s: State, t: Table): State {
    s.(versions := s.versions + [Version(t, s.now)])
  }

  function ClearedKey(e: Enqueuer): Key
    requires e.Clearing? && e.index < |CLEARED_LIMITS|
  {
    Key(e.user, CLEARED_LIMITS[e.index])
  }

  function Apply(s: State, a: Action): State
    requires Enabled(s, a)
  {
    match a
    case Tick(elapsed) => s.(now := s.now + elapsed)
    case WorkerMarksSent(id, attempts) => Wrote(s, MarkedSent(Current(s), id, attempts, s.now))
    case WorkerMarksFailed(id, attempts, lastError) => Wrote(s, MarkedFailed(Current(s), id, attempts, lastError, s.now))
    case ListBegins(user, rawLimit) =>
      s.(calls := s.calls + 1, listers := s.listers[s.calls := Looking(Key(user, NormalizeLimit(rawLimit)))])
    case CacheAnswers(c, failed) =>
      var key := s.listers[c].key;
      if !failed && Live(s.cache, key, s.now) then
        var entry := s.cache[key];
        s.(listers := s.listers - {c},
           answers := s.answers + [Answer(c, key, entry.value, entry.expiry.GetOr(s.now) - LIST_TTL, s.now)])
      else
        s.(listers := s.listers[c := Missed(key)])
    case DatabaseAnswers(c, ids) =>
      s.(listers := s.listers[c := Filling(s.listers[c].key,
                                           Page(ToResponses(Current(s), ids), ids, |s.versions| - 1, s.now))])
    case FillReturns(c, applied) =>
      var key, page := s.listers[c].key, s.listers[c].page;
      s.(listers := s.listers - {c},
         cache := if applied then Write(s.cache, key, page, s.now, LIST_TTL) else s.cache,
         answers := s.answers + [Answer(c, key, page, s.now, s.now)])
    case ListDies(c) => s.(listers := s.listers - {c})
    case InsertReturns(id, user, channel, recipient, subject, body) =>
      Wrote(s, Insert(Current(s), id, user, channel, recipient, subject, body, s.now)).(
        enqueues := s.enqueues + 1, enqueuers := s.enqueuers[s.enqueues := Publishing(user, id, |s.versions|)])
    case PublishReturns(e, ok) =>
      var Publishing(user, id, version) := s.enqueuers[e];
      s.(enqueuers := if ok then s.enqueuers[e := Clearing(user, id, version, 0)] else s.enqueuers - {e})
    case DeleteReturns(e, applied) =>
      var next := s.enqueuers[e].(index := s.enqueuers[e].index + 1);
      s.(cache := if applied then s.cache - {ClearedKey(s.enqueuers[e])} else s.cache,
         enqueuers := if next.index < |CLEARED_LIMITS| then s.enqueuers[e := next] else s.enqueuers - {e})
  }

  predicate ValidRun(s: State, run: seq<Action>)
    decreases |run|
  {
    run == [] || (Enabled(s, run[0]) && ValidRun(Apply(s, run[0]), run[1..]))
  }

  function After(s: State, run: seq<Action>): State
    requires ValidRun(s, run)
    decreases |run|
  {
    if run == [] then s else After(Apply(s, run[0]), run[1..])
  }

  /** Any table, nothing cached, nobody calling. */
  predicate Initial(s: State) {
    && |s.versions| == 1 && s.versions[0].since <= s.now
    && s.cache == map[] && s.calls == 0 && s.listers == map[] && s.enqueues == 0 && s.enqueuers == map[]
    && s.answers == []
  }
}
