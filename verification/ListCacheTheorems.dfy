/** How stale a list can be, and when a user reads their own writes. */
module ListCacheTheorems {
  import opened KeyStore
  import opened Repository
  import opened ListCache

  // ---------------------------------------------------------------- the invariant

  ghost predicate VersionsOk(versions: seq<Version>, now: int) {
    && versions != []
    && (forall i | 0 <= i < |versions| :: versions[i].since <= now)
    && (forall i, j | 0 <= i <= j < |versions| :: versions[i].since <= versions[j].since)
    && (forall i, j | 0 <= i <= j < |versions| :: Advances(versions[i].table, versions[j].table))
  }

  /** Version v was the table at a moment: it had been written and not yet been replaced. */
  predicate CurrentAt(versions: seq<Version>, v: nat, moment: int) {
    && v < |versions| && versions[v].since <= moment
    && (v + 1 < |versions| ==> moment <= versions[v + 1].since)
  }

  /** A page is what ListByUser answered for its key, from the table as it was when it was read. */
  predicate PageOk(versions: seq<Version>, key: Key, page: Page) {
    && CurrentAt(versions, page.version, page.readAt)
    && IsListing(versions[page.version].table, key.user, key.limit, page.ids)
    && page.items == ToResponses(versions[page.version].table, page.ids)
  }

  ghost predicate CacheOk(versions: seq<Version>, now: int, cache: map<Key, Entry<Page>>) {
    forall key | key in cache ::
      && PageOk(versions, key, cache[key].value)
      && cache[key].expiry.Some?
      && cache[key].value.readAt <= cache[key].expiry.value - LIST_TTL <= now
  }

  ghost predicate ListersOk(versions: seq<Version>, now: int, calls: nat, listers: map<nat, Lister>) {
    forall c | c in listers ::
      && c < calls
      && (listers[c].Filling? ==> PageOk(versions, listers[c].key, listers[c].page) && listers[c].page.readAt <= now)
  }

  /** An Enqueue's row is in the table from the version its insert made. */
  ghost predicate EnqueuersOk(versions: seq<Version>, enqueues: nat, enqueuers: map<nat, Enqueuer>) {
    forall e | e in enqueuers ::
      && e < enqueues
      && HasRow(versions, enqueuers[e].version, enqueuers[e].user, enqueuers[e].id)
      && (enqueuers[e].Clearing? ==> enqueuers[e].index < |CLEARED_LIMITS|)
  }

  predicate HasRow(versions: seq<Version>, v: nat, user: nat, id: nat) {
    v < |versions| && id in versions[v].table && versions[v].table[id].user == user
  }

  predicate AnswerOk(versions: seq<Version>, now: int, a: Answer) {
    && PageOk(versions, a.key, a.page)
    && a.page.readAt <= a.wroteAt <= a.at < a.wroteAt + LIST_TTL
    && a.at <= now
  }

  ghost predicate AnswersOk(versions: seq<Version>, now: int, answers: seq<Answer>) {
    forall k | 0 <= k < |answers| :: AnswerOk(versions, now, answers[k])
  }

  ghost predicate Inv(s: State) {
    && VersionsOk(s.versions, s.now)
    && CacheOk(s.versions, s.now, s.cache)
    && ListersOk(s.versions, s.now, s.calls, s.listers)
    && EnqueuersOk(s.versions, s.enqueues, s.enqueuers)
    && AnswersOk(s.versions, s.now, s.answers)
  }

  // ---------------------------------------------------------------- every step keeps it

  /** Another write ends the latest version and disturbs no page. */
  lemma PagesSurviveWrites(versions: seq<Version>, key: Key, page: Page, v: Version)
    requires PageOk(versions, key, page) && page.readAt <= v.since
    ensures PageOk(versions + [v], key, page)
  {
  }

  lemma WriteKeepsVersions(versions: seq<Version>, now: int, t: Table)
    requires VersionsOk(versions, now) && Advances(versions[|versions| - 1].table, t)
    ensures VersionsOk(versions + [Version(t, now)], now)
  {
    var after := versions + [Version(t, now)];
    forall i, j | 0 <= i <= j < |after|
      ensures Advances(after[i].table, after[j].table)
    {
      if i < j == |versions| {
        AdvancesIsTransitive(versions[i].table, versions[|versions| - 1].table, t);
      }
    }
  }

  lemma WriteKeepsCache(versions: seq<Version>, now: int, cache: map<Key, Entry<Page>>, v: Version)
    requires CacheOk(versions, now, cache) && v.since == now
    ensures CacheOk(versions + [v], now, cache)
  {
    forall key | key in cache
      ensures PageOk(versions + [v], key, cache[key].value)
    {
      PagesSurviveWrites(versions, key, cache[key].value, v);
    }
  }

  lemma WriteKeepsListers(versions: seq<Version>, now: int, calls: nat, listers: map<nat, Lister>, v: Version)
    requires ListersOk(versions, now, calls, listers) && v.since == now
    ensures ListersOk(versions + [v], now, calls, listers)
  {
    forall c | c in listers && listers[c].Filling?
      ensures PageOk(versions + [v], listers[c].key, listers[c].page)
    {
      PagesSurviveWrites(versions, listers[c].key, listers[c].page, v);
    }
  }

  lemma WriteKeepsEnqueuers(versions: seq<Version>, enqueues: nat, enqueuers: map<nat, Enqueuer>, v: Version)
    requires EnqueuersOk(versions, enqueues, enqueuers)
    ensures EnqueuersOk(versions + [v], enqueues, enqueuers)
  {
  }

  lemma WriteKeepsAnswers(versions: seq<Version>, now: int, answers: seq<Answer>, v: Version)
    requires AnswersOk(versions, now, answers) && v.since == now
    ensures AnswersOk(versions + [v], now, answers)
  {
    forall k | 0 <= k < |answers|
      ensures AnswerOk(versions + [v], now, answers[k])
    {
      PagesSurviveWrites(versions, answers[k].key, answers[k].page, v);
    }
  }

  lemma WriteKeepsInv(s: State, t: Table)
    requires Inv(s) && Advances(Current(s), t)
    ensures Inv(Wrote(s, t))
  {
    var v := Version(t, s.now);
    WriteKeepsVersions(s.versions, s.now, t);
    WriteKeepsCache(s.versions, s.now, s.cache, v);
    WriteKeepsListers(s.versions, s.now, s.calls, s.listers, v);
    WriteKeepsEnqueuers(s.versions, s.enqueues, s.enqueuers, v);
    WriteKeepsAnswers(s.versions, s.now, s.answers, v);
  }

  lemma TickKeepsInv(s: State, elapsed: nat)
    requires Inv(s)
    ensures Inv(s.(now := s.now + elapsed))
  {
  }

  lemma CacheAnswerKeepsInv(s: State, c: nat, failed: bool)
    requires Inv(s) && Enabled(s, CacheAnswers(c, failed))
    ensures Inv(Apply(s, CacheAnswers(c, failed)))
  {
    var key := s.listers[c].key;
    if !failed && Live(s.cache, key, s.now) {
      var entry := s.cache[key];
      assert AnswerOk(s.versions, s.now, Answer(c, key, entry.value, entry.expiry.value - LIST_TTL, s.now));
    }
  }

  lemma DatabaseAnswerKeepsInv(s: State, c: nat, ids: seq<nat>)
    requires Inv(s) && Enabled(s, DatabaseAnswers(c, ids))
    ensures Inv(Apply(s, DatabaseAnswers(c, ids)))
  {
    var t := Apply(s, DatabaseAnswers(c, ids));
    assert PageOk(s.versions, s.listers[c].key, t.listers[c].page);
    assert ListersOk(t.versions, t.now, t.calls, t.listers);
  }

  lemma FillKeepsInv(s: State, c: nat, applied: bool)
    requires Inv(s) && Enabled(s, FillReturns(c, applied))
    ensures Inv(Apply(s, FillReturns(c, applied)))
  {
    var t := Apply(s, FillReturns(c, applied));
    var key, page := s.listers[c].key, s.listers[c].page;
    assert PageOk(s.versions, key, page);
    assert AnswerOk(s.versions, s.now, Answer(c, key, page, s.now, s.now));
    assert ListersOk(t.versions, t.now, t.calls, t.listers);
    assert CacheOk(t.versions, t.now, t.cache);
  }

  /** An Enqueue that moves on keeps its row; an Enqueue that ends is no longer asked for one. */
  lemma MovingKeepsEnqueuers(versions: seq<Version>, enqueues: nat, enqueuers: map<nat, Enqueuer>, e: nat, next: Enqueuer)
    requires EnqueuersOk(versions, enqueues, enqueuers) && e in enqueuers
    requires next.user == enqueuers[e].user && next.id == enqueuers[e].id && next.version == enqueuers[e].version
    requires next.Clearing? ==> next.index < |CLEARED_LIMITS|
    ensures EnqueuersOk(versions, enqueues, enqueuers[e := next])
    ensures EnqueuersOk(versions, enqueues, enqueuers - {e})
  {
  }

  lemma DroppingKeepsCache(versions: seq<Version>, now: int, cache: map<Key, Entry<Page>>, key: Key)
    requires CacheOk(versions, now, cache)
    ensures CacheOk(versions, now, cache - {key})
  {
  }

  lemma PublishKeepsInv(s: State, e: nat, ok: bool)
    requires Inv(s) && Enabled(s, PublishReturns(e, ok))
    ensures Inv(Apply(s, PublishReturns(e, ok)))
  {
    var Publishing(user, id, version) := s.enqueuers[e];
    MovingKeepsEnqueuers(s.versions, s.enqueues, s.enqueuers, e, Clearing(user, id, version, 0));
  }

  lemma DeleteKeepsEnqueuers(s: State, e: nat, applied: bool)
    requires Enabled(s, DeleteReturns(e, applied)) && EnqueuersOk(s.versions, s.enqueues, s.enqueuers)
    ensures EnqueuersOk(s.versions, s.enqueues, Apply(s, DeleteReturns(e, applied)).enqueuers)
  {
    var next := s.enqueuers[e].(index := s.enqueuers[e].index + 1);
    if next.index < |CLEARED_LIMITS| {
      MovingKeepsEnqueuers(s.versions, s.enqueues, s.enqueuers, e, next);
    } else {
      MovingKeepsEnqueuers(s.versions, s.enqueues, s.enqueuers, e, s.enqueuers[e]);
    }
  }

  lemma DeleteKeepsInv(s: State, e: nat, applied: bool)
    requires Inv(s) && Enabled(s, DeleteReturns(e, applied))
    ensures Inv(Apply(s, DeleteReturns(e, applied)))
  {
    DeleteKeepsEnqueuers(s, e, applied);
    DroppingKeepsCache(s.versions, s.now, s.cache, ClearedKey(s.enqueuers[e]));
    var t := Apply(s, DeleteReturns(e, applied));
    assert t == s.(cache := t.cache, enqueuers := t.enqueuers);
  }

  lemma NewEnqueuerHasRow(versions: seq<Version>, enqueues: nat, enqueuers: map<nat, Enqueuer>, next: Enqueuer)
    requires EnqueuersOk(versions, enqueues, enqueuers)
    requires next.Publishing? && HasRow(versions, next.version, next.user, next.id)
    ensures EnqueuersOk(versions, enqueues + 1, enqueuers[enqueues := next])
  {
  }

  lemma InsertKeepsInv(s: State, a: Action)
    requires Inv(s) && Enabled(s, a) && a.InsertReturns?
    ensures Inv(Apply(s, a))
  {
    var rows := Insert(Current(s), a.id, a.user, a.channel, a.recipient, a.subject, a.body, s.now);
    WriteKeepsInv(s, rows);
    var written, next := Wrote(s, rows), Publishing(a.user, a.id, |s.versions|);
    NewEnqueuerHasRow(written.versions, s.enqueues, s.enqueuers, next);
    assert Apply(s, a) == written.(enqueues := s.enqueues + 1, enqueuers := s.enqueuers[s.enqueues := next]);
  }

  lemma ListBoundaryKeepsInv(s: State, a: Action)
    requires Inv(s) && Enabled(s, a) && (a.ListBegins? || a.ListDies?)
    ensures Inv(Apply(s, a))
  {
    var t := Apply(s, a);
    assert ListersOk(t.versions, t.now, t.calls, t.listers);
  }

  lemma StepKeepsInv(s: State, a: Action)
    requires Inv(s) && Enabled(s, a)
    ensures Inv(Apply(s, a))
  {
    match a
    case Tick(elapsed) => TickKeepsInv(s, elapsed);
    case WorkerMarksSent(id, attempts) =>
      WritesAdvance(Current(s), id, attempts, "", s.now);
      WriteKeepsInv(s, MarkedSent(Current(s), id, attempts, s.now));
    case WorkerMarksFailed(id, attempts, lastError) =>
      WritesAdvance(Current(s), id, attempts, lastError, s.now);
      WriteKeepsInv(s, MarkedFailed(Current(s), id, attempts, lastError, s.now));
    case ListBegins(_, _) => ListBoundaryKeepsInv(s, a);
    case CacheAnswers(c, failed) => CacheAnswerKeepsInv(s, c, failed);
    case DatabaseAnswers(c, ids) => DatabaseAnswerKeepsInv(s, c, ids);
    case FillReturns(c, applied) => FillKeepsInv(s, c, applied);
    case ListDies(_) => ListBoundaryKeepsInv(s, a);
    case InsertReturns(_, _, _, _, _, _) => InsertKeepsInv(s, a);
    case PublishReturns(e, ok) => PublishKeepsInv(s, e, ok);
    case DeleteReturns(e, applied) => DeleteKeepsInv(s, e, applied);
  }

  lemma {:induction false} RunKeepsInv(s: State, run: seq<Action>)
    requires Inv(s) && ValidRun(s, run)
    ensures Inv(After(s, run))
    decreases |run|
  {
    if run != [] {
      StepKeepsInv(s, run[0]);
      RunKeepsInv(Apply(s, run[0]), run[1..]);
    }
  }

  ghost predicate Reachable(s: State) {
    exists s0: State, run: seq<Action> :: Initial(s0) && ValidRun(s0, run) && After(s0, run) == s
  }

  lemma ReachableIsInv(s: State)
    requires Reachable(s)
    ensures Inv(s)
  {
    var s0: State, run: seq<Action> :| Initial(s0) && ValidRun(s0, run) && After(s0, run) == s;
    assert Inv(s0);
    RunKeepsInv(s0, run);
  }

  // ---------------------------------------------------------------- staleness

  /**
   * Every answer of ListForUser is the listing for that user and limit of a table that was current at some
   * moment, and that moment is less than 15 s, plus the time its reader took between the database and the
   * cache, before the answer.
   */
  lemma StalenessBound(s: State, k: nat)
    requires Reachable(s) && k < |s.answers|
    ensures var a := s.answers[k];
            && CurrentAt(s.versions, a.page.version, a.page.readAt)
            && IsListing(s.versions[a.page.version].table, a.key.user, a.key.limit, a.page.ids)
            && a.page.items == ToResponses(s.versions[a.page.version].table, a.page.ids)
            && 0 <= a.wroteAt - a.page.readAt
            && 0 <= a.at - a.page.readAt < 15_000 + (a.wroteAt - a.page.readAt)
    ensures var a := s.answers[k];
            ShowsAll(a.page.items, s.versions[a.page.version].table, a.page.ids)
  {
    ReachableIsInv(s);
    assert AnswerOk(s.versions, s.now, s.answers[k]);
  }

  /** Whatever is answered is a list of rows of that user, newest first, no row twice, and no more than asked for. */
  lemma AnswersAreOrdered(s: State, k: nat)
    requires Reachable(s) && k < |s.answers|
    ensures var a := s.answers[k];
            && |a.page.items| <= a.key.limit
            && (forall i | 0 <= i < |a.page.items| :: a.page.items[i].user == a.key.user)
            && (forall i, j | 0 <= i < j < |a.page.items| ::
                  a.page.items[i].createdAt >= a.page.items[j].createdAt && a.page.items[i].id != a.page.items[j].id)
  {
    StalenessBound(s, k);
  }

  /** The content and the creation time that an insert gave to a row. */
  predicate ShowsInsert(r: Response, a: Action, now: int)
    requires a.InsertReturns?
  {
    && r.user == a.user && r.channel == a.channel && r.recipient == a.recipient && r.subject == a.subject
    && r.body == a.body && r.createdAt == now
  }

  /**
   * End to end: wherever the row of an Enqueue turns up in an answer, from the cache or the table and after
   * whatever workers have written, it shows what the Enqueue was given and when it was inserted.
   */
  lemma AnswersShowWhatWasEnqueued(s: State, a: Action, run: seq<Action>, k: nat, j: nat)
    requires Reachable(s) && a.InsertReturns? && Enabled(s, a) && ValidRun(Apply(s, a), run)
    requires var end := After(Apply(s, a), run);
             k < |end.answers| && j < |end.answers[k].page.items| && end.answers[k].page.items[j].id == a.id
    ensures ShowsInsert(After(Apply(s, a), run).answers[k].page.items[j], a, s.now)
  {
    var t := Apply(s, a);
    var end := After(t, run);
    StepReaches(s, a);
    StillReachable(t, run);
    VersionsStay(t, run);
    StalenessBound(end, k);
    var v := end.answers[k].page.version;
    assert end.answers[k].page.ids[j] == a.id && a.id in end.versions[v].table;
    RowFromInsert(end, |s.versions|, v, a.id);
    assert end.versions[|s.versions|] == t.versions[|s.versions|];
  }

  /** A row's content is the same in every version that has it. */
  lemma RowFromInsert(s: State, v: nat, w: nat, id: nat)
    requires Reachable(s) && v < |s.versions| && w < |s.versions| && id in s.versions[v].table && id in s.versions[w].table
    ensures var r, q := s.versions[v].table[id], s.versions[w].table[id];
            && r.user == q.user && r.channel == q.channel && r.recipient == q.recipient && r.subject == q.subject
            && r.body == q.body && r.createdAt == q.createdAt
  {
    ReachableIsInv(s);
    assert Advances(s.versions[v].table, s.versions[w].table) || Advances(s.versions[w].table, s.versions[v].table);
  }

  lemma StepReaches(s: State, a: Action)
    requires Reachable(s) && Enabled(s, a)
    ensures Reachable(Apply(s, a))
  {
    assert ValidRun(Apply(s, a), []);
    RunsThen(s, a, []);
    StillReachable(s, [a] + []);
  }

  // ---------------------------------------------------------------- reading one's writes

  /** No list of this key that was read before version v is on its way to the cache. */
  predicate NobodyStraddles(s: State, key: Key, v: nat) {
    forall c | c in s.listers && s.listers[c].Filling? && s.listers[c].key == key :: s.listers[c].page.version >= v
  }

  /** Neither the cache nor a lister on its way to the cache holds a list of this key older than version v. */
  ghost predicate Fresh(s: State, key: Key, v: nat) {
    && (Live(s.cache, key, s.now) ==> s.cache[key].value.version >= v)
    && NobodyStraddles(s, key, v)
  }

  /** In every continuation, calls that begin from here on are answered from version v or a later one. */
  ghost predicate AlwaysFresh(s: State, key: Key, v: nat) {
    forall run, k | ValidRun(s, run) && 0 <= k < |After(s, run).answers| && After(s, run).answers[k].key == key
                    && After(s, run).answers[k].call >= s.calls ::
      After(s, run).answers[k].page.version >= v
  }

  /** All answers to this key given since there were n of them come from version v or a later one. */
  ghost predicate AnsweredFresh(s: State, n: nat, key: Key, v: nat) {
    forall k | n <= k < |s.answers| && s.answers[k].key == key :: s.answers[k].page.version >= v
  }

  lemma StepKeepsListersFresh(s: State, a: Action, key: Key, v: nat)
    requires Enabled(s, a) && v < |s.versions| && NobodyStraddles(s, key, v)
    ensures NobodyStraddles(Apply(s, a), key, v)
  {
  }

  lemma StepKeepsCacheFresh(s: State, a: Action, key: Key, v: nat)
    requires Enabled(s, a) && Fresh(s, key, v)
    ensures Live(Apply(s, a).cache, key, Apply(s, a).now) ==> Apply(s, a).cache[key].value.version >= v
  {
  }

  lemma StepAnswersFresh(s: State, a: Action, key: Key, v: nat, n: nat)
    requires Enabled(s, a) && Fresh(s, key, v) && AnsweredFresh(s, n, key, v)
    ensures AnsweredFresh(Apply(s, a), n, key, v)
  {
  }

  lemma StepKeepsFresh(s: State, a: Action, key: Key, v: nat, n: nat)
    requires Enabled(s, a) && v < |s.versions| && n <= |s.answers|
    requires Fresh(s, key, v) && AnsweredFresh(s, n, key, v)
    ensures Fresh(Apply(s, a), key, v) && AnsweredFresh(Apply(s, a), n, key, v)
    ensures v < |Apply(s, a).versions| && n <= |Apply(s, a).answers|
  {
    StepKeepsListersFresh(s, a, key, v);
    StepKeepsCacheFresh(s, a, key, v);
    StepAnswersFresh(s, a, key, v, n);
  }

  lemma {:induction false} RunKeepsFresh(s: State, run: seq<Action>, key: Key, v: nat, n: nat)
    requires Inv(s) && ValidRun(s, run) && v < |s.versions| && n <= |s.answers|
    requires Fresh(s, key, v) && AnsweredFresh(s, n, key, v)
    ensures Fresh(After(s, run), key, v) && AnsweredFresh(After(s, run), n, key, v)
    decreases |run|
  {
    if run != [] {
      StepKeepsFresh(s, run[0], key, v, n);
      StepKeepsInv(s, run[0]);
      RunKeepsFresh(Apply(s, run[0]), run[1..], key, v, n);
    }
  }

  lemma RunsThen(s: State, a: Action, rest: seq<Action>)
    requires Enabled(s, a) && ValidRun(Apply(s, a), rest)
    ensures ValidRun(s, [a] + rest) && After(s, [a] + rest) == After(Apply(s, a), rest)
  {
    assert ([a] + rest)[1..] == rest;
  }

  /** A live list in the cache is what the next call for its key is answered with. */
  lemma NextCallHits(s: State, key: Key) returns (run: seq<Action>)
    requires Inv(s) && 1 <= key.limit <= 100 && Live(s.cache, key, s.now)
    ensures ValidRun(s, run) && After(s, run).versions == s.versions
    ensures var t := After(s, run);
            && |t.answers| == |s.answers| + 1 && t.answers[|s.answers|].key == key
            && t.answers[|s.answers|].call == s.calls
            && t.answers[|s.answers|].page == s.cache[key].value
  {
    var begin, get := ListBegins(key.user, key.limit), CacheAnswers(s.calls, false);
    var s1 := Apply(s, begin);
    RunsThen(s1, get, []);
    RunsThen(s, begin, [get] + []);
    run := [begin] + ([get] + []);
  }

  /** A lister about to fill the cache makes its page what the next call is answered with. */
  lemma FillerServesNextCall(s: State, c: nat) returns (run: seq<Action>)
    requires Inv(s) && c in s.listers && s.listers[c].Filling? && 1 <= s.listers[c].key.limit <= 100
    ensures ValidRun(s, run)
    ensures var t, k := After(s, run), |s.answers| + 1;
            && k < |t.answers| && t.answers[k].key == s.listers[c].key && t.answers[k].call == s.calls
            && t.answers[k].page == s.listers[c].page
  {
    var fill := FillReturns(c, true);
    StepKeepsInv(s, fill);
    var s1 := Apply(s, fill);
    run := NextCallHits(s1, s.listers[c].key);
    RunsThen(s, fill, run);
    run := [fill] + run;
  }

  /**
   * From a reachable state on, later calls for a key see version v exactly when, now, no live cache entry and
   * no lister between its database read and its cache write holds an older list.
   */
  lemma FreshIffAlwaysFresh(s: State, key: Key, v: nat)
    requires Reachable(s) && v < |s.versions| && 1 <= key.limit <= 100
    ensures AlwaysFresh(s, key, v) <==> Fresh(s, key, v)
  {
    ReachableIsInv(s);
    if Fresh(s, key, v) {
      forall run, k | ValidRun(s, run) && 0 <= k < |After(s, run).answers| && After(s, run).answers[k].key == key
                      && After(s, run).answers[k].call >= s.calls
        ensures After(s, run).answers[k].page.version >= v
      {
        LaterAnswersFresh(s, run, key, v, k);
      }
    } else if Live(s.cache, key, s.now) && s.cache[key].value.version < v {
      var run := NextCallHits(s, key);
      assert After(s, run).answers[|s.answers|].page.version < v;
    } else {
      var c :| c in s.listers && s.listers[c].Filling? && s.listers[c].key == key && s.listers[c].page.version < v;
      var run := FillerServesNextCall(s, c);
      assert After(s, run).answers[|s.answers| + 1].page.version < v;
    }
  }

  lemma LaterAnswersFresh(s: State, run: seq<Action>, key: Key, v: nat, k: nat)
    requires Reachable(s) && v < |s.versions| && Fresh(s, key, v) && ValidRun(s, run)
    requires k < |After(s, run).answers| && After(s, run).answers[k].key == key
    requires After(s, run).answers[k].call >= s.calls
    ensures After(s, run).answers[k].page.version >= v
  {
    ReachableIsInv(s);
    RunKeepsFresh(s, run, key, v, |s.answers|);
    AnswersStay(s, run);
    if k < |s.answers| {
      CallsCounted(s);
    }
  }

  /** Answers are final, and calls are numbered as they begin. */
  lemma {:induction false} AnswersStay(s: State, run: seq<Action>)
    requires ValidRun(s, run)
    ensures s.answers <= After(s, run).answers
    decreases |run|
  {
    if run != [] {
      AnswersStay(Apply(s, run[0]), run[1..]);
    }
  }

  lemma CallsCounted(s: State)
    requires Reachable(s)
    ensures forall k | 0 <= k < |s.answers| :: s.answers[k].call < s.calls
  {
    var s0: State, run: seq<Action> :| Initial(s0) && ValidRun(s0, run) && After(s0, run) == s;
    RunCountsCalls(s0, run);
  }

  /** Answered and running calls are among those that have begun. */
  ghost predicate CallsBegun(s: State) {
    && (forall k | 0 <= k < |s.answers| :: s.answers[k].call < s.calls)
    && (forall c | c in s.listers :: c < s.calls)
  }

  lemma StepCountsCalls(s: State, a: Action)
    requires Enabled(s, a) && CallsBegun(s)
    ensures CallsBegun(Apply(s, a))
  {
  }

  lemma {:induction false} RunCountsCalls(s: State, run: seq<Action>)
    requires ValidRun(s, run) && CallsBegun(s)
    ensures CallsBegun(After(s, run))
    decreases |run|
  {
    if run != [] {
      StepCountsCalls(s, run[0]);
      RunCountsCalls(Apply(s, run[0]), run[1..]);
    }
  }

  /** An Enqueue's publish succeeds, and its deletes take effect with no stale list straddling them. */
  predicate CleanStep(s: State, a: Action, e: nat, v: nat)
    requires Enabled(s, a)
  {
    && (a.PublishReturns? && a.call == e ==> a.ok)
    && (a.DeleteReturns? && a.call == e ==> a.applied && NobodyStraddles(s, ClearedKey(s.enqueuers[e]), v))
  }

  predicate CleanFor(s: State, run: seq<Action>, e: nat, v: nat)
    requires ValidRun(s, run)
    decreases |run|
  {
    run == [] || (CleanStep(s, run[0], e, v) && CleanFor(Apply(s, run[0]), run[1..], e, v))
  }

  /** The limits an Enqueue has already cleared, all of them when it is done, are fresh. */
  ghost predicate ClearedSoFar(s: State, e: nat, user: nat, id: nat, v: nat) {
    && HasRow(s.versions, v, user, id) && e < s.enqueues
    && (e in s.enqueuers ==>
          s.enqueuers[e].user == user && s.enqueuers[e].id == id && s.enqueuers[e].version == v)
    && forall j | 0 <= j < |CLEARED_LIMITS| &&
                  (e !in s.enqueuers || (s.enqueuers[e].Clearing? && j < s.enqueuers[e].index)) ::
         Fresh(s, Key(user, CLEARED_LIMITS[j]), v)
  }

  /** Before its deletes an Enqueue has cleared nothing. */
  lemma PublishingIsCleared(s: State, e: nat)
    requires EnqueuersOk(s.versions, s.enqueues, s.enqueuers) && e in s.enqueuers && s.enqueuers[e].Publishing?
    ensures ClearedSoFar(s, e, s.enqueuers[e].user, s.enqueuers[e].id, s.enqueuers[e].version)
  {
  }

  /** A delete that nobody straddles makes its key fresh. */
  lemma DeleteMakesFresh(s: State, e: nat, v: nat)
    requires Enabled(s, DeleteReturns(e, true)) && NobodyStraddles(s, ClearedKey(s.enqueuers[e]), v)
    ensures Fresh(Apply(s, DeleteReturns(e, true)), ClearedKey(s.enqueuers[e]), v)
  {
  }

  /** A limit that is cleared after a step was cleared before it, or is the one the step deleted. */
  lemma ClearedBefore(s: State, a: Action, e: nat, v: nat, j: nat)
    requires Enabled(s, a) && CleanStep(s, a, e, v) && j < |CLEARED_LIMITS| && e < s.enqueues
    requires e in s.enqueuers && s.enqueuers[e].Clearing? ==> s.enqueuers[e].index < |CLEARED_LIMITS|
    requires var t := Apply(s, a); e !in t.enqueuers || (t.enqueuers[e].Clearing? && j < t.enqueuers[e].index)
    ensures e !in s.enqueuers || (s.enqueuers[e].Clearing? && j < s.enqueuers[e].index)
            || (a == DeleteReturns(e, true) && j == s.enqueuers[e].index)
  {
  }

  lemma StepKeepsCleared(s: State, a: Action, e: nat, user: nat, id: nat, v: nat)
    requires Inv(s) && Enabled(s, a) && CleanStep(s, a, e, v) && ClearedSoFar(s, e, user, id, v)
    ensures ClearedSoFar(Apply(s, a), e, user, id, v)
  {
    var t := Apply(s, a);
    KeepsIdentity(s, a, e, user, id, v);
    forall j | 0 <= j < |CLEARED_LIMITS| &&
               (e !in t.enqueuers || (t.enqueuers[e].Clearing? && j < t.enqueuers[e].index))
      ensures Fresh(t, Key(user, CLEARED_LIMITS[j]), v)
    {
      ClearedBefore(s, a, e, v, j);
      if e !in s.enqueuers || (s.enqueuers[e].Clearing? && j < s.enqueuers[e].index) {
        assert Fresh(s, Key(user, CLEARED_LIMITS[j]), v);
        StepKeepsFresh(s, a, Key(user, CLEARED_LIMITS[j]), v, |s.answers|);
      } else {
        DeleteMakesFresh(s, e, v);
      }
    }
  }

  lemma KeepsIdentity(s: State, a: Action, e: nat, user: nat, id: nat, v: nat)
    requires Enabled(s, a) && HasRow(s.versions, v, user, id) && e < s.enqueues
    requires e in s.enqueuers ==> s.enqueuers[e].user == user && s.enqueuers[e].id == id && s.enqueuers[e].version == v
    ensures var t := Apply(s, a);
            && HasRow(t.versions, v, user, id) && e < t.enqueues
            && (e in t.enqueuers ==>
                  t.enqueuers[e].user == user && t.enqueuers[e].id == id && t.enqueuers[e].version == v)
  {
  }

  lemma {:induction false} RunKeepsCleared(s: State, run: seq<Action>, e: nat, user: nat, id: nat, v: nat)
    requires Inv(s) && ValidRun(s, run) && CleanFor(s, run, e, v) && ClearedSoFar(s, e, user, id, v)
    ensures ClearedSoFar(After(s, run), e, user, id, v)
    decreases |run|
  {
    if run != [] {
      StepKeepsCleared(s, run[0], e, user, id, v);
      StepKeepsInv(s, run[0]);
      RunKeepsCleared(Apply(s, run[0]), run[1..], e, user, id, v);
    }
  }

  lemma {:induction false} VersionsStay(s: State, run: seq<Action>)
    requires ValidRun(s, run)
    ensures s.versions <= After(s, run).versions
    decreases |run|
  {
    if run != [] {
      VersionsStay(Apply(s, run[0]), run[1..]);
    }
  }

  lemma {:induction false} RunsConcatenate(s: State, run: seq<Action>, more: seq<Action>)
    requires ValidRun(s, run) && ValidRun(After(s, run), more)
    ensures ValidRun(s, run + more) && After(s, run + more) == After(After(s, run), more)
    decreases |run|
  {
    if run == [] {
      assert run + more == more;
    } else {
      RunsConcatenate(Apply(s, run[0]), run[1..], more);
      assert (run + more)[0] == run[0] && (run + more)[1..] == run[1..] + more;
    }
  }

  lemma StillReachable(s: State, run: seq<Action>)
    requires Reachable(s) && ValidRun(s, run)
    ensures Reachable(After(s, run))
  {
    var s0: State, before: seq<Action> :| Initial(s0) && ValidRun(s0, before) && After(s0, before) == s;
    RunsConcatenate(s0, before, run);
  }

  lemma CleanEnqueueFreshens(s: State, e: nat, run: seq<Action>, j: nat)
    requires Inv(s) && e in s.enqueuers && s.enqueuers[e].Publishing? && j < |CLEARED_LIMITS|
    requires ValidRun(s, run) && CleanFor(s, run, e, s.enqueuers[e].version) && e !in After(s, run).enqueuers
    ensures s.enqueuers[e].version < |After(s, run).versions|
    ensures Fresh(After(s, run), Key(s.enqueuers[e].user, CLEARED_LIMITS[j]), s.enqueuers[e].version)
  {
    PublishingIsCleared(s, e);
    RunKeepsCleared(s, run, e, s.enqueuers[e].user, s.enqueuers[e].id, s.enqueuers[e].version);
  }

  /** After a clean Enqueue, later calls at 20, 50 and 100 are answered from its insert's version or a later one. */
  lemma CleanEnqueueFreshensKnownLimits(s: State, e: nat, run: seq<Action>, limit: nat)
    requires Reachable(s) && e in s.enqueuers && s.enqueuers[e].Publishing? && limit in CLEARED_LIMITS
    requires ValidRun(s, run) && CleanFor(s, run, e, s.enqueuers[e].version) && e !in After(s, run).enqueuers
    ensures AlwaysFresh(After(s, run), Key(s.enqueuers[e].user, limit), s.enqueuers[e].version)
  {
    ReachableIsInv(s);
    var j :| 0 <= j < |CLEARED_LIMITS| && CLEARED_LIMITS[j] == limit;
    CleanEnqueueFreshens(s, e, run, j);
    StillReachable(s, run);
    FreshIffAlwaysFresh(After(s, run), Key(s.enqueuers[e].user, limit), s.enqueuers[e].version);
  }

  /**
   * Read your writes: an Enqueue has returned with success, its three deletes took effect, and no list of the
   * user that was read before the insert was on its way to the cache at its key's delete. Then every later
   * ListForUser whose limit normalises to 20, 50 or 100 contains the new row, or the table it was read
   * from holds at least that many rows of the user that are no older.
   */
  lemma ReadYourWrites(s: State, e: nat, run: seq<Action>, later: seq<Action>, rawLimit: int, k: nat)
    requires Reachable(s) && e in s.enqueuers && s.enqueuers[e].Publishing?
    requires ValidRun(s, run) && CleanFor(s, run, e, s.enqueuers[e].version) && e !in After(s, run).enqueuers
    requires NormalizeLimit(rawLimit) in CLEARED_LIMITS
    requires ValidRun(After(s, run), later)
    requires var end := After(After(s, run), later);
             && k < |end.answers| && end.answers[k].call >= After(s, run).calls
             && end.answers[k].key == Key(s.enqueuers[e].user, NormalizeLimit(rawLimit))
    ensures var end, id := After(After(s, run), later), s.enqueuers[e].id;
            var page := end.answers[k].page;
            && page.version < |end.versions| && id in end.versions[page.version].table
            && (id in page.ids || NormalizeLimit(rawLimit) <= |AtLeastAsNew(end.versions[page.version].table, id)|)
  {
    var user, id, v := s.enqueuers[e].user, s.enqueuers[e].id, s.enqueuers[e].version;
    var limit := NormalizeLimit(rawLimit);
    CleanEnqueueFreshensKnownLimits(s, e, run, limit);
    var t := After(s, run);
    var end := After(t, later);
    var w := end.answers[k].page.version;
    assert w >= v;
    ReachableIsInv(s);
    VersionsStay(s, run);
    VersionsStay(t, later);
    StillReachable(s, run);
    StillReachable(t, later);
    ReachableIsInv(end);
    assert AnswerOk(end.versions, end.now, end.answers[k]);
    assert HasRow(end.versions, v, user, id);
    assert Advances(end.versions[v].table, end.versions[w].table);
    ListingContains(end.versions[w].table, user, limit, end.answers[k].page.ids, id);
  }

  // ---------------------------------------------------------------- the other limits

  /** Nobody refills this key. */
  predicate NoFill(s: State, run: seq<Action>, key: Key)
    requires ValidRun(s, run)
    decreases |run|
  {
    run == [] ||
    ((run[0].FillReturns? && run[0].applied ==> s.listers[run[0].call].key != key)
     && NoFill(Apply(s, run[0]), run[1..], key))
  }

  predicate SameEntry(s: State, t: State, key: Key) {
    (key in s.cache <==> key in t.cache) && (key in s.cache ==> s.cache[key] == t.cache[key])
  }

  lemma {:induction false} OtherEntriesStay(s: State, run: seq<Action>, key: Key)
    requires ValidRun(s, run) && NoFill(s, run, key) && key.limit !in CLEARED_LIMITS
    ensures SameEntry(s, After(s, run), key)
    decreases |run|
  {
    if run != [] {
      assert SameEntry(s, Apply(s, run[0]), key);
      OtherEntriesStay(Apply(s, run[0]), run[1..], key);
    }
  }

  /**
   * Deletes reach no other limit. There, whatever is written, published and deleted in a run that does not refill
   * the key, later calls see version v exactly when the list that was cached before the run has run out
   * or is no older than v, and no older list is on its way to the cache.
   */
  lemma OtherLimitsStayStale(s: State, run: seq<Action>, key: Key, v: nat)
    requires Reachable(s) && ValidRun(s, run) && NoFill(s, run, key) && v < |After(s, run).versions|
    requires 1 <= key.limit <= 100 && key.limit !in CLEARED_LIMITS
    ensures AlwaysFresh(After(s, run), key, v)
            <==> (Live(s.cache, key, After(s, run).now) ==> s.cache[key].value.version >= v)
                 && NobodyStraddles(After(s, run), key, v)
  {
    OtherEntriesStay(s, run, key);
    StillReachable(s, run);
    FreshIffAlwaysFresh(After(s, run), key, v);
  }

  // Such a list is easily cached: one list call, a whole clean Enqueue, and the next list call misses the new row.

  /** The page that the database answers now. */
  function PageNow(s: State, ids: seq<nat>): Page
    requires s.versions != [] && forall i | 0 <= i < |ids| :: ids[i] in Current(s)
  {
    Page(ToResponses(Current(s), ids), ids, |s.versions| - 1, s.now)
  }

  lemma CallMisses(s: State, key: Key) returns (run: seq<Action>)
    requires s.versions != [] && key !in s.cache && 1 <= key.limit <= 100
    ensures ValidRun(s, run)
    ensures After(s, run) == s.(calls := s.calls + 1, listers := s.listers[s.calls := Missed(key)])
  {
    var begin, get := ListBegins(key.user, key.limit), CacheAnswers(s.calls, false);
    var s1 := Apply(s, begin);
    assert s1.listers[s.calls := Missed(key)] == s.listers[s.calls := Missed(key)];
    RunsThen(s1, get, []);
    RunsThen(s, begin, [get] + []);
    run := [begin] + ([get] + []);
  }

  /** A list call misses the cache and reads the table. */
  lemma CallReads(s: State, key: Key, ids: seq<nat>) returns (run: seq<Action>)
    requires s.versions != [] && key !in s.cache && 1 <= key.limit <= 100
    requires IsListing(Current(s), key.user, key.limit, ids)
    ensures ValidRun(s, run)
    ensures After(s, run) == s.(calls := s.calls + 1, listers := s.listers[s.calls := Filling(key, PageNow(s, ids))])
  {
    run := CallMisses(s, key);
    var s1, read := After(s, run), DatabaseAnswers(s.calls, ids);
    assert Apply(s1, read).listers == s.listers[s.calls := Filling(key, PageNow(s, ids))];
    RunsThen(s1, read, []);
    RunsConcatenate(s, run, [read] + []);
    run := run + ([read] + []);
  }

  /** And it leaves its list in the cache. */
  lemma ListFills(s: State, key: Key, ids: seq<nat>) returns (run: seq<Action>)
    requires s.versions != [] && s.listers == map[] && key !in s.cache && 1 <= key.limit <= 100
    requires IsListing(Current(s), key.user, key.limit, ids)
    ensures ValidRun(s, run)
    ensures After(s, run) == s.(calls := s.calls + 1, cache := Write(s.cache, key, PageNow(s, ids), s.now, LIST_TTL),
                                answers := s.answers + [Answer(s.calls, key, PageNow(s, ids), s.now, s.now)])
  {
    run := CallReads(s, key, ids);
    var s1, fill := After(s, run), FillReturns(s.calls, true);
    assert s1.listers - {s.calls} == s.listers;
    RunsThen(s1, fill, []);
    RunsConcatenate(s, run, [fill] + []);
    run := run + ([fill] + []);
  }

  lemma CleanThen(s: State, a: Action, rest: seq<Action>, e: nat, v: nat)
    requires Enabled(s, a) && ValidRun(Apply(s, a), rest)
    ensures ValidRun(s, [a] + rest) && After(s, [a] + rest) == After(Apply(s, a), rest)
    ensures CleanStep(s, a, e, v) && CleanFor(Apply(s, a), rest, e, v) ==> CleanFor(s, [a] + rest, e, v)
  {
    assert ([a] + rest)[1..] == rest;
  }

  /** The rest of an Enqueue whose publish succeeds and whose deletes all take effect, with no other call moving. */
  function Success(e: nat): seq<Action> {
    [PublishReturns(e, true), DeleteReturns(e, true), DeleteReturns(e, true), DeleteReturns(e, true)]
  }

  lemma EnqueueEnds(s: State, e: nat)
    requires s.versions != [] && e in s.enqueuers && s.enqueuers[e].Publishing?
    ensures ValidRun(s, Success(e))
    ensures s.listers == map[] ==> CleanFor(s, Success(e), e, s.enqueuers[e].version)
    ensures var t, user := After(s, Success(e)), s.enqueuers[e].user;
            && t.cache == s.cache - {Key(user, 20), Key(user, 50), Key(user, 100)}
            && t == s.(cache := t.cache, enqueuers := s.enqueuers - {e})
  {
    var v := s.enqueuers[e].version;
    var publish, delete := PublishReturns(e, true), DeleteReturns(e, true);
    var s1 := Apply(s, publish);
    var s2 := Apply(s1, delete);
    var s3 := Apply(s2, delete);
    var s4 := Apply(s3, delete);
    assert s4.enqueuers == s.enqueuers - {e};
    CleanThen(s3, delete, [], e, v);
    CleanThen(s2, delete, [delete] + [], e, v);
    CleanThen(s1, delete, [delete] + ([delete] + []), e, v);
    CleanThen(s, publish, [delete] + ([delete] + ([delete] + [])), e, v);
    assert Success(e) == [publish] + ([delete] + ([delete] + ([delete] + [])));
  }

  /**
   * From any initial state and at any limit but 20, 50 and 100: a list call, a whole clean Enqueue, and the next
   * list call does not contain the new row, although every listing of the table now would if it is the newest.
   */
  lemma OtherLimitMissesWrite(s0: State, user: nat, limit: nat, ids: seq<nat>, id: nat)
    returns (before: seq<Action>, later: seq<Action>)
    requires Initial(s0) && 1 <= limit <= 100 && limit !in CLEARED_LIMITS
    requires IsListing(Current(s0), user, limit, ids) && id !in Current(s0)
    ensures ValidRun(s0, before)
    ensures var s := After(s0, before);
            && s.enqueuers == map[0 := Publishing(user, id, 1)]
            && ValidRun(s, Success(0)) && CleanFor(s, Success(0), 0, 1) && After(s, Success(0)).enqueuers == map[]
            && ValidRun(After(s, Success(0)), later)
    ensures var end := After(After(After(s0, before), Success(0)), later);
            && |end.answers| == 2 && end.answers[1].key == Key(user, limit) && id !in end.answers[1].page.ids
            && end.versions != [] && id in Current(end) && Current(end)[id].user == user
            && (AtLeastAsNew(Current(end), id) == {} ==>
                  forall l | IsListing(Current(end), user, limit, l) :: id in l)
  {
    var key := Key(user, limit);
    var s1;
    before, s1 := ListedThenInserted(s0, key, ids, id);
    EnqueueEnds(s1, 0);
    var s2 := After(s1, Success(0));
    assert s2.enqueuers == map[];
    StillReachable(s0, before);
    StillReachable(s1, Success(0));
    ReachableIsInv(s2);
    later := NextCallHits(s2, key);
    var now := Current(s2);
    forall l | IsListing(now, user, limit, l) && AtLeastAsNew(now, id) == {}
      ensures id in l
    {
      ListingContains(now, user, limit, l, id);
    }
  }

  lemma ListedThenInserted(s0: State, key: Key, ids: seq<nat>, id: nat) returns (run: seq<Action>, s: State)
    requires Initial(s0) && 1 <= key.limit <= 100
    requires IsListing(Current(s0), key.user, key.limit, ids) && id !in Current(s0)
    ensures ValidRun(s0, run) && After(s0, run) == s && Reachable(s0)
    ensures s.enqueuers == map[0 := Publishing(key.user, id, 1)] && s.listers == map[] && |s.answers| == 1
    ensures |s.versions| == 2 && id in Current(s) && Current(s)[id].user == key.user
    ensures Live(s.cache, key, s.now) && s.cache[key].value.ids == ids
  {
    run := ListFills(s0, key, ids);
    var s1, insert := After(s0, run), InsertReturns(id, key.user, "email", "", "", "");
    RunsThen(s1, insert, []);
    RunsConcatenate(s0, run, [insert] + []);
    run := run + ([insert] + []);
    s := Apply(s1, insert);
    assert ValidRun(s0, []) && After(s0, []) == s0;
  }
  // At 20, 50 and 100 it takes a reader that has read the table before the insert and fills the cache after the deletes.

  /** A list call reads the table, and then a row is inserted. */
  lemma ReadThenInserted(s0: State, key: Key, ids: seq<nat>, id: nat) returns (run: seq<Action>, s: State)
    requires Initial(s0) && 1 <= key.limit <= 100
    requires IsListing(Current(s0), key.user, key.limit, ids) && id !in Current(s0)
    ensures ValidRun(s0, run) && After(s0, run) == s && Reachable(s0)
    ensures s.enqueuers == map[0 := Publishing(key.user, id, 1)] && s.answers == []
    ensures s.listers == map[0 := Filling(key, PageNow(s0, ids))]
    ensures |s.versions| == 2 && id in Current(s) && Current(s)[id].user == key.user
  {
    run := CallReads(s0, key, ids);
    var s1, insert := After(s0, run), InsertReturns(id, key.user, "email", "", "", "");
    s := Apply(s1, insert);
    RunsThen(s1, insert, []);
    RunsConcatenate(s0, run, [insert] + []);
    run := run + ([insert] + []);
    assert ValidRun(s0, []) && After(s0, []) == s0;
  }

  lemma StraddlerServesNextCall(s0: State, before: seq<Action>, s: State) returns (later: seq<Action>)
    requires Reachable(s0) && ValidRun(s0, before) && After(s0, before) == s && ValidRun(s, Success(0))
    requires var t := After(s, Success(0));
             0 in t.listers && t.listers[0].Filling? && 1 <= t.listers[0].key.limit <= 100
    ensures var t := After(s, Success(0));
            && ValidRun(t, later)
            && var end, k := After(t, later), |t.answers| + 1;
               && k < |end.answers| && end.answers[k].key == t.listers[0].key
               && end.answers[k].call == t.calls && end.answers[k].page == t.listers[0].page
  {
    StillReachable(s0, before);
    StillReachable(s, Success(0));
    ReachableIsInv(After(s, Success(0)));
    later := FillerServesNextCall(After(s, Success(0)), 0);
  }

  /**
   * From any initial state and at every limit, 20, 50 and 100 included: a reader straddles an Enqueue whose publish
   * succeeds and whose deletes all take effect, and a list call that begins after the Enqueue misses its row.
   */
  lemma StraddlingReaderMissesWrite(s0: State, user: nat, limit: nat, ids: seq<nat>, id: nat)
    returns (before: seq<Action>, later: seq<Action>)
    requires Initial(s0) && 1 <= limit <= 100 && IsListing(Current(s0), user, limit, ids) && id !in Current(s0)
    ensures ValidRun(s0, before)
    ensures var s := After(s0, before);
            && s.enqueuers == map[0 := Publishing(user, id, 1)]
            && ValidRun(s, Success(0)) && After(s, Success(0)).enqueuers == map[]
            && ValidRun(After(s, Success(0)), later)
    ensures var done := After(After(s0, before), Success(0));
            var end := After(done, later);
            && |end.answers| > 1 && end.answers[1].key == Key(user, limit) && end.answers[1].call >= done.calls
            && id !in end.answers[1].page.ids
            && done.versions != [] && id in Current(done) && Current(done)[id].user == user
  {
    var key := Key(user, limit);
    var s1;
    before, s1 := ReadThenInserted(s0, key, ids, id);
    EnqueueEnds(s1, 0);
    var s2 := After(s1, Success(0));
    assert s2.enqueuers == map[];
    later := StraddlerServesNextCall(s0, before, s1);
  }
}
