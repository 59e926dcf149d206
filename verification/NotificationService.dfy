/**
 * The notification service as an object over its cache and its repository: each method is what a call
 * does between two round trips, and is proved against the step of the same name.
 */
module NotificationService {
  import opened Common
  import opened KeyStore
  import opened Repository
  import opened ListCache

  /** What a ListForUser meets: whether Get fails, what the query answers unless it fails, and the fill's effect. */
  datatype ListWorld = ListWorld(getFails: bool, ids: Option<seq<nat>>, fillApplied: bool)

  /** What an Enqueue meets: the new row's id unless the insert fails, Publish's answer, and each delete's effect. */
  datatype EnqueueWorld = EnqueueWorld(inserted: Option<nat>, published: bool, deletes: seq<bool>)

  datatype EnqueueAnswer = UnsupportedChannel | InsertFailed | PublishFailed | Accepted(response: Response)

  /** The keys that the first n deletes of an invalidation removed. */
  function Cleared(user: nat, deletes: seq<bool>, n: nat): set<Key>
    requires n <= |deletes| == |CLEARED_LIMITS|
  {
    set i | 0 <= i < n && deletes[i] :: Key(user, CLEARED_LIMITS[i])
  }

  class NotificationService {
    const cache: Client<Key, Page>
    const repo: NotificationRepository
    var now: int
    var versions: seq<Version>
    var calls: nat
    var listers: map<nat, Lister>
    var enqueues: nat
    var enqueuers: map<nat, Enqueuer>
    var answers: seq<Answer>

    ghost predicate Valid()
      reads this, repo
    {
      versions != [] && repo.rows == versions[|versions| - 1].table
    }

    ghost function Abs(): State
      reads this, cache
    {
      State(now, versions, cache.store, calls, listers, enqueues, enqueuers, answers)
    }

    constructor (now: int)
      ensures Valid() && fresh(cache) && fresh(repo) && Initial(Abs())
    {
      cache := new Client<Key, Page>();
      repo := new NotificationRepository();
      this.now, versions := now, [Version(map[], now)];
      calls, listers, enqueues, enqueuers, answers := 0, map[], 0, map[], [];
    }

    // ---------------------------------------------------------------- ListForUser

    method BeginList(user: nat, rawLimit: int) returns (call: nat)
      requires Valid()
      modifies this`calls, this`listers
      ensures Valid() && Abs() == Apply(old(Abs()), ListBegins(user, rawLimit)) && call == old(calls)
    {
      call := calls;
      var limit := NormalizeLimit(rawLimit);
      listers := listers[call := Looking(Key(user, limit))];
      calls := calls + 1;
    }

    /** A hit answers the call; a miss, or an error of the cache, sends it to the database. */
    method LookInCache(c: nat, failed: bool) returns (answered: bool)
      requires Valid() && Enabled(Abs(), CacheAnswers(c, failed))
      modifies this`listers, this`answers
      ensures Valid() && Abs() == Apply(old(Abs()), CacheAnswers(c, failed))
      ensures answered <==> c !in listers
    {
      var key := listers[c].key;
      if !failed {
        var cached := cache.Get(key, now);
        if cached.Some? {
          var entry := cache.store[key];
          answers := answers + [Answer(c, key, cached.value, entry.expiry.GetOr(now) - LIST_TTL, now)];
          listers := listers - {c};
          return true;
        }
      }
      listers := listers[c := Missed(key)];
      return false;
    }

    /** toResponses over the rows the query returned. */
    method ReadDatabase(c: nat, ids: seq<nat>)
      requires Valid() && Enabled(Abs(), DatabaseAnswers(c, ids))
      modifies this`listers
      ensures Valid() && Abs() == Apply(old(Abs()), DatabaseAnswers(c, ids))
      ensures c in listers && listers[c].Filling? && ShowsAll(listers[c].page.items, repo.rows, ids)
    {
      var rows := repo.rows;
      var out: seq<Response> := [];
      for i := 0 to |ids|
        invariant |out| == i
        invariant forall k | 0 <= k < i :: out[k] == ToResponse(ids[k], rows[ids[k]])
      {
        out := out + [ToResponse(ids[i], rows[ids[i]])];
      }
      assert out == ToResponses(Current(Abs()), ids);
      listers := listers[c := Filling(listers[c].key, Page(out, ids, |versions| - 1, now))];
    }

    /** An error of SetJSON is ignored; the call answers either way. */
    method FillCache(c: nat, applied: bool)
      requires Valid() && Enabled(Abs(), FillReturns(c, applied))
      modifies this`listers, this`answers, cache
      ensures Valid() && Abs() == Apply(old(Abs()), FillReturns(c, applied))
    {
      var Filling(key, page) := listers[c];
      if applied {
        cache.Set(key, page, now, LIST_TTL);
      }
      answers := answers + [Answer(c, key, page, now, now)];
      listers := listers - {c};
    }

    /** An error of the query ends the call without an answer. */
    method AbandonList(c: nat)
      requires Valid() && Enabled(Abs(), ListDies(c))
      modifies this`listers
      ensures Valid() && Abs() == Apply(old(Abs()), ListDies(c))
    {
      listers := listers - {c};
    }

    /**
     * A whole list call: a live cached list is the answer; otherwise the answer is the listing of the table as
     * it stands, and what the cache holds from then on if the fill takes effect. No other key is touched.
     */
    method ListForUser(user: nat, rawLimit: int, w: ListWorld) returns (answer: Option<seq<Response>>)
      requires Valid() && calls !in listers
      requires w.ids.Some? ==> IsListing(repo.rows, user, NormalizeLimit(rawLimit), w.ids.value)
      modifies this`calls, this`listers, this`answers, cache
      ensures Valid() && listers == old(listers)
      ensures var key := Key(user, NormalizeLimit(rawLimit));
              var hit := if w.getFails then None else Read(old(cache.store), key, now);
              && (hit.Some? ==> answer == Some(hit.value.items))
              && (hit.None? && w.ids.None? ==> answer == None)
              && (hit.None? && w.ids.Some? ==> answer.Some? && ShowsAll(answer.value, repo.rows, w.ids.value))
              && (if hit.None? && w.ids.Some? && w.fillApplied
                  then Live(cache.store, key, now) && Some(cache.store[key].value.items) == answer
                       && cache.store[key].expiry == Some(now + 15_000)
                       && forall k | k != key :: Read(cache.store, k, now) == Read(old(cache.store), k, now)
                  else cache.store == old(cache.store))
    {
      var call;
      call, answer := LookFirst(user, rawLimit, w.getFails);
      if answer.Some? {
        return;
      }
      if w.ids.None? {
        AbandonList(call);
        return None;
      }
      answer := AnswerFromDatabase(call, w.ids.value, w.fillApplied);
    }

    /** The first half of a list call: a live cached list is the answer. */
    method LookFirst(user: nat, rawLimit: int, getFails: bool) returns (call: nat, answer: Option<seq<Response>>)
      requires Valid() && calls !in listers
      modifies this`calls, this`listers, this`answers
      ensures Valid() && call == old(calls)
      ensures var key := Key(user, NormalizeLimit(rawLimit));
              var hit := if getFails then None else Read(cache.store, key, now);
              && listers == (if hit.Some? then old(listers) else old(listers)[call := Missed(key)])
              && answer == if hit.Some? then Some(hit.value.items) else None
    {
      call := BeginList(user, rawLimit);
      var hit := LookInCache(call, getFails);
      answer := if hit then Some(answers[|answers| - 1].page.items) else None;
    }

    /** The second half: the listing of the table as it stands, which also goes into the cache. */
    method AnswerFromDatabase(call: nat, ids: seq<nat>, fillApplied: bool) returns (answer: Option<seq<Response>>)
      requires Valid() && Enabled(Abs(), DatabaseAnswers(call, ids))
      modifies this`listers, this`answers, cache
      ensures Valid() && listers == old(listers) - {call}
      ensures answer.Some? && ShowsAll(answer.value, repo.rows, ids)
      ensures cache.store == if fillApplied
                             then Write(old(cache.store), old(listers[call].key),
                                        Page(answer.value, ids, |versions| - 1, now), now, LIST_TTL)
                             else old(cache.store)
    {
      ReadDatabase(call, ids);
      var items := listers[call].page.items;
      FillCache(call, fillApplied);
      return Some(items);
    }

    // ---------------------------------------------------------------- Enqueue

    method InsertRow(id: nat, user: nat, channel: string, recipient: string, subject: string, body: string)
      returns (call: nat)
      requires Valid() && Enabled(Abs(), InsertReturns(id, user, channel, recipient, subject, body))
      modifies this`versions, this`enqueues, this`enqueuers, repo
      ensures Valid() && call == old(enqueues)
      ensures Abs() == Apply(old(Abs()), InsertReturns(id, user, channel, recipient, subject, body))
    {
      var row := repo.Create(id, user, channel, recipient, subject, body, now);
      call := enqueues;
      enqueuers := enqueuers[call := Publishing(user, id, |versions|)];
      enqueues := enqueues + 1;
      versions := versions + [Version(repo.rows, now)];
    }

    /** A failed publish ends the call with an error and leaves the cache alone. */
    method FinishPublish(e: nat, ok: bool)
      requires Valid() && Enabled(Abs(), PublishReturns(e, ok))
      modifies this`enqueuers
      ensures Valid() && Abs() == Apply(old(Abs()), PublishReturns(e, ok))
    {
      var Publishing(user, id, version) := enqueuers[e];
      if ok {
        enqueuers := enqueuers[e := Clearing(user, id, version, 0)];
      } else {
        enqueuers := enqueuers - {e};
      }
    }

    /** One turn of the loop of invalidateUserCache; the error of a delete is ignored. */
    method DeleteNext(e: nat, applied: bool)
      requires Valid() && Enabled(Abs(), DeleteReturns(e, applied))
      modifies this`enqueuers, cache
      ensures Valid() && Abs() == Apply(old(Abs()), DeleteReturns(e, applied))
    {
      var Clearing(user, id, version, index) := enqueuers[e];
      if applied {
        cache.Delete([Key(user, CLEARED_LIMITS[index])]);
        assert (set k | k in [Key(user, CLEARED_LIMITS[index])]) == {Key(user, CLEARED_LIMITS[index])};
      }
      if index + 1 < |CLEARED_LIMITS| {
        enqueuers := enqueuers[e := Clearing(user, id, version, index + 1)];
      } else {
        enqueuers := enqueuers - {e};
      }
    }

    /** The loop of invalidateUserCache: exactly the lists whose delete took effect are gone. */
    method InvalidateUserCache(e: nat, deletes: seq<bool>)
      requires Valid() && |deletes| == |CLEARED_LIMITS|
      requires e in enqueuers && enqueuers[e].Clearing? && enqueuers[e].index == 0
      modifies this`enqueuers, cache
      ensures Valid() && enqueuers == old(enqueuers) - {e}
      ensures cache.store == old(cache.store) - Cleared(old(enqueuers[e].user), deletes, |deletes|)
    {
      ghost var was := enqueuers[e];
      for i := 0 to |CLEARED_LIMITS|
        invariant Valid()
        invariant cache.store == old(cache.store) - Cleared(was.user, deletes, i)
        invariant enqueuers == if i < |CLEARED_LIMITS| then old(enqueuers)[e := was.(index := i)] else old(enqueuers) - {e}
      {
        DeleteNext(e, deletes[i]);
        assert Cleared(was.user, deletes, i + 1)
            == Cleared(was.user, deletes, i) + if deletes[i] then {Key(was.user, CLEARED_LIMITS[i])} else {};
      }
    }

    /**
     * A whole Enqueue: an unknown channel or a failed insert leaves everything alone, a failed publish leaves a
     * pending row and the cached lists, and success answers the row and deletes the user's lists at 20, 50, 100.
     */
    method Enqueue(user: nat, channel: string, recipient: string, subject: string, body: string, w: EnqueueWorld)
      returns (answer: EnqueueAnswer)
      requires Valid() && enqueues !in enqueuers && |w.deletes| == |CLEARED_LIMITS|
      requires w.inserted.Some? ==> w.inserted.value !in repo.rows
      modifies this`versions, this`enqueues, this`enqueuers, repo, cache
      ensures Valid() && enqueuers == old(enqueuers)
      ensures answer.UnsupportedChannel? <==> channel != "email" && channel != "sms" && channel != "push"
      ensures answer.InsertFailed? <==> !answer.UnsupportedChannel? && w.inserted.None?
      ensures answer.Accepted? <==> !answer.UnsupportedChannel? && w.inserted.Some? && w.published
      ensures if answer.UnsupportedChannel? || answer.InsertFailed? then repo.rows == old(repo.rows)
              else repo.rows == Insert(old(repo.rows), w.inserted.value, user, channel, recipient, subject, body, now)
      ensures answer.Accepted? ==>
        var r := answer.response;
        && r.id == w.inserted.value && r.user == user && r.channel == channel && r.recipient == recipient
        && r.subject == subject && r.body == body && r.status == Pending && r.attempts == 0 && r.lastError == ""
        && r.createdAt == now && r.sentAt == None && Shows(r, r.id, repo.rows[r.id])
      ensures cache.store == if answer.Accepted? then old(cache.store) - Cleared(user, w.deletes, |w.deletes|)
                             else old(cache.store)
    {
      if channel !in CHANNELS {
        return UnsupportedChannel;
      }
      if w.inserted.None? {
        return InsertFailed;
      }
      var id := w.inserted.value;
      var call := InsertRow(id, user, channel, recipient, subject, body);
      FinishPublish(call, w.published);
      if !w.published {
        return PublishFailed;
      }
      InvalidateUserCache(call, w.deletes);
      return Accepted(ToResponse(id, repo.rows[id]));
    }

    // ---------------------------------------------------------------- the worker's writes

    method MarkSent(id: nat, attempts: int)
      requires Valid()
      modifies this`versions, repo
      ensures Valid() && Abs() == Apply(old(Abs()), WorkerMarksSent(id, attempts))
      ensures OnlyOutcomeChanges(old(repo.rows), repo.rows, id, now)
      ensures id in repo.rows ==> repo.rows[id].status == Sent && repo.rows[id].attempts == attempts
    {
      repo.MarkSent(id, attempts, now);
      versions := versions + [Version(repo.rows, now)];
    }

    method MarkFailed(id: nat, attempts: int, lastError: string)
      requires Valid()
      modifies this`versions, repo
      ensures Valid() && Abs() == Apply(old(Abs()), WorkerMarksFailed(id, attempts, lastError))
      ensures OnlyOutcomeChanges(old(repo.rows), repo.rows, id, now)
      ensures id in repo.rows ==> repo.rows[id].status == Failed && repo.rows[id].attempts == attempts
      ensures id in repo.rows ==> repo.rows[id].lastError == lastError
    {
      repo.MarkFailed(id, attempts, lastError, now);
      versions := versions + [Version(repo.rows, now)];
    }
  }
}
