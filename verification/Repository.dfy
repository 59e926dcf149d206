/** The notifications table and its repository (internal/repository/notification.go). */
module Repository {
  import opened Common

  datatype Status = Pending | Sent | Failed

  datatype Row = Row(
    user: nat, channel: string, recipient: string, subject: string, body: string,
    status: Status, attempts: int, lastError: string, createdAt: int, updatedAt: int, sentAt: Option<int>)

  type Table = map<nat, Row>

  /** The delivery channels the service accepts. */
  const CHANNELS: set<string> := {"email", "sms", "push"}

  function Insert(t: Table, id: nat, user: nat, channel: string, recipient: string, subject: string, body: string,
                  now: int): Table {
    t[id := Row(user, channel, recipient, subject, body, Pending, 0, "", now, now, None)]
  }

  /** UPDATE ... WHERE id = $1 touches no row when there is none, and asks nothing about the old status. */
  function MarkedSent(t: Table, id: nat, attempts: int, now: int): Table {
    if id !in t then t
    else t[id := t[id].(status := Sent, attempts := attempts, lastError := "", sentAt := Some(now), updatedAt := now)]
  }

  function MarkedFailed(t: Table, id: nat, attempts: int, lastError: string, now: int): Table {
    if id !in t then t
    else t[id := t[id].(status := Failed, attempts := attempts, lastError := lastError, updatedAt := now)]
  }

  /** What the table lets a row become: its content is fixed, it never goes back to pending, sent_at stays set. */
  predicate RowAdvances(before: Row, after: Row) {
    && after.user == before.user && after.channel == before.channel && after.recipient == before.recipient
    && after.subject == before.subject && after.body == before.body && after.createdAt == before.createdAt
    && (after.status.Pending? ==> after == before)
    && (before.sentAt.Some? ==> after.sentAt.Some?)
  }

  ghost predicate Advances(before: Table, after: Table) {
    forall id | id in before :: id in after && RowAdvances(before[id], after[id])
  }

  /** The rows are the same, but for the outcome of row id, which is stamped with the time of the write. */
  ghost predicate OnlyOutcomeChanges(before: Table, after: Table, id: nat, now: int) {
    && after.Keys == before.Keys
    && (forall k | k in before && k != id :: after[k] == before[k])
    && (id in before ==>
          after[id] == before[id].(status := after[id].status, attempts := after[id].attempts,
                                   lastError := after[id].lastError, sentAt := after[id].sentAt, updatedAt := now))
  }

  lemma WritesAdvance(t: Table, id: nat, attempts: int, lastError: string, now: int)
    ensures Advances(t, MarkedSent(t, id, attempts, now))
    ensures Advances(t, MarkedFailed(t, id, attempts, lastError, now))
    ensures id !in t ==> forall u, c, r, s, b :: Advances(t, Insert(t, id, u, c, r, s, b, now))
  {
  }

  lemma AdvancesIsTransitive(a: Table, b: Table, c: Table)
    requires Advances(a, b) && Advances(b, c)
    ensures Advances(a, c)
  {
  }

  class NotificationRepository {
    var rows: Table

    constructor ()
      ensures rows == map[]
    {
      rows := map[];
    }

    /** The database chooses a fresh id. */
    method Create(id: nat, user: nat, channel: string, recipient: string, subject: string, body: string, now: int)
      returns (row: Row)
      requires id !in rows
      modifies this
      ensures row.user == user && row.channel == channel && row.recipient == recipient && row.subject == subject
      ensures row.body == body && row.status == Pending && row.attempts == 0 && row.lastError == ""
      ensures row.createdAt == now && row.updatedAt == now && row.sentAt == None
      ensures rows.Keys == old(rows.Keys) + {id} && forall k | k in old(rows) :: rows[k] == old(rows[k])
      ensures rows == Insert(old(rows), id, user, channel, recipient, subject, body, now) && row == rows[id]
      ensures Advances(old(rows), rows)
    {
      row := Row(user, channel, recipient, subject, body, Pending, 0, "", now, now, None);
      rows := rows[id := row];
    }

    method MarkSent(id: nat, attempts: int, now: int)
      modifies this
      ensures OnlyOutcomeChanges(old(rows), rows, id, now)
      ensures id in rows ==> rows[id].status == Sent && rows[id].attempts == attempts && rows[id].lastError == ""
      ensures id in rows ==> rows[id].sentAt == Some(now)
      ensures rows == MarkedSent(old(rows), id, attempts, now)
      ensures Advances(old(rows), rows)
    {
      if id in rows {
        var row := rows[id];
        rows := rows[id := row.(status := Sent, attempts := attempts, lastError := "", sentAt := Some(now), updatedAt := now)];
      }
    }

    method MarkFailed(id: nat, attempts: int, lastError: string, now: int)
      modifies this
      ensures OnlyOutcomeChanges(old(rows), rows, id, now)
      ensures id in rows ==> rows[id].status == Failed && rows[id].attempts == attempts && rows[id].lastError == lastError
      ensures id in rows ==> rows[id].sentAt == old(rows)[id].sentAt
      ensures rows == MarkedFailed(old(rows), id, attempts, lastError, now)
      ensures Advances(old(rows), rows)
    {
      if id in rows {
        var row := rows[id];
        rows := rows[id := row.(status := Failed, attempts := attempts, lastError := lastError, updatedAt := now)];
      }
    }
  }

  // ---------------------------------------------------------------- listing

  predicate DistinctIds(ids: seq<nat>) {
    forall i, j | 0 <= i < j < |ids| :: ids[i] != ids[j]
  }

  /**
   * WHERE user_id = $1 ORDER BY created_at DESC LIMIT $2, up to the order of rows created at the same
   * instant, which SQL leaves open.
   */
  predicate IsListing(t: Table, user: nat, limit: nat, ids: seq<nat>) {
    && |ids| <= limit && DistinctIds(ids)
    && (forall i | 0 <= i < |ids| :: ids[i] in t && t[ids[i]].user == user)
    && (forall i, j | 0 <= i < j < |ids| :: t[ids[i]].createdAt >= t[ids[j]].createdAt)
    && (forall id | id in t && t[id].user == user && id !in ids ::
          |ids| == limit && forall i | 0 <= i < |ids| :: t[ids[i]].createdAt >= t[id].createdAt)
  }

  /** The user's other rows that are at least as new as this one. */
  ghost function AtLeastAsNew(t: Table, id: nat): set<nat>
    requires id in t
  {
    set k | k in t && k != id && t[k].user == t[id].user && t[k].createdAt >= t[id].createdAt
  }

  /** A listing leaves out a row only when as many rows as it may hold are at least as new. */
  lemma ListingContains(t: Table, user: nat, limit: nat, ids: seq<nat>, id: nat)
    requires IsListing(t, user, limit, ids) && id in t && t[id].user == user
    ensures id in ids || limit <= |AtLeastAsNew(t, id)|
  {
    if id !in ids {
      assert forall i | 0 <= i < |ids| :: ids[i] in AtLeastAsNew(t, id);
      DistinctFit(ids, AtLeastAsNew(t, id));
    }
  }

  lemma {:induction false} DistinctFit(ids: seq<nat>, s: set<nat>)
    requires DistinctIds(ids) && forall i | 0 <= i < |ids| :: ids[i] in s
    ensures |ids| <= |s|
  {
    if ids != [] {
      var n := |ids| - 1;
      DistinctFit(ids[..n], s - {ids[n]});
      assert s == (s - {ids[n]}) + {ids[n]};
    }
  }
  /** The user's other rows that are newer than this one. */
  ghost function Newer(t: Table, id: nat): set<nat>
    requires id in t
  {
    set k | k in t && k != id && t[k].user == t[id].user && t[k].createdAt > t[id].createdAt
  }

  /** No two rows of the user were created at the same instant. */
  ghost predicate DistinctTimes(t: Table, user: nat) {
    forall k, l | k in t && l in t && t[k].user == user && t[l].user == user && t[k].createdAt == t[l].createdAt :: k == l
  }

  /** Up to such ties, a listing is the user's rows by rank: a row stands where as many newer rows stand before it. */
  lemma PositionIsRank(t: Table, user: nat, limit: nat, ids: seq<nat>, i: nat)
    requires IsListing(t, user, limit, ids) && DistinctTimes(t, user) && i < |ids|
    ensures |Newer(t, ids[i])| == i
  {
    var before := set j: nat | j < i :: ids[j];
    forall k | k in Newer(t, ids[i])
      ensures k in before
    {
      var j :| 0 <= j < |ids| && ids[j] == k;
      assert t[ids[j]].createdAt > t[ids[i]].createdAt;
    }
    assert Newer(t, ids[i]) == before;
    PrefixSize(ids, i);
  }

  lemma {:induction false} PrefixSize(ids: seq<nat>, n: nat)
    requires DistinctIds(ids) && n <= |ids|
    ensures |set j: nat | j < n :: ids[j]| == n
  {
    if n > 0 {
      PrefixSize(ids, n - 1);
      var fewer := set j: nat | j < n - 1 :: ids[j];
      assert (set j: nat | j < n :: ids[j]) == fewer + {ids[n - 1]};
      assert ids[n - 1] !in fewer;
    }
  }

  /** Exactly the `limit` newest rows are listed, and any two listings agree. */
  lemma ListingIsTheNewest(t: Table, user: nat, limit: nat, ids: seq<nat>, id: nat)
    requires IsListing(t, user, limit, ids) && DistinctTimes(t, user) && id in t && t[id].user == user
    ensures id in ids <==> |Newer(t, id)| < limit
    ensures |Newer(t, id)| < limit ==> |Newer(t, id)| < |ids| && ids[|Newer(t, id)|] == id
  {
    if id in ids {
      var i :| 0 <= i < |ids| && ids[i] == id;
      PositionIsRank(t, user, limit, ids, i);
    } else {
      ListingContains(t, user, limit, ids, id);
      assert Newer(t, id) == AtLeastAsNew(t, id);
    }
  }

  /** The newest row, followed by a listing of the others. */
  lemma PrependNewest(t: Table, others: Table, user: nat, limit: nat, first: nat, rest: seq<nat>)
    requires first in t && t[first].user == user && others == t - {first} && IsListing(others, user, limit, rest)
    requires forall k | k in t && t[k].user == user :: t[k].createdAt <= t[first].createdAt
    ensures IsListing(t, user, limit + 1, [first] + rest)
  {
    var ids := [first] + rest;
    forall i, j | 0 <= i < j < |ids|
      ensures ids[i] != ids[j] && t[ids[i]].createdAt >= t[ids[j]].createdAt
    {
      assert ids[j] == rest[j - 1] && rest[j - 1] in others;
      if i > 0 {
        assert ids[i] == rest[i - 1] && others[rest[i - 1]].createdAt >= others[rest[j - 1]].createdAt;
      }
    }
    forall id | id in t && t[id].user == user && id !in ids
      ensures |ids| == limit + 1 && forall i | 0 <= i < |ids| :: t[ids[i]].createdAt >= t[id].createdAt
    {
      PrependLeavesOut(t, others, user, limit, first, rest, id);
    }
  }

  lemma PrependLeavesOut(t: Table, others: Table, user: nat, limit: nat, first: nat, rest: seq<nat>, id: nat)
    requires first in t && others == t - {first} && IsListing(others, user, limit, rest)
    requires forall k | k in t && t[k].user == user :: t[k].createdAt <= t[first].createdAt
    requires id in t && t[id].user == user && id !in [first] + rest
    ensures var ids := [first] + rest;
            |ids| == limit + 1 && forall i | 0 <= i < |ids| :: ids[i] in t && t[ids[i]].createdAt >= t[id].createdAt
  {
    var ids := [first] + rest;
    assert ids[0] == first && forall k | 0 <= k < |rest| :: ids[k + 1] == rest[k];
    assert id in others && id !in rest;
    forall i | 0 <= i < |ids|
      ensures ids[i] in t && t[ids[i]].createdAt >= t[id].createdAt
    {
      if i > 0 {
        assert others[rest[i - 1]].createdAt >= others[id].createdAt;
      }
    }
  }

  /** The database can always answer: every table has a listing. */
  lemma {:induction false} ListingExists(t: Table, user: nat, limit: nat) returns (ids: seq<nat>)
    ensures IsListing(t, user, limit, ids)
    decreases limit
  {
    var rows := set k | k in t && t[k].user == user;
    assert forall k | k in t && t[k].user == user :: k in rows;
    if limit == 0 || rows == {} {
      ids := [];
    } else {
      var first := Newest(t, rows);
      var rest := ListingExists(t - {first}, user, limit - 1);
      PrependNewest(t, t - {first}, user, limit - 1, first, rest);
      ids := [first] + rest;
    }
  }

  lemma {:induction false} Newest(t: Table, ids: set<nat>) returns (id: nat)
    requires ids != {} && ids <= t.Keys
    ensures id in ids && forall k | k in ids :: t[k].createdAt <= t[id].createdAt
    decreases |ids|
  {
    var x :| x in ids;
    var rest := ids - {x};
    assert forall k | k in ids :: k == x || k in rest;
    if rest == {} {
      id := x;
    } else {
      var y := Newest(t, rest);
      id := if t[x].createdAt < t[y].createdAt then y else x;
    }
  }

  /** A row created after all others of its user is listed first. */
  lemma InsertedIsListedFirst(t: Table, id: nat, user: nat, channel: string, recipient: string, subject: string,
                              body: string, now: int, limit: nat, ids: seq<nat>)
    requires id !in t && forall k | k in t && t[k].user == user :: t[k].createdAt < now
    requires limit >= 1 && IsListing(Insert(t, id, user, channel, recipient, subject, body, now), user, limit, ids)
    ensures |ids| >= 1 && ids[0] == id
  {
    var u := Insert(t, id, user, channel, recipient, subject, body, now);
    assert id in u && u[id].user == user;
  }
}
