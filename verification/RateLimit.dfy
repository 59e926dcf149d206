/**
 * The rate limiter (internal/middleware/ratelimit.go over internal/cache/redis.go, IncrWithWindow).
 * One store is shared by all API instances, so the instances appear only as one history of requests in
 * the order the store met them. The source calls the limiter a fixed window; its expiry is renewed on
 * every request, and what that makes of the limit is proved here.
 */
module RateLimit {
  import opened Common
  import opened KeyStore

  type ClientIP = string

  /** Whether the store's answer came back; a lost answer may or may not have left its increment. */
  datatype Reply = Answered | AnswerLost | NotApplied

  datatype Request = Request(ip: ClientIP, time: int, reply: Reply)

  /** X-RateLimit-Limit and X-RateLimit-Remaining. */
  datatype Headers = Headers(limit: int, remaining: int)

  /** What the middleware does with a request, with every header it sets; a 429 also carries Retry-After. */
  datatype Decision = Unlimited | FailOpen | Allowed(headers: Headers) | TooMany(headers: Headers, retryAfter: int)

  type History = seq<Request>

  predicate Ordered(h: History) {
    forall i, j | 0 <= i <= j < |h| :: h[i].time <= h[j].time
  }

  /** The counters after the first n requests, as coded. */
  function Coded(h: History, n: nat, window: int): map<ClientIP, Entry<int>>
    requires n <= |h|
  {
    if n == 0 then map[]
    else
      var q, before := h[n - 1], Coded(h, n - 1, window);
      if q.reply.NotApplied? then before else Bump(before, q.ip, q.time, window)
  }

  /** The count the store answers to request i. */
  function CodedCount(h: History, i: nat, window: int): int
    requires i < |h|
  {
    Bumped(Coded(h, i, window), h[i].ip, h[i].time)
  }

  function Verdict(count: int, limit: int, window: int): Decision {
    var headers := Headers(limit, Max(0, limit - count));
    if count > limit then TooMany(headers, window) else Allowed(headers)
  }

  function Decide(h: History, i: nat, limit: int, window: int): Decision
    requires i < |h|
  {
    if limit <= 0 then Unlimited
    else if !h[i].reply.Answered? then FailOpen
    else Verdict(CodedCount(h, i, window), limit, window)
  }

  class RateLimiter {
    const limit: int
    const window: int
    const client: Client<ClientIP, int>
    /** Every request that reached the store, in the store's order. */
    ghost var history: History

    ghost predicate Valid()
      reads this, client
    {
      Ordered(history) && client.store == Coded(history, |history|, window)
    }

    constructor (limit: int, window: int)
      ensures Valid() && fresh(client) && history == [] && this.limit == limit && this.window == window
    {
      this.limit, this.window := limit, window;
      client := new Client<ClientIP, int>();
      history := [];
    }

    /** The request handler. The clock never runs backwards, and the reply is the network's choice. */
    method Handle(ip: ClientIP, now: int, reply: Reply) returns (d: Decision)
      requires Valid()
      requires forall k | 0 <= k < |history| :: history[k].time <= now
      modifies this, client
      ensures Valid()
      ensures limit <= 0 ==> d == Unlimited && history == old(history)
      ensures limit > 0 ==>
        && history == old(history) + [Request(ip, now, reply)]
        && d == Decide(history, |history| - 1, limit, window)
      ensures limit > 0 && !reply.Answered? ==> d == FailOpen
      ensures limit > 0 && reply.Answered? && window <= 0 ==> d == Allowed(Headers(limit, limit - 1))
      ensures limit > 0 && reply.Answered? && window > 0 ==>
        var burst := |Burst(history, |history| - 1, window)|;
        d == if burst > limit then TooMany(Headers(limit, 0), window) else Allowed(Headers(limit, limit - burst))
    {
      if limit <= 0 {
        return Unlimited;
      }
      ghost var was := history;
      history := history + [Request(ip, now, reply)];
      CodedPrefix(was, history, |was|, window);
      if reply.NotApplied? {
        return FailOpen;
      }
      DecisionClosedForm(history, |was|, limit, window);
      var count := IncrWithWindow(client, ip, now, window);
      if reply.AnswerLost? {
        return FailOpen;
      }
      var remaining := limit - count;
      if remaining < 0 {
        remaining := 0;
      }
      if count > limit {
        return TooMany(Headers(limit, remaining), window);
      }
      return Allowed(Headers(limit, remaining));
    }
  }

  lemma {:induction false} CodedPrefix(h: History, h': History, n: nat, window: int)
    requires n <= |h| <= |h'| && h == h'[..|h|]
    ensures Coded(h, n, window) == Coded(h', n, window)
  {
    if n > 0 {
      CodedPrefix(h, h', n - 1, window);
    }
  }

  // ---------------------------------------------------------------- what a count means

  /** Request i is one of this client's and its increment took effect. */
  predicate Touched(h: History, i: int, ip: ClientIP) {
    0 <= i < |h| && h[i].ip == ip && !h[i].reply.NotApplied?
  }

  /** From request j to request i the client was never idle for a whole window. */
  ghost predicate NeverIdle(h: History, j: int, i: int, ip: ClientIP, window: int) {
    forall k | j <= k < i && Touched(h, k, ip) ::
      exists m :: k < m <= i && Touched(h, m, ip) && h[m].time < h[k].time + window
  }

  lemma NeverIdleComposes(h: History, b: int, j: int, i: int, ip: ClientIP, window: int)
    requires j <= i && NeverIdle(h, b, j, ip, window) && NeverIdle(h, j, i, ip, window)
    ensures NeverIdle(h, b, i, ip, window)
  {
    forall k | b <= k < i && Touched(h, k, ip)
      ensures exists m :: k < m <= i && Touched(h, m, ip) && h[m].time < h[k].time + window
    {
      if k < j {
        var m :| k < m <= j && Touched(h, m, ip) && h[m].time < h[k].time + window;
      }
    }
  }

  lemma NeverIdleUpTo(h: History, j: int, l: int, i: int, ip: ClientIP, window: int)
    requires Ordered(h) && l <= i && Touched(h, l, ip) && NeverIdle(h, j, i, ip, window)
    ensures NeverIdle(h, j, l, ip, window)
  {
    forall k | j <= k < l && Touched(h, k, ip)
      ensures exists m :: k < m <= l && Touched(h, m, ip) && h[m].time < h[k].time + window
    {
      var m :| k < m <= i && Touched(h, m, ip) && h[m].time < h[k].time + window;
      assert h[l].time <= h[m].time || m <= l;
    }
  }

  /** The client's requests since its latest idle gap of at least one window, up to request i. */
  ghost function Burst(h: History, i: nat, window: int): set<nat>
    requires i < |h|
  {
    set j: nat | 0 <= j <= i && Touched(h, j, h[i].ip) && NeverIdle(h, j, i, h[i].ip, window)
  }

  /** The latest request before n that touched the client's counter, or -1. */
  function LastTouch(h: History, n: nat, ip: ClientIP): (l: int)
    requires n <= |h|
    ensures -1 <= l < n
    ensures l >= 0 ==> Touched(h, l, ip)
    ensures forall k | l < k < n :: !Touched(h, k, ip)
  {
    if n == 0 then -1
    else if Touched(h, n - 1, ip) then n - 1
    else LastTouch(h, n - 1, ip)
  }

  /** A counter is what its latest touch left. */
  lemma {:induction false} CounterFromLastTouch(h: History, n: nat, ip: ClientIP, window: int)
    requires n <= |h| && window > 0
    ensures var l := LastTouch(h, n, ip);
            if l < 0 then ip !in Coded(h, n, window)
            else Coded(h, n, window).Keys >= {ip}
                 && Coded(h, n, window)[ip] == Entry(CodedCount(h, l, window), Some(h[l].time + window))
  {
    if n > 0 && !Touched(h, n - 1, ip) {
      CounterFromLastTouch(h, n - 1, ip, window);
    }
  }

  /** A burst is the previous touch's burst and one more, or starts afresh after an idle window. */
  lemma {:induction false} BurstStep(h: History, i: nat, window: int)
    requires Ordered(h) && i < |h| && Touched(h, i, h[i].ip)
    ensures var l := LastTouch(h, i, h[i].ip);
            Burst(h, i, window) ==
            if l >= 0 && h[i].time < h[l].time + window then Burst(h, l, window) + {i} else {i}
  {
    var ip := h[i].ip;
    var l := LastTouch(h, i, ip);
    if l >= 0 && h[i].time < h[l].time + window {
      assert NeverIdle(h, l, i, ip, window);
      forall j: nat | j in Burst(h, i, window) && j != i
        ensures j in Burst(h, l, window)
      {
        NeverIdleUpTo(h, j, l, i, ip, window);
      }
      forall j: nat | j in Burst(h, l, window)
        ensures j in Burst(h, i, window)
      {
        NeverIdleComposes(h, j, l, i, ip, window);
      }
    }
  }

  /** Whether request i continues the burst of the client's previous touch. */
  predicate Continues(h: History, i: nat, window: int)
    requires i < |h|
  {
    var l := LastTouch(h, i, h[i].ip);
    l >= 0 && h[i].time < h[l].time + window
  }

  function BurstSize(h: History, i: nat, window: int): (n: nat)
    requires i < |h|
    ensures n >= 1
  {
    if Continues(h, i, window) then BurstSize(h, LastTouch(h, i, h[i].ip), window) + 1 else 1
  }

  function BurstStart(h: History, i: nat, window: int): (s: nat)
    requires i < |h|
    ensures s <= i
  {
    if Continues(h, i, window) then BurstStart(h, LastTouch(h, i, h[i].ip), window) else i
  }

  ghost predicate Least(s: nat, a: set<nat>) {
    s in a && forall j | j in a :: s <= j
  }

  /** The burst that following the touches back finds. */
  ghost function Chain(h: History, i: nat, window: int): (b: set<nat>)
    requires i < |h|
    ensures forall j | j in b :: j <= i
    ensures |b| == BurstSize(h, i, window) && Least(BurstStart(h, i, window), b)
  {
    if Continues(h, i, window) then Chain(h, LastTouch(h, i, h[i].ip), window) + {i} else {i}
  }

  lemma {:induction false} BurstIsChain(h: History, i: nat, window: int)
    requires Ordered(h) && i < |h| && Touched(h, i, h[i].ip)
    ensures Burst(h, i, window) == Chain(h, i, window)
    decreases i
  {
    BurstStep(h, i, window);
    if Continues(h, i, window) {
      BurstIsChain(h, LastTouch(h, i, h[i].ip), window);
    }
  }

  /** So it has the size and the first request of the burst. */
  lemma BurstShape(h: History, i: nat, window: int)
    requires Ordered(h) && i < |h| && Touched(h, i, h[i].ip)
    ensures |Burst(h, i, window)| == BurstSize(h, i, window)
    ensures Least(BurstStart(h, i, window), Burst(h, i, window))
  {
    BurstIsChain(h, i, window);
  }

  /** The store's count is the size of the client's burst. */
  lemma {:induction false} CountIsBurst(h: History, i: nat, window: int)
    requires Ordered(h) && window > 0 && i < |h| && Touched(h, i, h[i].ip)
    ensures CodedCount(h, i, window) == |Burst(h, i, window)|
  {
    BurstShape(h, i, window);
    CountFollowsTouches(h, i, window);
  }

  lemma {:induction false} CountFollowsTouches(h: History, i: nat, window: int)
    requires window > 0 && i < |h| && Touched(h, i, h[i].ip)
    ensures CodedCount(h, i, window) == BurstSize(h, i, window)
    decreases i
  {
    CounterFromLastTouch(h, i, h[i].ip, window);
    if Continues(h, i, window) {
      CountFollowsTouches(h, LastTouch(h, i, h[i].ip), window);
    }
  }

  predicate Admitted(h: History, i: int, limit: int, window: int) {
    0 <= i < |h| && h[i].reply.Answered? && Decide(h, i, limit, window).Allowed?
  }

  predicate Rejected(h: History, i: int, limit: int, window: int) {
    0 <= i < |h| && Decide(h, i, limit, window).TooMany?
  }

  /**
   * Closed form: a request the store answers is admitted exactly when it is among the first `limit`
   * requests of its burst, and rejected otherwise; it is told the limit and what is left of it.
   */
  lemma AdmissionClosedForm(h: History, i: nat, limit: int, window: int)
    requires Ordered(h) && window > 0 && limit > 0 && i < |h| && h[i].reply.Answered?
    ensures Admitted(h, i, limit, window) <==> |Burst(h, i, window)| <= limit
    ensures Rejected(h, i, limit, window) <==> |Burst(h, i, window)| > limit
    ensures Admitted(h, i, limit, window) ==>
              Decide(h, i, limit, window) == Allowed(Headers(limit, limit - |Burst(h, i, window)|))
    ensures Rejected(h, i, limit, window) ==> Decide(h, i, limit, window) == TooMany(Headers(limit, 0), window)
  {
    CountIsBurst(h, i, window);
  }

  /** A burst goes on as long as the client is never idle for a window. */
  lemma BurstGrows(h: History, j: nat, i: nat, window: int)
    requires j <= i < |h| && h[j].ip == h[i].ip && NeverIdle(h, j, i, h[i].ip, window)
    ensures |Burst(h, j, window)| <= |Burst(h, i, window)|
  {
    forall b: nat | b in Burst(h, j, window)
      ensures b in Burst(h, i, window)
    {
      NeverIdleComposes(h, b, j, i, h[i].ip, window);
    }
    SubsetSize(Burst(h, j, window), Burst(h, i, window));
  }

  /** After an idle window a burst starts afresh. */
  lemma IdleStartsAfresh(h: History, i: nat, window: int)
    requires Ordered(h) && i < |h| && Touched(h, i, h[i].ip)
    requires forall k | 0 <= k < i && Touched(h, k, h[i].ip) :: h[k].time + window <= h[i].time
    ensures |Burst(h, i, window)| == 1
  {
    BurstStep(h, i, window);
  }

  /** A client that is never idle for a window stays rejected; one that was idle for a window is admitted. */
  lemma RejectionLastsUntilIdle(h: History, j: nat, i: nat, limit: int, window: int)
    requires Ordered(h) && window > 0 && limit > 0 && j <= i < |h|
    requires h[j].ip == h[i].ip && h[j].reply.Answered? && h[i].reply.Answered?
    ensures Rejected(h, j, limit, window) && NeverIdle(h, j, i, h[i].ip, window) ==> Rejected(h, i, limit, window)
    ensures (forall k | 0 <= k < i && Touched(h, k, h[i].ip) :: h[k].time + window <= h[i].time)
            ==> Admitted(h, i, limit, window) && Decide(h, i, limit, window) == Allowed(Headers(limit, limit - 1))
  {
    AdmissionClosedForm(h, i, limit, window);
    AdmissionClosedForm(h, j, limit, window);
    if NeverIdle(h, j, i, h[i].ip, window) {
      BurstGrows(h, j, i, window);
    }
    if forall k | 0 <= k < i && Touched(h, k, h[i].ip) :: h[k].time + window <= h[i].time {
      IdleStartsAfresh(h, i, window);
    }
  }

  /**
   * Every decision, over every history: a limit that is not positive lets everything through, a request that the
   * store does not answer is let through, and a 429 takes an answer and a burst beyond the limit.
   */
  lemma DecisionClosedForm(h: History, i: nat, limit: int, window: int)
    requires Ordered(h) && i < |h|
    ensures Decide(h, i, limit, window) == Unlimited <==> limit <= 0
    ensures Decide(h, i, limit, window) == FailOpen <==> limit > 0 && !h[i].reply.Answered?
    ensures Decide(h, i, limit, window).TooMany? <==>
              limit > 0 && h[i].reply.Answered? && window > 0 && |Burst(h, i, window)| > limit
    ensures limit > 0 && h[i].reply.Answered? && window <= 0 ==>
              Decide(h, i, limit, window) == Allowed(Headers(limit, limit - 1))
    ensures limit > 0 && h[i].reply.Answered? && window > 0 ==>
              Decide(h, i, limit, window) == if |Burst(h, i, window)| > limit then TooMany(Headers(limit, 0), window)
                                             else Allowed(Headers(limit, limit - |Burst(h, i, window)|))
  {
    if limit > 0 && h[i].reply.Answered? {
      if window > 0 {
        AdmissionClosedForm(h, i, limit, window);
      } else {
        NoWindowNoLimit(h, i, limit, window);
      }
    }
  }

  /** A client's requests admitted in the half-open span of one window from `from`. */
  ghost function AdmittedInSpan(h: History, ip: ClientIP, from: int, limit: int, window: int): set<nat> {
    set i: nat | 0 <= i < |h| && h[i].ip == ip && from <= h[i].time < from + window && Admitted(h, i, limit, window)
  }

  /** Over any span shorter than the window, wherever it starts, at most `limit` requests of a client are admitted. */
  lemma SlidingWindowBound(h: History, ip: ClientIP, from: int, limit: int, window: int)
    requires Ordered(h) && window > 0 && limit > 0
    ensures |AdmittedInSpan(h, ip, from, limit, window)| <= limit
  {
    var s := AdmittedInSpan(h, ip, from, limit, window);
    if s != {} {
      var last := Largest(s);
      forall j | j in s
        ensures j in Burst(h, last, window)
      {
        forall k | j <= k < last && Touched(h, k, ip)
          ensures exists m :: k < m <= last && Touched(h, m, ip) && h[m].time < h[k].time + window
        {
          assert h[j].time <= h[k].time && Touched(h, last, ip);
        }
      }
      SubsetSize(s, Burst(h, last, window));
      AdmissionClosedForm(h, last, limit, window);
    }
  }

  /** Without a positive window EXPIRE deletes the counter, and nobody is ever limited. */
  lemma {:induction false} NoWindowNoLimit(h: History, i: nat, limit: int, window: int)
    requires i < |h| && window <= 0 && limit > 0 && h[i].reply.Answered?
    ensures Decide(h, i, limit, window) == Allowed(Headers(limit, limit - 1))
  {
    NoCounters(h, i, window);
  }

  lemma {:induction false} NoCounters(h: History, n: nat, window: int)
    requires n <= |h| && window <= 0
    ensures Coded(h, n, window) == map[]
  {
    if n > 0 {
      NoCounters(h, n - 1, window);
    }
  }

  // ---------------------------------------------------------------- against a true fixed window

  /** A fixed-window counter: the expiry is applied on the first increment only. */
  function FixedBump(m: map<ClientIP, Entry<int>>, ip: ClientIP, now: int, window: int): map<ClientIP, Entry<int>> {
    if Live(m, ip, now) then m[ip := m[ip].(value := m[ip].value + 1)]
    else m[ip := Entry(1, Some(now + window))]
  }

  function Fixed(h: History, n: nat, window: int): map<ClientIP, Entry<int>>
    requires n <= |h|
  {
    if n == 0 then map[]
    else
      var q, before := h[n - 1], Fixed(h, n - 1, window);
      if q.reply.NotApplied? then before else FixedBump(before, q.ip, q.time, window)
  }

  function FixedCount(h: History, i: nat, window: int): int
    requires i < |h|
  {
    Bumped(Fixed(h, i, window), h[i].ip, h[i].time)
  }

  /** The fixed-window store lags the coded one: same clients, no larger counts, no later expiries. */
  ghost predicate Lags(fixed: map<ClientIP, Entry<int>>, coded: map<ClientIP, Entry<int>>) {
    && fixed.Keys == coded.Keys
    && forall ip | ip in fixed ::
         && 1 <= fixed[ip].value <= coded[ip].value
         && fixed[ip].expiry.Some? && coded[ip].expiry.Some?
         && fixed[ip].expiry.value <= coded[ip].expiry.value
  }

  lemma {:induction false} FixedLagsCoded(h: History, n: nat, window: int)
    requires Ordered(h) && window > 0 && n <= |h|
    ensures Lags(Fixed(h, n, window), Coded(h, n, window))
    ensures forall ip | ip in Fixed(h, n, window) :: Fixed(h, n, window)[ip].expiry.value <= h[n - 1].time + window
    decreases n
  {
    if n > 0 {
      FixedLagsCoded(h, n - 1, window);
    }
  }

  /** Simulation: whatever the coded limiter admits, the fixed-window limiter on the same requests admits too. */
  lemma CodedIsStricter(h: History, i: nat, limit: int, window: int)
    requires Ordered(h) && window > 0 && limit > 0 && i < |h| && h[i].reply.Answered?
    ensures FixedCount(h, i, window) <= CodedCount(h, i, window)
    ensures Admitted(h, i, limit, window) ==> Verdict(FixedCount(h, i, window), limit, window).Allowed?
  {
    FixedLagsCoded(h, i, window);
  }

  lemma {:induction false} FixedFromLastTouch(h: History, n: nat, ip: ClientIP, window: int)
    requires n <= |h|
    ensures var l := LastTouch(h, n, ip);
            if l < 0 then ip !in Fixed(h, n, window)
            else ip in Fixed(h, n, window) && ip in Fixed(h, l + 1, window)
                 && Fixed(h, n, window)[ip] == Fixed(h, l + 1, window)[ip]
  {
    if n > 0 && !Touched(h, n - 1, ip) {
      FixedFromLastTouch(h, n - 1, ip, window);
    }
  }

  /** What request i leaves in the fixed-window store, from what the client's previous touch left. */
  lemma FixedStep(h: History, i: nat, window: int)
    requires Ordered(h) && window > 0 && i < |h| && Touched(h, i, h[i].ip)
    ensures var ip, now := h[i].ip, h[i].time;
            var l := LastTouch(h, i, ip);
            && ip in Fixed(h, i + 1, window)
            && Fixed(h, i + 1, window)[ip].value == FixedCount(h, i, window)
            && (l >= 0 ==> ip in Fixed(h, l + 1, window) && Fixed(h, l + 1, window)[ip].expiry.Some?
                           && Fixed(h, l + 1, window)[ip].expiry.value <= h[l].time + window)
            && Fixed(h, i + 1, window)[ip] ==
               if l >= 0 && now < Fixed(h, l + 1, window)[ip].expiry.value
               then Entry(Fixed(h, l + 1, window)[ip].value + 1, Fixed(h, l + 1, window)[ip].expiry)
               else Entry(1, Some(now + window))
  {
    var l := LastTouch(h, i, h[i].ip);
    FixedFromLastTouch(h, i, h[i].ip, window);
    if l >= 0 {
      FixedLagsCoded(h, l + 1, window);
    }
  }

  /** Where the fixed-window counter of a burst of `size` requests that started at `start` stands at `now`. */
  predicate Aligned(fixed: Entry<int>, size: int, start: int, now: int, window: int) {
    if now < start + window then fixed == Entry(size, Some(start + window)) else fixed.value < size
  }

  /** The two counts agree as long as the burst fits into one window counted from its first request. */
  lemma {:induction false} FixedWithinBurst(h: History, i: nat, window: int)
    requires Ordered(h) && window > 0 && i < |h| && Touched(h, i, h[i].ip)
    ensures h[i].ip in Fixed(h, i + 1, window)
    ensures Aligned(Fixed(h, i + 1, window)[h[i].ip], BurstSize(h, i, window), h[BurstStart(h, i, window)].time,
                    h[i].time, window)
    decreases i
  {
    FixedStep(h, i, window);
    var l := LastTouch(h, i, h[i].ip);
    if Continues(h, i, window) {
      FixedWithinBurst(h, l, window);
      AlignedStep(Fixed(h, l + 1, window)[h[i].ip], Fixed(h, i + 1, window)[h[i].ip], BurstSize(h, l, window),
                  h[BurstStart(h, l, window)].time, h[l].time, h[i].time, window);
    }
  }

  lemma AlignedStep(before: Entry<int>, after: Entry<int>, size: int, start: int, then_: int, now: int, window: int)
    requires window > 0 && size >= 1 && then_ <= now && before.expiry.Some?
    requires Aligned(before, size, start, then_, window)
    requires after == if now < before.expiry.value then Entry(before.value + 1, before.expiry)
                      else Entry(1, Some(now + window))
    ensures Aligned(after, size + 1, start, now, window)
  {}

  /**
   * The limiter decides like the fixed-window limiter its comment describes, at every limit, exactly while
   * the request falls inside the window opened by the first request of its burst.
   */
  lemma MatchesFixedWindowIff(h: History, s: nat, i: nat, window: int)
    requires Ordered(h) && window > 0 && i < |h| && h[i].reply.Answered? && Least(s, Burst(h, i, window))
    ensures s < |h|
    ensures (forall limit | limit > 0 ::
               Decide(h, i, limit, window) == Verdict(FixedCount(h, i, window), limit, window))
            <==> h[i].time < h[s].time + window
  {
    BurstShape(h, i, window);
    CountFollowsTouches(h, i, window);
    FixedWithinBurst(h, i, window);
    FixedStep(h, i, window);
    FixedLagsCoded(h, i, window);
    if h[i].time >= h[s].time + window {
      var limit := FixedCount(h, i, window);
      assert Decide(h, i, limit, window).TooMany?;
    }
  }

  /** A client at one request every half minute is rejected at its third, where a fixed window has restarted. */
  lemma SteadyClientIsRejected()
    ensures var h := [Request("a", 0, Answered), Request("a", 30, Answered), Request("a", 60, Answered)];
            Rejected(h, 2, 2, 60) && Verdict(FixedCount(h, 2, 60), 2, 60) == Allowed(Headers(2, 1))
  {
    var h := [Request("a", 0, Answered), Request("a", 30, Answered), Request("a", 60, Answered)];
    assert Coded(h, 1, 60) == map["a" := Entry(1, Some(60))];
    assert Coded(h, 2, 60) == map["a" := Entry(2, Some(90))];
    assert Fixed(h, 1, 60) == map["a" := Entry(1, Some(60))];
    assert Fixed(h, 2, 60) == map["a" := Entry(2, Some(60))];
  }
}
