/** middleware.py's rate limiter: a sliding-window log in Redis, and a fixed-window counter in memory on failure. */
module RateLimiters {
  import opened Options

  /** What becomes of the Redis pipeline of a request: answered; lost, before or after it took effect; or there is
      no Redis client. */
  datatype Fate = Answered | Lost(applied: bool) | NoRedis

  /** A counted request: who, the second it arrived, and the second at which Redis runs its pipeline. */
  datatype Request = Request(id: string, now: nat, at: nat, fate: Fate)

  /** The counted requests so far, latest last. */
  datatype Trace = Start | Then(before: Trace, last: Request)

  datatype Limits = Limits(window: nat, limit: nat) {
    ghost predicate Valid() { window >= 1 && limit >= 1 }
  }

  const EXPIRY_SLACK := 5

  /** A sorted set of request times, and when Redis drops the key. */
  datatype ZSet = ZSet(scores: seq<nat>, expiresAt: nat)

  /** The scores above a bound: what zremrangebyscore leaves. */
  function Above(scores: seq<nat>, bound: int): seq<nat> {
    if scores == [] then [] else
    var rest := Above(scores[..|scores| - 1], bound);
    if scores[|scores| - 1] > bound then rest + [scores[|scores| - 1]] else rest
  }

  function Alive(z: Option<ZSet>, at: nat): seq<nat> {
    if z.Some? && at < z.value.expiresAt then z.value.scores else []
  }

  /** The pipeline: drop what left the window, count, add this request, renew the expiry. */
  function PipelineCount(z: Option<ZSet>, r: Request, l: Limits): nat {
    |Above(Alive(z, r.at), r.now - l.window)|
  }

  function PipelineStep(z: Option<ZSet>, r: Request, l: Limits): ZSet {
    ZSet(Above(Alive(z, r.at), r.now - l.window) + [r.now], r.at + l.window + EXPIRY_SLACK)
  }

  /** The start of the aligned window of a time, and the number of requests counted in it. */
  datatype Slot = Slot(start: nat, count: nat)

  function AlignedStart(now: nat, l: Limits): nat
    requires l.window >= 1
  {
    now - now % l.window
  }

  function MemoryStep(m: Option<Slot>, now: nat, l: Limits): Slot
    requires l.window >= 1
  {
    if m.None? || m.value.start != AlignedStart(now, l) then Slot(AlignedStart(now, l), 1)
    else Slot(m.value.start, m.value.count + 1)
  }

  // ---------- The state after a run of requests ----------

  predicate TakesEffect(r: Request) {
    r.fate == Answered || r.fate == Lost(true)
  }

  function KeyAfter(rs: Trace, id: string, l: Limits): Option<ZSet> {
    if rs.Start? then None else
    var r, before := rs.last, KeyAfter(rs.before, id, l);
    if r.id == id && TakesEffect(r) then Some(PipelineStep(before, r, l)) else before
  }

  function SlotAfter(rs: Trace, id: string, l: Limits): Option<Slot>
    requires l.window >= 1
  {
    if rs.Start? then None else
    var r, before := rs.last, SlotAfter(rs.before, id, l);
    if r.id == id && r.fate != Answered then Some(MemoryStep(before, r.now, l)) else before
  }

  /** The count a request gets after a run of earlier ones. */
  function CountOf(rs: Trace, r: Request, l: Limits): nat
    requires l.window >= 1
  {
    if r.fate == Answered then PipelineCount(KeyAfter(rs, r.id, l), r, l) + 1
    else MemoryStep(SlotAfter(rs, r.id, l), r.now, l).count
  }

  predicate Admitted(rs: Trace, r: Request, l: Limits)
    requires l.window >= 1
  {
    CountOf(rs, r, l) <= l.limit
  }

  // ---------- The middleware itself ----------

  class Redis {
    var zsets: map<string, ZSet>

    constructor ()
      ensures zsets == map[]
    {
      zsets := map[];
    }

    function Key(id: string): Option<ZSet>
      reads this
    {
      if id in zsets then Some(zsets[id]) else None
    }

    /** The transaction of zremrangebyscore, zcard, zadd and expire. */
    method Pipeline(r: Request, l: Limits) returns (card: nat)
      modifies this
      ensures card == PipelineCount(old(Key(r.id)), r, l)
      ensures zsets == old(zsets)[r.id := PipelineStep(old(Key(r.id)), r, l)]
    {
      var scores := if r.id in zsets && r.at < zsets[r.id].expiresAt then zsets[r.id].scores else [];
      scores := Above(scores, r.now - l.window);
      card := |scores|;
      scores := scores + [r.now];
      zsets := zsets[r.id := ZSet(scores, r.at + l.window + EXPIRY_SLACK)];
    }
  }

  class RateLimiter {
    const limits: Limits
    const redis: Redis
    var memory: map<string, Slot>
    /** The counted requests so far. */
    ghost var requests: Trace

    function SlotOf(id: string): Option<Slot>
      reads this
    {
      if id in memory then Some(memory[id]) else None
    }

    ghost predicate Valid()
      reads this, redis
    {
      && limits.Valid()
      && (forall id :: redis.Key(id) == KeyAfter(requests, id, limits))
      && (forall id :: SlotOf(id) == SlotAfter(requests, id, limits))
    }

    constructor (windowSeconds: int, requestsPerWindow: int)
      ensures Valid() && requests == Start
      ensures limits.window == (if windowSeconds >= 1 then windowSeconds else 1)
      ensures limits.limit == (if requestsPerWindow >= 1 then requestsPerWindow else 1)
    {
      limits := Limits(if windowSeconds >= 1 then windowSeconds else 1,
                       if requestsPerWindow >= 1 then requestsPerWindow else 1);
      redis := new Redis();
      memory := map[];
      requests := Start;
    }

    method MemoryIncr(id: string, now: nat) returns (count: nat, resetAt: nat)
      requires limits.Valid()
      modifies this`memory
      ensures memory == old(memory)[id := MemoryStep(old(SlotOf(id)), now, limits)]
      ensures count == memory[id].count
      ensures now < resetAt == AlignedStart(now, limits) + limits.window
    {
      var windowStart := now - now % limits.window;
      resetAt := windowStart + limits.window;
      if id !in memory || memory[id].start != windowStart {
        memory := memory[id := Slot(windowStart, 1)];
        return 1, resetAt;
      }
      count := memory[id].count + 1;
      memory := memory[id := Slot(windowStart, count)];
    }

    /** Decides one request; a rejected one learns how many seconds to wait. */
    method Call(r: Request) returns (admitted: bool, retryAfter: nat)
      requires Valid()
      modifies this, redis
      ensures Valid() && requests == Then(old(requests), r)
      ensures admitted == Admitted(old(requests), r, limits)
      ensures retryAfter == RetryAfter(r, limits)
    {
      var count, resetAt := 0, r.now + limits.window;
      if r.fate != NoRedis && TakesEffect(r) {
        var card := redis.Pipeline(r, limits);
        count := card + 1;
      }
      if r.fate != Answered {
        count, resetAt := MemoryIncr(r.id, r.now);
      }
      admitted := count <= limits.limit;
      retryAfter := AtLeastOne(resetAt - r.now);
      requests := Then(requests, r);
    }
  }

  function AtLeastOne(n: int): nat {
    if n >= 1 then n else 1
  }

  function RetryAfter(r: Request, l: Limits): nat
    requires l.window >= 1
  {
    if r.fate == Answered then l.window else AlignedStart(r.now, l) + l.window - r.now
  }

  // ---------- Times ----------

  /** The requests come in the order of their times, none after now, and Redis runs each pipeline at or after the
      time of its request, by at most lag seconds. */
  predicate InOrder(rs: Trace, now: nat, lag: nat) {
    rs.Then? ==>
      var r := rs.last;
      r.now <= now && r.now <= r.at <= r.now + lag && InOrder(rs.before, r.now, lag)
  }

  // ---------- The expiry of the key ----------

  /** The scores as they would be if keys never expired. */
  function Scores(rs: Trace, id: string, l: Limits): seq<nat> {
    if rs.Start? then [] else
    var r, before := rs.last, Scores(rs.before, id, l);
    if r.id == id && TakesEffect(r) then Above(before, r.now - l.window) + [r.now] else before
  }

  lemma {:induction false} AboveAppend(scores: seq<nat>, x: nat, bound: int)
    ensures Above(scores + [x], bound) == Above(scores, bound) + if x > bound then [x] else []
  {
    assert (scores + [x])[..|scores|] == scores;
  }

  lemma {:induction false} AboveTwice(scores: seq<nat>, low: int, high: int)
    requires low <= high
    ensures Above(Above(scores, low), high) == Above(scores, high)
  {
    if scores != [] {
      var init, x := scores[..|scores| - 1], scores[|scores| - 1];
      AboveTwice(init, low, high);
      if x > low {
        AboveAppend(Above(init, low), x, high);
      }
    }
  }

  predicate AtMost(scores: seq<nat>, m: int) {
    forall i :: 0 <= i < |scores| ==> scores[i] <= m
  }

  lemma {:induction false} AboveNone(scores: seq<nat>, bound: int)
    requires AtMost(scores, bound)
    ensures Above(scores, bound) == []
  {
    if scores != [] {
      AboveNone(scores[..|scores| - 1], bound);
    }
  }

  lemma {:induction false} AboveKeepsMax(scores: seq<nat>, bound: int, m: nat)
    requires AtMost(scores, m)
    ensures AtMost(Above(scores, bound), m)
  {
    if scores != [] {
      AboveKeepsMax(scores[..|scores| - 1], bound, m);
    }
  }

  lemma {:induction false} ScoresBounded(rs: Trace, id: string, l: Limits, now: nat, lag: nat)
    requires InOrder(rs, now, lag)
    ensures AtMost(Scores(rs, id, l), now)
  {
    if rs.Then? {
      var init, r := rs.before, rs.last;
      ScoresBounded(init, id, l, r.now, lag);
      AboveKeepsMax(Scores(init, id, l), r.now - l.window, r.now);
    }
  }

  /** The scores a pipeline leaves are no later than its request. */
  lemma PipelineBounded(scores: seq<nat>, r: Request, l: Limits, later: int)
    requires AtMost(scores, r.now) && later >= r.now
    ensures AtMost(Above(scores, r.now - l.window) + [r.now], later)
  {
    AboveKeepsMax(scores, r.now - l.window, r.now);
  }

  /** One more request: what it keeps is the same with and without expiry, and an expired key held only old scores. */
  lemma ExpiryStep(z: Option<ZSet>, scores: seq<nat>, r: Request, l: Limits, now: nat, at: nat, bound: int)
    requires Above(Alive(z, r.at), r.now - l.window) == Above(scores, r.now - l.window)
    requires AtMost(scores, r.now)
    requires r.now <= r.at && r.now <= now && at <= now + EXPIRY_SLACK && bound >= now - l.window
    ensures Above(Alive(Some(PipelineStep(z, r, l)), at), bound) ==
            Above(Above(scores, r.now - l.window) + [r.now], bound)
  {
    hide Above, AtMost;
    var kept := Above(scores, r.now - l.window);
    if at >= r.at + l.window + EXPIRY_SLACK {
      PipelineBounded(scores, r, l, bound);
      AboveNone(kept + [r.now], bound);
      AboveEmpty(bound);
    }
  }

  lemma AboveEmpty(bound: int)
    ensures Above([], bound) == []
  {
  }

  /** Everything the live key may still be asked for is in it: for any bound a next request can use, the key as
      Redis keeps it and the key that never expires have the same scores above the bound. */
  lemma {:induction false} ExpiryInvariant(rs: Trace, id: string, l: Limits, now: nat, at: nat, bound: int)
    requires l.Valid() && InOrder(rs, now, EXPIRY_SLACK)
    requires at <= now + EXPIRY_SLACK && bound >= now - l.window
    ensures Above(Alive(KeyAfter(rs, id, l), at), bound) == Above(Scores(rs, id, l), bound)
  {
    hide Above, PipelineStep, AtMost;
    if rs.Then? {
      var init, r := rs.before, rs.last;
      if r.id == id && TakesEffect(r) {
        ExpiryInvariant(init, id, l, r.now, r.at, r.now - l.window);
        ScoresBounded(init, id, l, r.now, EXPIRY_SLACK);
        ExpiryStep(KeyAfter(init, id, l), Scores(init, id, l), r, l, now, at, bound);
      } else {
        LaterIsInOrder(init, r.now, now, EXPIRY_SLACK);
        ExpiryInvariant(init, id, l, now, at, bound);
      }
    }
  }

  lemma LaterIsInOrder(rs: Trace, now: nat, later: nat, lag: nat)
    requires InOrder(rs, now, lag) && now <= later
    ensures InOrder(rs, later, lag)
  {
  }

  /** What Redis counts for a request, and what it would count if keys never expired. */
  function RedisCount(rs: Trace, r: Request, l: Limits): nat {
    PipelineCount(KeyAfter(rs, r.id, l), r, l)
  }

  function CountWithoutExpiry(rs: Trace, r: Request, l: Limits): nat {
    |Above(Scores(rs, r.id, l), r.now - l.window)|
  }

  /** The expiry of window + 5 seconds never changes a count while pipelines run within 5 seconds. */
  lemma ExpiryIsHarmless(rs: Trace, r: Request, l: Limits)
    requires l.Valid() && InOrder(rs, r.now, EXPIRY_SLACK) && r.at <= r.now + EXPIRY_SLACK
    ensures RedisCount(rs, r, l) == CountWithoutExpiry(rs, r, l)
  {
    ExpiryInvariant(rs, r.id, l, r.now, r.at, r.now - l.window);
  }

  lemma {:induction false} WiderLag(rs: Trace, now: nat, lag: nat, wider: nat)
    requires InOrder(rs, now, lag) && lag <= wider
    ensures InOrder(rs, now, wider)
  {
    if rs.Then? {
      WiderLag(rs.before, rs.last.now, lag, wider);
    }
  }

  /** With any greater delay it does: 5 seconds is exactly the slack. */
  lemma ExpirySlackIsExact(l: Limits, lag: nat)
    requires l.Valid()
    ensures lag <= 5 <==>
            forall rs: Trace, r: Request :: InOrder(rs, r.now, lag) && r.now <= r.at <= r.now + lag ==>
              RedisCount(rs, r, l) == CountWithoutExpiry(rs, r, l)
  {
    if lag <= EXPIRY_SLACK {
      forall rs: Trace, r: Request | InOrder(rs, r.now, lag) && r.now <= r.at <= r.now + lag
        ensures RedisCount(rs, r, l) == CountWithoutExpiry(rs, r, l)
      {
        WiderLag(rs, r.now, lag, EXPIRY_SLACK);
        ExpiryIsHarmless(rs, r, l);
      }
    } else {
      var first := Request("a", 0, 0, Answered);
      var late := Request("a", l.window - 1, l.window + EXPIRY_SLACK, Answered);
      LateRequest(l, first, late);
      assert InOrder(Then(Start, first), late.now, lag);
    }
  }

  lemma LateRequest(l: Limits, first: Request, late: Request)
    requires l.Valid()
    requires first == Request("a", 0, 0, Answered)
        && late == Request("a", l.window - 1, l.window + EXPIRY_SLACK, Answered)
    ensures RedisCount(Then(Start, first), late, l) == 0 && CountWithoutExpiry(Then(Start, first), late, l) == 1
  {
    var rs := Then(Start, first);
    var none: seq<nat> := [];
    assert none + [0] == [0];
    assert KeyAfter(rs, "a", l) == Some(ZSet([0], l.window + EXPIRY_SLACK));
    assert Scores(rs, "a", l) == [0];
    assert Above([0], -1) == [0] by {
      AboveAppend(none, 0, -1);
    }
  }

  // ---------- Counting admissions ----------

  datatype Route = AnyRoute | RedisRoute | MemoryRoute

  predicate OnRoute(r: Request, route: Route) {
    route == AnyRoute || (route == RedisRoute <==> r.fate == Answered)
  }

  /** The admitted requests of an identifier on a route with lo < time <= hi. */
  function AdmittedIn(rs: Trace, id: string, l: Limits, lo: int, hi: int, route: Route): nat
    requires l.window >= 1
  {
    if rs.Start? then 0 else
    var init, r := rs.before, rs.last;
    AdmittedIn(init, id, l, lo, hi, route) +
    if r.id == id && lo < r.now <= hi && OnRoute(r, route) && Admitted(init, r, l) then 1 else 0
  }

  lemma {:induction false} RoutesAddUp(rs: Trace, id: string, l: Limits, lo: int, hi: int)
    requires l.window >= 1
    ensures AdmittedIn(rs, id, l, lo, hi, AnyRoute) ==
            AdmittedIn(rs, id, l, lo, hi, RedisRoute) + AdmittedIn(rs, id, l, lo, hi, MemoryRoute)
  {
    if rs.Then? {
      RoutesAddUp(rs.before, id, l, lo, hi);
    }
  }

  /** A window split in two, each part widened. */
  lemma {:induction false} SplitWindow(rs: Trace, id: string, l: Limits, lo: int, mid: int, hi: int,
                                       lo': int, hi': int, route: Route)
    requires l.window >= 1 && lo' <= lo <= mid <= hi <= hi'
    ensures AdmittedIn(rs, id, l, lo, hi, route) <=
            AdmittedIn(rs, id, l, lo', mid, route) + AdmittedIn(rs, id, l, mid, hi', route)
  {
    if rs.Then? {
      SplitWindow(rs.before, id, l, lo, mid, hi, lo', hi', route);
    }
  }

  // ---------- The sliding window ----------

  lemma {:induction false} AboveShrinks(scores: seq<nat>, low: int, high: int)
    requires low <= high
    ensures |Above(scores, high)| <= |Above(scores, low)|
  {
    if scores != [] {
      AboveShrinks(scores[..|scores| - 1], low, high);
    }
  }

  lemma RecordOne(before: seq<nat>, now: nat, window: nat, lo: int)
    requires lo >= now - window
    ensures Above(Above(before, now - window) + [now], lo) == Above(before, lo) + if now > lo then [now] else []
  {
    AboveTwice(before, now - window, lo);
    AboveAppend(Above(before, now - window), now, lo);
  }

  /** The requests of an identifier since lo whose pipeline took effect, admitted or not. */
  function EffectiveSince(rs: Trace, id: string, lo: int): nat {
    if rs.Start? then 0 else
    var r := rs.last;
    EffectiveSince(rs.before, id, lo) + if r.id == id && TakesEffect(r) && lo < r.now then 1 else 0
  }

  lemma {:induction false} AdmissionsTakeEffect(rs: Trace, id: string, l: Limits, lo: int, hi: int)
    requires l.window >= 1
    ensures AdmittedIn(rs, id, l, lo, hi, RedisRoute) <= EffectiveSince(rs, id, lo)
  {
    if rs.Then? {
      AdmissionsTakeEffect(rs.before, id, l, lo, hi);
    }
  }

  /** All of them are among the scores, rejected requests included, if lo is no further back than a window. */
  lemma {:induction false} ScoresAreComplete(rs: Trace, id: string, l: Limits, now: nat, lo: int, lag: nat)
    requires InOrder(rs, now, lag) && lo >= now - l.window
    ensures |Above(Scores(rs, id, l), lo)| == EffectiveSince(rs, id, lo)
  {
    hide Above, AtMost;
    AboveEmpty(lo);
    if rs.Then? {
      var init, r := rs.before, rs.last;
      ScoresAreComplete(init, id, l, r.now, lo, lag);
      RecordOne(Scores(init, id, l), r.now, l.window, lo);
    }
  }

  /** An admission answered by Redis finds fewer than limit earlier ones in any window that contains it. */
  lemma AdmissionFindsRoom(rs: Trace, r: Request, l: Limits, t: int)
    requires l.Valid() && InOrder(rs, r.now, EXPIRY_SLACK) && r.at <= r.now + EXPIRY_SLACK
    requires r.fate == Answered && r.now <= t && Admitted(rs, r, l)
    ensures AdmittedIn(rs, r.id, l, t - l.window, t, RedisRoute) < l.limit
  {
    hide Above, AtMost, Scores;
    ExpiryIsHarmless(rs, r, l);
    AdmissionsTakeEffect(rs, r.id, l, t - l.window, t);
    ScoresAreComplete(rs, r.id, l, r.now, t - l.window, EXPIRY_SLACK);
    AboveShrinks(Scores(rs, r.id, l), r.now - l.window, t - l.window);
  }

  /** In any window of W seconds Redis answers at most limit requests of an identifier with an admission. */
  lemma {:induction false} SlidingWindowBound(rs: Trace, id: string, l: Limits, now: nat, t: int)
    requires l.Valid() && InOrder(rs, now, EXPIRY_SLACK)
    ensures AdmittedIn(rs, id, l, t - l.window, t, RedisRoute) <= l.limit
  {
    if rs.Then? {
      var init, r := rs.before, rs.last;
      SlidingWindowBound(init, id, l, r.now, t);
      if r.id == id && r.now <= t && r.fate == Answered && Admitted(init, r, l) {
        AdmissionFindsRoom(init, r, l, t);
      }
    }
  }

  // ---------- The fixed window ----------

  lemma MultiplesApart(a: int, b: int, w: nat)
    requires a < b
    ensures a * w + w <= b * w
  {
    assert (b - a - 1) * w >= 0;
  }

  lemma Quotient(n: nat, k: nat, w: nat)
    requires k * w <= n < k * w + w
    ensures n % w == n - k * w && n / w == k
  {
    var q := n / w;
    assert n == q * w + n % w;
    if q < k {
      MultiplesApart(q, k, w);
    } else if q > k {
      MultiplesApart(k, q, w);
    }
  }

  lemma Aligned(now: nat, w: nat, l: Limits)
    requires l.window >= 1 && w % l.window == 0
    ensures AlignedStart(now, l) == w <==> w <= now < w + l.window
  {
    var k := w / l.window;
    assert w == k * l.window;
    if w <= now < w + l.window {
      Quotient(now, k, l.window);
    }
  }

  lemma AlignedIsMultiple(now: nat, l: Limits)
    requires l.window >= 1
    ensures AlignedStart(now, l) % l.window == 0
  {
    var q := now / l.window;
    assert now == q * l.window + now % l.window;
    Quotient(q * l.window, q, l.window);
  }

  /** Admissions of one aligned window never exceed the limit, nor the counter while the window is the current one;
      later windows have none yet. */
  lemma {:induction false} SlotInvariant(rs: Trace, id: string, l: Limits, now: nat, lag: nat, w: nat)
    requires l.Valid() && InOrder(rs, now, lag) && w % l.window == 0
    ensures var slot := SlotAfter(rs, id, l);
            var admitted := AdmittedIn(rs, id, l, w - 1, w + l.window - 1, MemoryRoute);
            && admitted <= l.limit
            && (slot.None? || slot.value.start < w ==> admitted == 0)
            && (slot.Some? && slot.value.start == w ==> admitted <= slot.value.count)
            && (slot.Some? ==> slot.value.start <= now)
            && (slot.Some? ==> slot.value.start % l.window == 0)
  {
    if rs.Then? {
      var init, r := rs.before, rs.last;
      SlotInvariant(init, id, l, r.now, lag, w);
      if r.id == id && r.fate != Answered {
        Aligned(r.now, w, l);
        AlignedIsMultiple(r.now, l);
        var before := SlotAfter(init, id, l);
        if before.Some? {
          Aligned(r.now, before.value.start, l);
        }
      }
    }
  }

  /** The counter admits at most limit requests in every aligned window. */
  lemma FixedWindowBound(rs: Trace, id: string, l: Limits, now: nat, lag: nat, w: nat)
    requires l.Valid() && InOrder(rs, now, lag) && w % l.window == 0
    ensures AdmittedIn(rs, id, l, w - 1, w + l.window - 1, MemoryRoute) <= l.limit
  {
    SlotInvariant(rs, id, l, now, lag, w);
  }

  lemma {:induction false} NothingBeforeZero(rs: Trace, id: string, l: Limits, lo: int, hi: int, route: Route)
    requires l.window >= 1 && hi < 0
    ensures AdmittedIn(rs, id, l, lo, hi, route) == 0
  {
    if rs.Then? {
      NothingBeforeZero(rs.before, id, l, lo, hi, route);
    }
  }

  lemma PreviousWindow(w: nat, l: Limits)
    requires l.window >= 1 && w % l.window == 0 && w > 0
    ensures w >= l.window && (w - l.window) % l.window == 0
  {
    var q := w / l.window;
    assert w == q * l.window;
    MultiplesApart(0, q, l.window);
    assert w - l.window == (q - 1) * l.window;
    Quotient(w - l.window, q - 1, l.window);
  }

  /** Any window of W seconds meets at most two aligned ones, so the counter admits at most twice the limit in it. */
  lemma FallbackBound(rs: Trace, id: string, l: Limits, now: nat, lag: nat, t: nat)
    requires l.Valid() && InOrder(rs, now, lag)
    ensures AdmittedIn(rs, id, l, t - l.window, t, MemoryRoute) <= 2 * l.limit
  {
    var w := AlignedStart(t, l);
    AlignedIsMultiple(t, l);
    Aligned(t, w, l);
    FixedWindowBound(rs, id, l, now, lag, w);
    SplitWindow(rs, id, l, t - l.window, w - 1, t, w - l.window - 1, w + l.window - 1, MemoryRoute);
    if w == 0 {
      NothingBeforeZero(rs, id, l, w - l.window - 1, w - 1, MemoryRoute);
    } else {
      PreviousWindow(w, l);
      FixedWindowBound(rs, id, l, now, lag, w - l.window);
    }
  }

  /** What the limiter can admit in one window: three times the limit, or twice where a window is a single second and
      so meets only one aligned one. */
  function MostAdmitted(l: Limits): nat {
    if l.window == 1 then 2 * l.limit else 3 * l.limit
  }

  lemma OneSecondBound(rs: Trace, id: string, l: Limits, now: nat, lag: nat, t: nat)
    requires l.Valid() && l.window == 1 && InOrder(rs, now, lag)
    ensures AdmittedIn(rs, id, l, t - 1, t, MemoryRoute) <= l.limit
  {
    FixedWindowBound(rs, id, l, now, lag, t);
  }

  /** Whatever Redis does, short of losing data, in any window of W seconds. */
  lemma MixedBound(rs: Trace, id: string, l: Limits, now: nat, t: nat)
    requires l.Valid() && InOrder(rs, now, EXPIRY_SLACK)
    ensures AdmittedIn(rs, id, l, t - l.window, t, AnyRoute) <= MostAdmitted(l)
  {
    RoutesAddUp(rs, id, l, t - l.window, t);
    SlidingWindowBound(rs, id, l, now, t);
    if l.window == 1 {
      OneSecondBound(rs, id, l, now, EXPIRY_SLACK, t);
    } else {
      FallbackBound(rs, id, l, now, EXPIRY_SLACK, t);
    }
  }

  // ---------- The decision itself ----------

  /** The requests of an identifier alone. */
  function OnlyOf(rs: Trace, id: string): Trace {
    if rs.Start? then Start
    else if rs.last.id == id then Then(OnlyOf(rs.before, id), rs.last)
    else OnlyOf(rs.before, id)
  }

  lemma {:induction false} OthersLeaveNoTrace(rs: Trace, id: string, l: Limits)
    requires l.window >= 1
    ensures KeyAfter(OnlyOf(rs, id), id, l) == KeyAfter(rs, id, l)
    ensures SlotAfter(OnlyOf(rs, id), id, l) == SlotAfter(rs, id, l)
  {
    if rs.Then? {
      OthersLeaveNoTrace(rs.before, id, l);
    }
  }

  /** A decision depends on the identifier's own requests only. */
  lemma {:induction false} OthersDoNotCount(rs: Trace, r: Request, l: Limits)
    requires l.window >= 1
    ensures Admitted(rs, r, l) <==> Admitted(OnlyOf(rs, r.id), r, l)
  {
    OthersLeaveNoTrace(rs, r.id, l);
  }

  /** The requests of an identifier since lo that went to the counter. */
  function CountedSince(rs: Trace, id: string, lo: int): nat {
    if rs.Start? then 0 else
    var r := rs.last;
    CountedSince(rs.before, id, lo) + if r.id == id && r.fate != Answered && lo < r.now then 1 else 0
  }

  /** The counter, while its window is the current one; a later window has counted nothing. */
  lemma {:induction false} SlotCounts(rs: Trace, id: string, l: Limits, now: nat, lag: nat, w: nat)
    requires l.Valid() && InOrder(rs, now, lag) && w % l.window == 0 && now < w + l.window
    ensures var slot := SlotAfter(rs, id, l);
            && (slot.Some? && slot.value.start == w ==> CountedSince(rs, id, w - 1) == slot.value.count)
            && (slot.None? || slot.value.start != w ==> CountedSince(rs, id, w - 1) == 0)
  {
    if rs.Then? {
      var init, r := rs.before, rs.last;
      SlotCounts(init, id, l, r.now, lag, w);
      Aligned(r.now, w, l);
      SlotInvariant(init, id, l, r.now, lag, w);
    }
  }

  /** The decision in terms of the earlier requests alone: with an answer from Redis, fewer than limit of the
      identifier's requests of the last W seconds took effect there; otherwise fewer than limit of those of the
      current aligned window went to the counter. */
  lemma AdmittedIff(rs: Trace, r: Request, l: Limits)
    requires l.Valid() && InOrder(rs, r.now, EXPIRY_SLACK) && r.now <= r.at <= r.now + EXPIRY_SLACK
    ensures Admitted(rs, r, l) <==>
            (if r.fate == Answered then EffectiveSince(rs, r.id, r.now - l.window)
             else CountedSince(rs, r.id, r.now - r.now % l.window - 1)) < l.limit
  {
    hide Above, Scores, KeyAfter, SlotAfter, CountedSince, EffectiveSince;
    if r.fate == Answered {
      ExpiryIsHarmless(rs, r, l);
      ScoresAreComplete(rs, r.id, l, r.now, r.now - l.window, EXPIRY_SLACK);
    } else {
      AlignedIsMultiple(r.now, l);
      SlotCounts(rs, r.id, l, r.now, EXPIRY_SLACK, AlignedStart(r.now, l));
    }
  }

  // ---------- The bounds are reached ----------

  function Burst(rs: Trace, r: Request, n: nat): Trace {
    if n == 0 then rs else Then(Burst(rs, r, n - 1), r)
  }

  function Times(now: nat, n: nat): seq<nat> {
    if n == 0 then [] else Times(now, n - 1) + [now]
  }

  lemma {:induction false} TimesAbove(now: nat, n: nat, bound: int)
    requires bound < now
    ensures Above(Times(now, n), bound) == Times(now, n) && |Times(now, n)| == n
  {
    if n > 0 {
      TimesAbove(now, n - 1, bound);
      AboveAppend(Times(now, n - 1), now, bound);
    }
  }

  lemma PipelineOneMore(z: Option<ZSet>, r: Request, l: Limits, n: nat)
    requires l.Valid() && Alive(z, r.at) == Times(r.now, n)
    ensures PipelineCount(z, r, l) == n
    ensures Alive(Some(PipelineStep(z, r, l)), r.at) == Times(r.now, n + 1)
  {
    TimesAbove(r.now, n, r.now - l.window);
  }

  lemma {:induction false} RedisBurst(r: Request, l: Limits, n: nat, lo: int, hi: int)
    requires l.Valid() && r.fate == Answered && n <= l.limit && lo < r.now <= hi
    ensures Alive(KeyAfter(Burst(Start, r, n), r.id, l), r.at) == Times(r.now, n)
    ensures SlotAfter(Burst(Start, r, n), r.id, l) == None
    ensures AdmittedIn(Burst(Start, r, n), r.id, l, lo, hi, AnyRoute) == n
  {
    if n > 0 {
      RedisBurst(r, l, n - 1, lo, hi);
      PipelineOneMore(KeyAfter(Burst(Start, r, n - 1), r.id, l), r, l, n - 1);
    }
  }

  lemma {:induction false} MemoryBurst(rs: Trace, r: Request, l: Limits, n: nat, lo: int, hi: int)
    requires l.Valid() && r.fate == Lost(false) && n <= l.limit && lo < r.now <= hi
    requires SlotAfter(rs, r.id, l).None? || SlotAfter(rs, r.id, l).value.start != AlignedStart(r.now, l)
    ensures AdmittedIn(Burst(rs, r, n), r.id, l, lo, hi, AnyRoute) == AdmittedIn(rs, r.id, l, lo, hi, AnyRoute) + n
    ensures SlotAfter(Burst(rs, r, n), r.id, l) ==
            if n == 0 then SlotAfter(rs, r.id, l) else Some(Slot(AlignedStart(r.now, l), n))
  {
    if n > 0 {
      MemoryBurst(rs, r, l, n - 1, lo, hi);
    }
  }

  lemma {:induction false} BurstInOrder(rs: Trace, r: Request, n: nat)
    requires InOrder(rs, r.now, 0) && r.at == r.now
    ensures InOrder(Burst(rs, r, n), r.now, 0)
  {
    if n > 0 {
      BurstInOrder(rs, r, n - 1);
    }
  }

  /** A full burst through Redis and one through the counter in the last second of an aligned window. */
  lemma TwoBursts(l: Limits) returns (rs: Trace)
    requires l.Valid()
    ensures InOrder(rs, l.window - 1, 0)
    ensures AdmittedIn(rs, "a", l, -1, l.window, AnyRoute) == 2 * l.limit
    ensures l.window >= 2 ==> AdmittedIn(rs, "a", l, 0, l.window, AnyRoute) == 2 * l.limit
    ensures SlotAfter(rs, "a", l) == Some(Slot(0, l.limit))
  {
    var r1 := Request("a", l.window - 1, l.window - 1, Answered);
    var r2 := Request("a", l.window - 1, l.window - 1, Lost(false));
    var first := Burst(Start, r1, l.limit);
    rs := Burst(first, r2, l.limit);
    BurstInOrder(Start, r1, l.limit);
    BurstInOrder(first, r2, l.limit);
    Aligned(l.window - 1, 0, l);
    RedisBurst(r1, l, l.limit, -1, l.window);
    MemoryBurst(first, r2, l, l.limit, -1, l.window);
    if l.window >= 2 {
      RedisBurst(r1, l, l.limit, 0, l.window);
      MemoryBurst(first, r2, l, l.limit, 0, l.window);
    }
  }

  /** The bound is reached for every window and limit: with those two bursts, and, where the window is longer than a
      second, another through the counter in the first second of the next aligned window. */
  lemma MixedBoundIsTight(l: Limits) returns (rs: Trace, t: nat)
    requires l.Valid()
    ensures InOrder(rs, t, 0)
    ensures AdmittedIn(rs, "a", l, t - l.window, t, AnyRoute) == MostAdmitted(l)
  {
    var bursts := TwoBursts(l);
    if l.window == 1 {
      rs, t := bursts, 0;
      NothingAfter(rs, "a", l, -1, 0, 1, 0);
    } else {
      var r3 := Request("a", l.window, l.window, Lost(false));
      rs, t := Burst(bursts, r3, l.limit), l.window;
      LaterIsInOrder(bursts, l.window - 1, l.window, 0);
      BurstInOrder(bursts, r3, l.limit);
      Aligned(l.window, l.window, l);
      MemoryBurst(bursts, r3, l, l.limit, 0, l.window);
    }
  }

  /** Requests are counted alike by all windows that end at or after the latest one. */
  lemma {:induction false} NothingAfter(rs: Trace, id: string, l: Limits, lo: int, hi: int, hi': int, lag: nat)
    requires l.window >= 1 && 0 <= hi <= hi' && InOrder(rs, hi, lag)
    ensures AdmittedIn(rs, id, l, lo, hi, AnyRoute) == AdmittedIn(rs, id, l, lo, hi', AnyRoute)
  {
    if rs.Then? {
      LaterIsInOrder(rs.before, rs.last.now, hi, lag);
      NothingAfter(rs.before, id, l, lo, hi, hi', lag);
    }
  }

  // ---------- Retry-After ----------

  lemma WaitingForRedis(rs: Trace, r: Request, next: Request, l: Limits)
    requires l.Valid() && InOrder(rs, r.now, EXPIRY_SLACK) && r.now <= r.at <= r.now + EXPIRY_SLACK
    requires r.fate == Answered && next.now >= r.now + l.window
    ensures PipelineCount(KeyAfter(Then(rs, r), r.id, l), next, l) == 0
  {
    hide Above, AtMost, Scores;
    var scores := Scores(rs, r.id, l);
    ExpiryInvariant(rs, r.id, l, r.now, r.at, r.now - l.window);
    ScoresBounded(rs, r.id, l, r.now, EXPIRY_SLACK);
    PipelineBounded(scores, r, l, next.now - l.window);
    AboveNone(Above(scores, r.now - l.window) + [r.now], next.now - l.window);
    AboveEmpty(next.now - l.window);
  }

  lemma WaitingForSlot(rs: Trace, r: Request, next: Request, l: Limits)
    requires l.Valid() && r.fate != Answered && next.now >= r.now + RetryAfter(r, l)
    ensures MemoryStep(SlotAfter(Then(rs, r), r.id, l), next.now, l).count == 1
  {
    AlignedIsMultiple(r.now, l);
    Aligned(next.now, AlignedStart(r.now, l), l);
  }

  /** An identifier that waits the announced time, and is served the same way again, is admitted. */
  lemma WaitingSuffices(rs: Trace, r: Request, next: Request, l: Limits)
    requires l.Valid() && InOrder(rs, r.now, EXPIRY_SLACK) && r.now <= r.at <= r.now + EXPIRY_SLACK
    requires next.id == r.id && next.now >= r.now + RetryAfter(r, l)
    requires next.fate == Answered <==> r.fate == Answered
    ensures Admitted(Then(rs, r), next, l)
  {
    if r.fate == Answered {
      WaitingForRedis(rs, r, next, l);
    } else {
      WaitingForSlot(rs, r, next, l);
    }
  }

  /** The announced time is never more than a window; and where the counter rejected, anything earlier that goes to the
      counter is rejected too. */
  lemma WaitingIsNeeded(rs: Trace, r: Request, next: Request, l: Limits)
    requires l.Valid() && next.id == r.id && r.fate != Answered && next.fate != Answered
    requires r.now <= next.now < r.now + RetryAfter(r, l) && !Admitted(rs, r, l)
    ensures !Admitted(Then(rs, r), next, l)
  {
    AlignedIsMultiple(r.now, l);
    Aligned(next.now, AlignedStart(r.now, l), l);
  }

  lemma RetryAfterIsShort(r: Request, l: Limits)
    requires l.Valid()
    ensures 1 <= RetryAfter(r, l) <= l.window
  {
  }
}
