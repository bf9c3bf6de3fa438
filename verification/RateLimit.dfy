/** The fixed-window rate limiter with its one-way latch from Redis to memory
    (apps/api/src/middleware/rate-limit.ts). */
module RateLimit {
  import opened Arithmetic
  import opened Collections
  import opened Domain

  /** Requests of one caller in one window share a key; the limiter's name is fixed. */
  datatype Key = Key(identity: string, bucket: int)

  datatype Counter = Counter(count: nat, resetAt: Instant)

  datatype Limits = Limits(max: nat, windowMs: nat, redis: bool) {
    predicate Valid() { windowMs > 0 }
  }

  /** The clock is read for the key, again for the counter and its reset time, and again for Retry-After. A request
      first looks at the latch: it asks Redis or not. If it asks it waits for the reply, None for any failure, and
      others go on meanwhile; `began` is how many requests had been counted when it looked. */
  datatype Request = Request(identity: string, keyedAt: Instant, countedAt: Instant, answeredAt: Instant,
      began: nat, asks: bool, reply: Option<nat>)

  datatype State = State(counters: map<Key, Counter>, fallback: set<Key>)

  const FRESH := State(map[], {})

  datatype Response =
    | Allowed(remaining: nat, resetSeconds: int)
    | Limited(retryAfterSeconds: nat, resetSeconds: int)

  function KeyFor(limits: Limits, r: Request): Key
    requires limits.Valid()
  {
    Key(r.identity, r.keyedAt / limits.windowMs)
  }

  function EndOf(limits: Limits, bucket: int): Instant {
    (bucket + 1) * limits.windowMs
  }

  function BucketResetFor(limits: Limits, t: Instant): Instant
    requires limits.Valid()
  {
    EndOf(limits, t / limits.windowMs)
  }

  function CeilSeconds(ms: int): int {
    -((-ms) / 1000)
  }

  function ResponseFor(limits: Limits, count: nat, resetAt: Instant, now: Instant): Response {
    if count > limits.max then Limited(MaxInt(1, CeilSeconds(resetAt - now)), CeilSeconds(resetAt))
    else Allowed(limits.max - count, CeilSeconds(resetAt))
  }

  // ---- One request, as functions of the state ----

  function MemoryCount(limits: Limits, counters: map<Key, Counter>, key: Key, now: Instant): Counter
    requires limits.Valid()
  {
    if key !in counters || counters[key].resetAt <= now then Counter(1, BucketResetFor(limits, now))
    else counters[key].(count := counters[key].count + 1)
  }

  predicate LatchAllows(limits: Limits, s: State, key: Key) {
    limits.redis && key !in s.fallback
  }

  predicate UsesRedis(r: Request) {
    r.asks && r.reply.Some?
  }

  function Counted(limits: Limits, s: State, r: Request): Counter
    requires limits.Valid()
  {
    if UsesRedis(r) then Counter(r.reply.value, BucketResetFor(limits, r.countedAt))
    else MemoryCount(limits, s.counters, KeyFor(limits, r), r.countedAt)
  }

  function Next(limits: Limits, s: State, r: Request): State
    requires limits.Valid()
  {
    if UsesRedis(r) then s
    else
      var key := KeyFor(limits, r);
      State(s.counters[key := Counted(limits, s, r)], if r.asks then s.fallback + {key} else s.fallback)
  }

  class RateLimiter {
    const limits: Limits
    var memoryCounters: map<Key, Counter>
    var redisFallbackKeys: set<Key>

    function Current(): State
      reads this
    {
      State(memoryCounters, redisFallbackKeys)
    }

    constructor (limits: Limits)
      requires limits.Valid()
      ensures this.limits == limits && Current() == FRESH
    {
      this.limits := limits;
      memoryCounters := map[];
      redisFallbackKeys := {};
    }

    method IncrementMemoryCounter(key: Key, now: Instant) returns (result: Counter)
      requires limits.Valid()
      modifies this`memoryCounters
      ensures result == MemoryCount(limits, old(memoryCounters), key, now)
      ensures memoryCounters == old(memoryCounters)[key := result]
    {
      var resetAt := BucketResetFor(limits, now);
      if key !in memoryCounters || memoryCounters[key].resetAt <= now {
        result := Counter(1, resetAt);
        memoryCounters := memoryCounters[key := result];
        return;
      }
      result := memoryCounters[key].(count := memoryCounters[key].count + 1);
      memoryCounters := memoryCounters[key := result];
    }

    /** The stretch before the await: whether Redis is asked. */
    method LooksAtLatch(key: Key) returns (asks: bool)
      ensures asks == LatchAllows(limits, Current(), key)
    {
      asks := limits.redis && key !in redisFallbackKeys;
    }

    /** The stretch after it: the reply counts, or the key falls back to memory for good. */
    method CountRequest(r: Request) returns (result: Counter)
      requires limits.Valid()
      modifies this
      ensures result == Counted(limits, old(Current()), r)
      ensures Current() == Next(limits, old(Current()), r)
    {
      var key := KeyFor(limits, r);
      if r.asks {
        match r.reply {
          case Some(count) =>
            return Counter(count, BucketResetFor(limits, r.countedAt));
          case None =>
            redisFallbackKeys := redisFallbackKeys + {key};
        }
      }
      result := IncrementMemoryCounter(key, r.countedAt);
    }

    method IncrementRateLimit(r: Request) returns (result: Counter)
      requires limits.Valid()
      modifies this
      ensures var asking := r.(asks := LatchAllows(limits, old(Current()), KeyFor(limits, r)));
              && result == Counted(limits, old(Current()), asking)
              && Current() == Next(limits, old(Current()), asking)
    {
      var asks := LooksAtLatch(KeyFor(limits, r));
      result := CountRequest(r.(asks := asks));
    }

    method RateLimit(r: Request) returns (response: Response)
      requires limits.Valid()
      modifies this
      ensures var asking := r.(asks := LatchAllows(limits, old(Current()), KeyFor(limits, r)));
              var counter := Counted(limits, old(Current()), asking);
              && Current() == Next(limits, old(Current()), asking)
              && (response.Allowed? <==> counter.count <= limits.max)
              && response == ResponseFor(limits, counter.count, counter.resetAt, r.answeredAt)
    {
      var result := IncrementRateLimit(r);
      var resetSeconds := CeilSeconds(result.resetAt);
      if result.count > limits.max {
        return Limited(MaxInt(1, CeilSeconds(result.resetAt - r.answeredAt)), resetSeconds);
      }
      return Allowed(limits.max - result.count, resetSeconds);
    }
  }

  // ---- Runs ----

  /** What became of one request. */
  datatype Outcome = Outcome(key: Key, at: Instant, byRedis: bool, passed: bool)

  function OutcomeOf(limits: Limits, s: State, r: Request): Outcome
    requires limits.Valid()
  {
    Outcome(KeyFor(limits, r), r.keyedAt, UsesRedis(r), Counted(limits, s, r).count <= limits.max)
  }

  /** The state after the requests, in the order in which they are counted. */
  function After(limits: Limits, rs: seq<Request>): State
    requires limits.Valid()
  {
    if rs == [] then FRESH
    else Next(limits, After(limits, rs[..|rs| - 1]), rs[|rs| - 1])
  }

  function Trace(limits: Limits, rs: seq<Request>): (t: seq<Outcome>)
    requires limits.Valid()
    ensures |t| == |rs|
  {
    if rs == [] then []
    else
      var before := rs[..|rs| - 1];
      Trace(limits, before) + [OutcomeOf(limits, After(limits, before), rs[|rs| - 1])]
  }

  function Count(t: seq<Outcome>, p: Outcome -> bool): nat {
    if t == [] then 0
    else Count(t[..|t| - 1], p) + if p(t[|t| - 1]) then 1 else 0
  }

  function Arrivals(t: seq<Outcome>, key: Key): nat {
    Count(t, (o: Outcome) => o.key == key)
  }

  function MemoryArrivals(t: seq<Outcome>, key: Key): nat {
    Count(t, (o: Outcome) => o.key == key && !o.byRedis)
  }

  function Passes(t: seq<Outcome>, key: Key): nat {
    Count(t, (o: Outcome) => o.key == key && o.passed)
  }

  function RedisPasses(t: seq<Outcome>, key: Key): nat {
    Count(t, (o: Outcome) => o.key == key && o.byRedis && o.passed)
  }

  /** The readings for the key and for the counter fall in one window. */
  ghost predicate Prompt(limits: Limits, r: Request)
    requires limits.Valid()
  {
    r.countedAt / limits.windowMs == r.keyedAt / limits.windowMs
  }

  ghost predicate AllPrompt(limits: Limits, rs: seq<Request>)
    requires limits.Valid()
  {
    forall i :: 0 <= i < |rs| ==> Prompt(limits, rs[i])
  }

  /** Each request looked at the latch at some moment before it was counted, and saw the latch of that moment. */
  ghost predicate IsRun(limits: Limits, rs: seq<Request>)
    requires limits.Valid()
  {
    forall i :: 0 <= i < |rs| ==> LookedBefore(limits, rs, i)
  }

  ghost predicate LookedBefore(limits: Limits, rs: seq<Request>, i: nat)
    requires limits.Valid() && i < |rs|
  {
    && rs[i].began <= i
    && rs[i].asks == LatchAllows(limits, After(limits, rs[..rs[i].began]), KeyFor(limits, rs[i]))
  }

  /** INCR hands out every count once: the replies for one key are distinct and at least 1. They may arrive in any
      order, and some may be lost. */
  ghost predicate RepliesDistinct(limits: Limits, rs: seq<Request>)
    requires limits.Valid()
  {
    && (forall i :: 0 <= i < |rs| && rs[i].reply.Some? ==> rs[i].reply.value >= 1)
    && (forall i, j ::
          0 <= i < j < |rs| && KeyFor(limits, rs[i]) == KeyFor(limits, rs[j])
          && rs[i].reply.Some? && rs[j].reply.Some? ==>
          rs[i].reply.value != rs[j].reply.value)
  }

  lemma WindowEnd(t: Instant, w: nat)
    requires w > 0
    ensures t < (t / w + 1) * w
  {
    assert t == (t / w) * w + t % w;
    assert (t / w + 1) * w == (t / w) * w + w;
  }

  /** The memory counter of a key holds the number of its requests counted in memory, until its window ends. */
  ghost predicate CounterExact(limits: Limits, s: State, t: seq<Outcome>, key: Key)
    requires limits.Valid()
  {
    if MemoryArrivals(t, key) == 0 then key !in s.counters
    else key in s.counters && s.counters[key] == Counter(MemoryArrivals(t, key), EndOf(limits, key.bucket))
  }

  lemma OneMore(t: seq<Outcome>, o: Outcome, p: Outcome -> bool)
    ensures Count(t + [o], p) == Count(t, p) + if p(o) then 1 else 0
  {
    assert (t + [o])[..|t|] == t;
  }

  lemma {:induction false} CountNext(limits: Limits, s: State, t: seq<Outcome>, r: Request, key: Key)
    requires limits.Valid() && Prompt(limits, r) && CounterExact(limits, s, t, key)
    ensures CounterExact(limits, Next(limits, s, r), t + [OutcomeOf(limits, s, r)], key)
    ensures key == KeyFor(limits, r) && !UsesRedis(r) ==>
        Counted(limits, s, r).count == MemoryArrivals(t, key) + 1
  {
    hide Count;
    OneMore(t, OutcomeOf(limits, s, r), (o: Outcome) => o.key == key && !o.byRedis);
    WindowEnd(r.countedAt, limits.windowMs);
  }

  lemma {:induction false} CountersAreExact(limits: Limits, rs: seq<Request>, key: Key)
    requires limits.Valid() && AllPrompt(limits, rs)
    ensures CounterExact(limits, After(limits, rs), Trace(limits, rs), key)
  {
    hide CounterExact, Next, OutcomeOf, MemoryArrivals;
    if rs == [] {
      NothingCounted(limits, key);
    } else {
      var before := rs[..|rs| - 1];
      CountersAreExact(limits, before, key);
      CountNext(limits, After(limits, before), Trace(limits, before), rs[|rs| - 1], key);
    }
  }

  lemma NothingCounted(limits: Limits, key: Key)
    requires limits.Valid()
    ensures CounterExact(limits, FRESH, [], key)
  {
  }

  /** The bill of one key: what Redis let through, and of the requests counted in memory the first `max`. */
  lemma {:induction false} PassesSplit(limits: Limits, rs: seq<Request>, key: Key)
    requires limits.Valid() && AllPrompt(limits, rs)
    ensures var t := Trace(limits, rs);
            Passes(t, key) == RedisPasses(t, key) + MinInt(limits.max, MemoryArrivals(t, key))
  {
    if rs != [] {
      var before := rs[..|rs| - 1];
      PassesSplit(limits, before, key);
      CountersAreExact(limits, before, key);
      var s, t, r := After(limits, before), Trace(limits, before), rs[|rs| - 1];
      CountNext(limits, s, t, r, key);
      PassesNext(limits, s, t, r, key);
    }
  }

  lemma PassesNext(limits: Limits, s: State, t: seq<Outcome>, r: Request, key: Key)
    requires limits.Valid() && Passes(t, key) == RedisPasses(t, key) + MinInt(limits.max, MemoryArrivals(t, key))
    requires key == KeyFor(limits, r) && !UsesRedis(r) ==>
        Counted(limits, s, r).count == MemoryArrivals(t, key) + 1
    ensures var u := t + [OutcomeOf(limits, s, r)];
            Passes(u, key) == RedisPasses(u, key) + MinInt(limits.max, MemoryArrivals(u, key))
  {
    hide Count;
    var o := OutcomeOf(limits, s, r);
    OneMore(t, o, (o: Outcome) => o.key == key && o.passed);
    OneMore(t, o, (o: Outcome) => o.key == key && o.byRedis && o.passed);
    OneMore(t, o, (o: Outcome) => o.key == key && !o.byRedis);
  }

  // ---- The bounds ----

  lemma {:induction false} SameCount(t: seq<Outcome>, p: Outcome -> bool, q: Outcome -> bool)
    requires forall o :: o in t ==> p(o) == q(o)
    ensures Count(t, p) == Count(t, q)
  {
    if t != [] {
      SameCount(t[..|t| - 1], p, q);
    }
  }

  lemma {:induction false} CountNone(t: seq<Outcome>, p: Outcome -> bool)
    requires forall o :: o in t ==> !p(o)
    ensures Count(t, p) == 0
  {
    if t != [] {
      CountNone(t[..|t| - 1], p);
    }
  }

  lemma {:induction false} NoRedisOutcome(limits: Limits, rs: seq<Request>)
    requires limits.Valid() && forall i :: 0 <= i < |rs| ==> !rs[i].asks
    ensures forall o :: o in Trace(limits, rs) ==> !o.byRedis
  {
    if rs != [] {
      NoRedisOutcome(limits, rs[..|rs| - 1]);
    }
  }

  lemma NobodyAsks(limits: Limits, rs: seq<Request>)
    requires limits.Valid() && !limits.redis && IsRun(limits, rs)
    ensures forall i :: 0 <= i < |rs| ==> !rs[i].asks
  {
    hide After;
    forall i | 0 <= i < |rs|
      ensures !rs[i].asks
    {
      assert LookedBefore(limits, rs, i);
    }
  }

  /** Without Redis every window lets through exactly the first `max` arrivals of a caller. */
  lemma {:induction false} MemoryIsExact(limits: Limits, rs: seq<Request>, key: Key)
    requires limits.Valid() && !limits.redis && IsRun(limits, rs) && AllPrompt(limits, rs)
    ensures Passes(Trace(limits, rs), key) == MinInt(limits.max, Arrivals(Trace(limits, rs), key))
  {
    hide Count, Trace;
    var t := Trace(limits, rs);
    PassesSplit(limits, rs, key);
    NobodyAsks(limits, rs);
    NoRedisOutcome(limits, rs);
    CountNone(t, (o: Outcome) => o.key == key && o.byRedis && o.passed);
    SameCount(t, (o: Outcome) => o.key == key, (o: Outcome) => o.key == key && !o.byRedis);
  }

  lemma TraceOneMore(limits: Limits, rs: seq<Request>)
    requires limits.Valid() && rs != []
    ensures var before, r := rs[..|rs| - 1], rs[|rs| - 1];
            && Trace(limits, rs) == Trace(limits, before) + [OutcomeOf(limits, After(limits, before), r)]
            && After(limits, rs) == Next(limits, After(limits, before), r)
  {
  }

  // Counting by the replies.

  ghost predicate Replied(limits: Limits, r: Request, key: Key)
    requires limits.Valid()
  {
    KeyFor(limits, r) == key && UsesRedis(r)
  }

  /** The counts that Redis gave to the requests of one key. */
  ghost function Replies(limits: Limits, rs: seq<Request>, key: Key): set<nat>
    requires limits.Valid()
  {
    set i | 0 <= i < |rs| && Replied(limits, rs[i], key) :: rs[i].reply.value
  }

  /** Those of them up to the maximum. */
  ghost function PassedReplies(limits: Limits, rs: seq<Request>, key: Key): set<nat>
    requires limits.Valid()
  {
    set v | v in Replies(limits, rs, key) && v <= limits.max
  }

  function RedisArrivals(t: seq<Outcome>, key: Key): nat {
    Count(t, (o: Outcome) => o.key == key && o.byRedis)
  }

  lemma RepliesOneMore(limits: Limits, rs: seq<Request>, key: Key)
    requires limits.Valid() && RepliesDistinct(limits, rs) && rs != []
    ensures var before, r := rs[..|rs| - 1], rs[|rs| - 1];
            && RepliesDistinct(limits, before)
            && Replies(limits, rs, key) ==
               Replies(limits, before, key) + (if Replied(limits, r, key) then {r.reply.value} else {})
            && (Replied(limits, r, key) ==> r.reply.value !in Replies(limits, before, key))
  {
    hide KeyFor;
    var before, r := rs[..|rs| - 1], rs[|rs| - 1];
    assert forall i :: 0 <= i < |before| ==> before[i] == rs[i];
    forall v | v in Replies(limits, rs, key)
      ensures v in Replies(limits, before, key) || (Replied(limits, r, key) && v == r.reply.value)
    {
      var i :| 0 <= i < |rs| && Replied(limits, rs[i], key) && rs[i].reply.value == v;
      assert i < |before| ==> before[i] == rs[i];
    }
    forall v | v in Replies(limits, before, key)
      ensures v in Replies(limits, rs, key)
    {
      var i :| 0 <= i < |before| && Replied(limits, before[i], key) && before[i].reply.value == v;
      assert rs[i] == before[i];
    }
  }

  /** Distinct replies make the counting of passes a counting of numbers. */
  lemma {:induction false} RepliesAreCounted(limits: Limits, rs: seq<Request>, key: Key)
    requires limits.Valid() && RepliesDistinct(limits, rs)
    ensures |Replies(limits, rs, key)| == RedisArrivals(Trace(limits, rs), key)
    ensures |PassedReplies(limits, rs, key)| == RedisPasses(Trace(limits, rs), key)
  {
    if rs != [] {
      var before, r := rs[..|rs| - 1], rs[|rs| - 1];
      RepliesOneMore(limits, rs, key);
      RepliesAreCounted(limits, before, key);
      TraceOneMore(limits, rs);
      ReplyIsCounted(limits, rs, key);
    }
  }

  lemma ReplyIsCounted(limits: Limits, rs: seq<Request>, key: Key)
    requires limits.Valid() && rs != [] && RepliesDistinct(limits, rs)
    requires var before := rs[..|rs| - 1];
             && |Replies(limits, before, key)| == RedisArrivals(Trace(limits, before), key)
             && |PassedReplies(limits, before, key)| == RedisPasses(Trace(limits, before), key)
    ensures |Replies(limits, rs, key)| == RedisArrivals(Trace(limits, rs), key)
    ensures |PassedReplies(limits, rs, key)| == RedisPasses(Trace(limits, rs), key)
  {
    hide Count, Next, After, Trace, Replies, RepliesDistinct;
    var before, r := rs[..|rs| - 1], rs[|rs| - 1];
    RepliesOneMore(limits, rs, key);
    TraceOneMore(limits, rs);
    var t, o := Trace(limits, before), OutcomeOf(limits, After(limits, before), r);
    OutcomeByReply(limits, After(limits, before), r, key);
    hide OutcomeOf, Replied;
    OneMore(t, o, (o: Outcome) => o.key == key && o.byRedis);
    OneMore(t, o, (o: Outcome) => o.key == key && o.byRedis && o.passed);
    PassedOneMore(limits, rs, key);
  }

  lemma OutcomeByReply(limits: Limits, s: State, r: Request, key: Key)
    requires limits.Valid()
    ensures var o := OutcomeOf(limits, s, r);
            && (o.key == key && o.byRedis <==> Replied(limits, r, key))
            && (Replied(limits, r, key) ==> (o.passed <==> r.reply.value <= limits.max))
  {
  }

  lemma PassedOneMore(limits: Limits, rs: seq<Request>, key: Key)
    requires limits.Valid() && rs != [] && RepliesDistinct(limits, rs)
    ensures var before, r := rs[..|rs| - 1], rs[|rs| - 1];
            |PassedReplies(limits, rs, key)| ==
            |PassedReplies(limits, before, key)| + if Replied(limits, r, key) && r.reply.value <= limits.max then 1
                else 0
  {
    hide Replies, RepliesDistinct;
    var before, r := rs[..|rs| - 1], rs[|rs| - 1];
    RepliesOneMore(limits, rs, key);
    var added := if Replied(limits, r, key) && r.reply.value <= limits.max then {r.reply.value} else {};
    assert PassedReplies(limits, rs, key) == PassedReplies(limits, before, key) + added;
    assert PassedReplies(limits, before, key) !! added;
  }

  ghost function UpTo(n: nat): (r: set<nat>)
    ensures forall v :: v in r <==> 1 <= v <= n
  {
    if n == 0 then {} else UpTo(n - 1) + {n}
  }

  lemma {:induction false} UpToCount(n: nat)
    ensures |UpTo(n)| == n
  {
    if n > 0 {
      UpToCount(n - 1);
    }
  }

  /** Distinct replies let at most `max` requests through, in whatever order they arrive and however many are lost. */
  lemma {:induction false} RedisPassesBounded(limits: Limits, rs: seq<Request>, key: Key)
    requires limits.Valid() && RepliesDistinct(limits, rs)
    ensures RedisPasses(Trace(limits, rs), key) <= limits.max
  {
    hide Count, Trace, KeyFor;
    RepliesAreCounted(limits, rs, key);
    UpToCount(limits.max);
    SubsetIsSmaller(PassedReplies(limits, rs, key), UpTo(limits.max));
  }

  /** If Redis fails in the middle of a window, at most twice `max` requests of a caller get through in it, also when
      requests wait for Redis side by side. */
  lemma {:induction false} AtMostTwice(limits: Limits, rs: seq<Request>, key: Key)
    requires limits.Valid() && AllPrompt(limits, rs) && RepliesDistinct(limits, rs)
    ensures Passes(Trace(limits, rs), key) <= 2 * limits.max
  {
    hide Count, Trace;
    PassesSplit(limits, rs, key);
    RedisPassesBounded(limits, rs, key);
  }

  // ---- A Redis that never fails ----

  lemma {:induction false} NobodyFallsBack(limits: Limits, rs: seq<Request>)
    requires limits.Valid() && limits.redis && IsRun(limits, rs) && forall i :: 0 <= i < |rs| ==> rs[i].reply.Some?
    ensures After(limits, rs) == FRESH
    ensures forall i :: 0 <= i < |rs| ==> rs[i].asks
  {
    if rs != [] {
      var before, r := rs[..|rs| - 1], rs[|rs| - 1];
      EarlierRun(limits, rs, |before|);
      NobodyFallsBack(limits, before);
      assert LookedBefore(limits, rs, |before|);
      EarlierRun(limits, rs, r.began);
      assert forall i :: 0 <= i < r.began ==> rs[..r.began][i] == rs[i];
      NobodyFallsBack(limits, rs[..r.began]);
    }
  }

  lemma EarlierRun(limits: Limits, rs: seq<Request>, k: nat)
    requires limits.Valid() && IsRun(limits, rs) && k <= |rs|
    ensures IsRun(limits, rs[..k])
  {
    hide After;
    forall i | 0 <= i < k
      ensures LookedBefore(limits, rs[..k], i)
    {
      assert LookedBefore(limits, rs, i);
      assert rs[..k][..rs[i].began] == rs[..rs[i].began];
    }
  }

  lemma {:induction false} AllByRedis(limits: Limits, rs: seq<Request>)
    requires limits.Valid() && forall i :: 0 <= i < |rs| ==> UsesRedis(rs[i])
    ensures forall o :: o in Trace(limits, rs) ==> o.byRedis
  {
    if rs != [] {
      AllByRedis(limits, rs[..|rs| - 1]);
    }
  }

  /** With a Redis that never fails and numbers the requests of a key from 1 on, the same holds, in whatever order the
      replies arrive. */
  lemma {:induction false} RedisIsExact(limits: Limits, rs: seq<Request>, key: Key)
    requires limits.Valid() && limits.redis && IsRun(limits, rs) && RepliesDistinct(limits, rs)
    requires forall i :: 0 <= i < |rs| ==> rs[i].reply.Some?
    requires forall i :: 0 <= i < |rs| && KeyFor(limits, rs[i]) == key ==>
               rs[i].reply.value <= Arrivals(Trace(limits, rs), key)
    ensures Passes(Trace(limits, rs), key) == MinInt(limits.max, Arrivals(Trace(limits, rs), key))
  {
    hide Count, Trace, KeyFor, IsRun, After;
    var t := Trace(limits, rs);
    NobodyFallsBack(limits, rs);
    AllByRedis(limits, rs);
    SameCount(t, (o: Outcome) => o.key == key, (o: Outcome) => o.key == key && o.byRedis);
    SameCount(t, (o: Outcome) => o.key == key && o.passed, (o: Outcome) => o.key == key && o.byRedis && o.passed);
    RepliesAreCounted(limits, rs, key);
    RepliesAreNumbers(limits, rs, key, Arrivals(t, key));
  }

  lemma RepliesAreNumbers(limits: Limits, rs: seq<Request>, key: Key, n: nat)
    requires limits.Valid() && RepliesDistinct(limits, rs) && |Replies(limits, rs, key)| == n
    requires forall i :: 0 <= i < |rs| && Replied(limits, rs[i], key) ==> rs[i].reply.value <= n
    ensures |PassedReplies(limits, rs, key)| == MinInt(limits.max, n)
  {
    hide KeyFor;
    UpToCount(n);
    assert Replies(limits, rs, key) <= UpTo(n);
    SameSizeIsSame(Replies(limits, rs, key), UpTo(n));
    var least: nat := MinInt(limits.max, n);
    UpToCount(least);
    assert PassedReplies(limits, rs, key) == UpTo(least);
  }

  lemma SameSizeIsSame<T>(a: set<T>, b: set<T>)
    requires a <= b && |a| == |b|
    ensures a == b
  {
    assert b == a + (b - a);
  }

  // ---- The latch ----

  lemma {:induction false} TraceAt(limits: Limits, rs: seq<Request>, i: nat)
    requires limits.Valid() && i < |rs|
    ensures Trace(limits, rs)[i] == OutcomeOf(limits, After(limits, rs[..i]), rs[i])
  {
    var before := rs[..|rs| - 1];
    if i < |before| {
      TraceAt(limits, before, i);
      assert before[..i] == rs[..i];
    }
  }

  lemma {:induction false} FallbackGrows(limits: Limits, rs: seq<Request>, i: nat, key: Key)
    requires limits.Valid() && i <= |rs| && key in After(limits, rs[..i]).fallback
    ensures key in After(limits, rs).fallback
  {
    if i < |rs| {
      var before := rs[..|rs| - 1];
      assert before[..i] == rs[..i];
      FallbackGrows(limits, before, i, key);
    } else {
      assert rs[..i] == rs;
    }
  }

  lemma {:induction false} MemoryLatches(limits: Limits, rs: seq<Request>, i: nat)
    requires limits.Valid() && limits.redis && IsRun(limits, rs) && i < |rs| && !UsesRedis(rs[i])
    ensures KeyFor(limits, rs[i]) in After(limits, rs[..i + 1]).fallback
  {
    var before, r, key := rs[..i], rs[i], KeyFor(limits, rs[i]);
    assert rs[..i + 1][..i] == before;
    assert LookedBefore(limits, rs, i);
    hide KeyFor, IsRun;
    if !r.asks {
      assert before[..r.began] == rs[..r.began];
      FallbackGrows(limits, before, r.began, key);
    }
  }

  /** Once a request of a key has been counted in memory, no request that looks at the latch after that is counted by
      Redis, even when Redis answers again. */
  lemma {:induction false} LatchIsOneWay(limits: Limits, rs: seq<Request>, i: nat, j: nat)
    requires limits.Valid() && limits.redis && IsRun(limits, rs) && i < j < |rs| && i < rs[j].began
    requires Trace(limits, rs)[i].key == Trace(limits, rs)[j].key && !Trace(limits, rs)[i].byRedis
    ensures !Trace(limits, rs)[j].byRedis
  {
    TraceAt(limits, rs, i);
    TraceAt(limits, rs, j);
    hide Trace;
    MemoryLatches(limits, rs, i);
    assert LookedBefore(limits, rs, j);
    assert rs[..rs[j].began][..i + 1] == rs[..i + 1];
    hide KeyFor, After, IsRun;
    FallbackGrows(limits, rs[..rs[j].began], i + 1, KeyFor(limits, rs[i]));
  }

  /** What it does not reach: two requests ask Redis side by side, one fails and falls back, and the reply to the
      other still counts. */
  lemma {:induction false} WaitingRequestKeepsItsReply(limits: Limits)
    requires limits.Valid() && limits.redis && limits.max > 0
    ensures var rs := [Request("caller", 0, 0, 0, 0, true, None), Request("caller", 0, 0, 0, 0, true, Some(1))];
            && IsRun(limits, rs)
            && !Trace(limits, rs)[0].byRedis && Trace(limits, rs)[1].byRedis && Trace(limits, rs)[1].passed
  {
    var rs := [Request("caller", 0, 0, 0, 0, true, None), Request("caller", 0, 0, 0, 0, true, Some(1))];
    TraceAt(limits, rs, 0);
    TraceAt(limits, rs, 1);
    assert rs[..0] == [];
  }

  // ---- Any interval of time ----

  function PassesIn(t: seq<Outcome>, identity: string, from: Instant, until: Instant): nat {
    Count(t, (o: Outcome) => o.key.identity == identity && from <= o.at < until && o.passed)
  }

  function PassesInBuckets(t: seq<Outcome>, identity: string, from: int, until: int): nat {
    Count(t, (o: Outcome) => o.key.identity == identity && from <= o.key.bucket < until && o.passed)
  }

  lemma {:induction false} CountImplied(t: seq<Outcome>, p: Outcome -> bool, q: Outcome -> bool)
    requires forall o :: o in t && p(o) ==> q(o)
    ensures Count(t, p) <= Count(t, q)
  {
    if t != [] {
      CountImplied(t[..|t| - 1], p, q);
    }
  }

  lemma {:induction false} CountApart(t: seq<Outcome>, p: Outcome -> bool, q: Outcome -> bool, r: Outcome -> bool)
    requires forall o :: o in t ==> (p(o) <==> q(o) || r(o)) && !(q(o) && r(o))
    ensures Count(t, p) == Count(t, q) + Count(t, r)
  {
    if t != [] {
      CountApart(t[..|t| - 1], p, q, r);
    }
  }

  lemma {:induction false} BucketsAddUp(t: seq<Outcome>, identity: string, from: int, n: nat, cap: nat)
    requires forall b :: from <= b < from + n ==> Passes(t, Key(identity, b)) <= cap
    ensures PassesInBuckets(t, identity, from, from + n) <= n * cap
  {
    hide Count;
    if n == 0 {
      CountNone(t, (o: Outcome) => o.key.identity == identity && from <= o.key.bucket < from + n && o.passed);
    } else {
      BucketsAddUp(t, identity, from, n - 1, cap);
      var key := Key(identity, from + n - 1);
      CountApart(t,
                 (o: Outcome) => o.key.identity == identity && from <= o.key.bucket < from + n && o.passed,
                 (o: Outcome) => o.key.identity == identity && from <= o.key.bucket < from + (n - 1) && o.passed,
                 (o: Outcome) => o.key == key && o.passed);
      assert Passes(t, key) <= cap;
      assert n * cap == (n - 1) * cap + cap;
    }
  }

  lemma {:induction false} TraceBuckets(limits: Limits, rs: seq<Request>)
    requires limits.Valid()
    ensures forall o :: o in Trace(limits, rs) ==> o.key.bucket == o.at / limits.windowMs
  {
    if rs != [] {
      TraceBuckets(limits, rs[..|rs| - 1]);
    }
  }

  lemma BucketInRange(t: Instant, from: Instant, k: nat, w: nat)
    requires w > 0 && from <= t < from + k * w
    ensures from / w <= t / w < from / w + k + 1
  {
    DivisionMonotone(from, t, w);
    DivisionBrackets(from, w);
    DivisionBrackets(t, w);
    assert w * (from / w + k) == w * (from / w) + k * w;
    BracketsOrder(t / w, from / w + k, t, t, w);
  }

  /** Every interval as long as k windows meets at most k + 1 of them. */
  lemma IntervalBound(limits: Limits, rs: seq<Request>, identity: string, from: Instant, k: nat, cap: nat)
    requires limits.Valid() && forall b :: Passes(Trace(limits, rs), Key(identity, b)) <= cap
    ensures PassesIn(Trace(limits, rs), identity, from, from + k * limits.windowMs) <= (k + 1) * cap
  {
    hide Count, Trace, Passes;
    var t, w := Trace(limits, rs), limits.windowMs;
    var first, until := from / w, from + k * w;
    TraceBuckets(limits, rs);
    forall o | o in t && from <= o.at < until
      ensures first <= o.key.bucket < first + (k + 1)
    {
      BucketInRange(o.at, from, k, w);
    }
    CountImplied(t,
                 (o: Outcome) => o.key.identity == identity && from <= o.at < until && o.passed,
                 (o: Outcome) => o.key.identity == identity && first <= o.key.bucket < first + (k + 1) && o.passed);
    BucketsAddUp(t, identity, first, k + 1, cap);
  }

  /** In memory mode: at most (k + 1) * max in any interval of k window lengths. */
  lemma {:induction false} MemoryIntervalBound(limits: Limits, rs: seq<Request>, identity: string, from: Instant,
      k: nat)
    requires limits.Valid() && !limits.redis && IsRun(limits, rs) && AllPrompt(limits, rs)
    ensures PassesIn(Trace(limits, rs), identity, from, from + k * limits.windowMs) <= (k + 1) * limits.max
  {
    forall b
      ensures Passes(Trace(limits, rs), Key(identity, b)) <= limits.max
    {
      MemoryIsExact(limits, rs, Key(identity, b));
    }
    hide Count, Trace, Passes, PassesIn;
    IntervalBound(limits, rs, identity, from, k, limits.max);
  }

  /** With a Redis that may fail at any moment: at most twice as many. */
  lemma {:induction false} LatchedIntervalBound(limits: Limits, rs: seq<Request>, identity: string, from: Instant,
      k: nat)
    requires limits.Valid() && AllPrompt(limits, rs) && RepliesDistinct(limits, rs)
    ensures PassesIn(Trace(limits, rs), identity, from, from + k * limits.windowMs) <= (k + 1) * (2 * limits.max)
  {
    forall b
      ensures Passes(Trace(limits, rs), Key(identity, b)) <= 2 * limits.max
    {
      AtMostTwice(limits, rs, Key(identity, b));
    }
    hide Count, Trace, Passes, PassesIn;
    IntervalBound(limits, rs, identity, from, k, 2 * limits.max);
  }

  // ---- The bounds are met, and what they rest on ----

  /** Redis answers `max` requests and then fails. */
  function FailingRedis(max: nat, n: nat): seq<Request> {
    seq(n, i requires 0 <= i < n => Request("caller", 0, 0, 0, i, i <= max, if i < max then Some(i + 1) else None))
  }

  lemma {:induction false} FailingRedisState(limits: Limits, n: nat)
    requires limits.Valid() && limits.redis
    ensures var t := Trace(limits, FailingRedis(limits.max, n));
            var key := Key("caller", 0);
            && RedisPasses(t, key) == MinInt(n, limits.max)
            && MemoryArrivals(t, key) == MaxInt(0, n - limits.max)
            && After(limits, FailingRedis(limits.max, n)).fallback == (if n <= limits.max then {} else {key})
  {
    if n > 0 {
      FailingRedisState(limits, n - 1);
      hide Count, Trace, After;
      var rs, before := FailingRedis(limits.max, n), FailingRedis(limits.max, n - 1);
      assert rs[..n - 1] == before;
      TraceOneMore(limits, rs);
      var r, s := rs[n - 1], After(limits, before);
      var t, o := Trace(limits, before), OutcomeOf(limits, s, r);
      FailingRedisOutcome(limits, s, r, n);
      hide OutcomeOf, Next;
      var key := Key("caller", 0);
      OneMore(t, o, (o: Outcome) => o.key == key && o.byRedis && o.passed);
      OneMore(t, o, (o: Outcome) => o.key == key && !o.byRedis);
    }
  }

  lemma FailingRedisOutcome(limits: Limits, s: State, r: Request, n: nat)
    requires limits.Valid() && limits.redis && n > 0
    requires r == Request("caller", 0, 0, 0, n - 1, n - 1 <= limits.max, if n <= limits.max then Some(n) else None)
    ensures var o := OutcomeOf(limits, s, r);
            && o.key == Key("caller", 0) && o.byRedis == (n <= limits.max)
            && (o.byRedis ==> o.passed)
            && Next(limits, s, r).fallback == if n == limits.max + 1 then s.fallback + {Key("caller", 0)}
                else s.fallback
  {
  }

  lemma FailingRedisIsRun(limits: Limits, n: nat)
    requires limits.Valid() && limits.redis
    ensures IsRun(limits, FailingRedis(limits.max, n))
  {
    hide After;
    var rs := FailingRedis(limits.max, n);
    forall i | 0 <= i < |rs|
      ensures LookedBefore(limits, rs, i)
    {
      FailingRedisState(limits, i);
      assert rs[..i] == FailingRedis(limits.max, i);
    }
  }

  /** The factor two is real for every `max`. */
  lemma {:induction false} TwiceIsReached(limits: Limits)
    requires limits.Valid() && limits.redis
    ensures var rs := FailingRedis(limits.max, 2 * limits.max);
            && IsRun(limits, rs) && AllPrompt(limits, rs) && RepliesDistinct(limits, rs)
            && Passes(Trace(limits, rs), Key("caller", 0)) == 2 * limits.max
  {
    hide Trace, Passes, RedisPasses, MemoryArrivals;
    var rs := FailingRedis(limits.max, 2 * limits.max);
    FailingRedisState(limits, 2 * limits.max);
    FailingRedisIsRun(limits, 2 * limits.max);
    PassesSplit(limits, rs, Key("caller", 0));
  }

  /** A request whose two clock readings straddle the end of its window starts its counter afresh: after any run
      it passes, although its window may have been used up. */
  lemma {:induction false} StraddlerPasses(limits: Limits, rs: seq<Request>, r: Request)
    requires limits.Valid() && !limits.redis && limits.max > 0 && IsRun(limits, rs) && AllPrompt(limits, rs)
    requires !r.asks
    requires r.countedAt / limits.windowMs > r.keyedAt / limits.windowMs
    ensures var key := KeyFor(limits, r);
            Passes(Trace(limits, rs + [r]), key) == MinInt(limits.max, Arrivals(Trace(limits, rs), key)) + 1
  {
    var key, s, t := KeyFor(limits, r), After(limits, rs), Trace(limits, rs);
    MemoryIsExact(limits, rs, key);
    CountersAreExact(limits, rs, key);
    WindowStart(r.countedAt, limits.windowMs, key.bucket + 1);
    assert (rs + [r])[..|rs|] == rs;
    var o := OutcomeOf(limits, s, r);
    assert o.passed;
    assert Trace(limits, rs + [r]) == t + [o];
    hide Count, Trace;
    OneMore(t, o, (o: Outcome) => o.key == key && o.passed);
  }

  lemma WindowStart(t: Instant, w: nat, b: int)
    requires w > 0 && b <= t / w
    ensures b * w <= t
  {
    var a := t / w;
    assert t == a * w + t % w;
    assert a * w - b * w == (a - b) * w >= 0;
  }

  /** A caller that waits for Retry-After is counted in a later window, however late the refusal was written. */
  lemma {:induction false} RetryAfterReachesNextWindow(limits: Limits, rs: seq<Request>, r: Request)
    requires limits.Valid() && AllPrompt(limits, rs) && Prompt(limits, r)
    ensures var counter := Counted(limits, After(limits, rs), r);
            var response := ResponseFor(limits, counter.count, counter.resetAt, r.answeredAt);
            response.Limited? ==>
              (r.answeredAt + 1000 * response.retryAfterSeconds) / limits.windowMs > KeyFor(limits, r).bucket
  {
    CountersAreExact(limits, rs, KeyFor(limits, r));
    var counter := Counted(limits, After(limits, rs), r);
    var response := ResponseFor(limits, counter.count, counter.resetAt, r.answeredAt);
    assert counter.resetAt == (KeyFor(limits, r).bucket + 1) * limits.windowMs by {
      WindowEnd(r.countedAt, limits.windowMs);
    }
    if response.Limited? {
      LaterWindow(r.answeredAt + 1000 * response.retryAfterSeconds, limits.windowMs, KeyFor(limits, r).bucket + 1);
    }
  }

  /** In memory mode the remaining count is what the window still has to give, and the reset time is its end,
      rounded up to a second. */
  lemma {:induction false} RemainingIsHonest(limits: Limits, rs: seq<Request>, r: Request)
    requires limits.Valid() && !limits.redis && IsRun(limits, rs) && AllPrompt(limits, rs) && Prompt(limits, r)
    requires !r.asks
    ensures var key, counter := KeyFor(limits, r), Counted(limits, After(limits, rs), r);
            var response := ResponseFor(limits, counter.count, counter.resetAt, r.answeredAt);
            var arrivals := Arrivals(Trace(limits, rs), key) + 1;
            && (response.Allowed? <==> arrivals <= limits.max)
            && (response.Allowed? ==> response.remaining + arrivals == limits.max)
            && 0 <= response.resetSeconds * 1000 - EndOf(limits, key.bucket) < 1000
  {
    hide Counted, BucketResetFor, KeyFor, Arrivals, Trace, After;
    CountedExactly(limits, rs, r);
    CeilingOfSeconds(Counted(limits, After(limits, rs), r).resetAt);
  }

  lemma MemoryCountExact(limits: Limits, counters: map<Key, Counter>, key: Key, now: Instant, n: nat)
    requires limits.Valid() && now / limits.windowMs == key.bucket
    requires if n == 0 then key !in counters
             else key in counters && counters[key] == Counter(n, EndOf(limits, key.bucket))
    ensures MemoryCount(limits, counters, key, now) == Counter(n + 1, EndOf(limits, key.bucket))
  {
    WindowEnd(now, limits.windowMs);
  }

  lemma CountedExactly(limits: Limits, rs: seq<Request>, r: Request)
    requires limits.Valid() && !limits.redis && IsRun(limits, rs) && AllPrompt(limits, rs) && Prompt(limits, r)
    requires !r.asks
    ensures var key := KeyFor(limits, r);
            Counted(limits, After(limits, rs), r) ==
                Counter(Arrivals(Trace(limits, rs), key) + 1, EndOf(limits, key.bucket))
  {
    var key, t := KeyFor(limits, r), Trace(limits, rs);
    hide Count, Trace, After, MemoryCount, EndOf, AllPrompt, IsRun;
    CountersAreExact(limits, rs, key);
    NobodyAsks(limits, rs);
    NoRedisOutcome(limits, rs);
    SameCount(t, (o: Outcome) => o.key == key, (o: Outcome) => o.key == key && !o.byRedis);
    MemoryCountExact(limits, After(limits, rs).counters, key, r.countedAt, Arrivals(t, key));
  }

  lemma CeilingOfSeconds(ms: int)
    ensures 0 <= CeilSeconds(ms) * 1000 - ms < 1000
  {
  }

  lemma LaterWindow(t: Instant, w: nat, b: int)
    requires w > 0 && b * w <= t
    ensures b <= t / w
  {
    DivisionBrackets(t, w);
    assert b * w == w * b;
    BracketsOrder(b, t / w, t, t, w);
  }
}
