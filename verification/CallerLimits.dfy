/** The limiter's bounds, counted on the requests themselves: by caller and by instant. */
module CallerLimits {
  import opened Arithmetic
  import opened Domain
  import opened RateLimit

  /** Two requests share a counter exactly when they come from one caller in one window. */
  lemma {:induction false} SameCounterIffSameCaller(limits: Limits, a: Request, b: Request)
    requires limits.Valid()
    ensures KeyFor(limits, a) == KeyFor(limits, b) <==>
              && a.identity == b.identity
              && exists w: int :: w * limits.windowMs <= a.keyedAt < w * limits.windowMs + limits.windowMs
                               && w * limits.windowMs <= b.keyedAt < w * limits.windowMs + limits.windowMs
  {
    InWindowIff(limits, a, KeyFor(limits, a).bucket);
    InWindowIff(limits, b, KeyFor(limits, b).bucket);
    if w: int :| w * limits.windowMs <= a.keyedAt < w * limits.windowMs + limits.windowMs
                 && w * limits.windowMs <= b.keyedAt < w * limits.windowMs + limits.windowMs {
      InWindowIff(limits, a, w);
      InWindowIff(limits, b, w);
    }
  }

  lemma {:induction false} InWindowIff(limits: Limits, r: Request, w: int)
    requires limits.Valid()
    ensures KeyFor(limits, r) == Key(r.identity, w) <==>
              w * limits.windowMs <= r.keyedAt < w * limits.windowMs + limits.windowMs
  {
    DivisionBrackets(r.keyedAt, limits.windowMs);
    assert w * limits.windowMs == limits.windowMs * w;
    if w * limits.windowMs <= r.keyedAt < w * limits.windowMs + limits.windowMs {
      QuotientIs(r.keyedAt, limits.windowMs, w);
    }
  }

  /** The request is one of the caller's in window w. */
  predicate IsFrom(limits: Limits, r: Request, caller: string, w: int) {
    r.identity == caller && w * limits.windowMs <= r.keyedAt < w * limits.windowMs + limits.windowMs
  }

  /** What RateLimit answers to the i-th request counted. */
  predicate LetsThrough(limits: Limits, rs: seq<Request>, i: nat)
    requires limits.Valid() && i < |rs|
  {
    Counted(limits, After(limits, rs[..i]), rs[i]).count <= limits.max
  }

  ghost function RequestsFrom(limits: Limits, rs: seq<Request>, caller: string, w: int): set<nat> {
    set i: nat | i < |rs| && IsFrom(limits, rs[i], caller, w)
  }

  ghost function PassesFrom(limits: Limits, rs: seq<Request>, caller: string, w: int): set<nat>
    requires limits.Valid()
  {
    set i: nat | i < |rs| && IsFrom(limits, rs[i], caller, w) && LetsThrough(limits, rs, i)
  }

  lemma RequestsGrow(limits: Limits, rs: seq<Request>, caller: string, w: int)
    requires limits.Valid() && rs != []
    ensures var n, before := |rs| - 1, rs[..|rs| - 1];
            && RequestsFrom(limits, rs, caller, w) ==
               RequestsFrom(limits, before, caller, w) + (if IsFrom(limits, rs[n], caller, w) then {n} else {})
            && PassesFrom(limits, rs, caller, w) ==
               PassesFrom(limits, before, caller, w) +
               (if IsFrom(limits, rs[n], caller, w) && LetsThrough(limits, rs, n) then {n} else {})
  {
    hide Counted, IsFrom, After;
    var n, before := |rs| - 1, rs[..|rs| - 1];
    forall i | 0 <= i < n
      ensures before[i] == rs[i] && (LetsThrough(limits, before, i) <==> LetsThrough(limits, rs, i))
    {
      assert before[..i] == rs[..i];
    }
  }

  /** The counts by key are the counts by caller and window. */
  lemma {:induction false} CountsAreByCaller(limits: Limits, rs: seq<Request>, caller: string, w: int)
    requires limits.Valid()
    ensures Arrivals(Trace(limits, rs), Key(caller, w)) == |RequestsFrom(limits, rs, caller, w)|
    ensures Passes(Trace(limits, rs), Key(caller, w)) == |PassesFrom(limits, rs, caller, w)|
  {
    if rs != [] {
      hide Count, Counted, After, Trace, RequestsFrom, PassesFrom;
      var before, r := rs[..|rs| - 1], rs[|rs| - 1];
      CountsAreByCaller(limits, before, caller, w);
      TraceOneMore(limits, rs);
      RequestsGrow(limits, rs, caller, w);
      NewIndex(limits, before, caller, w);
      InWindowIff(limits, r, w);
      var t, o, key := Trace(limits, before), OutcomeOf(limits, After(limits, before), r), Key(caller, w);
      OneMore(t, o, (o: Outcome) => o.key == key);
      OneMore(t, o, (o: Outcome) => o.key == key && o.passed);
    } else {
      assert RequestsFrom(limits, rs, caller, w) == {} && PassesFrom(limits, rs, caller, w) == {};
    }
  }

  lemma NewIndex(limits: Limits, rs: seq<Request>, caller: string, w: int)
    requires limits.Valid()
    ensures |rs| !in RequestsFrom(limits, rs, caller, w) && |rs| !in PassesFrom(limits, rs, caller, w)
  {
  }

  /** In memory mode, of a caller's requests in a window exactly the smaller of `max` and their number get through. */
  lemma {:induction false} CallerGetsExactly(limits: Limits, rs: seq<Request>, caller: string, w: int)
    requires limits.Valid() && !limits.redis && IsRun(limits, rs) && AllPrompt(limits, rs)
    ensures |PassesFrom(limits, rs, caller, w)| == MinInt(limits.max, |RequestsFrom(limits, rs, caller, w)|)
  {
    hide Count, Trace, PassesFrom, RequestsFrom, Arrivals, Passes;
    MemoryIsExact(limits, rs, Key(caller, w));
    CountsAreByCaller(limits, rs, caller, w);
  }

  /** With a Redis that may fail at any moment, at most twice `max` do. */
  lemma {:induction false} CallerGetsAtMostTwice(limits: Limits, rs: seq<Request>, caller: string, w: int)
    requires limits.Valid() && AllPrompt(limits, rs) && RepliesDistinct(limits, rs)
    ensures |PassesFrom(limits, rs, caller, w)| <= 2 * limits.max
  {
    hide Count, Trace, PassesFrom, RequestsFrom, Arrivals, Passes;
    AtMostTwice(limits, rs, Key(caller, w));
    CountsAreByCaller(limits, rs, caller, w);
  }

  /** One second less than Retry-After does not reach the next window, unless it is the one second it is at least. */
  lemma {:induction false} RetryAfterIsNoLonger(limits: Limits, rs: seq<Request>, r: Request)
    requires limits.Valid() && AllPrompt(limits, rs) && Prompt(limits, r)
    ensures var counter := Counted(limits, After(limits, rs), r);
            var response := ResponseFor(limits, counter.count, counter.resetAt, r.answeredAt);
            response.Limited? && response.retryAfterSeconds != 1 ==>
              (r.answeredAt + 1000 * (response.retryAfterSeconds - 1)) / limits.windowMs <= KeyFor(limits, r).bucket
  {
    var counter := Counted(limits, After(limits, rs), r);
    var response := ResponseFor(limits, counter.count, counter.resetAt, r.answeredAt);
    ResetIsWindowEnd(limits, rs, r);
    hide Counted, After;
    CeilingOfSeconds(counter.resetAt - r.answeredAt);
    if response.Limited? && response.retryAfterSeconds != 1 {
      var t := r.answeredAt + 1000 * (response.retryAfterSeconds - 1);
      DivisionBrackets(t, limits.windowMs);
      var b := KeyFor(limits, r).bucket;
      assert (b + 1) * limits.windowMs == limits.windowMs * b + limits.windowMs;
      BracketsOrder(t / limits.windowMs, b, t, t, limits.windowMs);
    }
  }

  lemma ResetIsWindowEnd(limits: Limits, rs: seq<Request>, r: Request)
    requires limits.Valid() && AllPrompt(limits, rs) && Prompt(limits, r)
    ensures Counted(limits, After(limits, rs), r).resetAt == (KeyFor(limits, r).bucket + 1) * limits.windowMs
  {
    hide After, Trace, Count;
    CountersAreExact(limits, rs, KeyFor(limits, r));
    WindowEnd(r.countedAt, limits.windowMs);
  }
}
