/** The sliding-window rate limiter (phylanx-api/api/rate_limit.py). Time is a non-decreasing real. */
module RateLimit {
  import opened Prelude

  datatype RateDecision = RateDecision(allowed: bool, bucket: string, limit: int, remaining: int, retryAfter: real)

  datatype LimitError = LimitBelowOne

  // ---- the limiter that remembers everything ----

  /** The hits later than a cutoff. */
  function Live(hits: seq<real>, cutoff: real): seq<real> {
    if hits == [] then []
    else
      var init := Live(hits[..|hits| - 1], cutoff);
      if hits[|hits| - 1] > cutoff then init + [hits[|hits| - 1]] else init
  }

  function AtLeastZero(x: real): real { if x >= 0.0 then x else 0.0 }

  /** The simple form: scan every hit ever accepted on the bucket. */
  function Decide(hits: seq<real>, bucket: string, limit: int, now: real, window: real): RateDecision
    requires limit >= 1
  {
    var cutoff := now - window;
    var live := Live(hits, cutoff);
    if |live| >= limit then
      RateDecision(false, bucket, limit, 0, AtLeastZero(live[0] - cutoff))
    else
      RateDecision(true, bucket, limit, limit - (|live| + 1), 0.0)
  }

  function AfterCall(hits: seq<real>, limit: int, now: real, window: real): seq<real>
    requires limit >= 1
  {
    if Decide(hits, "", limit, now, window).allowed then hits + [now] else hits
  }

  ghost predicate Ascending(hits: seq<real>, clock: real) {
    && (forall i, j :: 0 <= i < j < |hits| ==> hits[i] <= hits[j])
    && (forall i :: 0 <= i < |hits| ==> hits[i] <= clock)
  }

  /** The first `k` hits are no later than a cutoff. */
  ghost predicate Stale(hits: seq<real>, k: nat, cutoff: real) {
    k <= |hits| && forall i :: 0 <= i < k ==> hits[i] <= cutoff
  }

  // ---- the limiter that prunes ----

  lemma DecideByLive(hits: seq<real>, bucket: string, limit: int, now: real, window: real, q: seq<real>)
    requires limit >= 1 && q == Live(hits, now - window)
    ensures |q| >= limit ==>
      && Decide(hits, bucket, limit, now, window) == RateDecision(false, bucket, limit, 0, AtLeastZero(q[0] - (now - window)))
      && AfterCall(hits, limit, now, window) == hits
    ensures |q| < limit ==>
      && Decide(hits, bucket, limit, now, window) == RateDecision(true, bucket, limit, limit - (|q| + 1), 0.0)
      && AfterCall(hits, limit, now, window) == hits + [now]
  {
  }

  lemma OneMoreHit(hits: seq<real>, k: nat, now: real, clock: real, cutoff: real)
    requires Ascending(hits, clock) && clock <= now && Stale(hits, k, cutoff)
    ensures Ascending(hits, now) && Ascending(hits + [now], now) && Stale(hits + [now], k, cutoff)
    ensures (hits + [now])[k..] == hits[k..] + [now]
  {
  }

  lemma LaterCutoff(hits: seq<real>, k: nat, a: real, b: real)
    requires Stale(hits, k, a) && a <= b
    ensures k <= |hits| && Stale(hits, k, b)
  {
  }

  /** Dropping a sorted history's stale front leaves exactly its live hits. */
  lemma {:induction false} SuffixIsLive(hits: seq<real>, k: nat, cutoff: real)
    requires k <= |hits| && forall i, j :: 0 <= i < j < |hits| ==> hits[i] <= hits[j]
    requires forall i :: 0 <= i < k ==> hits[i] <= cutoff
    requires k < |hits| ==> hits[k] > cutoff
    ensures Live(hits, cutoff) == hits[k..]
  {
    if hits != [] {
      var init := hits[..|hits| - 1];
      if k < |hits| {
        SuffixIsLive(init, k, cutoff);
        assert hits[k..] == init[k..] + [hits[|hits| - 1]];
      } else {
        SuffixIsLive(init, k - 1, cutoff);
      }
    }
  }

  class SlidingWindowLimiter {
    const window: real
    var buckets: map<string, seq<real>>

    /** Every hit ever accepted, by bucket; how many of them have been dropped; and the latest time seen. */
    ghost var accepted: map<string, seq<real>>
    ghost var dropped: map<string, nat>
    ghost var clock: real

    ghost predicate BucketValid(b: string)
      requires b in buckets
      reads this
    {
      && b in accepted && b in dropped && Ascending(accepted[b], clock) && Stale(accepted[b], dropped[b], clock - window)
      && buckets[b] == accepted[b][dropped[b]..]
    }

    ghost predicate Valid()
      reads this
    {
      window > 0.0 && accepted.Keys == buckets.Keys && forall b :: b in buckets ==> BucketValid(b)
    }

    ghost function Hits(b: string): seq<real>
      reads this
    {
      if b in accepted then accepted[b] else []
    }

    constructor (window: real, start: real)
      requires window > 0.0
      ensures Valid() && this.window == window && clock == start && forall b :: Hits(b) == []
    {
      this.window := window;
      buckets, accepted, dropped, clock := map[], map[], map[], start;
    }

    /**
     Charge a call to a bucket, or reject it with a hint. The decision is the one the limiter that
     scans the bucket's whole history takes, and no other bucket is affected.
     */
    method Check(bucket: string, limit: int, now: real) returns (r: Result<RateDecision, LimitError>)
      requires Valid() && now >= clock
      modifies this
      ensures Valid()
      ensures limit < 1 ==> r == Err(LimitBelowOne) && accepted == old(accepted) && buckets == old(buckets)
      ensures limit >= 1 ==>
        && clock == now
        && r == Ok(Decide(old(Hits(bucket)), bucket, limit, now, window))
        && Hits(bucket) == AfterCall(old(Hits(bucket)), limit, now, window)
      ensures forall b :: b != bucket ==> Hits(b) == old(Hits(b))
    {
      if limit < 1 { return Err(LimitBelowOne); }
      hide Live, Ascending, Decide, AfterCall, AtLeastZero, Stale, SlidingWindowLimiter.BucketValid;
      var cutoff := now - window;
      var queue, hits, k := Load(bucket);
      LaterCutoff(hits, k, clock - window, cutoff);
      var q, k' := Prune(queue, cutoff, hits, k, clock);
      var d, after, hits' := Charge(q, bucket, limit, now, window, hits, k', clock);
      Store(bucket, after, hits', k', now);
      r := Ok(d);
    }

    /** The decision on a pruned queue: reject with a hint, or record the hit. */
    static method Charge(queue: seq<real>, bucket: string, limit: int, now: real, window: real,
                         ghost hits: seq<real>, ghost k: nat, ghost clock: real)
      returns (d: RateDecision, q: seq<real>, ghost hits': seq<real>)
      requires limit >= 1 && now >= clock && Ascending(hits, clock) && Stale(hits, k, now - window)
      requires queue == hits[k..] == Live(hits, now - window)
      ensures d == Decide(hits, bucket, limit, now, window) && hits' == AfterCall(hits, limit, now, window)
      ensures Ascending(hits', now) && Stale(hits', k, now - window) && q == hits'[k..]
    {
      hide Live, Ascending, Decide, AfterCall, AtLeastZero, Stale;
      var cutoff := now - window;
      q, hits' := queue, hits;
      DecideByLive(hits, bucket, limit, now, window, q);
      OneMoreHit(hits, k, now, clock, cutoff);
      if |q| >= limit {
        d := RateDecision(false, bucket, limit, 0, AtLeastZero(q[0] - cutoff));
      } else {
        q := q + [now];
        hits' := hits + [now];
        d := RateDecision(true, bucket, limit, limit - |q|, 0.0);
      }
    }

    /** A bucket's queue, empty if it has none, with what is known of its history. */
    method Load(bucket: string) returns (q: seq<real>, ghost hits: seq<real>, ghost k: nat)
      requires Valid()
      ensures hits == Hits(bucket) && Ascending(hits, clock) && Stale(hits, k, clock - window) && q == hits[k..]
    {
      hits, k, q := [], 0, [];
      if bucket in buckets {
        assert BucketValid(bucket);
        hits, k, q := accepted[bucket], dropped[bucket], buckets[bucket];
      }
    }

    /** The loop of `check`: pop what has left the window. What stays are the live hits of the whole history. */
    static method Prune(queue: seq<real>, cutoff: real, ghost hits: seq<real>, ghost dropped: nat, ghost clock: real)
      returns (q: seq<real>, ghost k: nat)
      requires Ascending(hits, clock) && Stale(hits, dropped, cutoff) && queue == hits[dropped..]
      ensures Stale(hits, k, cutoff) && q == hits[k..] == Live(hits, cutoff)
    {
      q, k := queue, dropped;
      while q != [] && q[0] <= cutoff
        invariant Stale(hits, k, cutoff) && q == hits[k..]
        decreases |q|
      {
        q := q[1..];
        k := k + 1;
      }
      SuffixIsLive(hits, k, cutoff);
    }

    /** Write a bucket back, with what is known of its history. */
    method Store(bucket: string, q: seq<real>, ghost hits: seq<real>, ghost k: nat, ghost now: real)
      requires Valid() && now >= clock
      requires Ascending(hits, now) && Stale(hits, k, now - window) && q == hits[k..]
      modifies this
      ensures Valid() && clock == now && Hits(bucket) == hits
      ensures forall b :: b != bucket ==> Hits(b) == old(Hits(b))
    {
      buckets := buckets[bucket := q];
      accepted, dropped, clock := accepted[bucket := hits], dropped[bucket := k], now;
      forall b | b in buckets ensures BucketValid(b) {
        assert b != bucket ==> old(BucketValid(b));
      }
    }
  }

  // ---- every window of every run ----

  datatype Call = Call(bucket: string, limit: int, now: real)

  ghost predicate Monotone(calls: seq<Call>) {
    && (forall i :: 0 <= i < |calls| ==> calls[i].limit >= 1)
    && (forall i, j :: 0 <= i < j < |calls| ==> calls[i].now <= calls[j].now)
  }

  /** The hits accepted on a bucket over a run of calls on any buckets. */
  function HitsAfter(calls: seq<Call>, bucket: string, window: real): seq<real>
    requires forall i :: 0 <= i < |calls| ==> calls[i].limit >= 1
  {
    if calls == [] then []
    else
      var last := calls[|calls| - 1];
      var before := HitsAfter(calls[..|calls| - 1], bucket, window);
      if last.bucket == bucket then AfterCall(before, last.limit, last.now, window) else before
  }

  function Only(calls: seq<Call>, bucket: string): (r: seq<Call>)
    ensures forall i :: 0 <= i < |r| ==> r[i] in calls && r[i].bucket == bucket
  {
    if calls == [] then []
    else
      var last := calls[|calls| - 1];
      Only(calls[..|calls| - 1], bucket) + if last.bucket == bucket then [last] else []
  }

  /** A bucket's hits depend on the calls made on that bucket alone. */
  lemma {:induction false} BucketsAreIndependent(calls: seq<Call>, bucket: string, window: real)
    requires forall i :: 0 <= i < |calls| ==> calls[i].limit >= 1
    ensures HitsAfter(calls, bucket, window) == HitsAfter(Only(calls, bucket), bucket, window)
  {
    hide AfterCall;
    if calls != [] {
      var init := calls[..|calls| - 1];
      BucketsAreIndependent(init, bucket, window);
      var only := Only(calls, bucket);
      if calls[|calls| - 1].bucket == bucket {
        assert only[..|only| - 1] == Only(init, bucket);
      } else {
        assert only == Only(init, bucket);
      }
    }
  }

  /** How many hits lie in the half-open window (t - window, t]. */
  function InWindow(hits: seq<real>, t: real, window: real): nat {
    if hits == [] then 0
    else
      var last := hits[|hits| - 1];
      InWindow(hits[..|hits| - 1], t, window) + if t - window < last <= t then 1 else 0
  }

  lemma {:induction false} WindowWithinLive(hits: seq<real>, t: real, cutoff: real, window: real)
    requires cutoff <= t - window
    ensures InWindow(hits, t, window) <= |Live(hits, cutoff)|
  {
    if hits != [] { WindowWithinLive(hits[..|hits| - 1], t, cutoff, window); }
  }

  lemma {:induction false} RunAscends(calls: seq<Call>, bucket: string, window: real, clock: real)
    requires Monotone(calls) && forall i :: 0 <= i < |calls| ==> calls[i].now <= clock
    ensures Ascending(HitsAfter(calls, bucket, window), clock)
  {
    if calls != [] {
      var last := calls[|calls| - 1];
      RunAscends(calls[..|calls| - 1], bucket, window, last.now);
    }
  }

  /**
   The bound. If no call on the bucket asked for a limit above `cap`, then over any run on any
   buckets, every window of the given length holds at most `cap` accepted hits of the bucket.
   */
  lemma {:induction false} WindowNeverOverfull(calls: seq<Call>, bucket: string, window: real, cap: int, t: real)
    requires Monotone(calls) && window > 0.0 && cap >= 0
    requires forall i :: 0 <= i < |calls| && calls[i].bucket == bucket ==> calls[i].limit <= cap
    ensures InWindow(HitsAfter(calls, bucket, window), t, window) <= cap
  {
    if calls != [] {
      var init, last := calls[..|calls| - 1], calls[|calls| - 1];
      WindowNeverOverfull(init, bucket, window, cap, t);
      var before := HitsAfter(init, bucket, window);
      var after := HitsAfter(calls, bucket, window);
      if after != before {
        assert after == before + [last.now] && after[..|before|] == before;
        if last.now <= t {
          WindowWithinLive(before, t, last.now - window, window);
        }
      }
    }
  }

  // ---- the retry hint ----

  /** Where the live hits of a sorted history begin. */
  lemma LiveIsSuffix(hits: seq<real>, cutoff: real) returns (k: nat)
    requires forall i, j :: 0 <= i < j < |hits| ==> hits[i] <= hits[j]
    ensures k <= |hits| && Live(hits, cutoff) == hits[k..]
    ensures (forall i :: 0 <= i < k ==> hits[i] <= cutoff) && (k < |hits| ==> hits[k] > cutoff)
  {
    k := 0;
    while k < |hits| && hits[k] <= cutoff
      invariant k <= |hits| && forall i :: 0 <= i < k ==> hits[i] <= cutoff
    {
      k := k + 1;
    }
    SuffixIsLive(hits, k, cutoff);
  }

  lemma {:induction false} LaterCutoffKeepsLess(hits: seq<real>, a: real, b: real)
    requires a <= b
    ensures |Live(hits, b)| <= |Live(hits, a)|
  {
    if hits != [] { LaterCutoffKeepsLess(hits[..|hits| - 1], a, b); }
  }

  /**
   The hint is a lower bound, and exactly when it is sharp: after a rejection, with nothing else
   accepted on the bucket, every earlier call with the same limit is rejected too; and every call
   from the hinted moment on is accepted if and only if fewer than `limit` hits are newer than the
   oldest live one.
   */
  lemma HintIsSharpExactlyWhen(hits: seq<real>, bucket: string, limit: int, now: real, window: real)
    requires limit >= 1 && window > 0.0 && Ascending(hits, now)
    requires !Decide(hits, bucket, limit, now, window).allowed
    ensures var d := Decide(hits, bucket, limit, now, window);
      var oldest := Live(hits, now - window)[0];
      && d.retryAfter == oldest + window - now > 0.0
      && (forall t :: now <= t < now + d.retryAfter ==> !Decide(hits, bucket, limit, t, window).allowed)
      && ((forall t :: t >= now + d.retryAfter ==> Decide(hits, bucket, limit, t, window).allowed)
          <==> |Live(hits, oldest)| < limit)
  {
    hide Live;
    var d := Decide(hits, bucket, limit, now, window);
    var oldest := Live(hits, now - window)[0];
    var k := LiveIsSuffix(hits, now - window);
    forall t | now <= t < now + d.retryAfter ensures !Decide(hits, bucket, limit, t, window).allowed {
      SuffixIsLive(hits, k, t - window);
    }
    if |Live(hits, oldest)| < limit {
      forall t | t >= now + d.retryAfter ensures Decide(hits, bucket, limit, t, window).allowed {
        LaterCutoffKeepsLess(hits, oldest, t - window);
      }
    } else {
      assert now + d.retryAfter - window == oldest;
      assert !Decide(hits, bucket, limit, now + d.retryAfter, window).allowed;
    }
  }

  /** The `Retry-After` header: whole seconds, rounded up, never zero. */
  function RetryAfterHeader(retryAfter: real): (seconds: int)
    ensures seconds >= 1 && seconds as real > retryAfter
    ensures if retryAfter >= 0.0 then seconds as real <= retryAfter + 1.0 else seconds == 1
  {
    if retryAfter.Floor + 1 > 1 then retryAfter.Floor + 1 else 1
  }

  lemma {:induction false} LiveIsWindow(hits: seq<real>, now: real, window: real)
    requires forall i :: 0 <= i < |hits| ==> hits[i] <= now
    ensures |Live(hits, now - window)| == InWindow(hits, now, window)
  {
    if hits != [] { LiveIsWindow(hits[..|hits| - 1], now, window); }
  }

  lemma NewerThanFirst(hits: seq<real>, k: nat, first: real)
    requires k < |hits| && hits[k] == first && forall i, j :: 0 <= i < j < |hits| ==> hits[i] <= hits[j]
    ensures |Live(hits, first)| < |hits| - k
  {
    var m := LiveIsSuffix(hits, first);
    assert m > k;
  }

  /** With one fixed limit the hint is always sharp, and the rounded-up header is long enough. */
  lemma FixedLimitHintIsSharp(calls: seq<Call>, bucket: string, window: real, limit: int, now: real)
    requires Monotone(calls) && window > 0.0 && limit >= 1
    requires forall i :: 0 <= i < |calls| ==> calls[i].now <= now && (calls[i].bucket == bucket ==> calls[i].limit == limit)
    requires !Decide(HitsAfter(calls, bucket, window), bucket, limit, now, window).allowed
    ensures var hits := HitsAfter(calls, bucket, window);
      var d := Decide(hits, bucket, limit, now, window);
      && (forall t :: now <= t < now + d.retryAfter ==> !Decide(hits, bucket, limit, t, window).allowed)
      && (forall t :: t >= now + d.retryAfter ==> Decide(hits, bucket, limit, t, window).allowed)
      && Decide(hits, bucket, limit, now + RetryAfterHeader(d.retryAfter) as real, window).allowed
  {
    hide Live, HitsAfter, InWindow;
    var hits := HitsAfter(calls, bucket, window);
    RunAscends(calls, bucket, window, now);
    WindowNeverOverfull(calls, bucket, window, limit, now);
    LiveIsWindow(hits, now, window);
    HintIsSharpExactlyWhen(hits, bucket, limit, now, window);
    var live := Live(hits, now - window);
    var k := LiveIsSuffix(hits, now - window);
    NewerThanFirst(hits, k, live[0]);
    var later := now + RetryAfterHeader(Decide(hits, bucket, limit, now, window).retryAfter) as real;
    assert later >= now + Decide(hits, bucket, limit, now, window).retryAfter;
  }

  lemma LiveOfOne(a: real, cutoff: real)
    ensures Live([a], cutoff) == if a > cutoff then [a] else []
  {
    assert [a][..0] == [];
  }

  lemma LiveOfTwo(a: real, b: real, cutoff: real)
    ensures Live([a, b], cutoff) == (if a > cutoff then [a] else []) + (if b > cutoff then [b] else [])
  {
    LiveOfOne(a, cutoff);
    assert [a, b][..1] == [a];
  }

  lemma LiveOfNone(cutoff: real)
    ensures Live([], cutoff) == []
  {
  }

  lemma TwoCalls()
    ensures HitsAfter([Call("ip:a", 2, 1.0), Call("ip:a", 2, 2.0)], "ip:a", 60.0) == [1.0, 2.0]
  {
    hide Live;
    var first, second := Call("ip:a", 2, 1.0), Call("ip:a", 2, 2.0);
    assert [first, second][..1] == [first] && [first][..0] == [];
    LiveOfOne(1.0, -58.0);
    assert HitsAfter([], "ip:a", 60.0) == [];
    LiveOfNone(-59.0);
    assert HitsAfter([first], "ip:a", 60.0) == [1.0];
    assert HitsAfter([first, second], "ip:a", 60.0) == [1.0] + [2.0];
  }

  /** When limits differ the hint can be too short: two live hits remain where a limit of one is asked for. */
  lemma HintCanBeShort()
    ensures var hits := [1.0, 2.0];
      var d := Decide(hits, "ip:a", 1, 3.0, 60.0);
      && hits == HitsAfter([Call("ip:a", 2, 1.0), Call("ip:a", 2, 2.0)], "ip:a", 60.0)
      && !d.allowed && !Decide(hits, "ip:a", 1, 3.0 + d.retryAfter, 60.0).allowed
  {
    hide Live;
    TwoCalls();
    LiveOfTwo(1.0, 2.0, -57.0);
    LiveOfTwo(1.0, 2.0, 1.0);
    var d := Decide([1.0, 2.0], "ip:a", 1, 3.0, 60.0);
    assert d.retryAfter == 58.0;
  }

  // ---- the remaining quota ----

  /** The bucket after `n` more calls at the same moment. */
  function AfterCalls(hits: seq<real>, limit: int, now: real, window: real, n: nat): seq<real>
    requires limit >= 1
  {
    if n == 0 then hits else AfterCall(AfterCalls(hits, limit, now, window, n - 1), limit, now, window)
  }

  lemma LiveGrows(hits: seq<real>, now: real, window: real)
    requires window > 0.0
    ensures Live(hits + [now], now - window) == Live(hits, now - window) + [now]
  {
    assert (hits + [now])[..|hits|] == hits;
  }

  lemma {:induction false} LiveAfterCalls(hits: seq<real>, limit: int, now: real, window: real, n: nat)
    requires limit >= 1 && window > 0.0
    ensures var live := |Live(hits, now - window)|;
      |Live(AfterCalls(hits, limit, now, window, n), now - window)| ==
        if live + n <= limit then live + n else if live <= limit then limit else live
  {
    hide Live;
    if n > 0 {
      LiveAfterCalls(hits, limit, now, window, n - 1);
      LiveGrows(AfterCalls(hits, limit, now, window, n - 1), now, window);
    }
  }

  /**
   The remaining quota is exact: it is zero on a rejection, and after an accepted call just that many
   more calls at the same moment and with the same limit are accepted.
   */
  lemma RemainingIsExact(hits: seq<real>, bucket: string, limit: int, now: real, window: real, n: nat)
    requires limit >= 1 && window > 0.0
    ensures var d := Decide(hits, bucket, limit, now, window);
      var after := AfterCalls(AfterCall(hits, limit, now, window), limit, now, window, n);
      && d.bucket == bucket && d.limit == limit && d.remaining >= 0 && (!d.allowed ==> d.remaining == 0)
      && (Decide(after, bucket, limit, now, window).allowed <==> n < d.remaining)
  {
    hide Live;
    LiveGrows(hits, now, window);
    LiveAfterCalls(AfterCall(hits, limit, now, window), limit, now, window, n);
  }
}
