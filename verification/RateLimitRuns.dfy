/**
 Runs of the rate limiter, against the bucket that is never evicted: what a key is told depends on
 its own calls alone, and is bounded by its rate.
 */
module RateLimitRuns {
  import opened RateLimit

  datatype Call = Call(key: Key, at: real)

  function Run(p: Params, calls: seq<Call>): Limits {
    if calls == [] then Limits(map[], 0)
    else
      var n := |calls| - 1;
      Allow(p, Run(p, calls[..n]), calls[n].key, calls[n].at).0
  }

  /** What the last call is told. */
  predicate Answer(p: Params, calls: seq<Call>)
    requires calls != []
  {
    var n := |calls| - 1;
    Allow(p, Run(p, calls[..n]), calls[n].key, calls[n].at).1
  }

  ghost predicate Monotone(calls: seq<Call>) {
    forall i, j :: 0 <= i <= j < |calls| ==> calls[i].at <= calls[j].at
  }

  /** The times at which one key called. */
  function Own(calls: seq<Call>, k: Key): seq<real> {
    if calls == [] then []
    else
      var n := |calls| - 1;
      if calls[n].key == k then Own(calls[..n], k) + [calls[n].at] else Own(calls[..n], k)
  }

  // ---------------------------------------------------------------- a bucket of its own

  /** Tokens left after the calls at these times, for a bucket that is never evicted. */
  function Left(p: Params, times: seq<real>): real
    decreases |times|, 0
  {
    if times == [] then p.burst
    else
      var level := Level(p, times[..|times| - 1], times[|times| - 1]);
      if level >= 1.0 then level - 1.0 else level
  }

  /** Tokens it holds at a later time. */
  function Level(p: Params, times: seq<real>, now: real): real
    decreases |times|, 1
  {
    if times == [] then p.burst
    else Min(Left(p, times) + Earned(p, now - times[|times| - 1]), p.burst)
  }

  predicate Served(p: Params, times: seq<real>)
    requires times != []
  {
    Level(p, times[..|times| - 1], times[|times| - 1]) >= 1.0
  }

  ghost predicate Ascending(times: seq<real>) {
    forall i, j :: 0 <= i <= j < |times| ==> times[i] <= times[j]
  }

  lemma {:induction false} EarnsInTime(p: Params, idle: real)
    requires Enforcing(p) && idle >= 0.0
    ensures Earned(p, idle) >= 0.0
  {
  }

  lemma {:induction false} EarnsAdd(p: Params, a: real, b: real)
    ensures Earned(p, a + b) == Earned(p, a) + Earned(p, b) && Earned(p, 0.0) == 0.0
  {
  }

  lemma {:induction false} LevelIsBounded(p: Params, times: seq<real>, now: real)
    requires Enforcing(p) && times != [] && times[|times| - 1] <= now && 0.0 <= Left(p, times)
    ensures 0.0 <= Level(p, times, now) <= p.burst
  {
    EarnsInTime(p, now - times[|times| - 1]);
  }

  lemma {:induction false} LeftIsBounded(p: Params, times: seq<real>)
    requires Enforcing(p) && Ascending(times)
    ensures 0.0 <= Left(p, times) <= p.burst
  {
    if |times| > 1 {
      var before := times[..|times| - 1];
      LeftIsBounded(p, before);
      LevelIsBounded(p, before, times[|times| - 1]);
    }
  }

  // ---------------------------------------------------------------- keys and their times

  lemma {:induction false} OwnTimes(calls: seq<Call>, k: Key)
    requires Monotone(calls)
    ensures Ascending(Own(calls, k))
    ensures Own(calls, k) != [] ==> Own(calls, k)[|Own(calls, k)| - 1] <= calls[|calls| - 1].at
  {
    if calls != [] {
      OwnTimes(calls[..|calls| - 1], k);
    }
  }

  function Last(times: seq<real>): real
    requires times != []
  {
    times[|times| - 1]
  }

  // ---------------------------------------------------------------- eviction is invisible

  /**
   A bucket that is kept agrees with one that is never evicted; one that is gone was idle for
   longer than the limit.
   */
  ghost predicate Agrees(p: Params, s: Limits, times: seq<real>, now: real, k: Key) {
    if k in s.buckets then times != [] && s.buckets[k] == Bucket(Left(p, times), Last(times), Last(times))
    else times != [] ==> now - Last(times) > p.ttl
  }

  lemma {:induction false} FullWhenIdle(p: Params, tokens: real, idle: real)
    requires Enforcing(p) && p.rate * p.ttl >= p.burst && tokens >= 0.0 && idle > p.ttl
    ensures Min(tokens + Earned(p, idle), p.burst) == p.burst
  {
    EarnsInTime(p, idle - p.ttl);
    EarnsAdd(p, idle - p.ttl, p.ttl);
  }

  /** What the limiter charges is what the bucket of its own holds. */
  lemma {:induction false} ChargesTheLevel(p: Params, s: Limits, times: seq<real>, before: real, k: Key, now: real)
    requires Enforcing(p) && p.rate * p.ttl >= p.burst && Ascending(times) && before <= now
    requires (times != [] ==> Last(times) <= before) && Agrees(p, s, times, before, k)
    ensures Allow(p, s, k, now).1 == (Level(p, times, now) >= 1.0)
    ensures Agrees(p, Allow(p, s, k, now).0, times + [now], now, k)
  {
    assert (times + [now])[..|times|] == times;
    LeftIsBounded(p, times);
    if times != [] && now - Last(times) > p.ttl {
      FullWhenIdle(p, Left(p, times), now - Last(times));
    }
  }

  lemma {:induction false} OthersAgree(p: Params, s: Limits, times: seq<real>, before: real, key: Key, now: real,
                                       k: Key)
    requires k != key && before <= now && Agrees(p, s, times, before, k)
    ensures Agrees(p, Allow(p, s, key, now).0, times, now, k)
  {
  }

  lemma {:induction false} RunAgrees(p: Params, calls: seq<Call>, k: Key)
    requires Enforcing(p) && p.rate * p.ttl >= p.burst && Monotone(calls) && calls != []
    ensures Agrees(p, Run(p, calls), Own(calls, k), calls[|calls| - 1].at, k)
    ensures calls[|calls| - 1].key == k ==> Answer(p, calls) == Served(p, Own(calls, k))
  {
    var n := |calls| - 1;
    var less, now := calls[..n], calls[n].at;
    OwnTimes(less, k);
    if n > 0 {
      RunAgrees(p, less, k);
    }
    var before := if n > 0 then less[n - 1].at else now;
    if calls[n].key == k {
      assert (Own(less, k) + [now])[..|Own(less, k)|] == Own(less, k);
      ChargesTheLevel(p, Run(p, less), Own(less, k), before, k, now);
    } else {
      OthersAgree(p, Run(p, less), Own(less, k), before, calls[n].key, now, k);
    }
  }

  /** With rate * ttl at least burst, every answer is that of a bucket of the key's own that is never evicted. */
  lemma {:induction false} EvictionIsInvisible(p: Params, calls: seq<Call>)
    requires Enforcing(p) && p.rate * p.ttl >= p.burst && Monotone(calls) && calls != []
    ensures Own(calls, calls[|calls| - 1].key) != []
    ensures Answer(p, calls) == Served(p, Own(calls, calls[|calls| - 1].key))
  {
    RunAgrees(p, calls, calls[|calls| - 1].key);
  }

  /** Two runs in which a key calls at the same times tell it the same, whatever the other keys do. */
  lemma {:induction false} KeysAreIndependent(p: Params, calls: seq<Call>, other: seq<Call>, k: Key)
    requires Enforcing(p) && p.rate * p.ttl >= p.burst && Monotone(calls) && Monotone(other)
    requires calls != [] && other != [] && calls[|calls| - 1].key == k == other[|other| - 1].key
    requires Own(calls, k) == Own(other, k)
    ensures Answer(p, calls) == Answer(p, other)
  {
    EvictionIsInvisible(p, calls);
    EvictionIsInvisible(p, other);
  }

  // ---------------------------------------------------------------- the rate is kept

  /** How many of the calls from index a on the key was allowed. */
  function Allowed(p: Params, calls: seq<Call>, k: Key, a: nat): nat {
    if |calls| <= a then 0
    else Allowed(p, calls[..|calls| - 1], k, a) + (if calls[|calls| - 1].key == k && Answer(p, calls) then 1 else 0)
  }

  lemma {:induction false} LevelGrowsSlowly(p: Params, times: seq<real>, t: real, now: real)
    requires Enforcing(p) && t <= now
    ensures Level(p, times, now) <= Level(p, times, t) + Earned(p, now - t)
  {
    EarnsInTime(p, now - t);
    if times != [] {
      Spans(p, times[|times| - 1], t, now);
    }
  }

  /** Level after serving a call at once. */
  lemma {:induction false} LevelAfterServing(p: Params, times: seq<real>, now: real)
    requires Enforcing(p) && Ascending(times + [now])
    ensures Level(p, times + [now], now) == Level(p, times, now) - (if Served(p, times + [now]) then 1.0 else 0.0)
  {
    var after := times + [now];
    assert after[..|times|] == times;
    LeftIsBounded(p, after);
    EarnsAdd(p, 0.0, 0.0);
    assert after[|after| - 1] == now;
  }

  /** In any stretch of calls a key is allowed at most its burst, plus its rate times the time it spans. */
  lemma {:induction false} RateIsKept(p: Params, calls: seq<Call>, k: Key, a: nat)
    requires Enforcing(p) && p.rate * p.ttl >= p.burst && Monotone(calls) && a < |calls|
    ensures Allowed(p, calls, k, a) as real + Level(p, Own(calls, k), calls[|calls| - 1].at)
         <= p.burst + Earned(p, calls[|calls| - 1].at - calls[a].at)
    ensures Allowed(p, calls, k, a) as real <= p.burst + Earned(p, calls[|calls| - 1].at - calls[a].at)
  {
    var n := |calls| - 1;
    var less, now := calls[..n], calls[n].at;
    ServingTakesOne(p, calls, k);
    if a == n {
      EarnsAdd(p, 0.0, 0.0);
      assert Allowed(p, less, k, a) == 0;
    } else {
      RateIsKept(p, less, k, a);
      LevelGrowsSlowly(p, Own(less, k), less[n - 1].at, now);
      Spans(p, calls[a].at, less[n - 1].at, now);
    }
  }

  lemma {:induction false} Spans(p: Params, a: real, b: real, c: real)
    ensures Earned(p, c - a) == Earned(p, c - b) + Earned(p, b - a)
  {
    EarnsAdd(p, c - b, b - a);
    assert c - a == (c - b) + (b - a);
  }

  lemma {:induction false} ServingTakesOne(p: Params, calls: seq<Call>, k: Key)
    requires Enforcing(p) && p.rate * p.ttl >= p.burst && Monotone(calls) && calls != []
    ensures var n := |calls| - 1;
            var now, before := calls[n].at, Level(p, Own(calls[..n], k), calls[n].at);
            && before <= p.burst
            && 0.0 <= Level(p, Own(calls, k), now)
            && Level(p, Own(calls, k), now) == before - (if calls[n].key == k && Answer(p, calls) then 1.0 else 0.0)
  {
    var n := |calls| - 1;
    var less, now := calls[..n], calls[n].at;
    OwnTimes(calls, k);
    OwnTimes(less, k);
    LeftIsBounded(p, Own(calls, k));
    if calls[n].key == k {
      EvictionIsInvisible(p, calls);
      LevelAfterServing(p, Own(less, k), now);
    }
    if Own(calls, k) != [] {
      LevelIsBounded(p, Own(calls, k), now);
    }
  }

  lemma {:induction false} TimeToEarn(p: Params, tokens: real) returns (time: real)
    requires Enforcing(p)
    ensures Earned(p, time) == tokens
  {
    time := tokens / p.rate;
  }

  lemma {:induction false} EarnsInOrder(p: Params, a: real, b: real)
    requires Enforcing(p)
    ensures a < b <==> Earned(p, a) < Earned(p, b)
  {
    EarnsAdd(p, a, b - a);
    assert a + (b - a) == b;
    EarnsSign(p, b - a);
  }

  lemma {:induction false} EarnsSign(p: Params, d: real)
    requires Enforcing(p)
    ensures d > 0.0 <==> Earned(p, d) > 0.0
  {
  }

  // ---------------------------------------------------------------- eviction and strictness

  function ServedCount(p: Params, times: seq<real>): nat {
    if times == [] then 0
    else ServedCount(p, times[..|times| - 1]) + (if Served(p, times) then 1 else 0)
  }

  /**
   The limiter is ahead of the bucket that is never evicted by some calls, and has given up no more
   tokens than that.
   */
  ghost predicate Ahead(p: Params, s: Limits, times: seq<real>, k: Key, ahead: int) {
    && ahead >= 0
    && (k in s.buckets ==>
      && times != [] && s.buckets[k].lastFill == s.buckets[k].lastSeen == Last(times)
      && s.buckets[k].tokens + ahead as real >= Left(p, times) && s.buckets[k].tokens <= p.burst)
  }

  lemma {:induction false} StaysAhead(p: Params, s: Limits, times: seq<real>, k: Key, now: real, ahead: int)
    requires Enforcing(p) && Ascending(times + [now]) && Ahead(p, s, times, k, ahead)
    ensures Ahead(p, Allow(p, s, k, now).0, times + [now], k,
                  ahead + (if Allow(p, s, k, now).1 then 1 else 0) - (if Served(p, times + [now]) then 1 else 0))
  {
    var after := times + [now];
    assert after[..|times|] == times;
    if times != [] {
      assert after[|times| - 1] <= after[|times|];
      EarnsInTime(p, now - Last(times));
      EarnsAdd(p, 0.0, 0.0);
    }
  }

  lemma {:induction false} RunStaysAhead(p: Params, calls: seq<Call>, k: Key)
    requires Enforcing(p) && Monotone(calls)
    ensures Ahead(p, Run(p, calls), Own(calls, k), k, Allowed(p, calls, k, 0) - ServedCount(p, Own(calls, k)))
  {
    if calls != [] {
      var n := |calls| - 1;
      var less := calls[..n];
      RunStaysAhead(p, less, k);
      OwnTimes(calls, k);
      if calls[n].key == k {
        assert Own(calls, k)[..|Own(less, k)|] == Own(less, k);
        var ahead := Allowed(p, less, k, 0) - ServedCount(p, Own(less, k));
        StaysAhead(p, Run(p, less), Own(less, k), k, calls[n].at, ahead);
      }
    }
  }

  /** For every rate, burst and limit: dropping idle buckets never allows a key fewer calls in all. */
  lemma {:induction false} EvictionNeverAllowsFewer(p: Params, calls: seq<Call>, k: Key)
    requires Enforcing(p) && Monotone(calls)
    ensures Allowed(p, calls, k, 0) >= ServedCount(p, Own(calls, k))
  {
    RunStaysAhead(p, calls, k);
  }
}
