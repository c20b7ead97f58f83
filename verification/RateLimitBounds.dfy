/**
 When keys are independent and when the rate is kept: both hold of every run exactly when a bucket
 fills up within the time limit for idle buckets.
 */
module RateLimitBounds {
  import opened RateLimit
  import opened RateLimitRuns
  import opened RateLimitEviction

  // ---------------------------------------------------------------- independence

  /** Two runs that end in a call of k, in which k calls at the same times. */
  ghost predicate Alike(calls: seq<Call>, other: seq<Call>, k: Key) {
    && calls != [] && other != [] && Monotone(calls) && Monotone(other)
    && calls[|calls| - 1].key == k == other[|other| - 1].key && Own(calls, k) == Own(other, k)
  }

  lemma {:induction false} FirstCall(p: Params, a: Key, t: real) returns (calls: seq<Call>)
    requires Enforcing(p)
    ensures calls == [Call(a, t)] && At(p, calls, a, p.burst - 1.0, p.burst - 1.0, t)
    ensures Own(calls, a) == [t] && Answer(p, calls) && Served(p, Own(calls, a)) && Allowed(p, calls, a, 0) == 1
  {
    calls := [Call(a, t)];
    assert calls[..0] == [] && Own(calls, a) == [] + [t] && [t][..0] == [];
  }

  /** One more call of a, kept away from any sweep. */
  lemma {:induction false} KeptNext(p: Params, calls: seq<Call>, a: Key, b: Key, l: real, t: real, now: real)
    returns (more: seq<Call>, l': real)
    requires Enforcing(p) && At(p, calls, a, l, l, t) && a != b && t <= now
    ensures At(p, more, a, l', l', now) && Own(more, a) == Own(calls, a) + [now] && more[|more| - 1].key == a
    ensures Answer(p, more) == Served(p, Own(more, a))
  {
    var due := NotDue(p, calls, a, b, l, l, t);
    more := Calls(p, due, a, l, l, t, now);
    l' := RateLimitEviction.After(Min(l + Earned(p, now - t), p.burst));
    assert more[..|due|] == due;
  }

  lemma {:induction false} SplitLast(times: seq<real>) returns (less: seq<real>, now: real)
    requires Ascending(times) && |times| > 1
    ensures less != [] && Ascending(less) && Last(less) <= now == Last(times) && times == less + [now]
  {
    less, now := times[..|times| - 1], times[|times| - 1];
  }

  /** At any times, calls of a second key can keep the sweeps away from the bucket of the first. */
  lemma {:induction false} KeptRun(p: Params, times: seq<real>, a: Key, b: Key) returns (calls: seq<Call>, l: real)
    requires Enforcing(p) && Ascending(times) && times != [] && a != b
    ensures At(p, calls, a, l, l, Last(times)) && Own(calls, a) == times && calls[|calls| - 1].key == a
    ensures Answer(p, calls) == Served(p, times)
    decreases |times|
  {
    if |times| == 1 {
      calls := FirstCall(p, a, times[0]);
      l := p.burst - 1.0;
      assert times == [times[0]];
    } else {
      var less, now := SplitLast(times);
      calls, l := KeptRun(p, less, a, b);
      calls, l := KeptNext(p, calls, a, b, l, Last(less), now);
    }
  }

  /**
   What a key is told depends on its own calls alone, in every two runs, exactly when rate * ttl
   reaches the burst.
   */
  lemma {:induction false} KeysAreIndependentIff(p: Params)
    requires Enforcing(p)
    ensures (forall calls, other, k :: Alike(calls, other, k) ==> Answer(p, calls) == Answer(p, other))
            <==> p.rate * p.ttl >= p.burst
  {
    if p.rate * p.ttl >= p.burst {
      forall calls, other, k | Alike(calls, other, k)
        ensures Answer(p, calls) == Answer(p, other)
      {
        KeysAreIndependent(p, calls, other, k);
      }
    } else {
      var calls, le, lr, t := EvictionCanBeSeen(p, "a", "b");
      OwnTimes(calls, "a");
      var other, l := KeptRun(p, Own(calls, "a"), "a", "b");
      assert Alike(calls, other, "a") && Answer(p, calls) != Answer(p, other);
    }
  }

  // ---------------------------------------------------------------- the rate

  /** From index a on, k is allowed no more than its burst plus its rate times the time since then. */
  ghost predicate WithinRate(p: Params, calls: seq<Call>, k: Key, a: nat)
    requires a < |calls|
  {
    Allowed(p, calls, k, a) as real <= p.burst + Earned(p, calls[|calls| - 1].at - calls[a].at)
  }

  /** The tokens a has used and holds are its burst, what it has earned, and some more. */
  ghost predicate Owes(p: Params, calls: seq<Call>, a: Key, le: real, t: real, extra: real) {
    calls != [] && Allowed(p, calls, a, 0) as real + le == p.burst + Earned(p, t - calls[0].at) + extra
  }

  /** A call of a moves at most one token from what it holds to what it has used. */
  lemma {:induction false} CallOwes(p: Params, calls: seq<Call>, a: Key, le: real, t: real, extra: real, now: real,
                                    level: real, more: seq<Call>, gain: real)
    requires Owes(p, calls, a, le, t, extra) && more == calls + [Call(a, now)] && Answer(p, more) == (level >= 1.0)
    requires level == le + Earned(p, now - t) + gain
    ensures Owes(p, more, a, RateLimitEviction.After(level), now, extra + gain)
  {
    assert more[..|calls|] == calls;
    Spans(p, calls[0].at, t, now);
  }

  /** At one time, a calls until it has less than one token. */
  lemma {:induction false} Uses(p: Params, calls: seq<Call>, a: Key, le: real, lr: real, t: real, extra: real)
    returns (more: seq<Call>, low: real, lr': real)
    requires Enforcing(p) && At(p, calls, a, le, lr, t) && Owes(p, calls, a, le, t, extra)
    ensures At(p, more, a, low, lr', t) && Owes(p, more, a, low, t, extra) && low < 1.0
    decreases le.Floor
  {
    more, low, lr' := calls, le, lr;
    if le >= 1.0 {
      EarnsAdd(p, 0.0, 0.0);
      more := Calls(p, calls, a, le, lr, t, t);
      CallOwes(p, calls, a, le, t, extra, t, le, more, 0.0);
      more, low, lr' := Uses(p, more, a, le - 1.0, RateLimitEviction.After(Min(lr, p.burst)), t, extra);
    }
  }

  /** Then it waits for the rest of a token and calls once more: nothing is left. */
  lemma {:induction false} UsesUp(p: Params, calls: seq<Call>, a: Key, b: Key, le: real, lr: real, t: real, extra: real)
    returns (more: seq<Call>, lr': real, t': real)
    requires Enforcing(p) && At(p, calls, a, le, lr, t) && Owes(p, calls, a, le, t, extra) && a != b
    ensures At(p, more, a, 0.0, lr', t') && Owes(p, more, a, 0.0, t', extra)
  {
    var low, rest;
    more, low, rest := Uses(p, calls, a, le, lr, t, extra);
    more := NotDue(p, more, a, b, low, rest, t);
    var w := TimeToEarn(p, 1.0 - low);
    EarnsInOrder(p, 0.0, w);
    EarnsAdd(p, 0.0, 0.0);
    assert t + w - t == w;
    var last := Calls(p, more, a, low, rest, t, t + w);
    CallOwes(p, more, a, low, t, extra, t + w, 1.0, last, 0.0);
    more, t' := last, t + w;
    lr' := RateLimitEviction.After(Min(rest + Earned(p, w), p.burst));
  }

  /** An idle time after the limit in which less than a burst is earned. */
  lemma {:induction false} IdlesBelow(p: Params) returns (idle: real)
    requires Enforcing(p) && Earned(p, p.ttl) < p.burst
    ensures idle > p.ttl && Earned(p, idle) < p.burst
  {
    idle := TimeToEarn(p, (Earned(p, p.ttl) + p.burst) / 2.0);
    EarnsInOrder(p, p.ttl, idle);
  }

  /** An empty bucket is swept after an idle time, and a full one is there in its place. */
  lemma {:induction false} SweptOwes(p: Params, calls: seq<Call>, a: Key, b: Key, lr: real, t: real, idle: real)
    returns (more: seq<Call>, lr': real, t': real)
    requires Enforcing(p) && At(p, calls, a, 0.0, lr, t) && Owes(p, calls, a, 0.0, t, 0.0) && a != b && idle > p.ttl
    ensures At(p, more, a, p.burst - 1.0, lr', t')
    ensures Owes(p, more, a, p.burst - 1.0, t', p.burst - Earned(p, idle))
  {
    var full := FillsUp(p, calls, a, b, 0.0, lr, t);
    t' := t + idle;
    assert t' - t == idle;
    more := CallsEvicted(p, full, a, 0.0, lr, t, t');
    lr' := RateLimitEviction.After(Min(lr + Earned(p, idle), p.burst));
    CallOwes(p, full, a, 0.0, t, 0.0, t', p.burst, more, p.burst - Earned(p, idle));
  }

  /** The first burst is used up. */
  lemma {:induction false} UsesFirst(p: Params, a: Key, b: Key) returns (calls: seq<Call>, lr: real, t: real)
    requires Enforcing(p) && a != b
    ensures At(p, calls, a, 0.0, lr, t) && Owes(p, calls, a, 0.0, t, 0.0)
  {
    var l := p.burst - 1.0;
    calls := FirstCall(p, a, 0.0);
    EarnsAdd(p, 0.0, 0.0);
    calls, lr, t := UsesUp(p, calls, a, b, l, l, 0.0, 0.0);
  }

  /**
   For every limit too short to fill a bucket: a run that uses up its tokens, is swept, and uses up
   a full bucket again.
   */
  lemma {:induction false} RateCanBeExceeded(p: Params, a: Key, b: Key) returns (calls: seq<Call>)
    requires Enforcing(p) && Earned(p, p.ttl) < p.burst && a != b
    ensures calls != [] && Monotone(calls) && !WithinRate(p, calls, a, 0)
  {
    var lr, t, idle;
    calls, lr, t := UsesFirst(p, a, b);
    idle := IdlesBelow(p);
    calls, lr, t := SweptOwes(p, calls, a, b, lr, t, idle);
    calls, lr, t := UsesUp(p, calls, a, b, p.burst - 1.0, lr, t, p.burst - Earned(p, idle));
  }

  /** In every stretch of every run the rate is kept exactly when rate * ttl reaches the burst. */
  lemma {:induction false} RateIsKeptIff(p: Params)
    requires Enforcing(p)
    ensures (forall calls, k, a :: Monotone(calls) && 0 <= a < |calls| ==> WithinRate(p, calls, k, a))
            <==> p.rate * p.ttl >= p.burst
  {
    if p.rate * p.ttl >= p.burst {
      forall calls, k, a | Monotone(calls) && 0 <= a < |calls|
        ensures WithinRate(p, calls, k, a)
      {
        RateIsKept(p, calls, k, a);
      }
    } else {
      var calls := RateCanBeExceeded(p, "a", "b");
      assert !WithinRate(p, calls, "a", 0);
    }
  }
}
