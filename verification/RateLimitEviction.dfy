/**
 When eviction can be seen: for every rate, burst and limit, runs of the limiter in which a key's
 answers differ from those of a bucket of its own that is never evicted.
 */
module RateLimitEviction {
  import opened RateLimit
  import opened RateLimitRuns

  /** The last call is answered as by a bucket of the key's own. */
  ghost predicate Faithful(p: Params, calls: seq<Call>)
    requires calls != []
  {
    var k := calls[|calls| - 1].key;
    Own(calls, k) != [] && Answer(p, calls) == Served(p, Own(calls, k))
  }

  /** It is not refused where that bucket would answer. */
  ghost predicate NotStricter(p: Params, calls: seq<Call>)
    requires calls != []
  {
    var k := calls[|calls| - 1].key;
    Own(calls, k) != [] && (Served(p, Own(calls, k)) ==> Answer(p, calls))
  }

  /** Where a run stands at time t: the limiter's bucket for a holds le tokens, the kept one lr. */
  ghost predicate At(p: Params, calls: seq<Call>, a: Key, le: real, lr: real, t: real) {
    && calls != [] && Monotone(calls) && calls[|calls| - 1].at == t
    && Run(p, calls).ops < GC_EVERY && a in Run(p, calls).buckets && Run(p, calls).buckets[a] == Bucket(le, t, t)
    && Own(calls, a) != [] && Last(Own(calls, a)) == t && Left(p, Own(calls, a)) == lr
    && 0.0 <= le <= p.burst && 0.0 <= lr <= p.burst
  }

  function After(level: real): real {
    if level >= 1.0 then level - 1.0 else level
  }

  /** Calls of other keys were added, and a is told nothing. */
  ghost predicate SameFor(p: Params, calls: seq<Call>, more: seq<Call>, a: Key) {
    && calls != [] && more != [] && more[0] == calls[0]
    && Own(more, a) == Own(calls, a) && Allowed(p, more, a, 0) == Allowed(p, calls, a, 0)
  }

  // ---------------------------------------------------------------- single calls

  lemma {:induction false} KeptLevel(p: Params, calls: seq<Call>, a: Key, le: real, lr: real, t: real, now: real,
                                     more: seq<Call>)
    requires Enforcing(p) && At(p, calls, a, le, lr, t) && t <= now && more == calls + [Call(a, now)]
    ensures var level := Min(lr + Earned(p, now - t), p.burst);
            && Monotone(more) && Own(more, a) == Own(calls, a) + [now]
            && Served(p, Own(more, a)) == (level >= 1.0) && Left(p, Own(more, a)) == After(level)
               && 0.0 <= After(level) <= p.burst
  {
    assert more[..|calls|] == calls;
    assert Own(more, a)[..|Own(calls, a)|] == Own(calls, a);
    EarnsInTime(p, now - t);
  }

  /** A call that does not meet a sweep of its own bucket. */
  lemma {:induction false} Calls(p: Params, calls: seq<Call>, a: Key, le: real, lr: real, t: real, now: real)
    returns (more: seq<Call>)
    requires Enforcing(p) && At(p, calls, a, le, lr, t) && t <= now
    requires now - t <= p.ttl || Run(p, calls).ops + 1 < GC_EVERY
    ensures var x, y := Min(le + Earned(p, now - t), p.burst), Min(lr + Earned(p, now - t), p.burst);
            && more == calls + [Call(a, now)] && At(p, more, a, After(x), After(y), now)
            && Answer(p, more) == (x >= 1.0) && Served(p, Own(more, a)) == (y >= 1.0)
  {
    more := calls + [Call(a, now)];
    assert more[..|calls|] == calls;
    KeptLevel(p, calls, a, le, lr, t, now, more);
    EarnsInTime(p, now - t);
    EarnsAdd(p, 0.0, 0.0);
  }

  /** A call after the limit that meets a sweep: the bucket is dropped and a full one answers. */
  lemma {:induction false} CallsEvicted(p: Params, calls: seq<Call>, a: Key, le: real, lr: real, t: real, now: real)
    returns (more: seq<Call>)
    requires Enforcing(p) && At(p, calls, a, le, lr, t) && now - t > p.ttl && Run(p, calls).ops + 1 == GC_EVERY
    ensures var y := Min(lr + Earned(p, now - t), p.burst);
            && more == calls + [Call(a, now)] && At(p, more, a, p.burst - 1.0, After(y), now)
            && Answer(p, more) && Served(p, Own(more, a)) == (y >= 1.0)
  {
    more := calls + [Call(a, now)];
    assert more[..|calls|] == calls;
    KeptLevel(p, calls, a, le, lr, t, now, more);
  }

  /** A call of another key at the same time only counts. */
  lemma {:induction false} Fills(p: Params, calls: seq<Call>, a: Key, b: Key, le: real, lr: real, t: real)
    returns (more: seq<Call>)
    requires Enforcing(p) && At(p, calls, a, le, lr, t) && a != b
    ensures At(p, more, a, le, lr, t) && SameFor(p, calls, more, a)
    ensures Run(p, more).ops == if Run(p, calls).ops + 1 >= GC_EVERY then 0 else Run(p, calls).ops + 1
  {
    more := calls + [Call(b, t)];
    assert more[..|calls|] == calls;
  }

  lemma {:induction false} FillsUp(p: Params, calls: seq<Call>, a: Key, b: Key, le: real, lr: real, t: real)
    returns (more: seq<Call>)
    requires Enforcing(p) && At(p, calls, a, le, lr, t) && a != b
    ensures At(p, more, a, le, lr, t) && SameFor(p, calls, more, a) && Run(p, more).ops + 1 == GC_EVERY
    decreases GC_EVERY - Run(p, calls).ops
  {
    more := calls;
    if Run(p, calls).ops + 1 < GC_EVERY {
      more := Fills(p, calls, a, b, le, lr, t);
      more := FillsUp(p, more, a, b, le, lr, t);
    }
  }

  /** Some calls of another key, if need be, so that the next call meets no sweep. */
  lemma {:induction false} NotDue(p: Params, calls: seq<Call>, a: Key, b: Key, le: real, lr: real, t: real)
    returns (more: seq<Call>)
    requires Enforcing(p) && At(p, calls, a, le, lr, t) && a != b
    ensures At(p, more, a, le, lr, t) && SameFor(p, calls, more, a) && Run(p, more).ops + 1 < GC_EVERY
  {
    more := calls;
    if Run(p, calls).ops + 1 >= GC_EVERY {
      more := Fills(p, calls, a, b, le, lr, t);
    }
  }

  // ---------------------------------------------------------------- towards a difference

  /** At one time, a calls until it has less than one token. */
  lemma {:induction false} Drains(p: Params, calls: seq<Call>, a: Key, l: real, t: real)
    returns (more: seq<Call>, low: real)
    requires Enforcing(p) && At(p, calls, a, l, l, t)
    ensures At(p, more, a, low, low, t) && low < 1.0
    decreases l.Floor
  {
    more, low := calls, l;
    if l >= 1.0 {
      EarnsAdd(p, 0.0, 0.0);
      more := Calls(p, calls, a, l, l, t, t);
      more, low := Drains(p, more, a, l - 1.0, t);
    }
  }

  /** A run after which the time limit is too short to fill the bucket of a. */
  lemma {:induction false} RunsLow(p: Params, a: Key) returns (calls: seq<Call>, low: real, t: real)
    requires Enforcing(p) && Earned(p, p.ttl) < p.burst
    ensures At(p, calls, a, low, low, t) && low + Earned(p, p.ttl) < p.burst
  {
    calls, t := [Call(a, 0.0)], 0.0;
    assert calls[..0] == [] && Own(calls, a) == [] + [0.0] && [0.0][..0] == [];
    calls, low := Drains(p, calls, a, p.burst - 1.0, 0.0);
    if low + Earned(p, p.ttl) >= p.burst {
      var w := TimeToEarn(p, 1.0 - low);
      EarnsInOrder(p, p.ttl, w);
      EarnsInOrder(p, w, 0.0);
      EarnsAdd(p, 0.0, 0.0);
      assert t + w - t == w;
      calls := Calls(p, calls, a, low, low, t, t + w);
      low, t := 0.0, t + w;
    }
  }

  /** An idle time after the limit that leaves the kept bucket short of full by less than one token. */
  lemma {:induction false} IdlesShort(p: Params, low: real) returns (idle: real)
    requires Enforcing(p) && 0.0 <= low && low + Earned(p, p.ttl) < p.burst
    ensures idle > p.ttl && p.burst - 1.0 < low + Earned(p, idle) < p.burst
  {
    var lo := if Earned(p, p.ttl) > p.burst - low - 1.0 then Earned(p, p.ttl) else p.burst - low - 1.0;
    idle := TimeToEarn(p, (lo + p.burst - low) / 2.0);
    EarnsInOrder(p, p.ttl, idle);
  }

  /**
   From a limiter that is ahead by less than a token: calls up to one that it answers and the kept
   bucket refuses. After it the limiter is behind.
   */
  lemma {:induction false} Parts(p: Params, calls: seq<Call>, a: Key, b: Key, le: real, lr: real, t: real)
    returns (more: seq<Call>, le': real, lr': real, t': real)
    requires Enforcing(p) && At(p, calls, a, le, lr, t) && a != b && 0.0 < le - lr < 1.0
    ensures At(p, more, a, le', lr', t') && le' < lr' < 1.0
    ensures more[|more| - 1].key == a && Answer(p, more) && !Served(p, Own(more, a))
    decreases lr.Floor
  {
    EarnsAdd(p, 0.0, 0.0);
    if lr >= 1.0 {
      var next := Calls(p, calls, a, le, lr, t, t);
      more, le', lr', t' := Parts(p, next, a, b, le - 1.0, lr - 1.0, t);
    } else if le >= 1.0 {
      more := Calls(p, calls, a, le, lr, t, t);
      le', lr', t' := le - 1.0, lr, t;
    } else {
      var w := TimeToEarn(p, 1.0 - le);
      EarnsInOrder(p, 0.0, w);
      more := NotDue(p, calls, a, b, le, lr, t);
      assert t + w - t == w;
      more := Calls(p, more, a, le, lr, t, t + w);
      le', lr', t' := 0.0, lr + 1.0 - le, t + w;
    }
  }

  /**
   For every limit too short to fill a bucket: a run in which eviction answers a call that the kept
   bucket refuses.
   */
  lemma {:induction false} EvictionCanBeSeen(p: Params, a: Key, b: Key)
    returns (calls: seq<Call>, le: real, lr: real, t: real)
    requires Enforcing(p) && Earned(p, p.ttl) < p.burst && a != b
    ensures At(p, calls, a, le, lr, t) && le < lr < 1.0
    ensures calls[|calls| - 1].key == a && Answer(p, calls) && !Served(p, Own(calls, a))
  {
    var low;
    calls, low, t := RunsLow(p, a);
    calls := FillsUp(p, calls, a, b, low, low, t);
    var idle := IdlesShort(p, low);
    assert t + idle - t == idle;
    calls := CallsEvicted(p, calls, a, low, low, t, t + idle);
    var level := low + Earned(p, idle);
    le, lr, t := p.burst - 1.0, After(level), t + idle;
    if level >= 1.0 {
      calls, le, lr, t := Parts(p, calls, a, b, le, lr, t);
    }
  }

  /** And, one call later, a run in which it refuses a call that the kept bucket answers. */
  lemma {:induction false} EvictionCanBeStricter(p: Params, a: Key, b: Key) returns (calls: seq<Call>)
    requires Enforcing(p) && Earned(p, p.ttl) < p.burst && a != b
    ensures calls != [] && Monotone(calls) && calls[|calls| - 1].key == a && Own(calls, a) != []
    ensures !Answer(p, calls) && Served(p, Own(calls, a))
  {
    var le, lr, t;
    calls, le, lr, t := EvictionCanBeSeen(p, a, b);
    calls := NotDue(p, calls, a, b, le, lr, t);
    var w := TimeToEarn(p, 1.0 - lr);
    EarnsInOrder(p, 0.0, w);
    EarnsAdd(p, 0.0, 0.0);
    assert t + w - t == w;
    calls := Calls(p, calls, a, le, lr, t, t + w);
  }

  // ---------------------------------------------------------------- the exact condition

  /** Every answer of every run is that of a bucket of the key's own exactly when rate * ttl reaches the burst. */
  lemma {:induction false} EvictionIsInvisibleIff(p: Params)
    requires Enforcing(p)
    ensures (forall calls :: calls != [] && Monotone(calls) ==> Faithful(p, calls)) <==> p.rate * p.ttl >= p.burst
  {
    if p.rate * p.ttl >= p.burst {
      forall calls | calls != [] && Monotone(calls)
        ensures Faithful(p, calls)
      {
        EvictionIsInvisible(p, calls);
      }
    } else {
      var calls, le, lr, t := EvictionCanBeSeen(p, "a", "b");
      assert !Faithful(p, calls);
    }
  }

  /** And the limiter is stricter on no call of any run exactly under the same condition. */
  lemma {:induction false} EvictionIsNeverStricterIff(p: Params)
    requires Enforcing(p)
    ensures (forall calls :: calls != [] && Monotone(calls) ==> NotStricter(p, calls)) <==> p.rate * p.ttl >= p.burst
  {
    if p.rate * p.ttl >= p.burst {
      forall calls | calls != [] && Monotone(calls)
        ensures NotStricter(p, calls)
      {
        EvictionIsInvisible(p, calls);
      }
    } else {
      var calls := EvictionCanBeStricter(p, "a", "b");
      assert !NotStricter(p, calls);
    }
  }
}
