/**
 The per-key token bucket with idle eviction (internal/ratelimit/ratelimit.go).

 Tokens and seconds are real numbers. The clock is an argument of each call and does not run backwards.
 */
module RateLimit {

  type Key = string

  datatype Params = Params(rate: real, burst: real, ttl: real)

  const DEFAULT_TTL: real := 300.0
  const GC_EVERY: nat := 1024

  datatype Bucket = Bucket(tokens: real, lastFill: real, lastSeen: real)

  datatype Limits = Limits(buckets: map<Key, Bucket>, ops: nat)

  ghost predicate Enforcing(p: Params) {
    p.rate > 0.0 && p.burst >= 1.0 && p.ttl >= 0.0
  }

  function Min(a: real, b: real): real {
    if a > b then b else a
  }

  /** Tokens earned in some time. */
  function Earned(p: Params, time: real): real {
    time * p.rate
  }

  // ---------------------------------------------------------------- one call

  function Swept(p: Params, buckets: map<Key, Bucket>, now: real): map<Key, Bucket> {
    map k | k in buckets && !(now - buckets[k].lastSeen > p.ttl) :: buckets[k]
  }

  function Refilled(p: Params, b: Bucket, now: real): Bucket {
    if now - b.lastFill > 0.0 then Bucket(Min(b.tokens + Earned(p, now - b.lastFill), p.burst), now, now)
    else b.(lastSeen := now)
  }

  function Charged(b: Bucket): (Bucket, bool) {
    if b.tokens >= 1.0 then (b.(tokens := b.tokens - 1.0), true) else (b, false)
  }

  /** The new state and the answer of an enabled limiter. */
  function Allow(p: Params, s: Limits, key: Key, now: real): (Limits, bool) {
    var due := s.ops + 1 >= GC_EVERY;
    var kept := if due then Swept(p, s.buckets, now) else s.buckets;
    var b := if key in kept then Refilled(p, kept[key], now) else Bucket(p.burst, now, now);
    (Limits(kept[key := Charged(b).0], if due then 0 else s.ops + 1), Charged(b).1)
  }

  class BucketCell {
    var tokens: real
    var lastFill: real
    var lastSeen: real

    constructor (tokens: real, now: real)
      ensures Value() == Bucket(tokens, now, now)
    {
      this.tokens, lastFill, lastSeen := tokens, now, now;
    }

    function Value(): Bucket
      reads this
    {
      Bucket(tokens, lastFill, lastSeen)
    }

    method Refill(p: Params, now: real)
      modifies this
      ensures Value() == Refilled(p, old(Value()), now)
    {
      var elapsed := now - lastFill;
      if elapsed > 0.0 {
        tokens := tokens + elapsed * p.rate;
        if tokens > p.burst {
          tokens := p.burst;
        }
        lastFill := now;
      }
      lastSeen := now;
    }

    method Charge() returns (allowed: bool)
      modifies this
      ensures (Value(), allowed) == Charged(old(Value()))
    {
      allowed := tokens >= 1.0;
      if allowed {
        tokens := tokens - 1.0;
      }
    }
  }

  class Limiter {
    const rate: real
    const burst: real
    const ttl: real
    var buckets: map<Key, BucketCell>
    var opsSinceGC: nat

    function Config(): Params {
      Params(rate, burst, ttl)
    }

    ghost predicate Valid()
      reads this
    {
      forall j, k :: j in buckets && k in buckets && buckets[j] == buckets[k] ==> j == k
    }

    ghost function State(): Limits
      reads this, buckets.Values
    {
      Limits(map k | k in buckets :: buckets[k].Value(), opsSinceGC)
    }

    constructor (ratePerSec: real, burst: real)
      ensures Valid() && State() == Limits(map[], 0) && rate == ratePerSec && ttl == DEFAULT_TTL
      ensures ratePerSec > 0.0 ==> Enforcing(Config())
    {
      rate := ratePerSec;
      this.burst := if ratePerSec > 0.0 && burst < 1.0 then 1.0 else burst;
      ttl := DEFAULT_TTL;
      buckets := map[];
      opsSinceGC := 0;
    }

    /** A disabled limiter allows everything and changes nothing. */
    method AllowKey(key: Key, now: real) returns (allowed: bool)
      requires Valid()
      modifies this, buckets.Values
      ensures Valid() && fresh(buckets.Values - old(buckets.Values))
      ensures rate <= 0.0 ==> allowed && State() == old(State())
      ensures rate > 0.0 ==>
        State() == Allow(Config(), old(State()), key, now).0 && allowed == Allow(Config(), old(State()), key, now).1
    {
      if !(rate > 0.0) {
        return true;
      }
      Tick(now);
      allowed := Take(key, now);
    }

    /** The key's bucket is found, refilled and charged; no other bucket changes. */
    method Take(key: Key, now: real) returns (allowed: bool)
      requires Valid()
      modifies this`buckets, buckets.Values
      ensures Valid() && fresh(buckets.Values - old(buckets.Values))
      ensures var was := old(State()).buckets;
              var b := if key in was then Refilled(Config(), was[key], now) else Bucket(burst, now, now);
              State().buckets == was[key := Charged(b).0] && allowed == Charged(b).1
    {
      ghost var was := State().buckets;
      var b := Find(key, now);
      ghost var refilled := b.Value();
      allowed := ChargeOne(key, b);
      assert was[key := refilled][key := Charged(refilled).0] == was[key := Charged(refilled).0];
    }

    method ChargeOne(key: Key, b: BucketCell) returns (allowed: bool)
      requires Valid() && key in buckets && buckets[key] == b
      modifies b
      ensures State().buckets == old(State()).buckets[key := Charged(old(b.Value())).0]
              && allowed == Charged(old(b.Value())).1
    {
      allowed := b.Charge();
      assert forall k :: k in buckets && k != key ==> buckets[k].Value() == old(buckets[k].Value());
    }

    /** The calls are counted, and every so many of them idle buckets are dropped. */
    method Tick(now: real)
      requires Valid()
      modifies this
      ensures Valid() && buckets.Values <= old(buckets.Values)
      ensures opsSinceGC == if old(opsSinceGC) + 1 >= GC_EVERY then 0 else old(opsSinceGC) + 1
      ensures State().buckets
           == (if old(opsSinceGC) + 1 >= GC_EVERY then Swept(Config(), old(State()).buckets, now)
               else old(State()).buckets)
    {
      opsSinceGC := opsSinceGC + 1;
      if opsSinceGC >= GC_EVERY {
        SweepIdle(now);
        opsSinceGC := 0;
      }
    }

    /** The key's bucket, created full or refilled up to now. */
    method Find(key: Key, now: real) returns (b: BucketCell)
      requires Valid()
      modifies this`buckets, buckets.Values
      ensures Valid() && key in buckets && buckets[key] == b && fresh(buckets.Values - old(buckets.Values))
      ensures b.Value() == (if key in old(buckets) then Refilled(Config(), old(buckets[key].Value()), now)
                            else Bucket(burst, now, now))
      ensures State().buckets == old(State()).buckets[key := b.Value()]
    {
      if key !in buckets {
        b := new BucketCell(burst, now);
        buckets := buckets[key := b];
      } else {
        b := buckets[key];
        b.Refill(Config(), now);
      }
      assert forall k :: k in buckets && k != key ==>
             k in old(buckets) && buckets[k].Value() == old(buckets[k].Value());
    }

    method SweepIdle(now: real)
      requires Valid()
      modifies this`buckets
      ensures Valid() && buckets.Values <= old(buckets.Values)
      ensures State() == Limits(Swept(Config(), old(State()).buckets, now), opsSinceGC)
    {
      var todo := buckets.Keys;
      ghost var before := buckets;
      while todo != {}
        invariant todo <= before.Keys
        invariant forall k :: k in before ==> (k in buckets <==> k in todo || !(now - before[k].lastSeen > ttl))
        invariant forall k :: k in buckets ==> k in before && buckets[k] == before[k]
        decreases |todo|
      {
        var k :| k in todo;
        todo := todo - {k};
        if now - buckets[k].lastSeen > ttl {
          buckets := buckets - {k};
        }
      }
      forall c | c in buckets.Values
        ensures c in before.Values
      {
        var k :| k in buckets && buckets[k] == c;
        assert k in before && before[k] == c;
      }
    }
  }

}
