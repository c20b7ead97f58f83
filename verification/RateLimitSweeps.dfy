/**
 Which buckets the limiter remembers after a run (internal/ratelimit/ratelimit.go, Allow and
 sweepIdleLocked), in terms of the calls alone: every 1024th call drops whoever was idle for longer
 than the limit, and no other call drops anybody.
 */
module RateLimitSweeps {
  import opened RateLimit
  import opened RateLimitRuns

  lemma {:induction false} CallsAreCounted(p: Params, calls: seq<Call>)
    ensures Run(p, calls).ops == |calls| % 1024
  {
    if calls != [] {
      CallsAreCounted(p, calls[..|calls| - 1]);
    }
  }

  /** Call i is the key's, and no sweep since has found it too old. */
  ghost predicate Survives(p: Params, calls: seq<Call>, k: Key, i: nat) {
    && i < |calls| && calls[i].key == k
    && forall m :: i < m < |calls| && (m + 1) % 1024 == 0 ==> calls[m].at - calls[i].at <= p.ttl
  }

  /** Call i is the key's latest. */
  ghost predicate Latest(calls: seq<Call>, k: Key, i: nat) {
    i < |calls| && calls[i].key == k && forall j :: i < j < |calls| ==> calls[j].key != k
  }

  ghost predicate Remembers(p: Params, calls: seq<Call>, k: Key) {
    var buckets := Run(p, calls).buckets;
    if k in buckets then
      exists i: nat :: Latest(calls, k, i) && Survives(p, calls, k, i) && buckets[k].lastSeen == calls[i].at
    else forall i: nat :: !Survives(p, calls, k, i)
  }

  lemma {:induction false} OwnCallIsRemembered(p: Params, calls: seq<Call>, k: Key)
    requires calls != [] && calls[|calls| - 1].key == k
    ensures Remembers(p, calls, k)
  {
    var n := |calls| - 1;
    assert Latest(calls, k, n) && Survives(p, calls, k, n);
  }

  lemma {:induction false} OtherCallSweeps(p: Params, calls: seq<Call>, k: Key)
    requires calls != [] && calls[|calls| - 1].key != k
    ensures var n := |calls| - 1;
            var was, now := Run(p, calls[..n]).buckets, Run(p, calls).buckets;
            && (k in now <==> k in was && !((n + 1) % 1024 == 0 && calls[n].at - was[k].lastSeen > p.ttl))
            && (k in now ==> now[k] == was[k])
  {
    CallsAreCounted(p, calls[..|calls| - 1]);
  }

  lemma {:induction false} StillSurvives(p: Params, calls: seq<Call>, k: Key, n: nat, i: nat)
    requires n == |calls| - 1 && calls[n].key != k
    ensures Survives(p, calls, k, i) <==>
            Survives(p, calls[..n], k, i) && ((n + 1) % 1024 == 0 ==> calls[n].at - calls[i].at <= p.ttl)
  {
    var less := calls[..n];
    assert forall m :: 0 <= m < n ==> less[m] == calls[m];
  }

  lemma {:induction false} KeptIsRemembered(p: Params, calls: seq<Call>, k: Key, n: nat)
    requires n == |calls| - 1 && calls[n].key != k && Remembers(p, calls[..n], k) && k in Run(p, calls).buckets
    ensures Remembers(p, calls, k)
  {
    OtherCallSweeps(p, calls, k);
    var less := calls[..n];
    var i: nat :| Latest(less, k, i) && Survives(p, less, k, i) && Run(p, less).buckets[k].lastSeen == less[i].at;
    StillSurvives(p, calls, k, n, i);
    assert Latest(calls, k, i) by {
      assert forall j :: i < j < n ==> calls[j] == less[j];
    }
  }

  /** When even the latest call is too old at a sweep, so is every other. */
  lemma {:induction false} StaleDoesNotSurvive(p: Params, calls: seq<Call>, k: Key, n: nat, i: nat, j: nat)
    requires n == |calls| - 1 && (n + 1) % 1024 == 0 && Monotone(calls) && calls[n].key != k
    requires Latest(calls[..n], k, i) && calls[n].at - calls[i].at > p.ttl
    ensures !Survives(p, calls, k, j)
  {
    assert forall m :: 0 <= m < n ==> calls[..n][m] == calls[m];
    if j < n && calls[j].key == k {
      assert j <= i;
    }
  }

  lemma {:induction false} SweptIsForgotten(p: Params, calls: seq<Call>, k: Key, n: nat)
    requires n == |calls| - 1 && calls[n].key != k && Remembers(p, calls[..n], k) && k !in Run(p, calls).buckets
    requires Monotone(calls)
    ensures Remembers(p, calls, k)
  {
    OtherCallSweeps(p, calls, k);
    var less := calls[..n];
    if k in Run(p, less).buckets {
      var i: nat :| Latest(less, k, i) && Survives(p, less, k, i) && Run(p, less).buckets[k].lastSeen == less[i].at;
      forall j: nat
        ensures !Survives(p, calls, k, j)
      {
        StaleDoesNotSurvive(p, calls, k, n, i, j);
      }
    } else {
      forall j: nat
        ensures !Survives(p, calls, k, j)
      {
        StillSurvives(p, calls, k, n, j);
      }
    }
  }

  lemma {:induction false} RunRemembers(p: Params, calls: seq<Call>, k: Key)
    requires Monotone(calls)
    ensures Remembers(p, calls, k)
  {
    if calls != [] {
      var n := |calls| - 1;
      RunRemembers(p, calls[..n], k);
      if calls[n].key == k {
        OwnCallIsRemembered(p, calls, k);
      } else if k in Run(p, calls).buckets {
        KeptIsRemembered(p, calls, k, n);
      } else {
        SweptIsForgotten(p, calls, k, n);
      }
    }
  }

  /**
   A key has a bucket exactly when some call of it is not older than the limit at any later call
   whose number is a multiple of 1024.
   */
  lemma {:induction false} RememberedIff(p: Params, calls: seq<Call>, k: Key)
    requires Monotone(calls)
    ensures k in Run(p, calls).buckets <==> exists i: nat :: Survives(p, calls, k, i)
  {
    RunRemembers(p, calls, k);
  }
}
