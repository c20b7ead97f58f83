/**
 Redelivery of a suffix (internal/workflow/poller.go beside internal/workflow/coordinator.go): the
 coordinator folds each event when it publishes it, and the poller folds what it has not read yet a
 second time, over the state that came of all of it.
 */
module Lagging {
  import opened Fold
  import opened Options
  import opened Store
  import opened Redelivery
  import opened Coordinator
  import opened Scheduling

  // ---------------------------------------------------------------- one execution

  /** What was accepted since the last retry, when the execution is running: a lease, then its heartbeats. */
  ghost predicate RunningTail(es: seq<Event>, x: Exec) {
    && (forall i :: 0 <= i < |es| ==>
          (es[i].body.Leased? && i == 0) || (es[i].body == Heartbeat(x.worker) && es[i].attempt == x.attempt))
    && (es != [] ==> x.leaseDeadline == es[|es| - 1].at + x.leaseTtl && x.updatedAt == es[|es| - 1].at)
  }

  lemma {:induction false} TailShape(y: Exec, es: seq<Event>)
    requires AllAccepted(y, es)
    ensures var x := FoldAll(y, es);
            && (x.status == Pending && !HasRetry(es) ==> es == [])
            && (x.status == Running && !HasRetry(es) ==> RunningTail(es, x))
  {
    if es != [] {
      var init, last := es[..|es| - 1], es[|es| - 1];
      TailShape(y, init);
      HasRetryStep(es);
      if !HasRetry(es) {
        TailStep(es, init, last, FoldAll(y, init));
      }
    }
  }

  lemma {:induction false} TailStep(es: seq<Event>, init: seq<Event>, last: Event, z: Exec)
    requires es == init + [last] && Accepts(z, last) && !last.body.Retry?
    requires z.status == Pending ==> init == []
    requires z.status == Running ==> RunningTail(init, z)
    ensures Step(z, last).status != Pending && (Step(z, last).status == Running ==> RunningTail(es, Step(z, last)))
  {
  }

  /** Folded again, such a tail ends with the same heartbeat, or changes nothing. */
  lemma {:induction false} TailRefolds(x: Exec, es: seq<Event>)
    requires x.status == Running && RunningTail(es, x)
    ensures FoldAll(x, es) == x
  {
    if es != [] {
      HeartbeatsMoveTheDeadline(x, es[..|es| - 1]);
    }
  }

  lemma {:induction false} HeartbeatsMoveTheDeadline(x: Exec, es: seq<Event>)
    requires x.status == Running
    requires forall i :: 0 <= i < |es| ==>
               es[i].body.Leased? || (es[i].body == Heartbeat(x.worker) && es[i].attempt == x.attempt)
    ensures FoldAll(x, es).(leaseDeadline := x.leaseDeadline, updatedAt := x.updatedAt) == x
  {
    if es != [] {
      HeartbeatsMoveTheDeadline(x, es[..|es| - 1]);
    }
  }

  lemma {:induction false} AcceptedSplits(x: Exec, es: seq<Event>, n: nat)
    requires AllAccepted(x, es) && n <= |es|
    ensures AllAccepted(FoldAll(x, es[..n]), es[n..]) && FoldAll(FoldAll(x, es[..n]), es[n..]) == FoldAll(x, es)
  {
    if n == |es| {
      assert es[..n] == es && es[n..] == [];
    } else {
      var init := es[..|es| - 1];
      AcceptedSplits(x, init, n);
      assert init[..n] == es[..n] && es[n..][..|es[n..]| - 1] == init[n..];
    }
  }

  /** When redelivering the events since some point is harmless. */
  predicate SafeSince(x: Exec, since: seq<Event>) {
    (x.status != Running && x.status != Retrying) || !HasRetry(since)
  }

  /**
   Redelivering a suffix of an accepted log over its result changes nothing exactly when the result
   is neither running nor retrying, or the suffix holds no retry.
   */
  lemma {:induction false} SuffixIsHarmlessIff(e: Event, es: seq<Event>, n: nat)
    requires Founds(e) && AllAccepted(NewExec(e), es) && n <= |es|
    ensures var x := FoldAll(NewExec(e), es);
            FoldAll(x, es[n..]) == x <==> SafeSince(x, es[n..])
  {
    var x, since := FoldAll(NewExec(e), es), es[n..];
    AcceptedLogFacts(e, es);
    assert forall i :: 0 <= i < |since| ==> since[i] == es[n + i];
    if !SafeSince(x, since) {
      RefoldTakesARetry(x, since);
    } else if x.status == Running {
      AcceptedSplits(NewExec(e), es, n);
      TailShape(FoldAll(NewExec(e), es[..n]), since);
      TailRefolds(x, since);
    } else {
      FoldIdle(x, since);
    }
  }

  // ---------------------------------------------------------------- the whole store

  /** Folding `since` over x is folding the events of the life from its m-th on. */
  ghost predicate Matches(x: Exec, since: seq<Event>, life: Option<Life>, m: nat) {
    if life.None? then FoldAll(x, since) == x && !HasRetry(since)
    else
      && m <= |life.value.rest| && FoldAll(x, since) == FoldAll(x, life.value.rest[m..])
      && (HasRetry(since) <==> HasRetry(life.value.rest[m..]))
  }

  lemma {:induction false} HasRetrySnoc(es: seq<Event>, e: Event)
    ensures HasRetry(es + [e]) <==> HasRetry(es) || e.body.Retry?
  {
    HasRetryStep(es + [e]);
    assert (es + [e])[..|es|] == es;
  }

  /** One more event of k that is no part of its life is not taken. */
  lemma {:induction false} IdleMatches(x: Exec, since: seq<Event>, e: Event, life: Option<Life>, m: nat)
    requires Matches(x, since, life, m) && (Void(e) || e.body.Submitted?)
    ensures Matches(x, since + [e], life, m)
  {
    FoldSnoc(x, since, e);
    HasRetrySnoc(since, e);
  }

  /** One that is. */
  lemma {:induction false} LifeMatches(x: Exec, since: seq<Event>, e: Event, life: Life, m: nat)
    requires Matches(x, since, Some(life), m)
    ensures Matches(x, since + [e], Some(Life(life.founder, life.rest + [e])), m)
  {
    FoldSnoc(x, since, e);
    HasRetrySnoc(since, e);
    var tail := life.rest[m..];
    assert (life.rest + [e])[m..] == tail + [e];
    FoldSnoc(x, tail, e);
    HasRetrySnoc(tail, e);
  }

  /** The event that founds it. */
  lemma {:induction false} FounderMatches(x: Exec, since: seq<Event>, e: Event, m: nat)
    requires Matches(x, since, None, m) && e.body.Submitted?
    ensures Matches(x, since + [e], Some(Life(e, [])), 0)
  {
    IdleMatches(x, since, e, None, m);
    assert FoldAll(x, []) == x;
  }

  lemma {:induction false} UntakenFounds(es: seq<Event>, k: Key)
    requires AllTaken(es) && es != [] && es[|es| - 1].key == k && !Void(es[|es| - 1])
    ensures LifeOf(es[..|es| - 1], k).None? ==> Founds(es[|es| - 1])
  {
    LifeFolds(es[..|es| - 1], k);
    ReplayIsPointwise(0, es[..|es| - 1]);
  }

  /** The events of k since point n are, for folding, the end of its life. */
  lemma {:induction false} SinceInLife(x: Exec, es: seq<Event>, n: nat, k: Key) returns (m: nat)
    requires AllTaken(es) && n <= |es|
    ensures Matches(x, Project(es[n..], k), LifeOf(es, k), m)
  {
    if n == |es| {
      m := if LifeOf(es, k).Some? then |LifeOf(es, k).value.rest| else 0;
    } else {
      var init, e := es[..|es| - 1], es[|es| - 1];
      m := SinceInLife(x, init, n, k);
      assert es[n..][..|es[n..]| - 1] == init[n..];
      var since, before := Project(init[n..], k), LifeOf(init, k);
      if e.key == k {
        if Void(e) {
          IdleMatches(x, since, e, before, m);
        } else if before.Some? {
          LifeMatches(x, since, e, before.value, m);
        } else {
          UntakenFounds(es, k);
          FounderMatches(x, since, e, m);
          m := 0;
        }
      }
    }
  }

  lemma {:induction false} LagPerKey(es: seq<Event>, n: nat, k: Key)
    requires AllTaken(es) && n <= |es| && k in Replay(Empty(0), es).execs
    ensures var x, since := Replay(Empty(0), es).execs[k], Project(es[n..], k);
            FoldAll(x, since) == x <==> SafeSince(x, since)
  {
    var x := Replay(Empty(0), es).execs[k];
    ReplayIsPointwise(0, es);
    LifeFolds(es, k);
    var life := LifeOf(es, k).value;
    var m := SinceInLife(x, es, n, k);
    SuffixIsHarmlessIff(life.founder, life.rest, m);
  }

  /**
   Folding the events of a log from some point on again, over the store that all of it built, leaves
   every execution as it was exactly when none that is running or retrying was retried since then.
   */
  lemma {:induction false} LagIsHarmlessIff(es: seq<Event>, n: nat)
    requires AllTaken(es) && n <= |es|
    ensures var s := Replay(Empty(0), es);
            Replay(s, es[n..]).execs == s.execs
            <==> forall k :: k in s.execs ==> SafeSince(s.execs[k], Project(es[n..], k))
  {
    var s, since := Replay(Empty(0), es), es[n..];
    ReplayIsPointwise(0, es);
    forall i | 0 <= i < |since| && Founds(since[i])
      ensures since[i].key in s.execs
    {
      FoundersAreStored(es, n + i);
    }
    ReplayOver(s, since, "");
    forall k | k in s.execs
      ensures Replay(s, since).execs[k] == s.execs[k] <==> SafeSince(s.execs[k], Project(since, k))
    {
      ReplayOver(s, since, k);
      LagPerKey(es, n, k);
    }
  }

  /** What a store without retention makes of such events depends on its executions alone. */
  lemma {:induction false} RefoldsAlike(a: Store.State, b: Store.State, es: seq<Event>)
    requires a.execs == b.execs && a.retain <= 0 && b.retain <= 0
    requires forall i :: 0 <= i < |es| && Founds(es[i]) ==> es[i].key in a.execs
    ensures Replay(a, es).execs == Replay(b, es).execs
  {
    ReplayOver(a, es, "");
    ReplayOver(b, es, "");
    forall k | k in a.execs
      ensures Replay(a, es).execs[k] == Replay(b, es).execs[k]
    {
      ReplayOver(a, es, k);
      ReplayOver(b, es, k);
    }
  }

  /** So for a poller that is n events into the log, folding into the live store, after every run with retention off. */
  lemma {:induction false} LagAfterARun(cfg: Config, calls: seq<Call>, n: nat)
    requires cfg.Valid() && PossibleRun(Fresh(cfg, 0), calls) && n <= |After(Fresh(cfg, 0), calls).log|
    ensures var c := After(Fresh(cfg, 0), calls);
            Replay(c.store, c.log[n..]).execs == c.store.execs
            <==> forall k :: k in c.store.execs ==> SafeSince(c.store.execs[k], Project(c.log[n..], k))
  {
    var c := After(Fresh(cfg, 0), calls);
    var s := Replay(Empty(0), c.log);
    RunOrders(cfg, calls);
    LiveEqualsReplay(cfg, 0, calls);
    LagIsHarmlessIff(c.log, n);
    ReplayIsPointwise(0, c.log);
    forall i | 0 <= i < |c.log[n..]| && Founds(c.log[n..][i])
      ensures c.log[n..][i].key in c.store.execs
    {
      FoundersAreStored(c.log, n + i);
    }
    RefoldsAlike(c.store, s, c.log[n..]);
  }
}
