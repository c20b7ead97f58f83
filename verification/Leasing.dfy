/**
 What a lease is (internal/workflow/coordinator.go, LeaseBatch and grant): what the worker is told,
 what the store then holds, and that both follow from what was submitted.
 */
module Leasing {
  import opened Fold
  import opened Store
  import opened Coordinator
  import opened Scheduling
  import opened Sweeping

  /** The execution once it is leased. */
  function LeasedTo(x: Exec, worker: string, at: Time): Exec {
    x.(status := Running, attempt := x.attempt + 1, worker := worker, leaseDeadline := at + x.leaseTtl, updatedAt := at,
       transitions := x.transitions + [Transition(WasLeased, Running, x.attempt + 1, worker, "", at)])
  }

  /** The lease is on a pending execution: its next attempt, its input and type, until its time is over. */
  ghost predicate Gives(s: Store.State, lease: Lease, at: Time) {
    && lease.key in s.execs && s.execs[lease.key].status == Pending
    && var x := s.execs[lease.key];
       lease == Lease(x.key, x.taskType, x.input, x.attempt + 1, at + x.leaseTtl)
  }

  lemma {:induction false} GrantOutcome(c: Coord, t: string, worker: string, turn: Turn) returns (one: GrantStep)
    requires Settled(c)
    ensures one == GrantOne(c, t, worker, turn) && Settled(one.state)
    ensures if one.Leased1? then
              && turn.ok && Gives(c.store, one.lease, turn.at)
              && one.state.store.execs
                 == c.store.execs[one.lease.key := LeasedTo(c.store.execs[one.lease.key], worker, turn.at)]
            else one.state.store.execs == c.store.execs && one.state.log == c.log
  {
    one := GrantOneSettles(c, t, worker, turn);
    if Reserve(c.store, t).1.Some? && turn.ok {
      GrantedLease(c, t, worker, turn);
    } else {
      FailedGrantSettles(c, t, worker, turn);
    }
  }

  lemma {:induction false} GrantedLease(c: Coord, t: string, worker: string, turn: Turn)
    requires Indexed(c.store) && Quiet(c.store) && Reserve(c.store, t).1.Some? && turn.ok
    ensures var one := GrantOne(c, t, worker, turn);
            && one.Leased1? && Gives(c.store, one.lease, turn.at)
            && one.state.store.execs
               == c.store.execs[one.lease.key := LeasedTo(c.store.execs[one.lease.key], worker, turn.at)]
  {
    var k := Reserve(c.store, t).1.value;
    GrantShape(c, t, worker, turn);
    GrantExecs(c.store, t, worker, turn.at);
    StepLeases(c.store.execs[k], worker, turn.at);
  }

  lemma {:induction false} StepLeases(x: Exec, worker: string, at: Time)
    requires x.status == Pending && !x.reserved
    ensures Step(x, LeaseEvent(x, worker, at)) == LeasedTo(x, worker, at)
  {
  }

  // ---------------------------------------------------------------- a batch

  ghost predicate Among(leases: seq<Lease>, k: Key) {
    exists i :: 0 <= i < |leases| && leases[i].key == k
  }

  /** What a batch does: each lease by its own publish, each execution once, and nothing to the others. */
  ghost predicate Batch(s: Store.State, f: Store.State, leases: seq<Lease>, worker: string, turns: seq<Turn>) {
    && f.execs.Keys == s.execs.Keys
    && (forall i :: 0 <= i < |leases| ==>
          && TurnAt(turns, i).ok && Gives(s, leases[i], TurnAt(turns, i).at)
          && f.execs[leases[i].key] == LeasedTo(s.execs[leases[i].key], worker, TurnAt(turns, i).at))
    && (forall i, j :: 0 <= i < j < |leases| ==> leases[i].key != leases[j].key)
    && (forall k :: k in s.execs && !Among(leases, k) ==> f.execs[k] == s.execs[k])
  }

  lemma {:induction false} BatchGrows(s: Store.State, m: Store.State, f: Store.State, lease: Lease, rest: seq<Lease>,
                                      worker: string, turns: seq<Turn>)
    requires Next(turns).ok && Gives(s, lease, Next(turns).at)
    requires m.execs == s.execs[lease.key := LeasedTo(s.execs[lease.key], worker, Next(turns).at)]
    requires Batch(m, f, rest, worker, Later(turns))
    ensures Batch(s, f, [lease] + rest, worker, turns)
  {
    var all := [lease] + rest;
    forall i | 0 <= i < |rest|
      ensures rest[i].key != lease.key && s.execs[rest[i].key] == m.execs[rest[i].key]
    {
      assert Gives(m, rest[i], TurnAt(Later(turns), i).at);
    }
    forall i | 0 <= i < |all|
      ensures TurnAt(turns, i).ok && Gives(s, all[i], TurnAt(turns, i).at)
      ensures f.execs[all[i].key] == LeasedTo(s.execs[all[i].key], worker, TurnAt(turns, i).at)
    {
      if i > 0 {
        assert all[i] == rest[i - 1] && TurnAt(Later(turns), i - 1) == TurnAt(turns, i);
        assert Gives(m, rest[i - 1], TurnAt(Later(turns), i - 1).at);
      } else {
        assert !Among(rest, lease.key);
      }
    }
    forall k | k in s.execs && !Among(all, k)
      ensures f.execs[k] == s.execs[k]
    {
      AmongCons(lease, rest, k);
    }
  }

  lemma {:induction false} AmongCons(lease: Lease, rest: seq<Lease>, k: Key)
    ensures Among([lease] + rest, k) <==> lease.key == k || Among(rest, k)
  {
    var all := [lease] + rest;
    assert all[0] == lease && forall i :: 0 <= i < |rest| ==> all[i + 1] == rest[i];
  }

  lemma {:induction false} BatchOutcome(c: Coord, t: string, worker: string, left: nat, turns: seq<Turn>)
    returns (g: Granted)
    requires Settled(c)
    ensures g == Grant(c, t, worker, left, turns) && Batch(c.store, g.state.store, g.leases, worker, turns)
    decreases left
  {
    g := Granted(c, []);
    if left != 0 {
      var less: nat := left - 1;
      var one := GrantOutcome(c, t, worker, Next(turns));
      GrantUnfolds(c, t, worker, left, less, turns, one);
      g := Granted(one.state, []);
      if one.Leased1? {
        var rest := BatchOutcome(one.state, t, worker, less, Later(turns));
        g := Granted(rest.state, [one.lease] + rest.leases);
        BatchGrows(c.store, one.state.store, rest.state.store, one.lease, rest.leases, worker, turns);
      }
    }
  }

  /** A lease call hands out pending executions, each once, under its own publish, and touches no other. */
  lemma {:induction false} LeaseOutcome(c: Coord, t: string, worker: string, max: int, turns: seq<Turn>)
    requires Settled(c)
    ensures var g := LeaseBatch(c, t, worker, max, turns);
            Batch(c.store, g.state.store, g.leases, worker, turns)
  {
    var g := BatchOutcome(c, t, worker, if max <= 0 then 1 else max, turns);
  }

  // ---------------------------------------------------------------- terms as submitted

  /** The execution has the type, input, limit and lease time of this submit. */
  predicate OnTerms(x: Exec, e: Event) {
    && e.body.Submitted? && x.key == e.key && x.taskType == e.body.taskType && x.input == e.body.input
    && x.maxAttempts == e.body.maxAttempts && x.leaseTtl == e.body.ttlMs * NANOS_PER_MS
  }

  ghost predicate Termed(s: Store.State, es: seq<Event>) {
    forall k :: k in s.execs ==> exists i :: 0 <= i < |es| && OnTerms(s.execs[k], es[i])
  }

  lemma {:induction false} StepKeepsTerms(x: Exec, e: Event, submit: Event)
    requires OnTerms(x, submit)
    ensures OnTerms(Step(x, e), submit)
  {
  }

  /** Every execution keeps the terms of the submit that founded it, whatever is folded. */
  lemma {:induction false} ReplayKeepsTerms(retain: int, es: seq<Event>)
    ensures Termed(Replay(Store.Empty(retain), es), es)
  {
    if es != [] {
      var init, e := es[..|es| - 1], es[|es| - 1];
      ReplayKeepsTerms(retain, init);
      var s := Replay(Store.Empty(retain), init);
      forall k | k in Apply(s, e).execs
        ensures exists i :: 0 <= i < |es| && OnTerms(Apply(s, e).execs[k], es[i])
      {
        ApplyTouchesOneKey(s, e, k);
        if k == e.key && Changes(s, e) && e.body.Submitted? {
          assert OnTerms(Apply(s, e).execs[k], es[|es| - 1]);
        } else {
          var i :| 0 <= i < |init| && OnTerms(s.execs[k], init[i]);
          StepKeepsTerms(s.execs[k], e, init[i]);
          assert es[i] == init[i];
        }
      }
    }
  }

  /**
   After every run, a worker that is given a lease gets the input and type of a submit on the log,
   and has it for the lease time of that submit from the time of the grant.
   */
  lemma {:induction false} LeaseIsAsSubmitted(cfg: Config, retain: int, calls: seq<Call>, t: string, worker: string,
                                              max: int, turns: seq<Turn>, i: nat)
    returns (j: nat)
    requires cfg.Valid() && PossibleRun(Fresh(cfg, retain), calls)
    requires i < |LeaseBatch(After(Fresh(cfg, retain), calls), t, worker, max, turns).leases|
    ensures var c := After(Fresh(cfg, retain), calls);
            var lease := LeaseBatch(c, t, worker, max, turns).leases[i];
            && j < |c.log| && c.log[j].body.Submitted? && c.log[j].key == lease.key
            && lease.taskType == c.log[j].body.taskType && lease.input == c.log[j].body.input
            && lease.deadline == TurnAt(turns, i).at + c.log[j].body.ttlMs * NANOS_PER_MS
  {
    var c := After(Fresh(cfg, retain), calls);
    RunSettles(cfg, retain, calls);
    LiveEqualsReplay(cfg, retain, calls);
    ReplayKeepsTerms(retain, c.log);
    LeaseOutcome(c, t, worker, max, turns);
    var lease := LeaseBatch(c, t, worker, max, turns).leases[i];
    assert Gives(c.store, lease, TurnAt(turns, i).at);
    j :| 0 <= j < |c.log| && OnTerms(c.store.execs[lease.key], c.log[j]);
  }
}
