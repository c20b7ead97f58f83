/**
 What a sweep does to each execution (internal/workflow/coordinator.go, SweepExpired): who is
 reclaimed, what becomes of them, and that nobody else is moved.
 */
module Sweeping {
  import opened Fold
  import opened Store
  import opened Coordinator
  import opened Outcomes

  /** The i-th publish of a call. */
  function TurnAt(turns: seq<Turn>, i: nat): Turn {
    if i < |turns| then turns[i] else Turn(0, false)
  }

  /** An execution whose lease was taken away: tried again while attempts are left, and given up otherwise. */
  function Reclaimed(x: Exec, at: Time): Exec {
    if x.attempt < x.maxAttempts then Requeued(x, LEASE_EXPIRED, at) else Buried(x, ATTEMPTS_EXHAUSTED, at)
  }

  /** Afterwards k is y, unless it is terminal and was forgotten. */
  ghost predicate EndsAs(f: Store.State, k: Key, y: Exec, retain: int) {
    && (k in f.execs ==> f.execs[k] == y)
    && (!Terminal(y) || retain <= 0 ==> k in f.execs)
  }

  // ---------------------------------------------------------------- one publish after the other

  lemma {:induction false} ReclaimIsDecided(x: Exec, at: Time)
    requires x.status == Running
    ensures var e := ReclaimEvent(x, at);
            !e.body.Submitted? && e.key == x.key && Accepts(x, e) && Step(x, e) == Reclaimed(x, at)
  {
  }

  lemma {:induction false} ReclaimsOne(c: Coord, x: Exec, turn: Turn) returns (d: Coord)
    requires Settled(c) && x.key in c.store.execs && c.store.execs[x.key] == x && x.status == Running
    ensures d == Append(c, ReclaimEvent(x, turn.at), turn.ok)
    ensures if turn.ok then Becomes(c.store, d.store, x.key, Reclaimed(x, turn.at)) else d == c
  {
    var e := ReclaimEvent(x, turn.at);
    d := Append(c, e, turn.ok);
    ReclaimIsDecided(x, turn.at);
    if turn.ok {
      ApplyBecomes(c.store, e);
    }
  }

  lemma {:induction false} ReclaimUnfolds(c: Coord, snaps: seq<Exec>, turns: seq<Turn>) returns (d: Coord)
    requires Settled(c) && Current(c.store, snaps) && snaps != []
    ensures d == Append(c, ReclaimEvent(snaps[0], Next(turns).at), Next(turns).ok)
    ensures Settled(d) && Current(d.store, snaps[1..]) && d.store.retain == c.store.retain
    ensures Reclaim(c, snaps, turns) == Reclaim(d, snaps[1..], Later(turns))
  {
    var e := ReclaimEvent(snaps[0], Next(turns).at);
    d := Append(c, e, Next(turns).ok);
    ReclaimStep(c, snaps, Next(turns));
    AppendSettles(c, e, Next(turns).ok);
  }

  /** An execution that is not among the snapshots stays as it is. */
  lemma {:induction false} OthersStay(c: Coord, snaps: seq<Exec>, turns: seq<Turn>, k: Key)
    requires Settled(c) && Current(c.store, snaps) && forall i :: 0 <= i < |snaps| ==> snaps[i].key != k
    ensures var f := Reclaim(c, snaps, turns).store;
            if k in c.store.execs then EndsAs(f, k, c.store.execs[k], c.store.retain) else k !in f.execs
    decreases |snaps|
  {
    if snaps != [] {
      var d := ReclaimUnfolds(c, snaps, turns);
      var d' := ReclaimsOne(c, snaps[0], Next(turns));
      OthersStay(d, snaps[1..], Later(turns), k);
    }
  }

  /** One that is ends as its own publish decides. */
  lemma {:induction false} SnapshotEndsAs(c: Coord, snaps: seq<Exec>, turns: seq<Turn>, i: nat)
    requires Settled(c) && Current(c.store, snaps) && i < |snaps|
    ensures var f, turn := Reclaim(c, snaps, turns).store, TurnAt(turns, i);
            EndsAs(f, snaps[i].key, if turn.ok then Reclaimed(snaps[i], turn.at) else snaps[i], c.store.retain)
    decreases |snaps|
  {
    var d := ReclaimUnfolds(c, snaps, turns);
    if i == 0 {
      var d' := ReclaimsOne(c, snaps[0], Next(turns));
      OthersStay(d, snaps[1..], Later(turns), snaps[0].key);
    } else {
      SnapshotEndsAs(d, snaps[1..], Later(turns), i - 1);
    }
  }

  // ---------------------------------------------------------------- the sweep

  /** The lease of k has run out. */
  ghost predicate RanOut(s: Store.State, k: Key, now: Time) {
    k in s.execs && s.execs[k].status == Running && s.execs[k].leaseDeadline < now
  }

  lemma {:induction false} SweptIffRanOut(c: Coord, now: Time, order: seq<Key>, k: Key)
    requires Settled(c) && SweepOrder(c.store, now, order)
    ensures k in order <==> RanOut(c.store, k, now)
  {
    assert k in order <==> k in Members(order);
  }

  /**
   A sweep reclaims exactly the running executions whose deadline has passed. Each is pending again
   while it has attempts left and failed otherwise, if its publish is taken; every other execution,
   and every one whose publish fails, stays as it was.
   */
  lemma {:induction false} SweepOutcome(c: Coord, now: Time, order: seq<Key>, turns: seq<Turn>, k: Key) returns (i: nat)
    requires Settled(c) && Possible(c, CSweep(now, order, turns))
    ensures var s, f := c.store, Make(c, CSweep(now, order, turns)).store;
            if RanOut(s, k, now) then
              && i < |order| && order[i] == k
              && EndsAs(f, k, if TurnAt(turns, i).ok then Reclaimed(s.execs[k], TurnAt(turns, i).at) else s.execs[k],
                        s.retain)
            else if k in s.execs then EndsAs(f, k, s.execs[k], s.retain)
            else k !in f.execs
  {
    i := 0;
    SweptIffRanOut(c, now, order, k);
    SnapshotsAreCurrent(c.store, now, order);
    var snaps := Snapshots(c.store, order);
    if k in order {
      i :| 0 <= i < |order| && order[i] == k;
      assert snaps[i] == c.store.execs[k];
      SnapshotEndsAs(c, snaps, turns, i);
    } else {
      OthersStay(c, snaps, turns, k);
    }
  }

  /** With retention off and every publish taken: the whole store after a sweep, execution by execution. */
  lemma {:induction false} FullSweep(c: Coord, now: Time, order: seq<Key>, turns: seq<Turn>, k: Key)
    requires Settled(c) && c.store.retain <= 0 && Possible(c, CSweep(now, order, turns)) && k in c.store.execs
    requires |turns| >= |order| && forall i :: 0 <= i < |order| ==> turns[i].ok
    ensures var x, f := c.store.execs[k], Make(c, CSweep(now, order, turns)).store;
            && k in f.execs
            && (!(x.status == Running && x.leaseDeadline < now) ==> f.execs[k] == x)
            && (x.status == Running && x.leaseDeadline < now ==>
                  && f.execs[k].status == (if x.attempt < x.maxAttempts then Pending else Failed)
                  && f.execs[k].attempt == x.attempt)
  {
    var i := SweepOutcome(c, now, order, turns, k);
  }
}
