/**
 The order in which the sequential coordinator hands out work (internal/workflow/store.go and
 internal/workflow/coordinator.go): the lazily compacted queues behave as one plain FIFO per task
 type, in the order executions became pending.
 */
module Scheduling {
  import opened Fold
  import opened Store
  import opened Coordinator
  import opened Redelivery
  import opened Options

  /** An event that makes k pending when it is taken. */
  predicate Enqueues(e: Event, k: Key) {
    e.key == k && (Founds(e) || e.body.Retry?)
  }

  /** Where in the log k last became pending, or -1. */
  function Since(log: seq<Event>, k: Key): int {
    if log == [] then -1
    else if Enqueues(log[|log| - 1], k) then |log| - 1
    else Since(log[..|log| - 1], k)
  }

  /** Where in the log k was submitted, or -1. */
  function Born(log: seq<Event>, k: Key): int {
    if log == [] then -1
    else
      var before := Born(log[..|log| - 1], k);
      if before >= 0 then before
      else if log[|log| - 1].key == k && Founds(log[|log| - 1]) then |log| - 1 else -1
  }

  lemma {:induction false} SinceStep(log: seq<Event>, e: Event, k: Key)
    ensures Since(log + [e], k) == (if Enqueues(e, k) then |log| else Since(log, k))
    ensures Since(log, k) < |log|
  {
    assert (log + [e])[..|log|] == log;
    SinceBelow(log, k);
  }

  lemma {:induction false} SinceBelow(log: seq<Event>, k: Key)
    ensures Since(log, k) < |log|
  {
    if log != [] {
      SinceBelow(log[..|log| - 1], k);
    }
  }

  ghost predicate SortedBySince(log: seq<Event>, q: seq<Key>) {
    forall i, j :: 0 <= i < j < |q| ==> Since(log, q[i]) < Since(log, q[j])
  }

  /** Each queue is sorted by when its entries became pending, and stale entries are terminal ones only. */
  ghost predicate Fifo(s: Store.State, log: seq<Event>) {
    && (forall t :: SortedBySince(log, Queue(s, t)))
    && (forall k :: k in s.queued && k in s.execs ==> s.execs[k].status == Pending || Terminal(s.execs[k]))
  }

  ghost predicate Ordered(c: Coord) {
    Settled(c) && c.store.retain == 0 && Fifo(c.store, c.log) && AllTaken(c.log)
  }

  // ---------------------------------------------------------------- the log of a run is taken whole

  lemma {:induction false} MirroredChanges(l: Store.State, r: Store.State, e: Event)
    requires Mirrors(l, r)
    ensures Changes(l, e) <==> Changes(r, e)
  {
    if e.key in l.execs {
      EraseStep(l.execs[e.key], e);
    }
  }

  lemma {:induction false} TakenStep(s: Store.State, log: seq<Event>, e: Event)
    requires AllTaken(log) && Mirrors(s, Replay(Store.Empty(0), log))
    requires Void(e) || Changes(s, e)
    ensures AllTaken(log + [e])
  {
    assert (log + [e])[..|log|] == log;
    MirroredChanges(s, Replay(Store.Empty(0), log), e);
  }

  // ---------------------------------------------------------------- appends

  lemma {:induction false} PutQueues(s: Store.State, k: Key, y: Exec)
    requires k in s.execs && s.retain <= 0
    ensures var f := Put(s, k, y);
            if y.status == Pending && k !in s.queued && !y.reserved then
              f.queued == s.queued + {k} && f.queues == s.queues[y.taskType := Queue(s, y.taskType) + [k]]
            else f.queued == s.queued && f.queues == s.queues
  {
  }

  /** A queue none of whose keys the new event enqueues keeps its order. */
  lemma {:induction false} SortedUnder(log: seq<Event>, e: Event, q: seq<Key>)
    requires SortedBySince(log, q)
    requires forall i :: 0 <= i < |q| ==> !Enqueues(e, q[i])
    ensures SortedBySince(log + [e], q)
  {
    forall i | 0 <= i < |q|
      ensures Since(log + [e], q[i]) == Since(log, q[i])
    {
      SinceStep(log, e, q[i]);
    }
  }

  /** Appending the key that the new event enqueues keeps the order. */
  lemma {:induction false} SortedSnoc(log: seq<Event>, e: Event, q: seq<Key>, k: Key)
    requires SortedBySince(log, q) && k !in q && Enqueues(e, k)
    ensures SortedBySince(log + [e], q + [k])
  {
    SortedUnder(log, e, q);
    forall i | 0 <= i < |q|
      ensures Since(log + [e], q[i]) < Since(log + [e], k)
    {
      SinceStep(log, e, q[i]);
      SinceStep(log, e, k);
    }
  }

  lemma {:induction false} SubmitKeepsFifo(s: Store.State, log: seq<Event>, e: Event)
    requires Indexed(s) && s.retain <= 0 && Fifo(s, log)
    requires e.body.Submitted? && e.key !in s.execs
    ensures Fifo(Apply(s, e), log + [e])
  {
    var f := Apply(s, e);
    forall t
      ensures SortedBySince(log + [e], Queue(f, t))
    {
      var q := Queue(s, t);
      assert e.key !in q;
      if Founds(e) && t == e.body.taskType {
        SortedSnoc(log, e, q, e.key);
        assert Queue(f, t) == q + [e.key];
      } else {
        SortedUnder(log, e, q);
        assert Queue(f, t) == q;
      }
    }
  }

  lemma {:induction false} EventKeepsFifo(s: Store.State, log: seq<Event>, e: Event)
    requires Indexed(s) && s.retain <= 0 && Fifo(s, log)
    requires Changes(s, e) && !e.body.Submitted? && !e.body.Leased?
    ensures Fifo(Apply(s, e), log + [e])
  {
    forall t
      ensures SortedBySince(log + [e], Queue(Apply(s, e), t))
    {
      EventKeepsQueue(s, log, e, t);
    }
    EventKeepsStale(s, log, e);
  }

  lemma {:induction false} EventKeepsQueue(s: Store.State, log: seq<Event>, e: Event, t: string)
    requires Indexed(s) && s.retain <= 0 && Fifo(s, log)
    requires Changes(s, e) && !e.body.Submitted? && !e.body.Leased?
    ensures SortedBySince(log + [e], Queue(Apply(s, e), t))
  {
    StepFollows(s.execs[e.key], e);
    PutQueues(s, e.key, Step(s.execs[e.key], e));
    EventKeepsQueueSorted(s, log, e, t, Queue(s, t), Queue(Apply(s, e), t));
  }

  lemma {:induction false} EventKeepsStale(s: Store.State, log: seq<Event>, e: Event)
    requires Indexed(s) && s.retain <= 0 && Fifo(s, log)
    requires Changes(s, e) && !e.body.Submitted? && !e.body.Leased?
    ensures var f := Apply(s, e);
            forall k :: k in f.queued && k in f.execs ==> f.execs[k].status == Pending || Terminal(f.execs[k])
  {
    PutQueues(s, e.key, Step(s.execs[e.key], e));
    PutStores(s, e.key, Step(s.execs[e.key], e));
  }

  lemma {:induction false} EventKeepsQueueSorted(s: Store.State, log: seq<Event>, e: Event, t: string, q: seq<Key>,
                                                 after: seq<Key>)
    requires SortedBySince(log, q) && Changes(s, e) && !e.body.Submitted? && !e.body.Leased?
    requires e.body.Retry? ==> e.key !in q
    requires after == if e.body.Retry? && t == s.execs[e.key].taskType then q + [e.key] else q
    ensures SortedBySince(log + [e], after)
  {
    if e.body.Retry? && t == s.execs[e.key].taskType {
      SortedSnoc(log, e, q, e.key);
    } else {
      SortedUnder(log, e, q);
    }
  }

  lemma {:induction false} LawfulKeepsFifo(s: Store.State, log: seq<Event>, e: Event)
    requires Indexed(s) && s.retain <= 0 && Fifo(s, log) && Lawful(s, e)
    ensures Fifo(Apply(s, e), log + [e])
  {
    if e.body.Submitted? {
      SubmitKeepsFifo(s, log, e);
    } else {
      EventKeepsFifo(s, log, e);
    }
  }

  lemma {:induction false} AppendOrders(c: Coord, e: Event, ok: bool) returns (f: Coord)
    requires Ordered(c) && Lawful(c.store, e)
    ensures f == Append(c, e, ok)
    ensures Ordered(f)
  {
    AppendSettles(c, e, ok);
    f := Append(c, e, ok);
    if ok {
      TakenStep(c.store, c.log, e);
      LawfulKeepsFifo(c.store, c.log, e);
    }
  }

  // ---------------------------------------------------------------- grants

  lemma {:induction false} SortedTail(log: seq<Event>, q: seq<Key>, n: nat)
    requires SortedBySince(log, q) && n <= |q|
    ensures SortedBySince(log, q[n..])
  {
  }

  lemma {:induction false} GrantKeepsFifo(s: Store.State, log: seq<Event>, t: string, worker: string, at: Time)
    requires Indexed(s) && Quiet(s) && s.retain <= 0 && Fifo(s, log) && Reserve(s, t).1.Some?
    ensures var e := LeaseEvent(s.execs[Reserve(s, t).1.value], worker, at);
            Fifo(GrantStore(s, t, e), log + [e])
  {
    var n := ReserveShape(s, t);
    var (s1, got) := Reserve(s, t);
    var k, q := got.value, Queue(s, t);
    var e := LeaseEvent(s.execs[k], worker, at);
    GrantExecs(s, t, worker, at);
    var f := GrantStore(s, t, e);
    assert f.queues == s1.queues && f.queued == s1.queued by {
      PutQueues(s1, k, Step(s1.execs[k], e));
    }
    forall u
      ensures SortedBySince(log + [e], Queue(f, u))
    {
      assert Queue(f, u) == Queue(s1, u);
      SortedTail(log, q, n);
      SortedUnder(log, e, Queue(f, u));
    }
    assert k in Members(q[..n]) by {
      assert q[..n][n - 1] == k;
    }
  }

  /** A refused grant leaves exactly the queue from the reserved entry on: it is back at the front. */
  lemma {:induction false} RefusedGoesBackToTheFront(s: Store.State, t: string) returns (n: nat)
    requires Indexed(s) && Quiet(s) && s.retain <= 0 && Reserve(s, t).1.Some?
    ensures n < |Queue(s, t)| && Queue(s, t)[n] == Reserve(s, t).1.value
    ensures var (s1, got) := Reserve(s, t);
            var f := Unreserve(s1, got.value);
            && Queue(f, t) == Queue(s, t)[n..] && (forall u :: u != t ==> Queue(f, u) == Queue(s, u))
            && f.execs == s.execs && f.queued <= s.queued
  {
    n := ReservedEntry(s, t);
    var (s1, got) := Reserve(s, t);
    UnreserveRestores(s, t);
    PutAtFront(s1, t, got.value);
    var q := Queue(s, t);
    assert [q[n]] + q[n + 1..] == q[n..];
    assert q[n] in q;
  }

  /** The reserved entry, and the state that the reservation leaves. */
  lemma {:induction false} ReservedEntry(s: Store.State, t: string) returns (n: nat)
    requires Indexed(s) && s.retain <= 0 && Reserve(s, t).1.Some?
    ensures var (s1, got) := Reserve(s, t);
            && n < |Queue(s, t)| && Queue(s, t)[n] == got.value && Queue(s1, t) == Queue(s, t)[n + 1..]
            && (forall u :: u != t ==> Queue(s1, u) == Queue(s, u))
            && s1.queued <= s.queued && got.value !in s1.queued && got.value in s.queued && got.value in s1.execs
            && s1.execs[got.value].reserved && s1.execs[got.value].status == Pending
               && s1.execs[got.value].taskType == t
  {
    var m := ReserveShape(s, t);
    n := m - 1;
    var q, k := Queue(s, t), Reserve(s, t).1.value;
    assert k in Members(q[..m]) by {
      assert q[..m][n] == k;
    }
    assert k in q;
  }

  lemma {:induction false} PutAtFront(s1: Store.State, t: string, k: Key)
    requires k in s1.execs && s1.execs[k].reserved && s1.execs[k].status == Pending && s1.execs[k].taskType == t
             && k !in s1.queued
    ensures var f := Unreserve(s1, k);
            && Queue(f, t) == [k] + Queue(s1, t) && (forall u :: u != t ==> Queue(f, u) == Queue(s1, u))
            && f.queued == s1.queued + {k}
  {
  }

  /** So the next reservation finds the same execution again. */
  lemma {:induction false} RefusedIsNextAgain(s: Store.State, t: string)
    requires Indexed(s) && Quiet(s) && s.retain <= 0 && Reserve(s, t).1.Some?
    ensures var (s1, got) := Reserve(s, t);
            Reserve(Unreserve(s1, got.value), t).1 == got
  {
    var n := RefusedGoesBackToTheFront(s, t);
    var (s1, got) := Reserve(s, t);
    var f := Unreserve(s1, got.value);
    assert Queue(f, t)[0] == got.value;
    assert Leasable(f.execs, got.value);
  }

  lemma {:induction false} FailedGrantFifo(c: Coord, t: string, worker: string, turn: Turn)
    requires Indexed(c.store) && Quiet(c.store) && c.store.retain <= 0 && Fifo(c.store, c.log)
    requires !(Reserve(c.store, t).1.Some? && turn.ok)
    ensures var f := GrantOne(c, t, worker, turn).state;
            f.log == c.log && Fifo(f.store, f.log)
  {
    var s := c.store;
    var f := GrantOne(c, t, worker, turn).state.store;
    var m := ReserveShape(s, t);
    var n := m;
    if Reserve(s, t).1.Some? {
      n := RefusedGoesBackToTheFront(s, t);
    }
    SortedTail(c.log, Queue(s, t), n);
    assert forall u :: SortedBySince(c.log, Queue(f, u));
  }

  lemma {:induction false} GrantTaken(s: Store.State, log: seq<Event>, t: string, worker: string, at: Time)
    requires Indexed(s) && Quiet(s) && Reserve(s, t).1.Some?
    requires AllTaken(log) && Mirrors(s, Replay(Store.Empty(0), log))
    ensures AllTaken(log + [LeaseEvent(s.execs[Reserve(s, t).1.value], worker, at)])
  {
    GrantExecs(s, t, worker, at);
    TakenStep(s, log, LeaseEvent(s.execs[Reserve(s, t).1.value], worker, at));
  }

  lemma {:induction false} GrantShape(c: Coord, t: string, worker: string, turn: Turn)
    requires Indexed(c.store) && Quiet(c.store) && Reserve(c.store, t).1.Some? && turn.ok
    ensures var e := LeaseEvent(c.store.execs[Reserve(c.store, t).1.value], worker, turn.at);
            GrantOne(c, t, worker, turn).state == c.(store := GrantStore(c.store, t, e), log := c.log + [e])
  {
    GrantExecs(c.store, t, worker, turn.at);
  }

  lemma {:induction false} GrantOneOrders(c: Coord, t: string, worker: string, turn: Turn) returns (one: GrantStep)
    requires Ordered(c)
    ensures one == GrantOne(c, t, worker, turn)
    ensures Ordered(one.state)
  {
    one := GrantOneSettles(c, t, worker, turn);
    if Reserve(c.store, t).1.Some? && turn.ok {
      GrantShape(c, t, worker, turn);
      GrantKeepsFifo(c.store, c.log, t, worker, turn.at);
      GrantTaken(c.store, c.log, t, worker, turn.at);
    } else {
      FailedGrantFifo(c, t, worker, turn);
    }
  }

  lemma {:induction false} BatchOrders(c: Coord, t: string, worker: string, left: nat, turns: seq<Turn>)
    returns (f: Coord)
    requires Ordered(c)
    ensures f == Grant(c, t, worker, left, turns).state
    ensures Ordered(f)
    decreases left
  {
    if left == 0 {
      f := c;
    } else {
      var less: nat := left - 1;
      var one := GrantOneOrders(c, t, worker, Next(turns));
      GrantUnfolds(c, t, worker, left, less, turns, one);
      if one.Leased1? {
        f := BatchOrders(one.state, t, worker, less, Later(turns));
      } else {
        f := one.state;
      }
    }
  }

  // ---------------------------------------------------------------- whole runs

  lemma {:induction false} ReclaimOrders(c: Coord, snaps: seq<Exec>, turns: seq<Turn>) returns (f: Coord)
    requires Ordered(c) && Current(c.store, snaps)
    ensures f == Reclaim(c, snaps, turns)
    ensures Ordered(f)
    decreases |snaps|
  {
    if snaps == [] {
      f := c;
    } else {
      var e := ReclaimEvent(snaps[0], Next(turns).at);
      ReclaimStep(c, snaps, Next(turns));
      var c1 := AppendOrders(c, e, Next(turns).ok);
      f := ReclaimOrders(c1, snaps[1..], Later(turns));
    }
  }

  lemma {:induction false} GiveUpOrders(c: Coord, k: Key, worker: string, attempt: int, error: string, retryable: bool,
                                        turn: Turn, turn2: Turn) returns (f: Coord)
    requires Ordered(c)
    ensures f == GiveUp(c, k, worker, attempt, error, retryable, turn, turn2)
    ensures Ordered(f)
  {
    f := c;
    if Holds(c.store, k, worker, attempt) && turn.ok {
      var x := c.store.execs[k];
      var e := Event(k, worker, attempt, turn.at, Fold.Fail(worker, error, retryable));
      var c1 := AppendOrders(c, e, true);
      var retry := retryable && attempt < x.maxAttempts;
      var reason := if retry then ATTEMPT_FAILED else if retryable then ATTEMPTS_EXHAUSTED else NOT_RETRYABLE;
      ReasonIsLawful(c.store, e, retry, reason, turn2.at);
      f := AppendOrders(c1, ReasonEvent(x, retry, reason, turn2.at), turn2.ok);
    }
  }

  lemma {:induction false} SubmitOrders(c: Coord, spec: Spec, turn: Turn) returns (f: Coord)
    requires Ordered(c)
    ensures f == Submit(c, spec, turn) && Ordered(f)
  {
    f := c;
    if spec.key !in c.store.execs {
      f := AppendOrders(c, SubmitEvent(c.cfg, spec, turn.at), turn.ok);
    }
  }

  lemma {:induction false} BeatOrders(c: Coord, k: Key, worker: string, attempt: int, turn: Turn) returns (f: Coord)
    requires Ordered(c)
    ensures f == Beat(c, k, worker, attempt, turn) && Ordered(f)
  {
    f := c;
    if Holds(c.store, k, worker, attempt) {
      f := AppendOrders(c, Event(k, worker, attempt, turn.at, Heartbeat(worker)), turn.ok);
    }
  }

  lemma {:induction false} FinishOrders(c: Coord, k: Key, worker: string, attempt: int, result: string, turn: Turn)
    returns (f: Coord)
    requires Ordered(c)
    ensures f == Finish(c, k, worker, attempt, result, turn) && Ordered(f)
  {
    f := c;
    if MayComplete(c.store, k, attempt) {
      FinishIsOneAppend(c, k, worker, attempt, result, turn);
      f := AppendOrders(c, CompleteEvent(k, worker, attempt, result, turn.at), turn.ok);
    }
  }

  lemma {:induction false} MakeOrders(c: Coord, call: Call) returns (f: Coord)
    requires Ordered(c) && Possible(c, call)
    ensures f == Make(c, call)
    ensures Ordered(f)
  {
    f := Make(c, call);
    match call
    case CSubmit(spec, turn) =>
      f := SubmitOrders(c, spec, turn);
    case CLease(t, w, max, turns) => f := BatchOrders(c, t, w, if max <= 0 then 1 else max, turns);
    case CBeat(k, w, a, turn) => f := BeatOrders(c, k, w, a, turn);
    case CFinish(k, w, a, r, turn) => f := FinishOrders(c, k, w, a, r, turn);
    case CGiveUp(k, w, a, err, re, t1, t2) => f := GiveUpOrders(c, k, w, a, err, re, t1, t2);
    case CSweep(now, order, turns) =>
      SnapshotsAreCurrent(c.store, now, order);
      f := ReclaimOrders(c, Snapshots(c.store, order), turns);
  }

  /** Every run from an empty store with retention off keeps its queues in order and its log taken whole. */
  lemma {:induction false} RunOrders(cfg: Config, calls: seq<Call>)
    requires cfg.Valid() && PossibleRun(Fresh(cfg, 0), calls)
    ensures Ordered(After(Fresh(cfg, 0), calls))
    ensures After(Fresh(cfg, 0), calls).store.retain == 0
  {
    RunSettles(cfg, 0, calls);
    if calls != [] {
      RunOrders(cfg, calls[..|calls| - 1]);
      var f := MakeOrders(After(Fresh(cfg, 0), calls[..|calls| - 1]), calls[|calls| - 1]);
    }
  }
}
