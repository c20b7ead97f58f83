/**
 The coordinator as an object over its store (internal/workflow/coordinator.go). Each method is
 proved to do what the function of module Coordinator does, and so to keep its invariant. As there,
 a publish takes one `Turn`, and a lease call does not wait.
 */
module CoordinatorObjects {
  import opened Fold
  import opened Store
  import opened StoreObjects
  import opened Coordinator
  import opened Options

  datatype CallError = NoError | NotFound | PublishFailed

  class Process {
    const cfg: Config
    const store: StoreTable
    var log: seq<Event>

    ghost function Value(): Coord
      reads this, store, store.execs
    {
      Coord(cfg, store.Value(), log)
    }

    ghost predicate Valid()
      reads this, store, store.execs, store.execs.objects
    {
      store.Valid() && Settled(Value())
    }

    constructor (cfg: Config, retain: int)
      requires cfg.Valid()
      ensures Valid() && Value() == Fresh(cfg, retain) && fresh(store)
    {
      this.cfg := cfg;
      store := new StoreTable(retain);
      log := [];
      new;
      RunSettles(cfg, retain, []);
    }

    /** append: publish, and fold what the log took. */
    method Publish(e: Event, ok: bool)
      requires store.Valid()
      modifies this`log, store, store.execs, store.execs.objects
      ensures store.Valid() && (forall x :: x in store.execs.objects && x !in old(store.execs.objects) ==> fresh(x))
      ensures Value() == Coordinator.Append(old(Value()), e, ok)
      ensures !ok ==> store.execs.at == old(store.execs.at)
    {
      if ok {
        log := log + [e];
        var _ := store.Fold(e);
      }
    }

    method SubmitSpec(spec: Spec, turn: Turn) returns (alreadyExists: bool, published: bool)
      requires store.Valid()
      modifies this`log, store, store.execs, store.execs.objects
      ensures store.Valid() && (forall x :: x in store.execs.objects && x !in old(store.execs.objects) ==> fresh(x))
      ensures Value() == Submit(old(Value()), spec, turn)
      ensures alreadyExists <==> spec.key in old(Value()).store.execs
      ensures published == (!alreadyExists && turn.ok)
    {
      if spec.key in store.execs.at {
        return true, false;
      }
      var maxAttempts := spec.maxAttempts;
      if maxAttempts <= 0 {
        maxAttempts := cfg.maxAttempts;
      }
      var ttl := spec.leaseTtl;
      if ttl <= 0 {
        ttl := cfg.leaseTtl;
      }
      var body := Submitted(spec.taskType, spec.input, maxAttempts, ttl / NANOS_PER_MS);
      Publish(Event(spec.key, COORDINATOR, 0, turn.at, body), turn.ok);
      return false, turn.ok;
    }

    method Heartbeat(k: Key, worker: string, attempt: int, turn: Turn)
      returns (valid: bool, deadline: Time, err: CallError)
      requires store.Valid()
      modifies this`log, store, store.execs, store.execs.objects
      ensures store.Valid() && (forall x :: x in store.execs.objects && x !in old(store.execs.objects) ==> fresh(x))
      ensures Value() == Beat(old(Value()), k, worker, attempt, turn)
      ensures valid == (Holds(old(Value()).store, k, worker, attempt) && turn.ok)
      ensures deadline == if valid && k in Value().store.execs then Value().store.execs[k].leaseDeadline else 0
      ensures err.NotFound? <==> k !in old(Value()).store.execs
      ensures err.PublishFailed? <==> Holds(old(Value()).store, k, worker, attempt) && !turn.ok
    {
      if k !in store.execs.at {
        return false, 0, NotFound;
      }
      var x := store.execs.at[k];
      if x.status != Running || x.attempt != attempt || x.worker != worker {
        return false, 0, NoError;
      }
      Publish(Event(k, worker, attempt, turn.at, Fold.Heartbeat(worker)), turn.ok);
      if !turn.ok {
        return false, 0, PublishFailed;
      }
      deadline := if k in store.execs.at then store.execs.at[k].leaseDeadline else 0;
      return true, deadline, NoError;
    }

    method Complete(k: Key, worker: string, attempt: int, result: string, turn: Turn)
      returns (accepted: bool, duplicate: bool, err: CallError)
      requires store.Valid()
      modifies this`log, store, store.execs, store.execs.objects
      ensures store.Valid() && (forall x :: x in store.execs.objects && x !in old(store.execs.objects) ==> fresh(x))
      ensures Value() == Finish(old(Value()), k, worker, attempt, result, turn)
      ensures accepted == (MayComplete(old(Value()).store, k, attempt) && turn.ok)
      ensures duplicate <==> k in old(Value()).store.execs && old(Value()).store.execs[k].status == Completed
      ensures err == if MayComplete(old(Value()).store, k, attempt) && !turn.ok then PublishFailed else NoError
    {
      var ok, dup := store.Begin(k, attempt);
      if !ok {
        return false, dup, NoError;
      }
      if turn.ok {
        Publish(CompleteEvent(k, worker, attempt, result, turn.at), true);
        return true, false, NoError;
      }
      store.Abort(k);
      return false, false, PublishFailed;
    }

    method Fail(k: Key, worker: string, attempt: int, error: string, retryable: bool, turn: Turn, turn2: Turn)
      returns (accepted: bool, willRetry: bool, err: CallError)
      requires store.Valid()
      modifies this`log, store, store.execs, store.execs.objects
      ensures store.Valid() && (forall x :: x in store.execs.objects && x !in old(store.execs.objects) ==> fresh(x))
      ensures Value() == GiveUp(old(Value()), k, worker, attempt, error, retryable, turn, turn2)
      ensures accepted == (Holds(old(Value()).store, k, worker, attempt) && turn.ok)
      ensures willRetry == (accepted && retryable && attempt < old(Value()).store.execs[k].maxAttempts && turn2.ok)
      ensures err.NotFound? <==> k !in old(Value()).store.execs
      ensures err.PublishFailed? <==> Holds(old(Value()).store, k, worker, attempt) && !(turn.ok && turn2.ok)
    {
      if k !in store.execs.at {
        return false, false, NotFound;
      }
      var x := store.execs.at[k].Value();
      if Terminal(x) || x.status != Running || x.attempt != attempt || x.worker != worker {
        return false, false, NoError;
      }
      Publish(Event(k, worker, attempt, turn.at, Fold.Fail(worker, error, retryable)), turn.ok);
      if !turn.ok {
        return false, false, PublishFailed;
      }
      if retryable && attempt < x.maxAttempts {
        Publish(ReasonEvent(x, true, ATTEMPT_FAILED, turn2.at), turn2.ok);
        return true, turn2.ok, if turn2.ok then NoError else PublishFailed;
      }
      var reason := ATTEMPTS_EXHAUSTED;
      if !retryable {
        reason := NOT_RETRYABLE;
      }
      Publish(ReasonEvent(x, false, reason, turn2.at), turn2.ok);
      return true, false, if turn2.ok then NoError else PublishFailed;
    }

    // -------------------------------------------------------------- leasing

    /** grant: the lease goes on the log before the worker sees it. */
    method GrantReserved(x: Execution, worker: string, turn: Turn) returns (lease: Option<Lease>)
      requires store.Valid() && store.Stores(x)
      modifies this`log, store, store.execs, store.execs.objects
      ensures store.Valid() && (forall x :: x in store.execs.objects && x !in old(store.execs.objects) ==> fresh(x))
      ensures Value() == Coordinator.Append(old(Value()), LeaseEvent(old(x.Value()), worker, turn.at), turn.ok)
      ensures lease.Some? == turn.ok
      ensures !turn.ok ==> store.execs.at == old(store.execs.at)
      ensures lease.Some? ==> lease.value == LeaseGiven(old(x.Value()), Value().store)
    {
      var was := x.Value();
      Publish(LeaseEvent(was, worker, turn.at), turn.ok);
      if !turn.ok {
        return None;
      }
      var deadline := if x.key in store.execs.at then store.execs.at[x.key].leaseDeadline else 0;
      return Some(Lease(x.key, was.taskType, was.input, was.attempt + 1, deadline));
    }

    /** One round of the loop below. */
    method LeaseOne(taskType: string, worker: string, turn: Turn) returns (lease: Option<Lease>, refused: bool)
      requires store.Valid()
      modifies this`log, store, store.execs, store.execs.objects
      ensures store.Valid() && (forall x :: x in store.execs.objects && x !in old(store.execs.objects) ==> fresh(x))
      ensures var one := GrantOne(old(Value()), taskType, worker, turn);
              Value() == one.state && lease == (if one.Leased1? then Some(one.lease) else None)
              && refused == one.Refused?
    {
      ghost var c := Value();
      var x := store.ReserveNext(taskType);
      if x.None? {
        return None, false;
      }
      ghost var reserved := Value();
      assert store.execs.objects == old(store.execs.objects);
      lease := GrantOrPutBack(x.value, worker, turn);
      GrantCases(c, reserved, taskType, worker, turn, x.value.key);
      refused := lease.None?;
    }

    method GrantOrPutBack(x: Execution, worker: string, turn: Turn) returns (lease: Option<Lease>)
      requires store.Valid() && store.Stores(x)
      modifies this`log, store, store.execs, store.execs.objects
      ensures store.Valid() && (forall x :: x in store.execs.objects && x !in old(store.execs.objects) ==> fresh(x))
      ensures turn.ok ==>
                var e := LeaseEvent(old(Value()).store.execs[x.key], worker, turn.at);
                Value() == Coordinator.Append(old(Value()), e, true)
      ensures turn.ok ==> lease == Some(LeaseGiven(old(Value()).store.execs[x.key], Value().store))
      ensures !turn.ok ==> lease.None? && Value() == old(Value()).(store := Unreserve(old(Value()).store, x.key))
    {
      assert x.Value() == Value().store.execs[x.key];
      lease := GrantReserved(x, worker, turn);
      if lease.None? {
        store.Release(x);
      }
    }

    /** The error of a failed publish is returned when nothing was granted before it. */
    method LeaseUpTo(taskType: string, worker: string, max: int, turns: seq<Turn>)
      returns (out: seq<Lease>, err: CallError)
      requires store.Valid()
      modifies this`log, store, store.execs, store.execs.objects
      ensures store.Valid() && (forall x :: x in store.execs.objects && x !in old(store.execs.objects) ==> fresh(x))
      ensures Granted(Value(), out) == LeaseBatch(old(Value()), taskType, worker, max, turns)
      ensures err == if GrantOne(old(Value()), taskType, worker, Next(turns)).Refused? then PublishFailed else NoError
    {
      var left: nat := if max <= 0 then 1 else max;
      var rest := turns;
      out, err := [], NoError;
      ghost var c := Value();
      ghost var goal := LeaseBatch(c, taskType, worker, max, turns);
      while left > 0
        invariant store.Valid() && (forall x :: x in store.execs.objects && x !in old(store.execs.objects) ==> fresh(x))
        invariant Continued(out, Grant(Value(), taskType, worker, left, rest)) == goal && err == NoError
        invariant out == [] ==> Value() == c && rest == turns && left > 0
        invariant out != [] ==> GrantOne(c, taskType, worker, Next(turns)).Leased1?
      {
        var less: nat, later := left - 1, Later(rest);
        ContinuedNext(Value(), taskType, worker, left, less, rest, later, out);
        var lease, refused := LeaseOne(taskType, worker, Next(rest));
        if lease.None? {
          err := if refused && out == [] then PublishFailed else NoError;
          return;
        }
        out := out + [lease.value];
        left, rest := less, later;
      }
      ContinuedEnd(Value(), taskType, worker, rest, out);
    }

    // -------------------------------------------------------------- expiry

    method SweepExpired(now: Time, turns: seq<Turn>) returns (count: nat, ghost order: seq<Key>)
      requires store.Valid() && store.running <= store.execs.values.Keys
      modifies this`log, store, store.execs, store.execs.objects
      ensures store.Valid() && (forall x :: x in store.execs.objects && x !in old(store.execs.objects) ==> fresh(x))
      ensures SweepOrder(old(Value()).store, now, order) && forall k :: k in order ==> k in old(Value()).store.execs
      ensures count == |order|
      ensures Value() == Reclaim(old(Value()), Snapshots(old(Value()).store, order), turns)
    {
      ghost var c := Value();
      var expired := store.ExpiredLeases(now);
      assert store.running == old(store.running);
      assert Value() == c;
      count, order := |expired|, InOrder(expired);
      OrderOf(expired, c.store, now);
      ReclaimAll(expired, turns);
    }

    method ReclaimAll(expired: seq<Exec>, turns: seq<Turn>)
      requires store.Valid()
      modifies this`log, store, store.execs, store.execs.objects
      ensures store.Valid() && (forall x :: x in store.execs.objects && x !in old(store.execs.objects) ==> fresh(x))
      ensures Value() == Reclaim(old(Value()), expired, turns)
    {
      var rest, todo := turns, expired;
      ghost var goal := Reclaim(Value(), expired, turns);
      while |todo| > 0
        invariant store.Valid() && (forall x :: x in store.execs.objects && x !in old(store.execs.objects) ==> fresh(x))
        invariant Reclaim(Value(), todo, rest) == goal
      {
        var x := todo[0];
        if x.attempt < x.maxAttempts {
          Publish(ReasonEvent(x, true, LEASE_EXPIRED, Next(rest).at), Next(rest).ok);
        } else {
          Publish(ReasonEvent(x, false, ATTEMPTS_EXHAUSTED, Next(rest).at), Next(rest).ok);
        }
        todo, rest := todo[1..], Later(rest);
      }
    }
  }

  /** Any call, with the invariant of the whole process. The sweep's order is the store's choice. */
  method Serve(p: Process, request: Call) returns (ghost made: Call)
    requires p.Valid()
    modifies p`log, p.store, p.store.execs, p.store.execs.objects
    ensures p.Valid() && (forall x :: x in p.store.execs.objects && x !in old(p.store.execs.objects) ==> fresh(x))
    ensures if request.CSweep? then made.CSweep? && made == request.(order := made.order) else made == request
    ensures Possible(old(p.Value()), made) && p.Value() == Make(old(p.Value()), made)
  {
    ghost var c := p.Value();
    made := Dispatch(p, request);
    MakeSettles(c, made);
  }

  method Dispatch(p: Process, request: Call) returns (ghost made: Call)
    requires p.store.Valid() && p.store.running <= p.store.execs.values.Keys
    modifies p`log, p.store, p.store.execs, p.store.execs.objects
    ensures p.store.Valid()
    ensures forall x :: x in p.store.execs.objects && x !in old(p.store.execs.objects) ==> fresh(x)
    ensures if request.CSweep? then made.CSweep? && made == request.(order := made.order) else made == request
    ensures Possible(old(p.Value()), made) && p.Value() == Make(old(p.Value()), made)
  {
    made := request;
    match request {
      case CSubmit(spec, turn) => var _, _ := p.SubmitSpec(spec, turn);
      case CLease(taskType, worker, max, turns) => var _, _ := p.LeaseUpTo(taskType, worker, max, turns);
      case CBeat(k, worker, attempt, turn) => var _, _, _ := p.Heartbeat(k, worker, attempt, turn);
      case CFinish(k, worker, attempt, result, turn) => var _, _, _ := p.Complete(k, worker, attempt, result, turn);
      case CGiveUp(k, worker, attempt, error, retryable, turn, turn2) =>
        var _, _, _ := p.Fail(k, worker, attempt, error, retryable, turn, turn2);
      case CSweep(now, _, turns) =>
        var _, order := p.SweepExpired(now, turns);
        made := CSweep(now, order, turns);
    }
  }

  /** What the worker is told: the execution as it was reserved, and the deadline the store now holds. */
  ghost function LeaseGiven(x: Exec, s: Store.State): Lease {
    Lease(x.key, x.taskType, x.input, x.attempt + 1, if x.key in s.execs then s.execs[x.key].leaseDeadline else 0)
  }

  lemma {:induction false} GrantCases(c: Coord, reserved: Coord, taskType: string, worker: string, turn: Turn, k: Key)
    requires Reserve(c.store, taskType) == (reserved.store, Some(k)) && reserved == c.(store := reserved.store)
             && k in reserved.store.execs
    requires reserved.store.execs[k].key == k
    ensures !turn.ok ==>
              GrantOne(c, taskType, worker, turn) == Refused(reserved.(store := Unreserve(reserved.store, k)))
    ensures turn.ok ==>
      var x := reserved.store.execs[k];
      var granted := Coordinator.Append(reserved, LeaseEvent(x, worker, turn.at), true);
      GrantOne(c, taskType, worker, turn) == Leased1(granted, LeaseGiven(x, granted.store))
  {
  }

  /** A batch that already holds some leases. */
  ghost function Continued(out: seq<Lease>, g: Granted): Granted {
    Granted(g.state, out + g.leases)
  }

  lemma {:induction false} ContinuedEnd(c: Coord, taskType: string, worker: string, turns: seq<Turn>, out: seq<Lease>)
    ensures Continued(out, Grant(c, taskType, worker, 0, turns)) == Granted(c, out)
  {
    assert out + [] == out;
  }

  lemma {:induction false} ContinuedNext(c: Coord, taskType: string, worker: string, left: nat, less: nat,
                                         turns: seq<Turn>, later: seq<Turn>, out: seq<Lease>)
    requires left == less + 1 && later == Later(turns)
    ensures var one := GrantOne(c, taskType, worker, Next(turns));
            Continued(out, Grant(c, taskType, worker, left, turns)) == (
              if one.Leased1? then Continued(out + [one.lease], Grant(one.state, taskType, worker, less, later))
              else Granted(one.state, out))
  {
    var one := GrantOne(c, taskType, worker, Next(turns));
    if one.Leased1? {
      var rest := Grant(one.state, taskType, worker, less, later);
      assert out + ([one.lease] + rest.leases) == out + [one.lease] + rest.leases;
    } else {
      assert out + [] == out;
    }
  }

  ghost function InOrder(xs: seq<Exec>): seq<Key> {
    seq(|xs|, i requires 0 <= i < |xs| => xs[i].key)
  }

  /** The copies that the store hands out are its own executions, each once. */
  lemma {:induction false} OrderOf(xs: seq<Exec>, s: Store.State, now: Time)
    requires Copies(xs, s.execs) && KeysOf(xs) == Expired(s, now) && |xs| == |KeysOf(xs)|
    ensures SweepOrder(s, now, InOrder(xs)) && (forall k :: k in InOrder(xs) ==> k in s.execs)
    ensures Snapshots(s, InOrder(xs)) == xs
  {
    KeysOnce(xs);
  }

  lemma {:induction false} KeysOnce(xs: seq<Exec>)
    ensures |KeysOf(xs)| <= |xs| && Members(InOrder(xs)) == KeysOf(xs)
    ensures |xs| == |KeysOf(xs)| ==> Distinct(InOrder(xs))
  {
    if xs != [] {
      var n := |xs| - 1;
      KeysOnce(xs[..n]);
      assert InOrder(xs) == InOrder(xs[..n]) + [xs[n].key];
    }
  }
}
