/**
 The objects that hold the executions and the store in place (internal/workflow/state.go,
 internal/workflow/store.go). Each method is proved to do to the value of its object what the
 function of module Fold or Store does.
 */
module StoreObjects {
  import opened Fold
  import opened Store
  import opened Options

  class Execution {
    const key: Key
    var taskType: string
    var status: Status
    var attempt: int
    var maxAttempts: int
    var leaseTtl: Time
    var worker: string
    var input: string
    var result: string
    var error: string
    var submittedAt: Time
    var updatedAt: Time
    var leaseDeadline: Time
    var transitions: seq<Transition>
    var reserved: bool
    var completing: bool

    function Value(): Exec
      reads this
    {
      Exec(key, taskType, status, attempt, maxAttempts, leaseTtl, worker, input, result, error,
           submittedAt, updatedAt, leaseDeadline, transitions, reserved, completing)
    }

    /** newExecution, for an envelope that founds one. */
    constructor (e: Event)
      requires Founds(e)
      ensures Value() == NewExec(e)
    {
      key, taskType, status, attempt := e.key, e.body.taskType, Pending, 0;
      maxAttempts, leaseTtl := e.body.maxAttempts, e.body.ttlMs * NANOS_PER_MS;
      worker, input, result, error := "", e.body.input, "", "";
      submittedAt, updatedAt, leaseDeadline := e.at, 0, 0;
      transitions, reserved, completing := [], false, false;
      new;
      Note(WasSubmitted, 0, e.agent, e.body.taskType, e.at);
    }

    predicate IsTerminal()
      reads this
    {
      status == Completed || status == Failed
    }

    method SetReserved(flag: bool)
      modifies this`reserved
      ensures Value() == old(Value()).(reserved := flag)
    {
      reserved := flag;
    }

    method SetCompleting(flag: bool)
      modifies this`completing
      ensures Value() == old(Value()).(completing := flag)
    {
      completing := flag;
    }

    method Note(kind: Kind, attempt: int, worker: string, detail: string, at: Time)
      modifies this`updatedAt, this`transitions
      ensures Value() == Record(old(Value()), kind, attempt, worker, detail, at)
    {
      updatedAt := at;
      transitions := transitions + [Transition(kind, status, attempt, worker, detail, at)];
    }

    /** apply: the fold's step, in place, one method per case. */
    method Take(e: Event) returns (changed: bool)
      modifies this
      ensures Value() == Step(old(Value()), e) && changed == Accepts(old(Value()), e)
    {
      match e.body
      case Leased(_) => changed := TakeLeased(e);
      case Heartbeat(_) => changed := TakeHeartbeat(e);
      case Complete(_, _) => changed := TakeComplete(e);
      case Fail(_, _, _) => changed := TakeFail(e);
      case Retry(_) => changed := TakeRetry(e);
      case Dead(_) => changed := TakeDead(e);
      case _ => return false;
    }

    method TakeLeased(e: Event) returns (changed: bool)
      requires e.body.Leased?
      modifies this
      ensures Value() == Step(old(Value()), e) && changed == Accepts(old(Value()), e)
    {
      if IsTerminal() || status != Pending || e.attempt != attempt + 1 {
        return false;
      }
      status, attempt, worker := Running, e.attempt, e.body.worker;
      leaseDeadline := e.at + leaseTtl;
      reserved := false;
      Note(WasLeased, e.attempt, e.body.worker, "", e.at);
      return true;
    }

    method TakeHeartbeat(e: Event) returns (changed: bool)
      requires e.body.Heartbeat?
      modifies this
      ensures Value() == Step(old(Value()), e) && changed == Accepts(old(Value()), e)
    {
      if status != Running || e.attempt != attempt || e.body.worker != worker {
        return false;
      }
      leaseDeadline, updatedAt := e.at + leaseTtl, e.at;
      return true;
    }

    method TakeComplete(e: Event) returns (changed: bool)
      requires e.body.Complete?
      modifies this
      ensures Value() == Step(old(Value()), e) && changed == Accepts(old(Value()), e)
    {
      if IsTerminal() || e.attempt != attempt || e.attempt == 0 {
        return false;
      }
      status, result, worker, completing := Completed, e.body.result, e.body.worker, false;
      Note(WasCompleted, e.attempt, e.body.worker, "", e.at);
      return true;
    }

    method TakeFail(e: Event) returns (changed: bool)
      requires e.body.Fail?
      modifies this
      ensures Value() == Step(old(Value()), e) && changed == Accepts(old(Value()), e)
    {
      if IsTerminal() || status != Running || e.attempt != attempt {
        return false;
      }
      status, error := Retrying, e.body.error;
      Note(WasFailed, e.attempt, e.body.worker, e.body.error, e.at);
      return true;
    }

    method TakeRetry(e: Event) returns (changed: bool)
      requires e.body.Retry?
      modifies this
      ensures Value() == Step(old(Value()), e) && changed == Accepts(old(Value()), e)
    {
      if IsTerminal() || status == Pending {
        return false;
      }
      status, worker, leaseDeadline := Pending, "", 0;
      Note(WasRetried, attempt, "", e.body.reason, e.at);
      return true;
    }

    method TakeDead(e: Event) returns (changed: bool)
      requires e.body.Dead?
      modifies this
      ensures Value() == Step(old(Value()), e) && changed == Accepts(old(Value()), e)
    {
      if IsTerminal() {
        return false;
      }
      status := Failed;
      if error == "" {
        error := e.body.reason;
      }
      Note(WasKilled, attempt, "", e.body.reason, e.at);
      return true;
    }
  }

  /** The map of executions by key, with the value of each. */
  class ExecMap {
    var at: map<Key, Execution>
    ghost var values: map<Key, Exec>
    ghost var objects: set<Execution>

    ghost predicate Valid()
      reads this, objects
    {
      at.Keys == values.Keys && forall k :: k in at ==> at[k] in objects && at[k].key == k && at[k].Value() == values[k]
    }

    constructor ()
      ensures Valid() && values == map[] && objects == {}
    {
      at, values, objects := map[], map[], {};
    }

    method Add(e: Event) returns (x: Execution)
      requires Valid() && Founds(e)
      modifies this
      ensures Valid() && (forall x :: x in objects && x !in old(objects) ==> fresh(x))
      ensures x.key == e.key && x.Value() == NewExec(e) && values == old(values)[e.key := NewExec(e)]
    {
      x := new Execution(e);
      at := at[e.key := x];
      values := values[e.key := x.Value()];
      objects := objects + {x};
    }

    method Delete(k: Key)
      requires Valid()
      modifies this`at, this`values
      ensures Valid() && values == old(values) - {k}
    {
      at := at - {k};
      values := values - {k};
    }

    /** The values agree, except perhaps that of one execution. */
    ghost predicate ValidBut(x: Execution)
      reads this, objects
    {
      at.Keys == values.Keys
      && forall k :: k in at ==> at[k] in objects && at[k].key == k && (at[k] != x ==> at[k].Value() == values[k])
    }

    ghost method Refresh(x: Execution)
      requires ValidBut(x) && x.key in at && at[x.key] == x
      modifies this`values
      ensures Valid() && values == old(values)[x.key := x.Value()]
    {
      var now := values[x.key := x.Value()];
      assert forall k :: k in at ==> k in now && at[k].Value() == now[k];
      values := now;
    }

    /** The fold's step on one execution leaves the others alone. */
    method Take(x: Execution, e: Event) returns (changed: bool)
      requires Valid() && x.key in at && at[x.key] == x
      modifies x, this`values
      ensures Valid() && values == old(values)[x.key := Step(old(values)[x.key], e)]
      ensures changed == Accepts(old(values)[x.key], e) && x.Value() == values[x.key]
    {
      assert x.Value() == values[x.key];
      changed := x.Take(e);
      assert ValidBut(x);
      Refresh(x);
    }

    method Reserve(x: Execution, flag: bool)
      requires Valid() && x.key in at && at[x.key] == x
      modifies x`reserved, this`values
      ensures Valid() && values == old(values)[x.key := old(values)[x.key].(reserved := flag)]
    {
      assert x.Value() == values[x.key];
      x.SetReserved(flag);
      assert ValidBut(x);
      Refresh(x);
    }

    method Fence(x: Execution, flag: bool)
      requires Valid() && x.key in at && at[x.key] == x
      modifies x`completing, this`values
      ensures Valid() && values == old(values)[x.key := old(values)[x.key].(completing := flag)]
    {
      assert x.Value() == values[x.key];
      x.SetCompleting(flag);
      assert ValidBut(x);
      Refresh(x);
    }
  }

  /** What Apply makes of an event for a known execution, once its step is stored. */
  lemma {:induction false} TakenCases(s: State, e: Event, put: State)
    requires e.key in s.execs && !e.body.Submitted?
    requires put == s.(execs := s.execs[e.key := Step(s.execs[e.key], e)])
    ensures Changes(s, e) == Accepts(s.execs[e.key], e)
    ensures var x, y := s.execs[e.key], put.execs[e.key];
            if !Accepts(x, e) then put == s == Apply(s, e)
            else Apply(s, e)
                 == Reconcile(if y.status != x.status then Reindex(put, e.key, x.status, y.status) else put, e.key, y)
  {
    if !Accepts(s.execs[e.key], e) {
      assert put.execs == s.execs;
    }
  }

  class StoreTable {
    const execs: ExecMap
    var queues: map<string, seq<Key>>
    var queued: set<Key>
    var counts: map<Status, int>
    var running: set<Key>
    var terminalQ: seq<Key>
    const retain: int

    ghost predicate Valid()
      reads execs, execs.objects
    {
      execs.Valid()
    }

    ghost function Value(): State
      reads this, execs
    {
      State(execs.values, queues, queued, counts, running, terminalQ, retain)
    }

    constructor (retain: int)
      ensures Valid() && Value() == Empty(retain) && fresh(execs) && execs.objects == {}
    {
      execs := new ExecMap();
      queues, queued, counts, running, terminalQ := map[], {}, map[], {}, [];
      this.retain := retain;
    }

    method ReconcileQueue(x: Execution)
      requires Valid()
      modifies this`queues, this`queued
      ensures Valid() && Value() == Reconcile(old(Value()), x.key, old(x.Value()))
    {
      if x.status == Pending && x.key !in queued && !x.reserved {
        var q := if x.taskType in queues then queues[x.taskType] else [];
        queues := queues[x.taskType := q + [x.key]];
        queued := queued + {x.key};
      }
    }

    method EvictTerminal()
      requires Valid()
      modifies this, execs
      ensures Valid() && execs.objects == old(execs.objects) && Value() == Evict(old(Value()))
    {
      if retain <= 0 {
        return;
      }
      ghost var goal := Evict(Value());
      while |terminalQ| > retain
        invariant Valid() && execs.objects == old(execs.objects) && Evict(Value()) == goal
        decreases |terminalQ|
      {
        ForgetOldest();
      }
    }

    /** One round of the eviction loop. */
    method ForgetOldest()
      requires Valid() && terminalQ != []
      modifies this, execs
      ensures Valid() && execs.objects == old(execs.objects)
      ensures terminalQ == old(terminalQ)[1..]
      ensures Value() == Forget(old(Value()).(terminalQ := old(terminalQ)[1..]), old(terminalQ)[0])
    {
      var key := terminalQ[0];
      terminalQ := terminalQ[1..];
      if key !in execs.at || !execs.at[key].IsTerminal() {
        return;
      }
      counts := Bump(counts, execs.at[key].status, -1);
      queued := queued - {key};
      execs.Delete(key);
    }

    /** Apply: the answer says whether the envelope changed anything. */
    method Fold(e: Event) returns (changed: bool)
      requires Valid()
      modifies this, execs, execs.objects
      ensures Valid() && (forall x :: x in execs.objects && x !in old(execs.objects) ==> fresh(x))
      ensures changed == Changes(old(Value()), e) && Value() == Apply(old(Value()), e)
    {
      if e.body.Unusable? {
        return false;
      }
      if e.body.Submitted? {
        changed := FoldSubmit(e);
        return;
      }
      if e.key !in execs.at {
        return false;
      }
      changed := FoldKnown(e);
    }

    method FoldSubmit(e: Event) returns (changed: bool)
      requires Valid() && e.body.Submitted?
      modifies this, execs
      ensures Valid() && (forall x :: x in execs.objects && x !in old(execs.objects) ==> fresh(x))
      ensures changed == Changes(old(Value()), e) && Value() == Apply(old(Value()), e)
    {
      if e.key in execs.at || e.body.taskType == "" {
        return false;
      }
      var x := execs.Add(e);
      counts := Bump(counts, x.status, 1);
      ReconcileQueue(x);
      return true;
    }

    method FoldKnown(e: Event) returns (changed: bool)
      requires Valid() && e.key in execs.at && !e.body.Submitted?
      modifies this, execs, execs.objects
      ensures Valid() && execs.objects == old(execs.objects)
      ensures changed == Changes(old(Value()), e) && Value() == Apply(old(Value()), e)
    {
      ghost var s := Value();
      var x := execs.at[e.key];
      var prev := x.status;
      assert x.Value() == s.execs[e.key];
      changed := execs.Take(x, e);
      TakenCases(s, e, Value());
      if changed {
        Settle(x, prev);
      }
    }

    method Settle(x: Execution, prev: Status)
      requires Valid()
      modifies this, execs
      ensures Valid() && execs.objects == old(execs.objects)
      ensures var s, y := old(Value()), old(x.Value());
              Value() == Reconcile(if y.status != prev then Reindex(s, x.key, prev, y.status) else s, x.key, y)
    {
      if x.status != prev {
        Move(x, prev);
      }
      ReconcileQueue(x);
    }

    method Move(x: Execution, prev: Status)
      requires Valid() && x.status != prev
      modifies this, execs
      ensures Valid() && execs.objects == old(execs.objects)
      ensures Value() == Reindex(old(Value()), x.key, prev, old(x.status))
    {
      Recount(x, prev);
      if x.IsTerminal() {
        terminalQ := terminalQ + [x.key];
        EvictTerminal();
      }
    }

    /** The gauges and the running index. */
    method Recount(x: Execution, prev: Status)
      requires Valid()
      modifies this`counts, this`running
      ensures Valid() && counts == Bump(Bump(old(counts), prev, -1), x.status, 1)
      ensures running == (if prev == Running then old(running) - {x.key} else old(running))
              + (if x.status == Running then {x.key} else {})
    {
      var now := running;
      if prev == Running {
        now := now - {x.key};
      }
      if x.status == Running {
        now := now + {x.key};
      }
      counts, running := Bump(Bump(counts, prev, -1), x.status, 1), now;
    }

    // -------------------------------------------------------------- leasing

    method ReserveNext(taskType: string) returns (got: Option<Execution>)
      requires Valid()
      modifies this`queues, this`queued, execs`values, execs.objects
      ensures Valid() && Value() == Reserve(old(Value()), taskType).0
      ensures got.None? == Reserve(old(Value()), taskType).1.None?
      ensures got.Some? ==>
        && got.value.key in execs.at && execs.at[got.value.key] == got.value
        && Reserve(old(Value()), taskType).1 == Some(got.value.key)
    {
      var q := if taskType in queues then queues[taskType] else [];
      var rest, key := PopPending(q);
      queues := queues[taskType := rest];
      if key.None? {
        return None;
      }
      var x := execs.at[key.value];
      execs.Reserve(x, true);
      return Some(x);
    }

    /** The loop of ReserveNext: stale entries are dropped until one can be leased. */
    method PopPending(queue: seq<Key>) returns (rest: seq<Key>, got: Option<Key>)
      requires Valid()
      modifies this`queued
      ensures Popped(rest, queued, got) == Pop(execs.values, queue, old(queued))
    {
      var q := queue;
      ghost var popped := Pop(execs.values, q, queued);
      while |q| > 0
        invariant Pop(execs.values, q, queued) == popped
      {
        var key := q[0];
        q := q[1..];
        queued := queued - {key};
        if key in execs.at && execs.at[key].status == Pending && !execs.at[key].reserved {
          return q, Some(key);
        }
      }
      return q, None;
    }

    /** Unreserve. The execution may have left the store, but only as a terminal one. */
    method Release(x: Execution)
      requires Valid() && (Stores(x) || x.IsTerminal())
      modifies this`queues, this`queued, execs`values, x
      ensures Valid()
      ensures Value() == if Stores(x) then Unreserve(old(Value()), x.key) else old(Value())
    {
      if !x.reserved {
        return;
      }
      if Stores(x) {
        ReleaseStored(x);
      } else {
        x.reserved := false;
      }
    }

    method ReleaseStored(x: Execution)
      requires Valid() && Stores(x) && x.reserved
      modifies this`queues, this`queued, execs`values, x`reserved
      ensures Valid() && Value() == Unreserve(old(Value()), x.key)
    {
      ghost var s := Value();
      assert x.Value() == s.execs[x.key];
      execs.Reserve(x, false);
      assert x.Value() == execs.values[x.key];
      PutBack(x);
    }

    /** A pending execution goes back to the front of its queue; one that left the store is never pending. */
    method PutBack(x: Execution)
      requires Valid()
      modifies this`queues, this`queued
      ensures Valid()
      ensures if x.status == Pending && x.key !in old(queued)
        then queues == old(queues)[x.taskType := [x.key] + Queue(old(Value()), x.taskType)]
             && queued == old(queued) + {x.key}
        else queues == old(queues) && queued == old(queued)
    {
      if x.status == Pending && x.key !in queued {
        var q := if x.taskType in queues then queues[x.taskType] else [];
        queues := queues[x.taskType := [x.key] + q];
        queued := queued + {x.key};
      }
    }

    predicate Stores(x: Execution)
      reads execs
    {
      x.key in execs.at && execs.at[x.key] == x
    }

    // -------------------------------------------------------------- completion

    method Begin(k: Key, attempt: int) returns (ok: bool, duplicate: bool)
      requires Valid()
      modifies execs`values, execs.objects
      ensures Valid() && Value() == BeginComplete(old(Value()), k, attempt)
      ensures ok == MayComplete(old(Value()), k, attempt)
      ensures duplicate <==> k in execs.at && old(execs.at[k].status) == Completed
    {
      if k !in execs.at {
        return false, false;
      }
      var x := execs.at[k];
      if x.status == Completed {
        return false, true;
      }
      if x.IsTerminal() || x.attempt != attempt || attempt == 0 || x.completing {
        return false, false;
      }
      execs.Fence(x, true);
      return true, false;
    }

    method Abort(k: Key)
      requires Valid()
      modifies execs`values, execs.objects
      ensures Valid() && Value() == AbortComplete(old(Value()), k)
    {
      if k in execs.at {
        execs.Fence(execs.at[k], false);
      }
    }

    // -------------------------------------------------------------- expiry

    /** Copies of the executions whose lease has run out; keys that left the store leave the running index too. */
    method ExpiredLeases(now: Time) returns (out: seq<Exec>)
      requires Valid()
      modifies this`running
      ensures running == old(running) * execs.at.Keys
      ensures KeysOf(out) == Expired(old(Value()), now) && |out| == |KeysOf(out)| && Copies(out, execs.values)
    {
      out := [];
      var todo := running;
      ghost var due := AllOverdue(execs.values, now);
      while todo != {}
        invariant Copies(out, execs.values) && Swept(old(running), running, execs.values.Keys, due, todo, out)
        decreases |todo|
      {
        var key :| key in todo;
        out := Visit(key, now, out, old(running), todo, due);
        todo := todo - {key};
      }
      SweptAll(old(Value()), now, running, out);
    }

    /** One round of that loop. */
    method Visit(key: Key, now: Time, out: seq<Exec>, ghost was: set<Key>, ghost todo: set<Key>, ghost due: set<Key>)
      returns (more: seq<Exec>)
      requires Valid() && Copies(out, execs.values) && due == AllOverdue(execs.values, now)
      requires Swept(was, running, execs.values.Keys, due, todo, out) && key in todo
      modifies this`running
      ensures Copies(more, execs.values) && Swept(was, running, execs.values.Keys, due, todo - {key}, more)
    {
      more := out;
      ghost var index := running;
      if key !in execs.at {
        running := running - {key};
      } else {
        var x := execs.at[key];
        if x.status == Running && !x.reserved && !x.completing && x.leaseDeadline < now {
          CopyAdded(out, x.Value(), execs.values);
          more := out + [x.Value()];
        }
      }
      SweptNext(was, index, running, execs.values.Keys, due, todo, key, out, more);
    }
  }

  lemma {:induction false} SweptAll(s: State, now: Time, running: set<Key>, out: seq<Exec>)
    requires Swept(s.running, running, s.execs.Keys, AllOverdue(s.execs, now), {}, out)
    ensures running == s.running * s.execs.Keys && KeysOf(out) == Expired(s, now)
  {
  }

  ghost function AllOverdue(xs: map<Key, Exec>, now: Time): set<Key> {
    set k | k in xs && Overdue(xs[k], now)
  }

  /** Where the sweep is: the keys not yet visited, the index so far, and the copies so far. */
  ghost predicate Swept(was: set<Key>, running: set<Key>, known: set<Key>, due: set<Key>, todo: set<Key>,
                        out: seq<Exec>) {
    && todo <= was && (forall k :: k in running <==> k in was && (k in known || k in todo))
    && |out| == |KeysOf(out)| && (forall k :: k in KeysOf(out) <==> k in due && k in was && k !in todo)
  }

  lemma {:induction false} SweptNext(was: set<Key>, running: set<Key>, after: set<Key>, known: set<Key>,
                                     due: set<Key>, todo: set<Key>, key: Key, out: seq<Exec>, more: seq<Exec>)
    requires Swept(was, running, known, due, todo, out) && key in todo
    requires after == if key in known then running else running - {key}
    requires KeysOf(more) == KeysOf(out) + (if key in due then {key} else {})
             && |more| == |out| + (if key in due then 1 else 0)
    ensures Swept(was, after, known, due, todo - {key}, more)
  {
  }

  predicate Overdue(x: Exec, now: Time) {
    x.status == Running && !x.reserved && !x.completing && x.leaseDeadline < now
  }

  ghost function KeysOf(xs: seq<Exec>): set<Key> {
    if xs == [] then {} else KeysOf(xs[..|xs| - 1]) + {xs[|xs| - 1].key}
  }

  ghost predicate Copies(xs: seq<Exec>, execs: map<Key, Exec>) {
    forall x :: x in xs ==> x.key in execs && x == execs[x.key]
  }

  lemma {:induction false} CopyAdded(xs: seq<Exec>, x: Exec, execs: map<Key, Exec>)
    requires Copies(xs, execs) && x.key in execs && x == execs[x.key]
    ensures Copies(xs + [x], execs) && KeysOf(xs + [x]) == KeysOf(xs) + {x.key}
  {
    assert (xs + [x])[..|xs|] == xs;
  }
}
