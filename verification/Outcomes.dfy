/**
 What each call of the coordinator does to the executions (internal/workflow/coordinator.go), field
 by field and in terms of what was stored before: who is moved and how, and that nobody else is.
 With any retention; terminal executions of others may be forgotten when one more becomes terminal.
 */
module Outcomes {
  import opened Fold
  import opened Store
  import opened Coordinator

  // ---------------------------------------------------------------- one applied event

  /** Execution k is y afterwards, and the others are as they were, save for terminal ones that are forgotten. */
  ghost predicate Becomes(s: Store.State, f: Store.State, k: Key, y: Exec) {
    && k in f.execs && f.execs[k] == y
    && (forall j :: j in f.execs && j != k ==> j in s.execs && f.execs[j] == s.execs[j])
    && (forall j :: j in s.execs && j != k && !Terminal(s.execs[j]) ==> j in f.execs)
    && (s.retain <= 0 ==> f.execs == s.execs[k := y])
  }

  /** Eviction takes from the front: what became terminal last is retained. */
  lemma {:induction false} EvictKeepsLast(s: Store.State, k: Key)
    requires s.terminalQ != [] && s.terminalQ[|s.terminalQ| - 1] == k && Distinct(s.terminalQ) && k in s.execs
    ensures k in Evict(s).execs
    decreases |s.terminalQ|
  {
    if !(s.retain <= 0 || |s.terminalQ| <= s.retain) {
      var less := s.(terminalQ := s.terminalQ[1..]);
      assert s.terminalQ[0] != k;
      EvictKeepsLast(Forget(less, s.terminalQ[0]), k);
    }
  }

  lemma {:induction false} JustDoneStays(s: Store.State, k: Key, y: Exec)
    requires Retired(s) && k in s.execs && !Terminal(s.execs[k])
    ensures k in Evict(Moved(s, k, y).(terminalQ := s.terminalQ + [k])).execs
  {
    var m := Moved(s, k, y).(terminalQ := s.terminalQ + [k]);
    assert k !in s.terminalQ;
    EvictKeepsLast(m, k);
  }

  lemma {:induction false} PutBecomes(s: Store.State, k: Key, y: Exec)
    requires Retired(s) && k in s.execs && !Terminal(s.execs[k])
    ensures k in Put(s, k, y).execs && Put(s, k, y).execs[k] == y
  {
    PutIsStored(s, k, y);
    JustDoneStays(s, k, y);
  }

  lemma {:induction false} ApplyBecomes(s: Store.State, e: Event)
    requires Retired(s) && !e.body.Submitted? && e.key in s.execs && Accepts(s.execs[e.key], e)
    ensures Becomes(s, Apply(s, e), e.key, Step(s.execs[e.key], e))
  {
    var f, y := Apply(s, e), Step(s.execs[e.key], e);
    PutBecomes(s, e.key, y);
    forall j | j in f.execs && j != e.key
      ensures j in s.execs && f.execs[j] == s.execs[j]
    {
      ApplyTouchesOneKey(s, e, j);
    }
    forall j | j in s.execs && j != e.key && !Terminal(s.execs[j])
      ensures j in f.execs
    {
      LiveStays(s, e, j);
    }
    if s.retain <= 0 {
      PutStores(s, e.key, y);
    }
  }

  // ---------------------------------------------------------------- submit

  /** The execution of a submit at a time, with the defaults filled in. */
  function Submission(cfg: Config, spec: Spec, at: Time): Exec {
    var ttl := if spec.leaseTtl > 0 then spec.leaseTtl else cfg.leaseTtl;
    Exec(spec.key, spec.taskType, Pending, 0, if spec.maxAttempts > 0 then spec.maxAttempts else cfg.maxAttempts,
         (ttl / NANOS_PER_MS) * NANOS_PER_MS, "", spec.input, "", "", at, at, 0,
         [Transition(WasSubmitted, Pending, 0, COORDINATOR, spec.taskType, at)], false, false)
  }

  /** A submit founds the execution it describes, if the id is free, the log takes it and it names a type. */
  lemma {:induction false} SubmitOutcome(c: Coord, spec: Spec, turn: Turn)
    requires Settled(c)
    ensures var d := Submit(c, spec, turn);
            if spec.key !in c.store.execs && turn.ok then
              && d.log[..|c.log|] == c.log && |d.log| == |c.log| + 1
              && d.store.execs == (if spec.taskType == "" then c.store.execs
                                   else c.store.execs[spec.key := Submission(c.cfg, spec, turn.at)])
            else d == c
  {
    assert [] + [Transition(WasSubmitted, Pending, 0, COORDINATOR, spec.taskType, turn.at)]
           == [Transition(WasSubmitted, Pending, 0, COORDINATOR, spec.taskType, turn.at)];
  }

  // ---------------------------------------------------------------- heartbeat

  /** A heartbeat of the worker that holds the lease moves its deadline, and only that. */
  lemma {:induction false} HeartbeatOutcome(c: Coord, k: Key, worker: string, attempt: int, turn: Turn)
    requires Settled(c)
    ensures var s, d := c.store, Beat(c, k, worker, attempt, turn);
            if turn.ok && k in s.execs && s.execs[k].status == Running && s.execs[k].attempt == attempt
               && s.execs[k].worker == worker
            then d.store.execs
              == s.execs[k := s.execs[k].(leaseDeadline := turn.at + s.execs[k].leaseTtl, updatedAt := turn.at)]
            else d == c
  {
    if turn.ok && Holds(c.store, k, worker, attempt) {
      var e := Event(k, worker, attempt, turn.at, Heartbeat(worker));
      var y := Step(c.store.execs[k], e);
      assert y.status == c.store.execs[k].status;
    }
  }

  // ---------------------------------------------------------------- complete

  /** The execution once a result is recorded. */
  function Done(x: Exec, worker: string, result: string, at: Time): Exec {
    x.(status := Completed, worker := worker, result := result, updatedAt := at,
       transitions := x.transitions + [Transition(WasCompleted, Completed, x.attempt, worker, "", at)])
  }

  /**
   A completion is recorded exactly when the execution is pending, running or retrying on the
   attempt it names and the log takes it; whoever sends it, and also when the lease is gone.
   */
  lemma {:induction false} CompleteOutcome(c: Coord, k: Key, worker: string, attempt: int, result: string, turn: Turn)
    requires Settled(c)
    ensures var s, d := c.store, Finish(c, k, worker, attempt, result, turn);
            if turn.ok && attempt != 0 && k in s.execs && s.execs[k].attempt == attempt
               && (s.execs[k].status == Pending || s.execs[k].status == Running || s.execs[k].status == Retrying)
            then Becomes(s, d.store, k, Done(s.execs[k], worker, result, turn.at))
            else d == c
  {
    var s := c.store;
    if k in s.execs && !Terminal(s.execs[k]) && s.execs[k].attempt == attempt != 0 {
      FinishIsOneAppend(c, k, worker, attempt, result, turn);
      if turn.ok {
        ApplyBecomes(s, CompleteEvent(k, worker, attempt, result, turn.at));
      }
    }
  }

  /** So the result is there afterwards exactly when it was recorded now or was there before. */
  lemma {:induction false} CompletedIff(c: Coord, k: Key, worker: string, attempt: int, result: string, turn: Turn)
    requires Settled(c)
    ensures var s, f := c.store, Finish(c, k, worker, attempt, result, turn).store;
            k in f.execs && f.execs[k].status == Completed && f.execs[k].result == result
            <==> k in s.execs
                 && (|| (s.execs[k].status == Completed && s.execs[k].result == result)
                     || (turn.ok && s.execs[k].status != Completed && s.execs[k].status != Failed
                         && s.execs[k].attempt == attempt != 0))
  {
    CompleteOutcome(c, k, worker, attempt, result, turn);
  }

  // ---------------------------------------------------------------- fail

  /** The execution once a failed attempt is recorded. */
  function Faulted(x: Exec, error: string, at: Time): Exec {
    x.(status := Retrying, error := error, updatedAt := at,
       transitions := x.transitions + [Transition(WasFailed, Retrying, x.attempt, x.worker, error, at)])
  }

  /** Once it is to be tried again. */
  function Requeued(x: Exec, reason: string, at: Time): Exec {
    x.(status := Pending, worker := "", leaseDeadline := 0, updatedAt := at,
       transitions := x.transitions + [Transition(WasRetried, Pending, x.attempt, "", reason, at)])
  }

  /** Once it is given up; the first error stays. */
  function Buried(x: Exec, reason: string, at: Time): Exec {
    x.(status := Failed, error := if x.error == "" then reason else x.error, updatedAt := at,
       transitions := x.transitions + [Transition(WasKilled, Failed, x.attempt, "", reason, at)])
  }

  /** What becomes of a failed attempt once the second publish is through. */
  function AfterFailure(x: Exec, error: string, retryable: bool, at: Time, at2: Time): Exec {
    var y := Faulted(x, error, at);
    if retryable && x.attempt < x.maxAttempts then Requeued(y, ATTEMPT_FAILED, at2)
    else Buried(y, if retryable then ATTEMPTS_EXHAUSTED else NOT_RETRYABLE, at2)
  }

  /**
   A failure of the worker that holds the lease is recorded with its error, and then the execution
   is pending again if the failure may be retried and attempts are left, and failed otherwise.
   */
  lemma {:induction false} FailOutcome(c: Coord, k: Key, worker: string, attempt: int, error: string, retryable: bool,
                                       turn: Turn, turn2: Turn)
    requires Settled(c)
    ensures var s, d := c.store, GiveUp(c, k, worker, attempt, error, retryable, turn, turn2);
            if turn.ok && k in s.execs && s.execs[k].status == Running && s.execs[k].attempt == attempt
               && s.execs[k].worker == worker
            then Becomes(s, d.store, k, if turn2.ok then AfterFailure(s.execs[k], error, retryable, turn.at, turn2.at)
                                        else Faulted(s.execs[k], error, turn.at))
            else d == c
  {
    if turn.ok && Holds(c.store, k, worker, attempt) {
      var x := c.store.execs[k];
      GiveUpPublishes(c, x, error, retryable, turn, turn2);
      var s1 := FaultIsRecorded(c, k, worker, error, retryable, turn.at);
      if turn2.ok {
        var retry := retryable && attempt < x.maxAttempts;
        var reason := if retry then ATTEMPT_FAILED else if retryable then ATTEMPTS_EXHAUSTED else NOT_RETRYABLE;
        var f := ReasonIsFolded(c.store, s1, k, x, Faulted(x, error, turn.at), retry, reason, turn2.at);
      }
    }
  }

  lemma {:induction false} FaultStep(x: Exec, e: Event)
    requires e.body.Fail? && e.attempt == x.attempt && e.body.worker == x.worker && x.status == Running
    ensures Accepts(x, e) && Step(x, e) == Faulted(x, e.body.error, e.at)
  {
  }

  lemma {:induction false} ReasonStep(x: Exec, y: Exec, retry: bool, reason: string, at: Time)
    requires y.status == Retrying && x.attempt == y.attempt
    ensures var e := ReasonEvent(x, retry, reason, at);
            && !e.body.Submitted? && e.key == x.key && Accepts(y, e)
            && Step(y, e) == if retry then Requeued(y, reason, at) else Buried(y, reason, at)
  {
  }

  /** What is published on a failure, and in which order. */
  lemma {:induction false} GiveUpPublishes(c: Coord, x: Exec, error: string, retryable: bool, turn: Turn, turn2: Turn)
    requires turn.ok && x.key in c.store.execs && c.store.execs[x.key] == x && x.status == Running
    ensures var retry := retryable && x.attempt < x.maxAttempts;
            var reason := if retry then ATTEMPT_FAILED else if retryable then ATTEMPTS_EXHAUSTED else NOT_RETRYABLE;
            var e := Event(x.key, x.worker, x.attempt, turn.at, Fold.Fail(x.worker, error, retryable));
            GiveUp(c, x.key, x.worker, x.attempt, error, retryable, turn, turn2)
            == Append(Append(c, e, true), ReasonEvent(x, retry, reason, turn2.at), turn2.ok)
  {
  }

  lemma {:induction false} FaultIsRecorded(c: Coord, k: Key, worker: string, error: string, retryable: bool, at: Time)
    returns (f: Store.State)
    requires Settled(c) && k in c.store.execs && Holds(c.store, k, worker, c.store.execs[k].attempt)
    ensures f == Apply(c.store, Event(k, worker, c.store.execs[k].attempt, at, Fold.Fail(worker, error, retryable)))
    ensures Becomes(c.store, f, k, Faulted(c.store.execs[k], error, at)) && Retired(f) && f.retain == c.store.retain
  {
    var e := Event(k, worker, c.store.execs[k].attempt, at, Fold.Fail(worker, error, retryable));
    f := Apply(c.store, e);
    FaultStep(c.store.execs[k], e);
    ApplyBecomes(c.store, e);
    ApplyKeepsIndex(c.store, e);
  }

  lemma {:induction false} ReasonIsFolded(s: Store.State, m: Store.State, k: Key, x: Exec, y: Exec, retry: bool,
                                          reason: string, at: Time)
    returns (f: Store.State)
    requires Retired(m) && m.retain == s.retain && Becomes(s, m, k, y) && y.status == Retrying
    requires x.key == k && x.attempt == y.attempt
    ensures f == Apply(m, ReasonEvent(x, retry, reason, at))
    ensures Becomes(s, f, k, if retry then Requeued(y, reason, at) else Buried(y, reason, at))
  {
    var e := ReasonEvent(x, retry, reason, at);
    f := Apply(m, e);
    ReasonStep(x, y, retry, reason, at);
    ApplyBecomes(m, e);
    BecomesTwice(s, m, f, k, y, Step(y, e));
  }

  lemma {:induction false} BecomesTwice(s: Store.State, m: Store.State, f: Store.State, k: Key, y: Exec, z: Exec)
    requires Becomes(s, m, k, y) && Becomes(m, f, k, z) && m.retain == s.retain
    ensures Becomes(s, f, k, z)
  {
    if s.retain <= 0 {
      assert s.execs[k := y][k := z] == s.execs[k := z];
    }
  }
}
