/**
 A retry whose publish fails (internal/workflow/coordinator.go, Fail): the execution is left
 retrying, and no later call moves it except a completion of that same attempt.
 */
module Stranded {
  import opened Fold
  import opened Store
  import opened Coordinator
  import WorkOrder

  ghost predicate Unmoved(c: Coord, d: Coord, k: Key) {
    k in c.store.execs && k in d.store.execs && d.store.execs[k] == c.store.execs[k]
  }

  lemma {:induction false} AppendElsewhere(c: Coord, e: Event, ok: bool, k: Key)
    requires k in c.store.execs && !Terminal(c.store.execs[k]) && e.key != k
    ensures Unmoved(c, Append(c, e, ok), k)
  {
    if ok {
      LiveStays(c.store, e, k);
      ApplyTouchesOneKey(c.store, e, k);
    }
  }

  lemma {:induction false} GrantElsewhere(c: Coord, t: string, worker: string, turn: Turn, k: Key)
    returns (one: GrantStep)
    requires Settled(c) && k in c.store.execs && c.store.execs[k].status == Retrying
    ensures one == GrantOne(c, t, worker, turn)
    ensures Settled(one.state) && Unmoved(c, one.state, k)
  {
    one := GrantOneSettles(c, t, worker, turn);
    if Reserve(c.store, t).1.Some? && turn.ok {
      GrantExecs(c.store, t, worker, turn.at);
    } else {
      FailedGrantSettles(c, t, worker, turn);
    }
  }

  lemma {:induction false} BatchElsewhere(c: Coord, t: string, worker: string, left: nat, turns: seq<Turn>, k: Key)
    returns (f: Coord)
    requires Settled(c) && k in c.store.execs && c.store.execs[k].status == Retrying
    ensures f == Grant(c, t, worker, left, turns).state
    ensures Unmoved(c, f, k)
    decreases left
  {
    f := c;
    if left != 0 {
      var less: nat := left - 1;
      var one := GrantElsewhere(c, t, worker, Next(turns), k);
      GrantUnfolds(c, t, worker, left, less, turns, one);
      f := one.state;
      if one.Leased1? {
        f := BatchElsewhere(one.state, t, worker, less, Later(turns), k);
      }
    }
  }

  lemma {:induction false} ReclaimElsewhere(c: Coord, snaps: seq<Exec>, turns: seq<Turn>, k: Key) returns (f: Coord)
    requires k in c.store.execs && c.store.execs[k].status == Retrying
    requires forall i :: 0 <= i < |snaps| ==> snaps[i].key != k
    ensures f == Reclaim(c, snaps, turns)
    ensures Unmoved(c, f, k)
    decreases |snaps|
  {
    f := c;
    if snaps != [] {
      var e := ReclaimEvent(snaps[0], Next(turns).at);
      AppendElsewhere(c, e, Next(turns).ok, k);
      f := ReclaimElsewhere(Append(c, e, Next(turns).ok), snaps[1..], Later(turns), k);
    }
  }

  lemma {:induction false} GiveUpElsewhere(c: Coord, j: Key, worker: string, attempt: int, error: string,
                                           retryable: bool, turn: Turn, turn2: Turn, k: Key)
    requires Settled(c) && k in c.store.execs && c.store.execs[k].status == Retrying
    ensures Unmoved(c, GiveUp(c, j, worker, attempt, error, retryable, turn, turn2), k)
  {
    if Holds(c.store, j, worker, attempt) {
      var x := c.store.execs[j];
      var e := Event(j, worker, attempt, turn.at, Fold.Fail(worker, error, retryable));
      AppendElsewhere(c, e, turn.ok, k);
      var retry := retryable && attempt < x.maxAttempts;
      var reason := if retry then ATTEMPT_FAILED else if retryable then ATTEMPTS_EXHAUSTED else NOT_RETRYABLE;
      AppendElsewhere(Append(c, e, turn.ok), ReasonEvent(x, retry, reason, turn2.at), turn2.ok, k);
    }
  }

  /** A completion of exactly this attempt that reaches the log. */
  predicate Rescues(call: Call, k: Key, attempt: int) {
    call.CFinish? && call.k == k && call.attempt == attempt && call.turn.ok
  }

  /** A call that publishes at most one envelope. */
  lemma {:induction false} SingleLeavesRetrying(c: Coord, call: Call, k: Key)
    requires Settled(c) && Possible(c, call) && (call.CSubmit? || call.CBeat? || call.CFinish?)
    requires k in c.store.execs && c.store.execs[k].status == Retrying
    requires !Rescues(call, k, c.store.execs[k].attempt)
    ensures Unmoved(c, Make(c, call), k)
  {
    match call
    case CSubmit(spec, turn) =>
      if spec.key !in c.store.execs {
        AppendElsewhere(c, SubmitEvent(c.cfg, spec, turn.at), turn.ok, k);
      }
    case CBeat(j, w, a, turn) =>
      if Holds(c.store, j, w, a) {
        AppendElsewhere(c, Event(j, w, a, turn.at, Heartbeat(w)), turn.ok, k);
      }
    case CFinish(j, w, a, r, turn) =>
      if MayComplete(c.store, j, a) {
        FinishIsOneAppend(c, j, w, a, r, turn);
        if j != k {
          AppendElsewhere(c, CompleteEvent(j, w, a, r, turn.at), turn.ok, k);
        }
      }
  }

  lemma {:induction false} CallLeavesRetrying(c: Coord, call: Call, k: Key) returns (f: Coord)
    requires Settled(c) && Possible(c, call)
    requires k in c.store.execs && c.store.execs[k].status == Retrying
    requires !Rescues(call, k, c.store.execs[k].attempt)
    ensures f == Make(c, call)
    ensures Unmoved(c, f, k)
  {
    f := Make(c, call);
    match call
    case CLease(t, w, max, turns) => f := BatchElsewhere(c, t, w, if max <= 0 then 1 else max, turns, k);
    case CGiveUp(j, w, a, err, re, t1, t2) => GiveUpElsewhere(c, j, w, a, err, re, t1, t2, k);
    case CSweep(now, order, turns) =>
      SnapshotsAreCurrent(c.store, now, order);
      f := ReclaimElsewhere(c, Snapshots(c.store, order), turns, k);
    case _ => SingleLeavesRetrying(c, call, k);
  }

  /**
   Once an execution is retrying between calls, every run of further calls leaves it exactly as it
   is, unless one of them completes that very attempt: nothing ever retries or buries it.
   */
  lemma {:induction false} RetryingIsStranded(c: Coord, calls: seq<Call>, k: Key)
    requires Settled(c) && PossibleRun(c, calls)
    requires k in c.store.execs && c.store.execs[k].status == Retrying
    requires forall i :: 0 <= i < |calls| ==> !Rescues(calls[i], k, c.store.execs[k].attempt)
    ensures Settled(After(c, calls)) && Unmoved(c, After(c, calls), k)
  {
    if calls != [] {
      var init, last := calls[..|calls| - 1], calls[|calls| - 1];
      RetryingIsStranded(c, init, k);
      MakeSettles(After(c, init), last);
      var f := CallLeavesRetrying(After(c, init), last, k);
    }
  }

  // ---------------------------------------------------------------- when an execution is retrying

  predicate IsRetrying(s: Store.State, k: Key) {
    k in s.execs && s.execs[k].status == Retrying
  }

  /** A recorded failure is followed by a retry or a burial exactly when the second publish reaches the log. */
  lemma {:induction false} LostRetryLeavesRetryingIff(c: Coord, k: Key, worker: string, attempt: int, error: string,
                                                      retryable: bool, turn: Turn, turn2: Turn)
    requires Settled(c) && Holds(c.store, k, worker, attempt) && turn.ok
    ensures var d := GiveUp(c, k, worker, attempt, error, retryable, turn, turn2);
            && (IsRetrying(d.store, k) <==> !turn2.ok)
            && (IsRetrying(d.store, k) ==> d.store.execs[k].attempt == attempt)
  {
    var x := c.store.execs[k];
    var e := Event(k, worker, attempt, turn.at, Fold.Fail(worker, error, retryable));
    LiveStays(c.store, e, k);
    ApplyTouchesOneKey(c.store, e, k);
    if turn2.ok {
      var retry := retryable && attempt < x.maxAttempts;
      var reason := if retry then ATTEMPT_FAILED else if retryable then ATTEMPTS_EXHAUSTED else NOT_RETRYABLE;
      ReasonEnds(Apply(c.store, e), ReasonEvent(x, retry, reason, turn2.at), k);
    }
  }

  lemma {:induction false} ReasonEnds(s: Store.State, e: Event, k: Key)
    requires IsRetrying(s, k) && e.key == k && (e.body.Retry? || e.body.Dead?)
    ensures !IsRetrying(Apply(s, e), k)
  {
    if k in Apply(s, e).execs {
      ApplyTouchesOneKey(s, e, k);
    }
  }

  /** The call records a failure of k and loses the publish that should follow. */
  predicate Loses(c: Coord, call: Call, k: Key) {
    call.CGiveUp? && call.k == k && Holds(c.store, k, call.worker, call.attempt) && call.turn.ok && !call.turn2.ok
  }

  lemma {:induction false} AppendStartsNoRetry(c: Coord, e: Event, ok: bool, k: Key)
    requires !IsRetrying(c.store, k) && !(e.key == k && e.body.Fail?)
    ensures !IsRetrying(Append(c, e, ok).store, k)
  {
    if ok && k in Apply(c.store, e).execs {
      ApplyTouchesOneKey(c.store, e, k);
    }
  }

  lemma {:induction false} GrantStartsNoRetry(c: Coord, t: string, worker: string, turn: Turn, k: Key)
    returns (one: GrantStep)
    requires !IsRetrying(c.store, k)
    ensures one == GrantOne(c, t, worker, turn) && !IsRetrying(one.state.store, k)
  {
    one := GrantOne(c, t, worker, turn);
    var n := ReserveShape(c.store, t);
    var (s1, got) := Reserve(c.store, t);
    assert !IsRetrying(s1, k);
    if got.Some? && turn.ok {
      AppendStartsNoRetry(c.(store := s1), LeaseEvent(s1.execs[got.value], worker, turn.at), true, k);
    }
  }

  lemma {:induction false} BatchStartsNoRetry(c: Coord, t: string, worker: string, left: nat, turns: seq<Turn>, k: Key)
    returns (f: Coord)
    requires !IsRetrying(c.store, k)
    ensures f == Grant(c, t, worker, left, turns).state && !IsRetrying(f.store, k)
    decreases left
  {
    f := c;
    if left != 0 {
      var less: nat := left - 1;
      var one := GrantStartsNoRetry(c, t, worker, Next(turns), k);
      GrantUnfolds(c, t, worker, left, less, turns, one);
      f := one.state;
      if one.Leased1? {
        f := BatchStartsNoRetry(one.state, t, worker, less, Later(turns), k);
      }
    }
  }

  lemma {:induction false} ReclaimStartsNoRetry(c: Coord, snaps: seq<Exec>, turns: seq<Turn>, k: Key)
    requires !IsRetrying(c.store, k)
    ensures !IsRetrying(Reclaim(c, snaps, turns).store, k)
    decreases |snaps|
  {
    if snaps != [] {
      var e := ReclaimEvent(snaps[0], Next(turns).at);
      AppendStartsNoRetry(c, e, Next(turns).ok, k);
      ReclaimStartsNoRetry(Append(c, e, Next(turns).ok), snaps[1..], Later(turns), k);
    }
  }

  lemma {:induction false} GiveUpStartsRetryIff(c: Coord, call: Call, k: Key)
    requires Settled(c) && !IsRetrying(c.store, k) && call.CGiveUp?
    ensures IsRetrying(Make(c, call).store, k) <==> Loses(c, call, k)
  {
    var j, worker, attempt, turn := call.k, call.worker, call.attempt, call.turn;
    if Holds(c.store, j, worker, attempt) && turn.ok {
      if j == k {
        LostRetryLeavesRetryingIff(c, k, worker, attempt, call.error, call.retryable, turn, call.turn2);
      } else {
        var x := c.store.execs[j];
        var e := Event(j, worker, attempt, turn.at, Fold.Fail(worker, call.error, call.retryable));
        AppendStartsNoRetry(c, e, true, k);
        var retry := call.retryable && attempt < x.maxAttempts;
        var reason := if retry then ATTEMPT_FAILED else if call.retryable then ATTEMPTS_EXHAUSTED else NOT_RETRYABLE;
        AppendStartsNoRetry(Append(c, e, true), ReasonEvent(x, retry, reason, call.turn2.at), call.turn2.ok, k);
      }
    }
  }

  /** No other call leaves an execution retrying that was not. */
  lemma {:induction false} CallStartsRetryIff(c: Coord, call: Call, k: Key)
    requires Settled(c) && Possible(c, call) && !IsRetrying(c.store, k)
    ensures IsRetrying(Make(c, call).store, k) <==> Loses(c, call, k)
  {
    match call
    case CSubmit(spec, turn) => AppendStartsNoRetry(c, SubmitEvent(c.cfg, spec, turn.at), turn.ok, k);
    case CLease(t, w, max, turns) => var _ := BatchStartsNoRetry(c, t, w, if max <= 0 then 1 else max, turns, k);
    case CBeat(j, w, a, turn) => AppendStartsNoRetry(c, Event(j, w, a, turn.at, Heartbeat(w)), turn.ok, k);
    case CFinish(j, w, a, r, turn) =>
      if MayComplete(c.store, j, a) {
        FinishIsOneAppend(c, j, w, a, r, turn);
        AppendStartsNoRetry(c, CompleteEvent(j, w, a, r, turn.at), turn.ok, k);
      }
    case CGiveUp(_, _, _, _, _, _, _) => GiveUpStartsRetryIff(c, call, k);
    case CSweep(now, order, turns) =>
      SnapshotsAreCurrent(c.store, now, order);
      ReclaimStartsNoRetry(c, Snapshots(c.store, order), turns, k);
  }

  lemma {:induction false} RescueEndsRetry(c: Coord, call: Call, k: Key)
    requires Settled(c) && Possible(c, call) && IsRetrying(c.store, k) && Rescues(call, k, c.store.execs[k].attempt)
    requires c.store.execs[k].attempt != 0
    ensures !IsRetrying(Make(c, call).store, k)
  {
    var e := CompleteEvent(k, call.worker, call.attempt, call.result, call.turn.at);
    FinishIsOneAppend(c, k, call.worker, call.attempt, call.result, call.turn);
    CompletionEndsRetry(c.store, e, k);
    assert Make(c, call).store == Apply(c.store, e);
  }

  lemma {:induction false} CompletionEndsRetry(s: Store.State, e: Event, k: Key)
    requires Counted(s) && e.key == k && e.body.Complete? && IsRetrying(s, k) && e.attempt == s.execs[k].attempt != 0
    ensures !IsRetrying(Apply(s, e), k)
  {
    if k in Apply(s, e).execs {
      ApplyTouchesOneKey(s, e, k);
    }
  }

  /** The run lost the retry of k, and no completion of that attempt has reached the log since. */
  ghost predicate LostAndNotRescued(c: Coord, calls: seq<Call>, k: Key)
    requires PossibleRun(c, calls)
  {
    calls != [] && (
      var n := |calls| - 1;
      var b := After(c, calls[..n]);
      Loses(b, calls[n], k) || (
        LostAndNotRescued(c, calls[..n], k) && !(k in b.store.execs && Rescues(calls[n], k, b.store.execs[k].attempt))))
  }

  /**
   After every run, with any retention: an execution is retrying exactly when some call recorded its
   failure, lost the publish that should follow, and was not made good by a completion since.
   */
  lemma {:induction false} RetryingIff(cfg: Config, retain: int, calls: seq<Call>, k: Key)
    requires cfg.Valid() && PossibleRun(Fresh(cfg, retain), calls)
    ensures IsRetrying(After(Fresh(cfg, retain), calls).store, k) <==> LostAndNotRescued(Fresh(cfg, retain), calls, k)
  {
    if calls != [] {
      var n := |calls| - 1;
      var b := After(Fresh(cfg, retain), calls[..n]);
      RetryingIff(cfg, retain, calls[..n], k);
      RunSettles(cfg, retain, calls[..n]);
      if !IsRetrying(b.store, k) {
        CallStartsRetryIff(b, calls[n], k);
      } else if Rescues(calls[n], k, b.store.execs[k].attempt) {
        RetryingWasLeased(cfg, retain, calls[..n], k);
        RescueEndsRetry(b, calls[n], k);
      } else {
        var _ := CallLeavesRetrying(b, calls[n], k);
      }
    }
  }

  lemma {:induction false} RetryingWasLeased(cfg: Config, retain: int, calls: seq<Call>, k: Key)
    requires cfg.Valid() && PossibleRun(Fresh(cfg, retain), calls)
             && IsRetrying(After(Fresh(cfg, retain), calls).store, k)
    ensures After(Fresh(cfg, retain), calls).store.execs[k].attempt >= 1
  {
    LiveEqualsReplay(cfg, retain, calls);
    ReplayedShapes(retain, After(Fresh(cfg, retain), calls).log, k);
  }

  /** Such a run: two submits, a lease of the first, and a failure whose retry does not reach the log. */
  lemma {:induction false} RetryCanBeLost(cfg: Config, turn: Turn) returns (calls: seq<Call>)
    requires cfg.Valid() && turn.ok
    ensures PossibleRun(Fresh(cfg, 0), calls) && IsRetrying(After(Fresh(cfg, 0), calls).store, "a")
  {
    var a, b := Spec("a", "t", "", 2, 0), Spec("b", "t", "", 2, 0);
    var leased, c := WorkOrder.FirstIsLeased(cfg, a, b, turn);
    RunSettles(cfg, 0, leased);
    var fail := LosesRetry(c, turn);
    RunMore(Fresh(cfg, 0), leased, fail);
    calls := leased + [fail];
  }

  lemma {:induction false} LosesRetry(c: Coord, turn: Turn) returns (call: Call)
    requires Settled(c) && Holds(c.store, "a", "w", 1) && turn.ok
    ensures Possible(c, call) && IsRetrying(Make(c, call).store, "a")
  {
    var lost := Turn(0, false);
    call := CGiveUp("a", "w", 1, "", true, turn, lost);
    var d := MadeGiveUp(c, "a", "w", 1, "", true, turn, lost);
    LostRetryLeavesRetryingIff(c, "a", "w", 1, "", true, turn, lost);
  }

  lemma {:induction false} MadeGiveUp(c: Coord, k: Key, worker: string, attempt: int, error: string, retryable: bool,
                                      turn: Turn, turn2: Turn)
    returns (d: Coord)
    ensures d == GiveUp(c, k, worker, attempt, error, retryable, turn, turn2)
    ensures Make(c, CGiveUp(k, worker, attempt, error, retryable, turn, turn2)) == d
  {
    d := GiveUp(c, k, worker, attempt, error, retryable, turn, turn2);
  }
}
