/**
 Concurrent completion claims at lock granularity (internal/workflow/coordinator.go, Complete, over
 internal/workflow/store.go): any number of claims, each split into BeginComplete, publish, Apply or
 AbortComplete, interleaved with arbitrary applied events, reservations and releases.
 */
module CompletionGate {
  import opened Fold
  import opened Store
  import opened Coordinator

  datatype Phase =
    | Begun                      // the fence is up, nothing published yet
    | Published(at: Time)        // the log took the event, the fold is still to come
    | Aborting                   // the publish failed, the fence is still up
    | Accepted                   // returned accepted = true
    | Denied(duplicate: bool)   // returned accepted = false
    | Errored                    // returned an error

  datatype Claim = Claim(key: Key, worker: string, attempt: int, result: string, phase: Phase)

  datatype Sys = Sys(store: Store.State, claims: map<nat, Claim>)

  datatype GateStep =
    | BeginStep(id: nat, key: Key, worker: string, attempt: int, result: string)
    | PublishStep(id: nat, at: Time, ok: bool)
    | FoldStep(id: nat)
    | AbortStep(id: nat)
    | OtherStep(op: Op)

  predicate Enabled(s: Sys, step: GateStep) {
    match step
    case BeginStep(id, _, _, _, _) => id !in s.claims
    case PublishStep(id, _, _) => id in s.claims && s.claims[id].phase == Begun
    case FoldStep(id) => id in s.claims && s.claims[id].phase.Published?
    case AbortStep(id) => id in s.claims && s.claims[id].phase == Aborting
    case OtherStep(op) => op.DoApply? || op.DoReserve? || op.DoUnreserve?
  }

  function Move(s: Sys, id: nat, phase: Phase): Sys
    requires id in s.claims
  {
    s.(claims := s.claims[id := s.claims[id].(phase := phase)])
  }

  function Do1(s: Sys, step: GateStep): Sys
    requires Enabled(s, step)
  {
    match step
    case BeginStep(id, key, worker, attempt, result) =>
      var done := key in s.store.execs && s.store.execs[key].status == Completed;
      var phase := if MayComplete(s.store, key, attempt) then Begun else Denied(done);
      Sys(BeginComplete(s.store, key, attempt), s.claims[id := Claim(key, worker, attempt, result, phase)])
    case PublishStep(id, at, ok) => Move(s, id, if ok then Published(at) else Aborting)
    case FoldStep(id) =>
      var c := s.claims[id];
      Move(s, id, Accepted).(store := Apply(s.store, CompleteEvent(c.key, c.worker, c.attempt, c.result, c.phase.at)))
    case AbortStep(id) => Move(s, id, Errored).(store := AbortComplete(s.store, s.claims[id].key))
    case OtherStep(op) => s.(store := Do(s.store, op))
  }

  predicate EnabledRun(s: Sys, steps: seq<GateStep>)
    decreases |steps|, 0
  {
    steps == [] || (EnabledRun(s, steps[..|steps| - 1]) && Enabled(DoAll(s, steps[..|steps| - 1]), steps[|steps| - 1]))
  }

  function DoAll(s: Sys, steps: seq<GateStep>): Sys
    requires EnabledRun(s, steps)
    decreases |steps|, 1
  {
    if steps == [] then s else Do1(DoAll(s, steps[..|steps| - 1]), steps[|steps| - 1])
  }

  function Start(retain: int): Sys {
    Sys(Store.Empty(retain), map[])
  }

  // ---------------------------------------------------------------- the fence

  /** A claim that got through the gate and has not backed out. */
  predicate Through(c: Claim) {
    c.phase.Begun? || c.phase.Published? || c.phase.Aborting? || c.phase.Accepted?
  }

  predicate Fenced(s: Store.State, k: Key) {
    k in s.execs && (s.execs[k].completing || Terminal(s.execs[k]))
  }

  ghost predicate OneThrough(s: Sys) {
    && s.store.retain <= 0
    && (forall i :: i in s.claims && Through(s.claims[i]) ==> Fenced(s.store, s.claims[i].key))
    && (forall i, j :: (i in s.claims && j in s.claims && Through(s.claims[i]) && Through(s.claims[j])
                        && s.claims[i].key == s.claims[j].key) ==> i == j)
  }

  lemma {:induction false} ApplyKeepsFence(s: Store.State, e: Event, k: Key)
    requires s.retain <= 0 && Fenced(s, k)
    ensures Fenced(Apply(s, e), k) && Apply(s, e).retain == s.retain
  {
    if Changes(s, e) && !e.body.Submitted? {
      PutStores(s, e.key, Step(s.execs[e.key], e));
    }
  }

  lemma {:induction false} OtherKeepsFence(s: Store.State, op: Op, k: Key)
    requires s.retain <= 0 && Fenced(s, k) && (op.DoApply? || op.DoReserve? || op.DoUnreserve?)
    ensures Fenced(Do(s, op), k)
  {
    if op.DoApply? {
      ApplyKeepsFence(s, op.e, k);
    }
  }

  lemma {:induction false} DoKeepsRetain(s: Store.State, op: Op)
    ensures Do(s, op).retain == s.retain
  {
  }

  lemma {:induction false} StepKeepsOneThrough(s: Sys, step: GateStep)
    requires OneThrough(s) && Enabled(s, step)
    ensures OneThrough(Do1(s, step))
  {
    var f := Do1(s, step);
    match step
    case BeginStep(id, key, _, attempt, _) =>
    case PublishStep(id, _, _) =>
    case FoldStep(id) =>
      var c := s.claims[id];
      var e := CompleteEvent(c.key, c.worker, c.attempt, c.result, c.phase.at);
      DoKeepsRetain(s.store, DoApply(e));
      forall i | i in f.claims && Through(f.claims[i])
        ensures Fenced(f.store, f.claims[i].key)
      {
        ApplyKeepsFence(s.store, e, s.claims[i].key);
      }
    case AbortStep(id) =>
    case OtherStep(op) =>
      DoKeepsRetain(s.store, op);
      forall i | i in f.claims && Through(f.claims[i])
        ensures Fenced(f.store, f.claims[i].key)
      {
        OtherKeepsFence(s.store, op, s.claims[i].key);
      }
  }

  lemma {:induction false} RunKeepsOneThrough(s: Sys, steps: seq<GateStep>)
    requires OneThrough(s) && EnabledRun(s, steps)
    ensures OneThrough(DoAll(s, steps))
  {
    if steps != [] {
      RunKeepsOneThrough(s, steps[..|steps| - 1]);
      StepKeepsOneThrough(DoAll(s, steps[..|steps| - 1]), steps[|steps| - 1]);
    }
  }

  /**
   Under every interleaving, with retention off, at most one claim per execution ever returns
   accepted = true.
   */
  lemma {:induction false} AcceptedAtMostOnce(retain: int, steps: seq<GateStep>, i: nat, j: nat)
    requires retain <= 0 && EnabledRun(Start(retain), steps)
    requires var c := DoAll(Start(retain), steps).claims;
             i in c && j in c && c[i].phase == Accepted && c[j].phase == Accepted && c[i].key == c[j].key
    ensures i == j
  {
    RunKeepsOneThrough(Start(retain), steps);
  }

  // ---------------------------------------------------------------- what acceptance means

  predicate CompletedWith(x: Exec, result: string) {
    x.status == Completed && x.result == result
  }

  /**
   A claim that the log took is reported accepted whether or not the fold takes its event. It leaves
   the execution completed with its own result exactly when, at the fold, the execution is live and
   still on the claimed attempt, or was already completed with that result.
   */
  lemma {:induction false} AcceptedTakesEffectIff(s: Sys, id: nat)
    requires OneThrough(s) && Enabled(s, FoldStep(id))
    ensures var c, f := s.claims[id], Do1(s, FoldStep(id));
            var x := s.store.execs[c.key];
            && f.claims[id].phase == Accepted && c.key in f.store.execs
            && (CompletedWith(f.store.execs[c.key], c.result) <==>
                (!Terminal(x) && x.attempt == c.attempt && c.attempt != 0) || CompletedWith(x, c.result))
            && (f.store.execs[c.key] == x || CompletedWith(f.store.execs[c.key], c.result))
  {
    var c := s.claims[id];
    var x := s.store.execs[c.key];
    var e := CompleteEvent(c.key, c.worker, c.attempt, c.result, c.phase.at);
    if Accepts(x, e) {
      PutStores(s.store, c.key, Step(x, e));
    }
  }

  /**
   An execution whose accepted claim did not take effect is wedged: while it is live no later claim
   on it gets through, and no sweep reclaims its lease.
   */
  lemma {:induction false} AcceptedButLiveIsWedged(s: Sys, id: nat, steps: seq<GateStep>, attempt: int, now: Time)
    requires OneThrough(s) && EnabledRun(s, steps)
    requires id in s.claims && s.claims[id].phase == Accepted
    ensures var f, k := DoAll(s, steps), s.claims[id].key;
            k in f.store.execs
            && (Terminal(f.store.execs[k]) || (!MayComplete(f.store, k, attempt) && k !in Expired(f.store, now)))
  {
    RunKeepsOneThrough(s, steps);
    AcceptedStays(s, id, steps);
  }

  lemma {:induction false} AcceptedStays(s: Sys, id: nat, steps: seq<GateStep>)
    requires EnabledRun(s, steps)
    requires id in s.claims && s.claims[id].phase == Accepted
    ensures id in DoAll(s, steps).claims && DoAll(s, steps).claims[id] == s.claims[id]
  {
    if steps != [] {
      AcceptedStays(s, id, steps[..|steps| - 1]);
    }
  }

  lemma {:induction false} OneMore(s: Sys, steps: seq<GateStep>, step: GateStep)
    requires EnabledRun(s, steps) && Enabled(DoAll(s, steps), step)
    ensures EnabledRun(s, steps + [step]) && DoAll(s, steps + [step]) == Do1(DoAll(s, steps), step)
  {
    assert (steps + [step])[..|steps|] == steps;
  }

  /** One more applied event that leaves its execution live. */
  lemma {:induction false} ApplyOneMore(s: Sys, steps: seq<GateStep>, e: Event) returns (more: seq<GateStep>)
    requires EnabledRun(s, steps) && Changes(DoAll(s, steps).store, e)
    requires e.body.Submitted? || !Terminal(Step(DoAll(s, steps).store.execs[e.key], e))
    ensures EnabledRun(s, more)
    ensures var b, f := DoAll(s, steps), DoAll(s, more);
            && f.claims == b.claims && f.store.retain == b.store.retain && f.store.terminalQ == b.store.terminalQ
            && f.store.execs
               == b.store.execs[e.key := if e.body.Submitted? then NewExec(e) else Step(b.store.execs[e.key], e)]
  {
    OneMore(s, steps, OtherStep(DoApply(e)));
    more := steps + [OtherStep(DoApply(e))];
  }

  /** A submit and a first lease for a key the store does not hold. */
  lemma {:induction false} SubmitAndLease(s: Sys, steps: seq<GateStep>, k: Key) returns (more: seq<GateStep>, y: Exec)
    requires EnabledRun(s, steps) && k !in DoAll(s, steps).store.execs
    ensures EnabledRun(s, more)
    ensures var b, f := DoAll(s, steps), DoAll(s, more);
            && f.claims == b.claims && f.store.retain == b.store.retain && f.store.terminalQ == b.store.terminalQ
            && f.store.execs == b.store.execs[k := y]
    ensures y.status == Running && y.attempt == 1 && !y.completing
  {
    var sub := Event(k, "c", 0, 0, Submitted("t", "", 3, 1));
    var lease := Event(k, "w", 1, 0, Leased("w"));
    y := Step(NewExec(sub), lease);
    var s1 := ApplyOneMore(s, steps, sub);
    more := ApplyOneMore(s, s1, lease);
    var b := DoAll(s, steps);
    assert b.store.execs[k := NewExec(sub)][k := y] == b.store.execs[k := y];
  }

  /** A claim on the current attempt that the log takes, up to the point before the fold. */
  lemma {:induction false} BeginAndPublish(s: Sys, steps: seq<GateStep>, k: Key, attempt: int, id: nat)
    returns (more: seq<GateStep>)
    requires EnabledRun(s, steps) && MayComplete(DoAll(s, steps).store, k, attempt) && id !in DoAll(s, steps).claims
    ensures EnabledRun(s, more)
    ensures var b, f := DoAll(s, steps), DoAll(s, more);
            && f.claims == b.claims[id := Claim(k, "w", attempt, "r", Published(0))]
            && f.store == SetCompleting(b.store, k, true)
  {
    var begin := BeginStep(id, k, "w", attempt, "r");
    OneMore(s, steps, begin);
    OneMore(s, steps + [begin], PublishStep(id, 0, true));
    more := steps + [begin] + [PublishStep(id, 0, true)];
    var b := DoAll(s, steps);
    assert b.claims[id := Claim(k, "w", attempt, "r", Begun)][id := Claim(k, "w", attempt, "r", Published(0))]
           == b.claims[id := Claim(k, "w", attempt, "r", Published(0))];
  }

  /**
   Such a run exists: while the event is on its way, the lease is retried and granted again. The claim
   returns accepted = true, and the execution is running with its fence up.
   */
  lemma {:induction false} AcceptedWithoutEffect()
    ensures exists steps :: EnabledRun(Start(0), steps)
              && var f := DoAll(Start(0), steps);
                 && 1 in f.claims && f.claims[1].phase == Accepted && "k" in f.store.execs
                 && f.store.execs["k"].status == Running && f.store.execs["k"].completing
  {
    var steps := OvertakenWhilePublished();
    RunKeepsOneThrough(Start(0), steps);
    OneMore(Start(0), steps, FoldStep(1));
    AcceptedTakesEffectIff(DoAll(Start(0), steps), 1);
  }

  lemma {:induction false} OvertakenWhilePublished() returns (steps: seq<GateStep>)
    ensures EnabledRun(Start(0), steps)
    ensures var f := DoAll(Start(0), steps);
            && 1 in f.claims && f.claims[1] == Claim("k", "w", 1, "r", Published(0)) && "k" in f.store.execs
            && f.store.execs["k"].status == Running && f.store.execs["k"].attempt == 2 && f.store.execs["k"].completing
  {
    var s1, y := SubmitAndLease(Start(0), [], "k");
    var s2 := BeginAndPublish(Start(0), s1, "k", 1, 1);
    var s3 := ApplyOneMore(Start(0), s2, Event("k", "c", 1, 0, Retry("r")));
    steps := ApplyOneMore(Start(0), s3, Event("k", "w", 2, 0, Leased("w")));
  }
}
