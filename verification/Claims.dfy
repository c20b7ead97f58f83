/**
 What a completion claim comes to (internal/workflow/coordinator.go, Complete, and
 internal/workflow/store.go, BeginComplete): who passes the gate, and what passing it leads to.
 */
module Claims {
  import opened Fold
  import opened Options
  import opened Store
  import opened Coordinator
  import opened CompletionGate
  import opened Outcomes

  /** The execution is pending, running or retrying on the attempt named, and no other claim is under way. */
  ghost predicate Open(s: Store.State, k: Key, attempt: int) {
    && attempt != 0 && k in s.execs && s.execs[k].attempt == attempt && !s.execs[k].completing
    && (s.execs[k].status == Pending || s.execs[k].status == Running || s.execs[k].status == Retrying)
  }

  /** A claim gets through exactly when the execution is open to it, and is a duplicate exactly of a completed one. */
  lemma {:induction false} BeginOutcome(s: Sys, id: nat, key: Key, worker: string, attempt: int, result: string)
    requires id !in s.claims
    ensures var f, passes := Do1(s, BeginStep(id, key, worker, attempt, result)), Open(s.store, key, attempt);
            var done := key in s.store.execs && s.store.execs[key].status == Completed;
            && f.claims == s.claims[id := Claim(key, worker, attempt, result, if passes then Begun else Denied(done))]
            && f.store == (if passes then
                             s.store.(execs := s.store.execs[key := s.store.execs[key].(completing := true)])
                           else s.store)
  {
  }

  lemma {:induction false} GateKeepsIndex(retain: int, steps: seq<GateStep>)
    requires EnabledRun(Start(retain), steps)
    ensures Indexed(DoAll(Start(retain), steps).store)
  {
    if steps == [] {
      EmptyIsIndexed(retain);
    } else {
      var n := |steps| - 1;
      GateKeepsIndex(retain, steps[..n]);
      StepKeepsIndex(DoAll(Start(retain), steps[..n]), steps[n]);
    }
  }

  /** What a step does to the store, if anything. */
  function StoreOp(s: Sys, step: GateStep): Option<Op>
    requires Enabled(s, step)
  {
    match step
    case BeginStep(_, k, _, a, _) => Some(DoBegin(k, a))
    case PublishStep(_, _, _) => None
    case FoldStep(id) =>
      var c := s.claims[id];
      Some(DoApply(CompleteEvent(c.key, c.worker, c.attempt, c.result, c.phase.at)))
    case AbortStep(id) => Some(DoAbort(s.claims[id].key))
    case OtherStep(op) => Some(op)
  }

  lemma {:induction false} StepIsOp(s: Sys, step: GateStep)
    requires Enabled(s, step)
    ensures Do1(s, step).store
            == (if StoreOp(s, step).Some? then Store.Do(s.store, StoreOp(s, step).value) else s.store)
  {
  }

  lemma {:induction false} StepKeepsIndex(s: Sys, step: GateStep)
    requires Indexed(s.store) && Enabled(s, step)
    ensures Indexed(Do1(s, step).store)
  {
    StepIsOp(s, step);
    if StoreOp(s, step).Some? {
      var f := DoKeepsIndex(s.store, StoreOp(s, step).value);
    }
  }

  /** The three steps of a claim that nobody comes between. */
  function Alone(id: nat, key: Key, worker: string, attempt: int, result: string, at: Time): seq<GateStep> {
    [BeginStep(id, key, worker, attempt, result), PublishStep(id, at, true), FoldStep(id)]
  }

  lemma {:induction false} ThreeMore(s: Sys, steps: seq<GateStep>, a: GateStep, b: GateStep, c: GateStep)
    requires EnabledRun(s, steps) && Enabled(DoAll(s, steps), a) && Enabled(Do1(DoAll(s, steps), a), b)
    requires Enabled(Do1(Do1(DoAll(s, steps), a), b), c)
    ensures EnabledRun(s, steps + [a, b, c])
    ensures DoAll(s, steps + [a, b, c]) == Do1(Do1(Do1(DoAll(s, steps), a), b), c)
  {
    OneMore(s, steps, a);
    OneMore(s, steps + [a], b);
    OneMore(s, steps + [a] + [b], c);
    assert steps + [a] + [b] + [c] == steps + [a, b, c];
  }

  /**
   After any run, with any retention: a claim on an execution that is open to it, published and
   folded with nobody in between, is accepted, and the execution is completed with its result.
   */
  lemma {:induction false} OpenClaimCompletes(retain: int, steps: seq<GateStep>, id: nat, key: Key, worker: string,
                                              attempt: int, result: string, at: Time)
    requires EnabledRun(Start(retain), steps) && id !in DoAll(Start(retain), steps).claims
    requires Open(DoAll(Start(retain), steps).store, key, attempt)
    ensures EnabledRun(Start(retain), steps + Alone(id, key, worker, attempt, result, at))
    ensures var s, f := DoAll(Start(retain), steps),
                        DoAll(Start(retain), steps + Alone(id, key, worker, attempt, result, at));
            && f.claims == s.claims[id := Claim(key, worker, attempt, result, Accepted)]
            && Becomes(s.store, f.store, key, Done(s.store.execs[key], worker, result, at))
  {
    var s := DoAll(Start(retain), steps);
    var begin := BeginStep(id, key, worker, attempt, result);
    var f := AloneLeads(s, id, key, worker, attempt, result, at);
    ThreeMore(Start(retain), steps, begin, PublishStep(id, at, true), FoldStep(id));
    GateKeepsIndex(retain, steps);
    FoldedClaim(s.store, key, worker, attempt, result, at);
  }

  /** The fence is up. */
  function Fence(s: Store.State, k: Key): Store.State
    requires k in s.execs
  {
    s.(execs := s.execs[k := s.execs[k].(completing := true)])
  }

  lemma {:induction false} AloneLeads(s: Sys, id: nat, key: Key, worker: string, attempt: int, result: string, at: Time)
    returns (f: Sys)
    requires id !in s.claims && Open(s.store, key, attempt)
    ensures var begin, publish, fold :=
              BeginStep(id, key, worker, attempt, result), PublishStep(id, at, true), FoldStep(id);
            && Enabled(s, begin) && Enabled(Do1(s, begin), publish) && Enabled(Do1(Do1(s, begin), publish), fold)
            && f == Do1(Do1(Do1(s, begin), publish), fold)
    ensures f == Sys(Apply(Fence(s.store, key), CompleteEvent(key, worker, attempt, result, at)),
                     s.claims[id := Claim(key, worker, attempt, result, Accepted)])
  {
    BeginOutcome(s, id, key, worker, attempt, result);
    var claim := Claim(key, worker, attempt, result, Begun);
    var s1 := Do1(s, BeginStep(id, key, worker, attempt, result));
    var s2 := Do1(s1, PublishStep(id, at, true));
    f := Do1(s2, FoldStep(id));
    assert s.claims[id := claim][id := claim.(phase := Published(at))][id := claim.(phase := Accepted)]
           == s.claims[id := claim.(phase := Accepted)];
  }

  lemma {:induction false} StepDone(x: Exec, e: Event)
    requires x.status == Pending || x.status == Running || x.status == Retrying
    requires e.body.Complete? && e.attempt == x.attempt != 0 && !x.completing
    ensures Step(x.(completing := true), e) == Done(x, e.body.worker, e.body.result, e.at)
    ensures Accepts(x.(completing := true), e)
  {
  }

  lemma {:induction false} FoldedClaim(s: Store.State, key: Key, worker: string, attempt: int, result: string, at: Time)
    requires Indexed(s) && Open(s, key, attempt)
    ensures Becomes(s, Apply(Fence(s, key), CompleteEvent(key, worker, attempt, result, at)), key,
                    Done(s.execs[key], worker, result, at))
  {
    var b, e := Fence(s, key), CompleteEvent(key, worker, attempt, result, at);
    StepDone(s.execs[key], e);
    FenceRetires(s, key);
    ApplyBecomes(b, e);
    FencedBecomes(s, key, Apply(b, e), Done(s.execs[key], worker, result, at));
  }

  lemma {:induction false} FenceRetires(s: Store.State, key: Key)
    requires Retired(s) && key in s.execs
    ensures Retired(Fence(s, key))
  {
  }

  lemma {:induction false} FencedBecomes(s: Store.State, key: Key, f: Store.State, y: Exec)
    requires key in s.execs && Becomes(Fence(s, key), f, key, y)
    ensures Becomes(s, f, key, y)
  {
    var b := Fence(s, key);
    if s.retain <= 0 {
      assert b.execs[key := y] == s.execs[key := y];
    }
  }

  /** A claim that has passed the gate can always return. */
  lemma {:induction false} ClaimCanReturn(s: Sys, steps: seq<GateStep>, id: nat, ok: bool) returns (more: seq<GateStep>)
    requires EnabledRun(s, steps) && id in DoAll(s, steps).claims
    requires var phase := DoAll(s, steps).claims[id].phase; phase.Begun? || phase.Published? || phase.Aborting?
    ensures EnabledRun(s, more) && steps <= more && id in DoAll(s, more).claims
    ensures var was, phase := DoAll(s, steps).claims[id].phase, DoAll(s, more).claims[id].phase;
            phase == if was.Published? || (was.Begun? && ok) then Accepted else Errored
  {
    more := steps;
    if DoAll(s, more).claims[id].phase.Begun? {
      OneMore(s, more, PublishStep(id, 0, ok));
      more := more + [PublishStep(id, 0, ok)];
    }
    var last := if DoAll(s, more).claims[id].phase.Published? then FoldStep(id) else AbortStep(id);
    OneMore(s, more, last);
    more := more + [last];
  }

  /** A claim whose publish failed takes its fence down and leaves everything else alone. */
  lemma {:induction false} AbortOutcome(s: Sys, id: nat)
    requires id in s.claims && s.claims[id].phase == Aborting && s.claims[id].key in s.store.execs
    ensures var f, key := Do1(s, AbortStep(id)), s.claims[id].key;
            && f.claims == s.claims[id := s.claims[id].(phase := Errored)]
            && f.store == s.store.(execs := s.store.execs[key := s.store.execs[key].(completing := false)])
  {
  }

  /**
   So a completion that failed to publish can be tried again: after any run in which the execution is
   still live on the attempt, a second claim is accepted and the execution is completed with its result.
   */
  lemma {:induction false} FailedClaimCanBeRepeated(retain: int, steps: seq<GateStep>, id: nat, again: nat,
                                                    worker: string, result: string, at: Time)
    returns (more: seq<GateStep>)
    requires EnabledRun(Start(retain), steps)
    requires var s := DoAll(Start(retain), steps);
             && id in s.claims && again !in s.claims && s.claims[id].phase == Aborting
             && var c := s.claims[id];
                && c.attempt != 0 && c.key in s.store.execs && s.store.execs[c.key].attempt == c.attempt
                && !Terminal(s.store.execs[c.key])
    ensures EnabledRun(Start(retain), more) && steps <= more
    ensures var s, f := DoAll(Start(retain), steps), DoAll(Start(retain), more);
            var key := s.claims[id].key;
            && again in f.claims && f.claims[again].phase == Accepted
            && key in f.store.execs && f.store.execs[key].status == Completed && f.store.execs[key].result == result
  {
    var s := DoAll(Start(retain), steps);
    var c := s.claims[id];
    AbortOutcome(s, id);
    OneMore(Start(retain), steps, AbortStep(id));
    var aborted := steps + [AbortStep(id)];
    OpenClaimCompletes(retain, aborted, again, c.key, worker, c.attempt, result, at);
    more := aborted + Alone(again, c.key, worker, c.attempt, result, at);
  }
}
