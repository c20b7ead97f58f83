/** What becomes of completion claims over whole interleaved runs (see module CompletionGate). */
module CompletionFate {
  import opened Fold
  import opened Store
  import opened Coordinator
  import opened CompletionGate

  // ---------------------------------------------------------------- when an accepted claim completes its execution

  /** Through the gate, and its event is not folded yet. */
  predicate Pendant(c: Claim) {
    c.phase.Begun? || c.phase.Published? || c.phase.Aborting?
  }

  /** The execution is as the claim left it: live on its attempt, or completed on it with its result. */
  predicate Kept(x: Exec, c: Claim) {
    x.attempt == c.attempt && (!Terminal(x) || CompletedWith(x, c.result))
  }

  /**
   An applied event takes the execution away from a claim that is not folded yet: a new lease, a
   death, or another result.
   */
  predicate Displaces(s: Sys, step: GateStep, id: nat) {
    && id in s.claims && Pendant(s.claims[id]) && step.OtherStep? && step.op.DoApply?
    && step.op.e.key == s.claims[id].key && Changes(s.store, step.op.e)
    && Ousts(step.op.e, s.claims[id].result)
  }

  predicate Ousts(e: Event, result: string) {
    e.body.Leased? || e.body.Dead? || (e.body.Complete? && e.body.result != result)
  }

  /** Some event did so during the run. */
  predicate Displaced(steps: seq<GateStep>, id: nat)
    requires EnabledRun(Start(0), steps)
  {
    steps != [] && (
      var n := |steps| - 1;
      Displaced(steps[..n], id) || Displaces(DoAll(Start(0), steps[..n]), steps[n], id))
  }

  lemma {:induction false} NotBegunNotDisplaced(steps: seq<GateStep>, id: nat)
    requires EnabledRun(Start(0), steps) && id !in DoAll(Start(0), steps).claims
    ensures !Displaced(steps, id)
  {
    if steps != [] {
      NotBegunNotDisplaced(steps[..|steps| - 1], id);
    }
  }

  /** One event on an execution that some claim is about. */
  lemma {:induction false} KeptStep(x: Exec, e: Event, c: Claim)
    requires x.attempt >= c.attempt && Accepts(x, e)
    ensures Step(x, e).attempt >= c.attempt
    ensures Kept(Step(x, e), c) <==> Kept(x, c) && !Ousts(e, c.result)
  {
  }

  /** The fate of one claim so far. */
  ghost predicate Fated(s: Sys, id: nat, displaced: bool) {
    id in s.claims && Through(s.claims[id]) ==>
      var c := s.claims[id];
      && c.attempt != 0 && c.key in s.store.execs && s.store.execs[c.key].attempt >= c.attempt
      && (Kept(s.store.execs[c.key], c) <==> !displaced)
      && (c.phase.Accepted? && !displaced ==> CompletedWith(s.store.execs[c.key], c.result))
  }

  lemma {:induction false} EventKeepsFate(s: Sys, e: Event, id: nat, displaced: bool)
    requires OneThrough(s) && Fated(s, id, displaced) && id in s.claims && Through(s.claims[id])
    ensures var f := s.(store := Apply(s.store, e));
            Fated(f, id, displaced || Displaces(s, OtherStep(DoApply(e)), id))
  {
    var c := s.claims[id];
    var x := s.store.execs[c.key];
    ApplyKeepsFence(s.store, e, c.key);
    ApplyTouchesOneKey(s.store, e, c.key);
    if e.key == c.key && Changes(s.store, e) {
      KeptStep(x, e, c);
    }
  }

  lemma {:induction false} FoldDecidesFate(s: Sys, id: nat, displaced: bool)
    requires OneThrough(s) && Fated(s, id, displaced) && Enabled(s, FoldStep(id))
    ensures Fated(Do1(s, FoldStep(id)), id, displaced)
  {
    AcceptedTakesEffectIff(s, id);
    var c := s.claims[id];
    var e := CompleteEvent(c.key, c.worker, c.attempt, c.result, c.phase.at);
    ApplyTouchesOneKey(s.store, e, c.key);
  }

  lemma {:induction false} StepKeepsFate(s: Sys, step: GateStep, id: nat, displaced: bool)
    requires OneThrough(s) && Enabled(s, step) && Fated(s, id, displaced) && (id !in s.claims ==> !displaced)
    ensures Fated(Do1(s, step), id, displaced || Displaces(s, step, id))
  {
    match step
    case FoldStep(j) =>
      if j == id {
        FoldDecidesFate(s, id, displaced);
      } else if id in s.claims && Through(s.claims[id]) {
        var c := s.claims[j];
        var e := CompleteEvent(c.key, c.worker, c.attempt, c.result, c.phase.at);
        EventKeepsFate(s, e, id, displaced);
      }
    case OtherStep(op) =>
      if op.DoApply? && id in s.claims && Through(s.claims[id]) {
        EventKeepsFate(s, op.e, id, displaced);
      }
    case _ =>
  }

  lemma {:induction false} RunKeepsFate(steps: seq<GateStep>, id: nat)
    requires EnabledRun(Start(0), steps)
    ensures Fated(DoAll(Start(0), steps), id, Displaced(steps, id))
  {
    if steps != [] {
      var n := |steps| - 1;
      var s := DoAll(Start(0), steps[..n]);
      RunKeepsFate(steps[..n], id);
      RunKeepsOneThrough(Start(0), steps[..n]);
      if id !in s.claims {
        NotBegunNotDisplaced(steps[..n], id);
      }
      StepKeepsFate(s, steps[n], id, Displaced(steps[..n], id));
    }
  }

  /**
   Under every interleaving with retention off: at every point after a claim was accepted, its
   execution is completed on its attempt with its result exactly when, between the gate and the
   fold, no lease, death or completion with another result was applied to it.
   */
  lemma {:induction false} AcceptedIsCompletedIff(steps: seq<GateStep>, id: nat)
    requires EnabledRun(Start(0), steps)
    requires id in DoAll(Start(0), steps).claims && DoAll(Start(0), steps).claims[id].phase == Accepted
    ensures var s := DoAll(Start(0), steps);
            var c := s.claims[id];
            && c.key in s.store.execs
            && (s.store.execs[c.key].attempt == c.attempt && CompletedWith(s.store.execs[c.key], c.result)
                <==> !Displaced(steps, id))
  {
    RunKeepsFate(steps, id);
  }

  // ---------------------------------------------------------------- acceptances and submissions

  /** The claims on a key that got through the gate and have not backed out. */
  ghost function ThroughOn(claims: map<nat, Claim>, k: Key): set<nat> {
    set id | id in claims && Through(claims[id]) && claims[id].key == k
  }

  ghost function AcceptedOn(claims: map<nat, Claim>, k: Key): set<nat> {
    set id | id in claims && claims[id].phase == Accepted && claims[id].key == k
  }

  /** A claim on the key could still get through. */
  predicate Open(s: Store.State, k: Key) {
    k in s.execs && !Terminal(s.execs[k]) && !s.execs[k].completing
  }

  /** How many times an execution was founded under the key. */
  function FoundedCount(retain: int, steps: seq<GateStep>, k: Key): nat
    requires EnabledRun(Start(retain), steps)
  {
    if steps == [] then 0
    else
      var n := |steps| - 1;
      FoundedCount(retain, steps[..n], k)
      + (if FoundsKey(DoAll(Start(retain), steps[..n]).store, steps[n], k) then 1 else 0)
  }

  predicate FoundsKey(s: Store.State, step: GateStep, k: Key) {
    step.OtherStep? && step.op.DoApply? && step.op.e.key == k && step.op.e.body.Submitted? && Changes(s, step.op.e)
  }

  lemma {:induction false} EventOpens(s: Store.State, e: Event, k: Key)
    ensures Open(Apply(s, e), k) ==> Open(s, k) || (e.key == k && e.body.Submitted? && Changes(s, e))
  {
    if k in Apply(s, e).execs {
      ApplyTouchesOneKey(s, e, k);
    }
  }

  /** Opening the gate for a key takes a submit, or a claim that backs out. */
  lemma {:induction false} StepOpens(s: Sys, step: GateStep, k: Key)
    requires Enabled(s, step)
    ensures Open(Do1(s, step).store, k) ==>
      Open(s.store, k) || FoundsKey(s.store, step, k) || (step.AbortStep? && s.claims[step.id].key == k)
  {
    match step
    case FoldStep(id) =>
      var c := s.claims[id];
      EventOpens(s.store, CompleteEvent(c.key, c.worker, c.attempt, c.result, c.phase.at), k);
    case OtherStep(op) =>
      if op.DoApply? {
        EventOpens(s.store, op.e, k);
      }
    case _ =>
  }

  /** A claim gets through only where the gate is open, and closes it; one that backs out leaves. */
  lemma {:induction false} StepCounts(s: Sys, step: GateStep, k: Key)
    requires Enabled(s, step)
    ensures var f := Do1(s, step);
            var was, now := ThroughOn(s.claims, k), ThroughOn(f.claims, k);
            if step.BeginStep? && step.key == k && MayComplete(s.store, k, step.attempt) then
              now == was + {step.id} && step.id !in was && Open(s.store, k) && !Open(f.store, k)
            else if step.AbortStep? && s.claims[step.id].key == k then now == was - {step.id} && step.id in was
            else now == was
  {
  }

  ghost predicate Booked(s: Sys, k: Key, founded: nat) {
    |ThroughOn(s.claims, k)| + (if Open(s.store, k) then 1 else 0) <= founded
  }

  lemma {:induction false} RunBooks(retain: int, steps: seq<GateStep>, k: Key)
    requires EnabledRun(Start(retain), steps)
    ensures Booked(DoAll(Start(retain), steps), k, FoundedCount(retain, steps, k))
  {
    if steps == [] {
      assert ThroughOn(map[], k) == {};
    } else {
      var n := |steps| - 1;
      RunBooks(retain, steps[..n], k);
      StepBooks(DoAll(Start(retain), steps[..n]), steps[n], k, FoundedCount(retain, steps[..n], k));
    }
  }

  lemma {:induction false} StepBooks(s: Sys, step: GateStep, k: Key, founded: nat)
    requires Enabled(s, step) && Booked(s, k, founded)
    ensures Booked(Do1(s, step), k, founded + (if FoundsKey(s.store, step, k) then 1 else 0))
  {
    StepCounts(s, step, k);
    StepOpens(s, step, k);
  }

  /** For every retention: a key is accepted no more often than executions were founded under it. */
  lemma {:induction false} AcceptedPerSubmission(retain: int, steps: seq<GateStep>, k: Key)
    requires EnabledRun(Start(retain), steps)
    ensures var claims := DoAll(Start(retain), steps).claims;
            |AcceptedOn(claims, k)| <= FoundedCount(retain, steps, k)
  {
    var claims := DoAll(Start(retain), steps).claims;
    RunBooks(retain, steps, k);
    Smaller(AcceptedOn(claims, k), ThroughOn(claims, k));
  }

  lemma {:induction false} Smaller(a: set<nat>, b: set<nat>)
    requires a <= b
    ensures |a| <= |b|
  {
    assert b == a + (b - a);
  }
}
