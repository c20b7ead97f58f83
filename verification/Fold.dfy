/**
 The fold of one workflow execution (internal/workflow/state.go).

 Events carry parsed payloads and integer timestamps. `Unusable` stands for every
 envelope the fold drops before looking at state: a foreign type or a payload that
 does not parse. Time is in nanoseconds and 0 is Go's zero `time.Time`.
 */
module Fold {

  type Key = string
  type Time = int

  const NANOS_PER_MS := 1_000_000

  datatype Status = Pending | Running | Retrying | Completed | Failed

  datatype Body =
    | Submitted(taskType: string, input: string, maxAttempts: int, ttlMs: int)
    | Leased(worker: string)
    | Heartbeat(worker: string)
    | Complete(worker: string, result: string)
    | Fail(worker: string, error: string, retryable: bool)
    | Retry(reason: string)
    | Dead(reason: string)
    | Unusable

  datatype Event = Event(key: Key, agent: string, attempt: int, at: Time, body: Body)

  datatype Kind = WasSubmitted | WasLeased | WasCompleted | WasFailed | WasRetried | WasKilled

  datatype Transition = Transition(kind: Kind, status: Status, attempt: int,
                                   worker: string, detail: string, at: Time)

  datatype Exec = Exec(key: Key, taskType: string, status: Status, attempt: int, maxAttempts: int,
                       leaseTtl: Time, worker: string, input: string, result: string, error: string,
                       submittedAt: Time, updatedAt: Time, leaseDeadline: Time,
                       transitions: seq<Transition>, reserved: bool, completing: bool)

  predicate Terminal(x: Exec) {
    x.status == Completed || x.status == Failed
  }

  function Record(x: Exec, kind: Kind, attempt: int, worker: string, detail: string, at: Time): Exec {
    x.(updatedAt := at,
       transitions := x.transitions + [Transition(kind, x.status, attempt, worker, detail, at)])
  }

  /** A submit envelope that the fold turns into an execution. */
  predicate Founds(e: Event) {
    e.body.Submitted? && e.body.taskType != ""
  }

  function NewExec(e: Event): Exec
    requires Founds(e)
  {
    var p := e.body;
    Record(Exec(e.key, p.taskType, Pending, 0, p.maxAttempts, p.ttlMs * NANOS_PER_MS, "", p.input, "", "",
                e.at, 0, 0, [], false, false),
           WasSubmitted, 0, e.agent, p.taskType, e.at)
  }

  /** Whether `apply` takes the event, which is also the boolean it returns. */
  predicate Accepts(x: Exec, e: Event) {
    match e.body
    case Leased(_) => !Terminal(x) && x.status == Pending && e.attempt == x.attempt + 1
    case Heartbeat(w) => x.status == Running && e.attempt == x.attempt && w == x.worker
    case Complete(_, _) => !Terminal(x) && e.attempt == x.attempt && e.attempt != 0
    case Fail(_, _, _) => !Terminal(x) && x.status == Running && e.attempt == x.attempt
    case Retry(_) => !Terminal(x) && x.status != Pending
    case Dead(_) => !Terminal(x)
    case _ => false
  }

  function Step(x: Exec, e: Event): Exec {
    if !Accepts(x, e) then x else
    match e.body
    case Leased(w) =>
      Record(x.(status := Running, attempt := e.attempt, worker := w,
                leaseDeadline := e.at + x.leaseTtl, reserved := false),
             WasLeased, e.attempt, w, "", e.at)
    case Heartbeat(_) =>
      x.(leaseDeadline := e.at + x.leaseTtl, updatedAt := e.at)
    case Complete(w, r) =>
      Record(x.(status := Completed, result := r, worker := w, completing := false),
             WasCompleted, e.attempt, w, "", e.at)
    case Fail(w, err, _) =>
      Record(x.(status := Retrying, error := err), WasFailed, e.attempt, w, err, e.at)
    case Retry(why) =>
      Record(x.(status := Pending, worker := "", leaseDeadline := 0), WasRetried, x.attempt, "", why, e.at)
    case Dead(why) =>
      Record(x.(status := Failed, error := if x.error == "" then why else x.error),
             WasKilled, x.attempt, "", why, e.at)
    case _ => x
  }

  function FoldAll(x: Exec, es: seq<Event>): Exec {
    if es == [] then x else Step(FoldAll(x, es[..|es| - 1]), es[|es| - 1])
  }

  lemma {:induction false} FoldSnoc(x: Exec, es: seq<Event>, e: Event)
    ensures FoldAll(x, es + [e]) == Step(FoldAll(x, es), e)
  {
    assert (es + [e])[..|es|] == es;
  }

  lemma {:induction false} FoldConcat(x: Exec, es: seq<Event>, fs: seq<Event>)
    ensures FoldAll(x, es + fs) == FoldAll(FoldAll(x, es), fs)
  {
    if fs == [] {
      assert es + fs == es;
    } else {
      FoldConcat(x, es, fs[..|fs| - 1]);
      assert (es + fs)[..|es + fs| - 1] == es + fs[..|fs| - 1];
    }
  }

  /** Folding events none of which the state accepts leaves it alone. */
  lemma {:induction false} FoldIdle(x: Exec, es: seq<Event>)
    requires forall i :: 0 <= i < |es| ==> !Accepts(x, es[i])
    ensures FoldAll(x, es) == x
  {
    if es != [] {
      FoldIdle(x, es[..|es| - 1]);
    }
  }

  // ---------------------------------------------------------------- fencing

  /** The attempt numbers of the leases recorded in a history, in order. */
  function LeaseAttempts(ts: seq<Transition>): seq<int> {
    if ts == [] then []
    else
      var rest := LeaseAttempts(ts[..|ts| - 1]);
      var last := ts[|ts| - 1];
      if last.kind == WasLeased then rest + [last.attempt] else rest
  }

  function CountCompleted(ts: seq<Transition>): nat {
    if ts == [] then 0
    else CountCompleted(ts[..|ts| - 1]) + (if ts[|ts| - 1].kind == WasCompleted then 1 else 0)
  }

  ghost function OneTo(n: nat): seq<int> {
    seq(n, i => i + 1)
  }

  /** How many entries a history may hold, by status and attempt. */
  function HistoryCap(status: Status, attempt: int): int {
    match status
    case Pending => 3 * attempt + 1
    case Running => 3 * attempt - 1
    case Retrying => 3 * attempt
    case _ => 3 * attempt + 2
  }

  ghost predicate Shape(x: Exec) {
    && 0 <= x.attempt
    && (x.status == Running || x.status == Retrying || x.status == Completed ==> 1 <= x.attempt)
    && LeaseAttempts(x.transitions) == OneTo(x.attempt)
    && |x.transitions| <= HistoryCap(x.status, x.attempt)
    && CountCompleted(x.transitions) == (if x.status == Completed then 1 else 0)
    && (x.status == Completed ==>
          |x.transitions| > 0 && x.transitions[|x.transitions| - 1].kind == WasCompleted)
  }

  lemma {:induction false} HistoryStep(ts: seq<Transition>, t: Transition)
    ensures LeaseAttempts(ts + [t]) == LeaseAttempts(ts) + (if t.kind == WasLeased then [t.attempt] else [])
    ensures CountCompleted(ts + [t]) == CountCompleted(ts) + (if t.kind == WasCompleted then 1 else 0)
  {
    assert (ts + [t])[..|ts|] == ts;
  }

  /** The entry an accepted event other than a heartbeat leaves behind. */
  lemma {:induction false} StepRecords(x: Exec, e: Event) returns (t: Transition)
    requires Accepts(x, e) && !e.body.Heartbeat?
    ensures Step(x, e).transitions == x.transitions + [t]
    ensures t.kind == WasLeased <==> e.body.Leased?
    ensures t.kind == WasCompleted <==> e.body.Complete?
    ensures e.body.Leased? ==> t.attempt == x.attempt + 1
  {
    var ts := Step(x, e).transitions;
    t := ts[|ts| - 1];
  }

  lemma {:induction false} OneToNext(n: nat)
    ensures OneTo(n + 1) == OneTo(n) + [n + 1]
  {
  }

  lemma {:induction false} StepKeepsShape(x: Exec, e: Event)
    requires Shape(x)
    ensures Shape(Step(x, e))
  {
    if Accepts(x, e) && !e.body.Heartbeat? {
      var t := StepRecords(x, e);
      HistoryStep(x.transitions, t);
      OneToNext(x.attempt);
    }
  }

  lemma {:induction false} FoldKeepsShape(x: Exec, es: seq<Event>)
    requires Shape(x)
    ensures Shape(FoldAll(x, es))
  {
    if es != [] {
      FoldKeepsShape(x, es[..|es| - 1]);
      StepKeepsShape(FoldAll(x, es[..|es| - 1]), es[|es| - 1]);
    }
  }

  lemma {:induction false} NewExecShape(e: Event)
    requires Founds(e)
    ensures Shape(NewExec(e))
  {
    var t := Transition(WasSubmitted, Pending, 0, e.agent, e.body.taskType, e.at);
    HistoryStep([], t);
    assert NewExec(e).transitions == [] + [t];
  }

  /**
   Whatever events arrive in whatever order, the leases an execution has accepted carry the
   attempts 1, 2, ..., Attempt in order; its history holds at most 3*Attempt + 2 entries; and
   it has completed at most once, never without a lease.
   */
  lemma {:induction false} LeasesAreNumberedInOrder(e: Event, es: seq<Event>)
    requires Founds(e)
    ensures var x := FoldAll(NewExec(e), es);
            && 0 <= x.attempt
            && LeaseAttempts(x.transitions) == OneTo(x.attempt)
            && |x.transitions| <= 3 * x.attempt + 2
            && CountCompleted(x.transitions) == (if x.status == Completed then 1 else 0)
            && (x.status == Running || x.status == Retrying || x.status == Completed ==> 1 <= x.attempt)
  {
    NewExecShape(e);
    FoldKeepsShape(NewExec(e), es);
  }

  /** The submit, then n rounds of lease, fail and retry, then death. */
  function Rounds(key: Key, n: nat): seq<Event> {
    if n == 0 then []
    else Rounds(key, n - 1)
         + [Event(key, "w", n, n, Leased("w")), Event(key, "w", n, n, Fail("w", "", true)),
            Event(key, "c", n, n, Retry("r"))]
  }

  lemma {:induction false} RoundsFillHistory(e: Event, n: nat)
    requires Founds(e)
    ensures var x := FoldAll(NewExec(e), Rounds(e.key, n));
            x.status == Pending && x.attempt == n && |x.transitions| == 3 * n + 1
  {
    if n != 0 {
      var x0, before := NewExec(e), Rounds(e.key, n - 1);
      RoundsFillHistory(e, n - 1);
      var a, b := Event(e.key, "w", n, n, Leased("w")), Event(e.key, "w", n, n, Fail("w", "", true));
      var c := Event(e.key, "c", n, n, Retry("r"));
      OneRound(FoldAll(x0, before), a, b, c, n);
      FoldSnoc(x0, before, a);
      FoldSnoc(x0, before + [a], b);
      FoldSnoc(x0, before + [a] + [b], c);
      assert Rounds(e.key, n) == before + [a] + [b] + [c];
    }
  }

  lemma {:induction false} OneRound(x: Exec, a: Event, b: Event, c: Event, n: nat)
    requires n > 0 && x.status == Pending && x.attempt == n - 1
    requires a.body == Leased("w") && b.body == Fail("w", "", true) && c.body == Retry("r")
             && a.attempt == b.attempt == n
    ensures var y := Step(Step(Step(x, a), b), c);
            y.status == Pending && y.attempt == n && |y.transitions| == |x.transitions| + 3
  {
    var running := Step(x, a);
    assert running.status == Running && running.attempt == n && |running.transitions| == |x.transitions| + 1;
    var retrying := Step(running, b);
    assert retrying.status == Retrying && retrying.attempt == n && |retrying.transitions| == |x.transitions| + 2;
  }

  /** The history bound is attained for every attempt count. */
  lemma {:induction false} HistoryBoundIsTight(e: Event, n: nat)
    requires Founds(e)
    ensures exists es :: FoldAll(NewExec(e), es).attempt == n && |FoldAll(NewExec(e), es).transitions| == 3 * n + 2
  {
    RoundsFillHistory(e, n);
    var d := Event(e.key, "c", n, n, Dead("r"));
    var es := Rounds(e.key, n) + [d];
    assert es[..|es| - 1] == Rounds(e.key, n);
    assert FoldAll(NewExec(e), es) == Step(FoldAll(NewExec(e), Rounds(e.key, n)), d);
  }

  /** An event that speaks for one lease: it is fenced by the attempt number it carries. */
  predicate SpeaksForLease(e: Event) {
    e.body.Leased? || e.body.Heartbeat? || e.body.Complete? || e.body.Fail?
  }

  lemma {:induction false} AttemptNeverFalls(x: Exec, es: seq<Event>)
    ensures x.attempt <= FoldAll(x, es).attempt
  {
    if es != [] {
      AttemptNeverFalls(x, es[..|es| - 1]);
    }
  }

  /**
   Once attempt n+1 has been leased, a lease, heartbeat, completion or failure that carries an
   attempt of n or less can be inserted anywhere in the rest of the log without changing the result.
   */
  lemma {:induction false} ZombiesAreErased(x: Exec, es: seq<Event>, zombie: Event, fs: seq<Event>)
    requires SpeaksForLease(zombie)
    requires zombie.attempt < x.attempt
    ensures !Accepts(FoldAll(x, es), zombie)
    ensures FoldAll(x, es + [zombie] + fs) == FoldAll(x, es + fs)
  {
    AttemptNeverFalls(x, es);
    FoldConcat(x, es + [zombie], fs);
    FoldConcat(x, es, fs);
    assert (es + [zombie])[..|es|] == es;
  }

  /** Terminal states absorb every later event: nothing at all changes any more. */
  lemma {:induction false} TerminalAbsorbs(x: Exec, es: seq<Event>)
    requires Terminal(x)
    ensures FoldAll(x, es) == x
  {
    FoldIdle(x, es);
  }

  lemma {:induction false} StepGrows(x: Exec, e: Event)
    ensures x.transitions <= Step(x, e).transitions
  {
    if Accepts(x, e) && !e.body.Heartbeat? {
      var t := StepRecords(x, e);
    }
  }

  /** History is append-only. */
  lemma {:induction false} HistoryGrows(x: Exec, es: seq<Event>)
    ensures x.transitions <= FoldAll(x, es).transitions
  {
    if es != [] {
      HistoryGrows(x, es[..|es| - 1]);
      StepGrows(FoldAll(x, es[..|es| - 1]), es[|es| - 1]);
    }
  }

  /** Rank of a status within one attempt. */
  function Rank(status: Status): nat {
    match status
    case Running => 3
    case Retrying => 2
    case Pending => 1
    case _ => 0
  }

  /**
   Every recorded transition strictly lowers (limit - attempt, rank) in lexicographic order, for
   any limit; heartbeats, the only accepted events not recorded, leave it alone. With attempts
   bounded by MaxAttempts this is a well-founded measure.
   */
  lemma {:induction false} MeasureFalls(x: Exec, e: Event, limit: int)
    requires Accepts(x, e)
    ensures var y := Step(x, e);
            if e.body.Heartbeat? then
              y.attempt == x.attempt && y.status == x.status && y.transitions == x.transitions
            else
              && |y.transitions| == |x.transitions| + 1
              && (limit - y.attempt < limit - x.attempt
                  || (y.attempt == x.attempt && Rank(y.status) < Rank(x.status)))
  {
  }

  // ---------------------------------------------------------------- redelivery

  /** Delivering an event twice in a row is the same as delivering it once. */
  lemma {:induction false} ApplyTwice(x: Exec, e: Event)
    ensures Step(Step(x, e), e) == Step(x, e)
  {
  }

  /** A log every event of which was accepted when it was folded. */
  predicate AllAccepted(x: Exec, es: seq<Event>) {
    es == [] || (AllAccepted(x, es[..|es| - 1]) && Accepts(FoldAll(x, es[..|es| - 1]), es[|es| - 1]))
  }

  predicate HasRetry(es: seq<Event>) {
    exists i :: 0 <= i < |es| && es[i].body.Retry?
  }

  /** What the final state of an accepted log says about the events in it. */
  ghost predicate LogFacts(es: seq<Event>, x: Exec) {
    && 0 <= x.attempt
    && (x.status == Running || x.status == Retrying ==> 1 <= x.attempt)
    && (forall i :: 0 <= i < |es| && es[i].body.Leased? ==> es[i].attempt <= x.attempt)
    && (!Terminal(x) ==> forall i :: 0 <= i < |es| ==> !es[i].body.Complete? && !es[i].body.Dead?)
    && (!Terminal(x) ==>
          (HasRetry(es) <==> x.attempt >= 2 || (x.status == Pending && x.attempt == 1)))
  }

  lemma {:induction false} HasRetryStep(es: seq<Event>)
    requires es != []
    ensures HasRetry(es) <==> HasRetry(es[..|es| - 1]) || es[|es| - 1].body.Retry?
  {
    if i :| 0 <= i < |es| - 1 && es[i].body.Retry? {
      assert es[..|es| - 1][i].body.Retry?;
    }
  }

  lemma {:induction false} LogFactsStep(es: seq<Event>, y: Exec)
    requires es != []
    requires LogFacts(es[..|es| - 1], y)
    requires Accepts(y, es[|es| - 1])
    ensures LogFacts(es, Step(y, es[|es| - 1]))
  {
    var init, last := es[..|es| - 1], es[|es| - 1];
    HasRetryStep(es);
    assert forall i :: 0 <= i < |es| ==> es[i] == (if i < |es| - 1 then init[i] else last);
  }

  lemma {:induction false} AcceptedLogFacts(e: Event, es: seq<Event>)
    requires Founds(e)
    requires AllAccepted(NewExec(e), es)
    ensures LogFacts(es, FoldAll(NewExec(e), es))
  {
    if es != [] {
      AcceptedLogFacts(e, es[..|es| - 1]);
      LogFactsStep(es, FoldAll(NewExec(e), es[..|es| - 1]));
    }
  }

  /** An accepted log that leaves attempt 1 running is one lease and then its heartbeats. */
  ghost predicate FirstLeaseLog(es: seq<Event>, x: Exec) {
    && es != [] && es[0].body.Leased?
    && (forall i :: 1 <= i < |es| ==> es[i].body == Heartbeat(x.worker) && es[i].attempt == 1)
    && x.leaseDeadline == es[|es| - 1].at + x.leaseTtl
    && x.updatedAt == es[|es| - 1].at
  }

  lemma {:induction false} FirstLeaseLogShape(e: Event, es: seq<Event>)
    requires Founds(e)
    requires AllAccepted(NewExec(e), es)
    ensures var x := FoldAll(NewExec(e), es);
            && (x.status == Running && x.attempt == 1 ==> FirstLeaseLog(es, x))
            && (x.status == Pending && x.attempt == 0 ==> es == [])
  {
    if es != [] {
      var init, last := es[..|es| - 1], es[|es| - 1];
      FirstLeaseLogShape(e, init);
      AcceptedLogFacts(e, init);
      FirstLeaseStep(es, FoldAll(NewExec(e), init));
    }
  }

  lemma {:induction false} FirstLeaseStep(es: seq<Event>, y: Exec)
    requires es != [] && Accepts(y, es[|es| - 1]) && LogFacts(es[..|es| - 1], y)
    requires y.status == Running && y.attempt == 1 ==> FirstLeaseLog(es[..|es| - 1], y)
    requires y.status == Pending && y.attempt == 0 ==> es[..|es| - 1] == []
    ensures var x := Step(y, es[|es| - 1]);
            && (x.status == Running && x.attempt == 1 ==> FirstLeaseLog(es, x))
            && (x.status == Pending && x.attempt == 0 ==> es == [])
  {
    var init, last := es[..|es| - 1], es[|es| - 1];
    assert forall i :: 0 <= i < |init| ==> es[i] == init[i];
    if last.body.Leased? && y.attempt == 0 {
      assert init == [] && es == [last];
    }
  }

  /** Heartbeats of the running lease move only the deadline and the update time. */
  lemma {:induction false} HeartbeatsOnlyMoveTheDeadline(x: Exec, es: seq<Event>)
    requires x.status == Running && x.attempt == 1
    requires forall i :: 0 <= i < |es| ==>
               es[i].body.Leased? || (es[i].body == Heartbeat(x.worker) && es[i].attempt == 1)
    ensures var y := FoldAll(x, es);
            y.(leaseDeadline := x.leaseDeadline, updatedAt := x.updatedAt) == x
  {
    if es != [] {
      HeartbeatsOnlyMoveTheDeadline(x, es[..|es| - 1]);
    }
  }

  /** A retry in the log always finds a live state that is not pending, unless one came before it. */
  lemma {:induction false} RefoldTakesARetry(x: Exec, es: seq<Event>)
    requires x.status == Running || x.status == Retrying
    requires forall i :: 0 <= i < |es| ==> !es[i].body.Complete? && !es[i].body.Dead?
    ensures var y := FoldAll(x, es);
            |x.transitions| <= |y.transitions| && !Terminal(y)
            && (|x.transitions| < |y.transitions| || (!HasRetry(es) && y.status != Pending))
  {
    if es != [] {
      var init, last := es[..|es| - 1], es[|es| - 1];
      RefoldTakesARetry(x, init);
      if HasRetry(es) && !last.body.Retry? {
        var i :| 0 <= i < |es| && es[i].body.Retry?;
        assert init[i].body.Retry?;
      }
    }
  }

  /** When redelivering a whole accepted log is harmless: decided by the state alone. */
  predicate SafeToRefold(x: Exec) {
    (x.status != Running && x.status != Retrying) || x.attempt <= 1
  }

  lemma {:induction false} RefoldIsSafe(e: Event, es: seq<Event>)
    requires Founds(e) && AllAccepted(NewExec(e), es)
    requires SafeToRefold(FoldAll(NewExec(e), es))
    ensures FoldAll(FoldAll(NewExec(e), es), es) == FoldAll(NewExec(e), es)
  {
    var x := FoldAll(NewExec(e), es);
    AcceptedLogFacts(e, es);
    if x.status == Running {
      FirstLeaseLogShape(e, es);
      var init, last := es[..|es| - 1], es[|es| - 1];
      HeartbeatsOnlyMoveTheDeadline(x, init);
    } else {
      assert x.status == Retrying ==> !HasRetry(es);
      FoldIdle(x, es);
    }
  }

  /**
   Redelivering a whole accepted log over its own result changes nothing exactly when the result
   is neither running nor retrying, or is still on its first attempt.
   */
  lemma {:induction false} RefoldIsHarmlessIff(e: Event, es: seq<Event>)
    requires Founds(e)
    requires AllAccepted(NewExec(e), es)
    ensures var x := FoldAll(NewExec(e), es);
            FoldAll(x, es) == x <==> SafeToRefold(x)
  {
    var x := FoldAll(NewExec(e), es);
    AcceptedLogFacts(e, es);
    if SafeToRefold(x) {
      RefoldIsSafe(e, es);
    } else {
      RefoldTakesARetry(x, es);
    }
  }

  /** The shortest log whose redelivery does change state: submit, lease, fail, retry, lease. */
  lemma {:induction false} RedeliveryCanReopenALease()
    ensures exists e, es ::
              && Founds(e) && AllAccepted(NewExec(e), es)
              && FoldAll(NewExec(e), es).status == Running
              && FoldAll(FoldAll(NewExec(e), es), es).status == Pending
  {
    var e := Event("k", "c", 0, 0, Submitted("t", "", 3, 1));
    var l1 := Event("k", "w", 1, 1, Leased("w"));
    var f1 := Event("k", "w", 1, 2, Fail("w", "x", true));
    var r1 := Event("k", "c", 1, 3, Retry("r"));
    var l2 := Event("k", "w", 2, 4, Leased("w"));
    var x0 := NewExec(e);
    var es := [l1, f1, r1, l2];
    FoldFour(x0, l1, f1, r1, l2);
    var x := FoldAll(x0, es);
    FoldFour(x, l1, f1, r1, l2);
    assert AllAccepted(x0, es) by {
      assert es[..3] == [l1, f1, r1] && es[..3][..2] == [l1, f1] && es[..3][..2][..1] == [l1];
      assert AllAccepted(x0, [l1]);
      assert AllAccepted(x0, [l1, f1]) by { assert [l1, f1][..1] == [l1]; }
      assert AllAccepted(x0, [l1, f1, r1]) by { assert [l1, f1, r1][..2] == [l1, f1]; }
    }
  }

  lemma {:induction false} FoldFour(x: Exec, a: Event, b: Event, c: Event, d: Event)
    ensures FoldAll(x, [a]) == Step(x, a)
    ensures FoldAll(x, [a, b]) == Step(Step(x, a), b)
    ensures FoldAll(x, [a, b, c]) == Step(Step(Step(x, a), b), c)
    ensures FoldAll(x, [a, b, c, d]) == Step(Step(Step(Step(x, a), b), c), d)
  {
    assert [a][..0] == [];
    assert [a, b][..1] == [a];
    assert [a, b, c][..2] == [a, b];
    assert [a, b, c, d][..3] == [a, b, c];
  }
}
