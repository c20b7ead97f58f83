/**
 What retention does to completions (internal/workflow/store.go, evictTerminalLocked, under the
 claims of module CompletionGate): an id that is forgotten can be submitted and accepted again.
 */
module Forgetting {
  import opened Fold
  import opened Store
  import opened Coordinator
  import opened CompletionGate

  // ---------------------------------------------------------------- an accepted claim

  const ACCEPTED := Claim("k", "w", 1, "r", Accepted)

  /** "k" is submitted, leased and completed; into an empty store, it is then the only execution. */
  lemma {:induction false} SubmitAndComplete(retain: int, steps: seq<GateStep>, id: nat) returns (more: seq<GateStep>)
    requires retain > 0 && EnabledRun(Start(retain), steps) && id !in DoAll(Start(retain), steps).claims
    requires "k" !in DoAll(Start(retain), steps).store.execs
    ensures EnabledRun(Start(retain), more)
    ensures var b, f := DoAll(Start(retain), steps), DoAll(Start(retain), more);
            && f.claims == b.claims[id := ACCEPTED]
            && (b == Start(retain) ==> Holding(f.store, retain, 1))
  {
    var s1, y := SubmitAndLease(Start(retain), steps, "k");
    var s2 := BeginAndPublish(Start(retain), s1, "k", 1, id);
    OneMore(Start(retain), s2, FoldStep(id));
    more := s2 + [FoldStep(id)];
    var b := DoAll(Start(retain), steps);
    assert b.claims[id := Claim("k", "w", 1, "r", Published(0))][id := ACCEPTED] == b.claims[id := ACCEPTED];
    if b == Start(retain) {
      FoldKeepsLast(DoAll(Start(retain), s2).store, CompleteEvent("k", "w", 1, "r", 0));
    }
  }

  lemma {:induction false} FoldKeepsLast(s: Store.State, e: Event)
    requires s.retain > 0 && s.terminalQ == [] && s.execs.Keys == {"k"}
    requires Changes(s, e) && e.body.Complete? && e.key == "k"
    ensures Holding(Apply(s, e), s.retain, 1)
  {
    PutIsStored(s, "k", Step(s.execs["k"], e));
  }

  // ---------------------------------------------------------------- others push it out

  /** n executions are retained, "k" first, and no key is longer than n. */
  ghost predicate Holding(s: Store.State, retain: int, n: nat) {
    && s.retain == retain && |s.terminalQ| == n >= 1 && s.terminalQ[0] == "k"
    && "k" in s.execs && Terminal(s.execs["k"])
    && forall x :: x in s.execs ==> |x| <= n
  }

  /** A key that is longer than all of those. */
  function Filler(n: nat): Key {
    seq(n + 1, _ => 'j')
  }

  /** Another execution is submitted. */
  lemma {:induction false} Submits(retain: int, steps: seq<GateStep>, n: nat) returns (more: seq<GateStep>)
    requires EnabledRun(Start(retain), steps) && Holding(DoAll(Start(retain), steps).store, retain, n)
    ensures EnabledRun(Start(retain), more)
    ensures var b, f := DoAll(Start(retain), steps), DoAll(Start(retain), more);
            && f.claims == b.claims && f.store.retain == retain && f.store.terminalQ == b.store.terminalQ
            && f.store.execs.Keys == b.store.execs.Keys + {Filler(n)} && f.store.execs["k"] == b.store.execs["k"]
            && !Terminal(f.store.execs[Filler(n)])
  {
    assert |Filler(n)| == n + 1;
    more := ApplyOneMore(Start(retain), steps, Event(Filler(n), "c", 0, 0, Submitted("t", "", 3, 1)));
  }

  function Death(n: nat): Event {
    Event(Filler(n), "c", 0, 0, Dead("r"))
  }

  /** While there is room, its death is retained beside the others. */
  lemma {:induction false} DeathIsKept(s: Store.State, e: Event)
    requires |s.terminalQ| < s.retain && Changes(s, e) && e.body.Dead?
    ensures var f := Apply(s, e);
            && f.retain == s.retain && f.terminalQ == s.terminalQ + [e.key]
            && f.execs == s.execs[e.key := Step(s.execs[e.key], e)] && f.queues == s.queues
  {
    PutIsStored(s, e.key, Step(s.execs[e.key], e));
  }

  lemma {:induction false} HoldsOneMore(retain: int, steps: seq<GateStep>, n: nat) returns (more: seq<GateStep>)
    requires EnabledRun(Start(retain), steps) && Holding(DoAll(Start(retain), steps).store, retain, n) && n < retain
    ensures EnabledRun(Start(retain), more) && Holding(DoAll(Start(retain), more).store, retain, n + 1)
    ensures DoAll(Start(retain), more).claims == DoAll(Start(retain), steps).claims
  {
    var s1 := Submits(retain, steps, n);
    assert |Filler(n)| == n + 1;
    OneMore(Start(retain), s1, OtherStep(DoApply(Death(n))));
    DeathIsKept(DoAll(Start(retain), s1).store, Death(n));
    more := s1 + [OtherStep(DoApply(Death(n)))];
  }

  /** When there is none, it pushes "k" out. */
  lemma {:induction false} Forgotten(retain: int, steps: seq<GateStep>) returns (more: seq<GateStep>)
    requires retain > 0 && EnabledRun(Start(retain), steps)
    requires Holding(DoAll(Start(retain), steps).store, retain, retain)
    ensures EnabledRun(Start(retain), more) && "k" !in DoAll(Start(retain), more).store.execs
    ensures DoAll(Start(retain), more).claims == DoAll(Start(retain), steps).claims
  {
    var s1 := Submits(retain, steps, retain);
    assert |Filler(retain)| == retain + 1;
    OneMore(Start(retain), s1, OtherStep(DoApply(Death(retain))));
    EvictOne(DoAll(Start(retain), s1).store, Death(retain));
    more := s1 + [OtherStep(DoApply(Death(retain)))];
  }

  lemma {:induction false} Filled(retain: int, n: nat) returns (steps: seq<GateStep>)
    requires 1 <= n <= retain
    ensures EnabledRun(Start(retain), steps) && Holding(DoAll(Start(retain), steps).store, retain, n)
    ensures DoAll(Start(retain), steps).claims == map[1 := ACCEPTED]
  {
    if n == 1 {
      steps := SubmitAndComplete(retain, [], 1);
    } else {
      var less := Filled(retain, n - 1);
      steps := HoldsOneMore(retain, less, n - 1);
    }
  }

  // ---------------------------------------------------------------- exactly when at most once

  ghost predicate AcceptedTwice(retain: int, steps: seq<GateStep>, i: nat, j: nat)
    requires EnabledRun(Start(retain), steps)
  {
    var c := DoAll(Start(retain), steps).claims;
    i != j && i in c && j in c && c[i].phase == Accepted && c[j].phase == Accepted && c[i].key == c[j].key
  }

  /** For every positive retention: an id that was forgotten and submitted again is accepted again. */
  lemma {:induction false} RetentionForgetsAcceptance(retain: int) returns (steps: seq<GateStep>)
    requires retain > 0
    ensures EnabledRun(Start(retain), steps) && AcceptedTwice(retain, steps, 1, 2)
  {
    var s1 := Filled(retain, retain);
    var s2 := Forgotten(retain, s1);
    steps := SubmitAndComplete(retain, s2, 2);
  }

  /** No run accepts two claims on one key exactly when retention is off. */
  lemma {:induction false} AcceptedAtMostOnceIff(retain: int)
    ensures (forall steps, i, j :: EnabledRun(Start(retain), steps) ==> !AcceptedTwice(retain, steps, i, j))
            <==> retain <= 0
  {
    if retain > 0 {
      var steps := RetentionForgetsAcceptance(retain);
    } else {
      forall steps, i, j | EnabledRun(Start(retain), steps)
        ensures !AcceptedTwice(retain, steps, i, j)
      {
        if AcceptedTwice(retain, steps, i, j) {
          AcceptedAtMostOnce(retain, steps, i, j);
        }
      }
    }
  }
}
