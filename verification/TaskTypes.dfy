/**
 What retention does to task types (internal/workflow/store.go, ReserveNext and evictTerminalLocked):
 an id that was forgotten while it still had a queue entry, and is then submitted under another type,
 is handed out to workers of the old one.
 */
module TaskTypes {
  import opened Fold
  import opened Options
  import opened Store
  import opened Forgetting

  /** After these operations a worker that asks for type t is given an execution of another type. */
  predicate Mixes(retain: int, ops: seq<Op>, t: string) {
    var s := Run(Empty(retain), ops);
    var got := Reserve(s, t).1;
    got.Some? && got.value in s.execs && s.execs[got.value].taskType != t
  }

  lemma {:induction false} RunOneMore(retain: int, ops: seq<Op>, e: Event)
    ensures Run(Empty(retain), ops + [DoApply(e)]) == Apply(Run(Empty(retain), ops), e)
  {
    assert (ops + [DoApply(e)])[..|ops|] == ops;
  }

  // ---------------------------------------------------------------- an entry that outlives its execution

  /** n executions are retained, "k" first, and "k" is still the only entry under type "a". */
  ghost predicate Lingering(s: State, retain: int, n: nat) {
    Holding(s, retain, n) && Queue(s, "a") == ["k"]
  }

  lemma {:induction false} Submission(s: State, e: Event)
    requires Changes(s, e) && e.body.Submitted?
    ensures var f := Apply(s, e);
            && f.execs == s.execs[e.key := NewExec(e)] && f.retain == s.retain && f.terminalQ == s.terminalQ
            && forall u :: u != e.body.taskType ==> Queue(f, u) == Queue(s, u)
  {
  }

  /** "k" is submitted under "a" and dies without being leased. */
  lemma {:induction false} DiesQueued(retain: int) returns (ops: seq<Op>)
    requires retain > 0
    ensures Lingering(Run(Empty(retain), ops), retain, 1)
  {
    var sub, dead := Event("k", "c", 0, 0, Submitted("a", "", 1, 1)), Event("k", "c", 0, 0, Dead("r"));
    RunOneMore(retain, [], sub);
    RunOneMore(retain, [] + [DoApply(sub)], dead);
    ops := [] + [DoApply(sub)] + [DoApply(dead)];
    var s := Apply(Empty(retain), sub);
    assert [] + ["k"] == ["k"];
    DeathIsKept(s, dead);
  }

  function Birth(n: nat): Event {
    Event(Filler(n), "c", 0, 0, Submitted("z", "", 3, 1))
  }

  /** Another execution, of type "z", is submitted. */
  lemma {:induction false} FillerIsBorn(s: State, retain: int, n: nat) returns (f: State)
    requires Lingering(s, retain, n)
    ensures f == Apply(s, Birth(n)) && f.retain == retain && f.terminalQ == s.terminalQ && Queue(f, "a") == ["k"]
    ensures f.execs.Keys == s.execs.Keys + {Filler(n)} && f.execs["k"] == s.execs["k"] && Filler(n) != "k"
    ensures Changes(f, Death(n))
  {
    assert |Filler(n)| == n + 1;
    f := Apply(s, Birth(n));
    Submission(s, Birth(n));
  }

  /** And dies beside "k", while there is room. */
  lemma {:induction false} LingersOn(retain: int, ops: seq<Op>, n: nat) returns (more: seq<Op>)
    requires Lingering(Run(Empty(retain), ops), retain, n) && n < retain
    ensures Lingering(Run(Empty(retain), more), retain, n + 1)
  {
    var f := FillerIsBorn(Run(Empty(retain), ops), retain, n);
    RunOneMore(retain, ops, Birth(n));
    more := ops + [DoApply(Birth(n))];
    RunOneMore(retain, more, Death(n));
    DeathIsKept(f, Death(n));
    more := more + [DoApply(Death(n))];
    assert |Filler(n)| == n + 1;
  }

  /** Or in its place, when there is none. */
  lemma {:induction false} EntryOutlives(retain: int, ops: seq<Op>) returns (more: seq<Op>)
    requires retain > 0 && Lingering(Run(Empty(retain), ops), retain, retain)
    ensures var s := Run(Empty(retain), more);
            "k" !in s.execs && Queue(s, "a") == ["k"]
  {
    var f := FillerIsBorn(Run(Empty(retain), ops), retain, retain);
    RunOneMore(retain, ops, Birth(retain));
    more := ops + [DoApply(Birth(retain))];
    RunOneMore(retain, more, Death(retain));
    EvictOne(f, Death(retain));
    more := more + [DoApply(Death(retain))];
  }

  lemma {:induction false} Lingers(retain: int, n: nat) returns (ops: seq<Op>)
    requires 1 <= n <= retain
    ensures Lingering(Run(Empty(retain), ops), retain, n)
  {
    if n == 1 {
      ops := DiesQueued(retain);
    } else {
      var less := Lingers(retain, n - 1);
      ops := LingersOn(retain, less, n - 1);
    }
  }

  // ---------------------------------------------------------------- exactly when types are kept

  /** For every positive retention: "k" comes back under "b", and a worker of "a" is given it. */
  lemma {:induction false} EvictionCanMixTaskTypes(retain: int) returns (ops: seq<Op>)
    requires retain > 0
    ensures Mixes(retain, ops, "a")
  {
    var left := Lingers(retain, retain);
    left := EntryOutlives(retain, left);
    var again := Event("k", "c", 0, 0, Submitted("b", "", 1, 1));
    RunOneMore(retain, left, again);
    ops := left + [DoApply(again)];
    Submission(Run(Empty(retain), left), again);
    var s := Run(Empty(retain), ops);
    assert Pop(s.execs, ["k"], s.queued).got == Some("k");
  }

  /** Workers are given only work of the type they ask for, after any operations, exactly when retention is off. */
  lemma {:induction false} TypesAreKeptIff(retain: int)
    ensures (forall ops, t :: !Mixes(retain, ops, t)) <==> retain <= 0
  {
    if retain > 0 {
      var ops := EvictionCanMixTaskTypes(retain);
    } else {
      forall ops, t
        ensures !Mixes(retain, ops, t)
      {
        IndexesAgree(retain, ops);
        ReserveFindsWork(Run(Empty(retain), ops), t);
      }
    }
  }
}
