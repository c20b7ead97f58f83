/**
 The history an execution carries (internal/workflow/state.go, record) as an audit log: whatever
 events arrived in whatever order, its entries alone tell the execution's status, attempt, worker
 and error, and did so after every entry.
 */
module History {
  import opened Fold

  datatype Told = Told(status: Status, attempt: int, worker: string, error: string)

  /** What an entry says has changed; the status it carries is not looked at. */
  function Hear(told: Told, t: Transition): Told {
    match t.kind
    case WasSubmitted => Told(Pending, 0, "", "")
    case WasLeased => told.(status := Running, attempt := t.attempt, worker := t.worker)
    case WasCompleted => told.(status := Completed, worker := t.worker)
    case WasFailed => told.(status := Retrying, error := t.detail)
    case WasRetried => told.(status := Pending, worker := "")
    case WasKilled => told.(status := Failed, error := if told.error == "" then t.detail else told.error)
  }

  function Tell(ts: seq<Transition>): Told {
    if ts == [] then Told(Pending, 0, "", "") else Hear(Tell(ts[..|ts| - 1]), ts[|ts| - 1])
  }

  function Seen(x: Exec): Told {
    Told(x.status, x.attempt, x.worker, x.error)
  }

  /** Entry i carries the status and attempt that the entries up to it tell. */
  ghost predicate EntryAgrees(ts: seq<Transition>, i: nat) {
    i < |ts| && ts[i].status == Tell(ts[..i + 1]).status && ts[i].attempt == Tell(ts[..i + 1]).attempt
  }

  ghost predicate Truthful(x: Exec) {
    Tell(x.transitions) == Seen(x) && forall i :: 0 <= i < |x.transitions| ==> EntryAgrees(x.transitions, i)
  }

  lemma {:induction false} StepTells(x: Exec, e: Event, t: Transition)
    requires Accepts(x, e) && !e.body.Heartbeat? && Step(x, e).transitions == x.transitions + [t]
    ensures Hear(Seen(x), t) == Seen(Step(x, e))
    ensures t.status == Step(x, e).status && t.attempt == Step(x, e).attempt && t.at == e.at
  {
    assert t == Step(x, e).transitions[|x.transitions|];
  }

  lemma {:induction false} OneMoreEntry(ts: seq<Transition>, t: Transition, more: seq<Transition>)
    requires more == ts + [t] && forall i :: 0 <= i < |ts| ==> EntryAgrees(ts, i)
    requires t.status == Hear(Tell(ts), t).status && t.attempt == Hear(Tell(ts), t).attempt
    ensures Tell(more) == Hear(Tell(ts), t) && forall i :: 0 <= i < |more| ==> EntryAgrees(more, i)
  {
    assert more[..|ts|] == ts;
    forall i | 0 <= i < |more|
      ensures EntryAgrees(more, i)
    {
      if i < |ts| {
        assert EntryAgrees(ts, i) && more[..i + 1] == ts[..i + 1];
      } else {
        assert more[..i + 1] == more;
      }
    }
  }

  lemma {:induction false} StepKeepsTruthful(x: Exec, e: Event)
    requires Truthful(x)
    ensures Truthful(Step(x, e))
  {
    if Accepts(x, e) && !e.body.Heartbeat? {
      var t := StepRecords(x, e);
      StepTells(x, e, t);
      OneMoreEntry(x.transitions, t, Step(x, e).transitions);
    }
  }

  lemma {:induction false} FoldKeepsTruthful(x: Exec, es: seq<Event>)
    requires Truthful(x)
    ensures Truthful(FoldAll(x, es))
  {
    if es != [] {
      FoldKeepsTruthful(x, es[..|es| - 1]);
      StepKeepsTruthful(FoldAll(x, es[..|es| - 1]), es[|es| - 1]);
    }
  }

  lemma {:induction false} BornTruthful(e: Event)
    requires Founds(e)
    ensures Truthful(NewExec(e))
  {
    var t := Transition(WasSubmitted, Pending, 0, e.agent, e.body.taskType, e.at);
    OneMoreEntry([], t, [t]);
    assert NewExec(e).transitions == [t];
  }

  /** After any events, the history tells the state, and told it after each of its entries. */
  lemma {:induction false} HistoryTellsTheState(e: Event, es: seq<Event>)
    requires Founds(e)
    ensures var x := FoldAll(NewExec(e), es);
            && Tell(x.transitions) == Told(x.status, x.attempt, x.worker, x.error)
            && (forall i :: 0 <= i < |x.transitions| ==> EntryAgrees(x.transitions, i))
            && [Transition(WasSubmitted, Pending, 0, e.agent, e.body.taskType, e.at)] <= x.transitions
  {
    BornTruthful(e);
    FoldKeepsTruthful(NewExec(e), es);
    HistoryGrows(NewExec(e), es);
  }
}
