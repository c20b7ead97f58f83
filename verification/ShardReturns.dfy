/**
 What an append to the shard log returns (internal/cluster/shardwal/shardwal.go, Append and
 groupCommitLocked): when it is nil, which offset it carries, and that it can always be reached.
 */
module ShardReturns {
  import opened ShardCommit

  // ---------------------------------------------------------------- nil or not

  /** The last flush or fsync that ended, ended in an error. */
  predicate RoundFailed(steps: seq<Step>) {
    steps != [] && (
      var last := steps[|steps| - 1];
      if last.EndSync? then !last.ok
      else if last.StartSync? && !last.flushOk then true
      else RoundFailed(steps[..|steps| - 1]))
  }

  lemma {:induction false} ErrorIffRoundFailed(n: nat, steps: seq<Step>)
    requires EnabledRun(Open(n), steps)
    ensures After(Open(n), steps).syncErr <==> RoundFailed(steps)
  {
    if steps != [] {
      ErrorIffRoundFailed(n, steps[..|steps| - 1]);
    }
  }

  /** In every run a writer whose generation is through returns its offset, and nil iff the last round was good. */
  lemma {:induction false} ReturnIsNilIff(n: nat, steps: seq<Step>, id: nat)
    requires EnabledRun(Open(n), steps) && Enabled(After(Open(n), steps), Return(id))
    ensures var s := After(Open(n), steps);
            Do(s, Return(id)).writers == s.writers[id := Returned(!RoundFailed(steps), s.writers[id].off)]
  {
    ErrorIffRoundFailed(n, steps);
  }

  /** No write, flush or fsync fails and nobody closes the shard. */
  predicate Clean(step: Step) {
    !step.WriteFails? && !step.Close? && (step.StartSync? ==> step.flushOk) && (step.EndSync? ==> step.ok)
  }

  /** In a run without failures every append that has returned has returned nil. */
  lemma {:induction false} CleanAppendsSucceed(n: nat, steps: seq<Step>)
    requires EnabledRun(Open(n), steps) && forall i :: 0 <= i < |steps| ==> Clean(steps[i])
    ensures var s := After(Open(n), steps);
            && !s.closed && !s.broken && !s.syncErr
            && forall i :: i in s.writers && s.writers[i].Returned? ==> s.writers[i].ok
  {
    if steps != [] {
      CleanAppendsSucceed(n, steps[..|steps| - 1]);
      assert Clean(steps[|steps| - 1]);
    }
  }

  // ---------------------------------------------------------------- the offset

  /** How many records were taken into the buffer. */
  function Taken(n: nat, steps: seq<Step>): nat
    requires EnabledRun(Open(n), steps)
  {
    if steps == [] then n
    else
      var m := |steps| - 1;
      var s := After(Open(n), steps[..m]);
      Taken(n, steps[..m]) + (if steps[m].Write? && !s.closed && !s.broken then 1 else 0)
  }

  lemma {:induction false} TailCountsTaken(n: nat, steps: seq<Step>)
    requires EnabledRun(Open(n), steps)
    ensures After(Open(n), steps).tail == Taken(n, steps)
  {
    if steps != [] {
      TailCountsTaken(n, steps[..|steps| - 1]);
    }
  }

  lemma {:induction false} OffsetStays(s: Shard, step: Step, id: nat)
    requires Enabled(s, step) && id in s.writers
    ensures id in Do(s, step).writers && Do(s, step).writers[id].off == s.writers[id].off
  {
  }

  /** An append keeps the offset it was given, which counts the records taken before it. */
  lemma {:induction false} AppendHasItsPlace(n: nat, steps: seq<Step>, id: nat, spill: nat, more: seq<Step>)
    requires EnabledRun(Open(n), steps + [Write(id, spill)] + more) && EnabledRun(Open(n), steps)
    ensures var s := After(Open(n), steps + [Write(id, spill)] + more);
            id in s.writers && s.writers[id].off == Taken(n, steps)
  {
    var all := steps + [Write(id, spill)] + more;
    if more == [] {
      assert all == steps + [Write(id, spill)] && all[..|steps|] == steps;
      TailCountsTaken(n, steps);
    } else {
      var less := more[..|more| - 1];
      assert all[..|all| - 1] == steps + [Write(id, spill)] + less;
      AppendHasItsPlace(n, steps, id, spill, less);
      OffsetStays(After(Open(n), all[..|all| - 1]), more[|more| - 1], id);
    }
  }

  // ---------------------------------------------------------------- nobody waits for ever

  lemma {:induction false} OneMore(n: nat, steps: seq<Step>, step: Step) returns (more: seq<Step>)
    requires EnabledRun(Open(n), steps) && Enabled(After(Open(n), steps), step)
    ensures more == steps + [step] && EnabledRun(Open(n), more)
    ensures After(Open(n), more) == Do(After(Open(n), steps), step) && steps <= more
  {
    more := steps + [step];
    assert more[..|steps|] == steps;
  }

  /** A fsync that is under way can end well. */
  lemma {:induction false} SyncCanEnd(n: nat, steps: seq<Step>) returns (more: seq<Step>)
    requires EnabledRun(Open(n), steps)
    ensures EnabledRun(Open(n), more) && steps <= more && !After(Open(n), more).syncing
    ensures var s, f := After(Open(n), steps), After(Open(n), more);
            && f.broken == s.broken && (!s.syncErr ==> !f.syncErr) && f.tail == s.tail
            && forall i :: i in s.writers && !s.writers[i].Returned? ==>
                 i in f.writers && f.writers[i] == Waiting(s.writers[i].gen, s.writers[i].off)
  {
    var s := After(Open(n), steps);
    RunKeepsInv(n, steps);
    more := steps;
    if s.syncing {
      var j :| j in s.writers && s.writers[j].Syncing?;
      assert WriterOk(s, s.writers[j]);
      more := OneMore(n, steps, EndSync(j, true, s.flushed));
      assert forall i :: i in s.writers && s.writers[i].Syncing? ==> i == j;
    } else {
      assert forall i :: i in s.writers ==> WriterOk(s, s.writers[i]);
    }
  }

  /** With nobody inside fsync, a waiting writer can see to it itself. */
  lemma {:induction false} WaiterCanReturn(n: nat, steps: seq<Step>, id: nat) returns (more: seq<Step>)
    requires EnabledRun(Open(n), steps) && !After(Open(n), steps).syncing
    requires id in After(Open(n), steps).writers && After(Open(n), steps).writers[id].Waiting?
    ensures EnabledRun(Open(n), more) && steps <= more
    ensures var s, w := After(Open(n), steps), After(Open(n), more).writers;
            && id in w && w[id].Returned? && w[id].off == s.writers[id].off
            && (!s.broken && !s.syncErr ==> w[id].ok)
  {
    var s := After(Open(n), steps);
    RunKeepsInv(n, steps);
    assert WriterOk(s, s.writers[id]);
    if s.syncedGen >= s.writers[id].gen {
      more := OneMore(n, steps, Return(id));
    } else if s.broken {
      more := OneMore(n, steps, StartSync(id, false));
    } else {
      more := OneMore(n, steps, StartSync(id, true));
      more := OneMore(n, more, EndSync(id, true, s.tail));
      more := OneMore(n, more, Return(id));
    }
  }

  /**
   From every point of every run each append that has not returned can still return, with its own
   offset; and with nil, if the last round did not fail and the buffer is not broken.
   */
  lemma {:induction false} AppendCanReturn(n: nat, steps: seq<Step>, id: nat) returns (more: seq<Step>)
    requires EnabledRun(Open(n), steps)
    requires id in After(Open(n), steps).writers && !After(Open(n), steps).writers[id].Returned?
    ensures EnabledRun(Open(n), more) && steps <= more
    ensures var s, w := After(Open(n), steps), After(Open(n), more).writers;
            && id in w && w[id].Returned? && w[id].off == s.writers[id].off
            && (!s.broken && !RoundFailed(steps) ==> w[id].ok)
  {
    ErrorIffRoundFailed(n, steps);
    var idle := SyncCanEnd(n, steps);
    more := WaiterCanReturn(n, idle, id);
  }
}
