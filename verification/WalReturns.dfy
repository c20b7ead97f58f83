/**
 What an append to the main log returns (internal/wal/wal.go, AppendRecord and groupCommitLocked):
 when it is nil, poisoned or not, and that it can always be reached.
 */
module WalReturns {
  import opened Options
  import opened WalCommit

  // ---------------------------------------------------------------- nil or not

  /** The last write, flush or fsync that failed came after the last fsync that succeeded. */
  predicate LastFailed(steps: seq<Step>) {
    steps != [] && (
      var last := steps[|steps| - 1];
      if last.EndSync? then !last.ok
      else if last.WriteFails? || (last.StartSync? && !last.flushOk) then true
      else LastFailed(steps[..|steps| - 1]))
  }

  /** Some write, flush or fsync has failed. */
  predicate AnyFailed(steps: seq<Step>) {
    steps != [] && (
      var last := steps[|steps| - 1];
      || last.WriteFails? || (last.StartSync? && !last.flushOk) || (last.EndSync? && !last.ok)
      || AnyFailed(steps[..|steps| - 1]))
  }

  lemma {:induction false} ErrorIffLastFailed(steps: seq<Step>)
    requires EnabledRun(steps)
    ensures After(steps).syncErr <==> LastFailed(steps)
    ensures After(steps).fatal <==> AnyFailed(steps)
    ensures LastFailed(steps) ==> AnyFailed(steps)
  {
    if steps != [] {
      ErrorIffLastFailed(steps[..|steps| - 1]);
    }
  }

  /**
   In every run a writer that returns gets nil exactly when nothing failed since the last fsync that
   succeeded. While the log is not poisoned nothing has failed, so it gets nil.
   */
  lemma {:induction false} ReturnIsNilIff(steps: seq<Step>, id: nat)
    requires EnabledRun(steps) && Enabled(After(steps), Return(id))
    ensures var s := After(steps);
            && Do(s, Return(id)).writers == s.writers[id := Returned(!LastFailed(steps), Some(s.writers[id].off))]
            && (!s.fatal ==> !LastFailed(steps))
  {
    ErrorIffLastFailed(steps);
  }

  /** While nothing has failed, no append has been told of an error, and each new one gets the next place. */
  lemma {:induction false} HealthyAppends(steps: seq<Step>)
    requires EnabledRun(steps) && !AnyFailed(steps)
    ensures var s := After(steps);
            && !s.fatal && !s.syncErr
            && (forall i :: i in s.writers && s.writers[i].Returned? ==> s.writers[i].isNil && s.writers[i].rec.Some?)
            && (forall id, spill :: Enabled(s, Write(id, spill)) ==>
                  Do(s, Write(id, spill)).writers == s.writers[id := Waiting(s.pendingGen, |s.gens|)])
  {
    if steps != [] {
      HealthyAppends(steps[..|steps| - 1]);
    }
  }

  // ---------------------------------------------------------------- nobody waits for ever

  /** A fsync that is under way can end well. */
  lemma {:induction false} SyncCanEnd(steps: seq<Step>) returns (more: seq<Step>)
    requires EnabledRun(steps)
    ensures EnabledRun(more) && steps <= more && !After(more).syncing && After(more).fatal == After(steps).fatal
    ensures !After(steps).syncErr ==> !After(more).syncErr
    ensures var s, f := After(steps), After(more);
            forall i :: i in s.writers && !s.writers[i].Returned? ==>
              i in f.writers && f.writers[i] == Waiting(s.writers[i].gen, s.writers[i].off)
  {
    var s := After(steps);
    RunKeepsInv(steps);
    more := steps;
    if s.syncing {
      var j :| j in s.writers && s.writers[j].Syncing?;
      assert WriterOk(s, s.writers[j]);
      OneMore(steps, EndSync(j, true, s.flushed));
      more := steps + [EndSync(j, true, s.flushed)];
      assert forall i :: i in s.writers && s.writers[i].Syncing? ==> i == j;
    } else {
      assert forall i :: i in s.writers ==> WriterOk(s, s.writers[i]);
    }
  }

  lemma {:induction false} WaiterCanReturn(steps: seq<Step>, id: nat) returns (more: seq<Step>)
    requires EnabledRun(steps) && !After(steps).syncing
    requires id in After(steps).writers && After(steps).writers[id].Waiting?
    ensures EnabledRun(more) && steps <= more
    ensures var s, w := After(steps), After(more).writers;
            && id in w && w[id].Returned? && w[id].rec == Some(s.writers[id].off)
            && (!s.fatal && !s.syncErr ==> w[id].isNil)
  {
    var s := After(steps);
    RunKeepsInv(steps);
    assert WriterOk(s, s.writers[id]);
    more := steps;
    if !s.fatal && s.syncedGen < s.writers[id].gen {
      OneMore(more, StartSync(id, true));
      more := more + [StartSync(id, true)];
      OneMore(more, EndSync(id, true, |s.gens|));
      more := more + [EndSync(id, true, |s.gens|)];
    }
    OneMore(more, Return(id));
    more := more + [Return(id)];
  }

  /** From every point of every run each append can still return; and with nil, if nothing has failed. */
  lemma {:induction false} AppendCanReturn(steps: seq<Step>, id: nat) returns (more: seq<Step>)
    requires EnabledRun(steps) && id in After(steps).writers && !After(steps).writers[id].Returned?
    ensures EnabledRun(more) && steps <= more
    ensures var s, w := After(steps), After(more).writers;
            && id in w && w[id].Returned? && w[id].rec == Some(s.writers[id].off)
            && (!AnyFailed(steps) ==> w[id].isNil)
  {
    ErrorIffLastFailed(steps);
    var idle := SyncCanEnd(steps);
    more := WaiterCanReturn(idle, id);
  }
}
