/**
 When a subscription sends what is not synced yet (internal/cluster/shardwal/shardwal.go): the live
 loop is held back by the synced mark, the backfill is not.
 */
module ShardExposure {
  import opened ShardSubscribe

  /** The step sends a record that a failed fsync could still lose. */
  predicate SendsUnsynced(s: Sys, step: Step)
    requires Enabled(s, step) && s.file.flushed <= |s.file.log|
  {
    var out := Do(s, step).sub.out;
    |out| > |s.sub.out| && out[|out| - 1].off >= s.file.synced
  }

  /** A read of the backfill at or above the synced mark, of a record that was asked for. */
  predicate ReadsAhead(s: Sys, step: Step) {
    step.Read? && s.sub.phase.Backfill? && s.sub.cursor >= Max(s.sub.from, s.file.synced)
  }

  lemma {:induction false} SendsUnsyncedIff(s: Sys, step: Step)
    requires Inv(s) && Enabled(s, step)
    ensures SendsUnsynced(s, step) <==> ReadsAhead(s, step)
  {
  }

  // ---------------------------------------------------------------- whole runs

  /** Every record of the run was synced when it was sent. */
  ghost predicate SyncedWhenSent(s: Sys, steps: seq<Step>)
    requires s.file.flushed <= |s.file.log| && EnabledRun(s, steps)
  {
    steps == []
    || (SyncedWhenSent(s, steps[..|steps| - 1]) && !SendsUnsynced(After(s, steps[..|steps| - 1]), steps[|steps| - 1]))
  }

  /** At step i the backfill reads ahead of the synced mark. */
  ghost predicate ReadsAheadAt(s: Sys, steps: seq<Step>, i: nat)
    requires s.file.flushed <= |s.file.log| && EnabledRun(s, steps) && i < |steps|
  {
    PrefixEnabled(s, steps, i);
    ReadsAhead(After(s, steps[..i]), steps[i])
  }

  lemma {:induction false} PrefixEnabled(s: Sys, steps: seq<Step>, i: nat)
    requires s.file.flushed <= |s.file.log| && EnabledRun(s, steps) && i <= |steps|
    ensures EnabledRun(s, steps[..i])
  {
    if i < |steps| {
      PrefixEnabled(s, steps[..|steps| - 1], i);
      assert steps[..|steps| - 1][..i] == steps[..i];
    } else {
      assert steps[..i] == steps;
    }
  }

  /** Everything was synced when it was sent exactly when the backfill never read ahead of the synced mark. */
  lemma {:induction false} SyncedWhenSentIff(file: File, from: nat, steps: seq<Step>)
    requires file.synced <= file.flushed <= |file.log| && EnabledRun(Subscribe(file, from), steps)
    ensures SyncedWhenSent(Subscribe(file, from), steps) <==>
            forall i :: 0 <= i < |steps| ==> !ReadsAheadAt(Subscribe(file, from), steps, i)
  {
    var s := Subscribe(file, from);
    if steps != [] {
      var n := |steps| - 1;
      SyncedWhenSentIff(file, from, steps[..n]);
      RunKeepsInv(s, steps[..n]);
      SendsUnsyncedIff(After(s, steps[..n]), steps[n]);
      forall i | 0 <= i < n
        ensures ReadsAheadAt(s, steps[..n], i) <==> ReadsAheadAt(s, steps, i)
      {
        assert steps[..n][..i] == steps[..i];
      }
      assert ReadsAheadAt(s, steps, n) <==> SendsUnsynced(After(s, steps[..n]), steps[n]);
    }
  }

  // ---------------------------------------------------------------- it can always happen

  lemma {:induction false} OneMore(s: Sys, steps: seq<Step>, step: Step) returns (more: seq<Step>)
    requires s.file.flushed <= |s.file.log| && EnabledRun(s, steps) && Enabled(After(s, steps), step)
    ensures more == steps + [step] && EnabledRun(s, more) && After(s, more) == Do(After(s, steps), step)
  {
    more := steps + [step];
    assert more[..|steps|] == steps;
  }

  /** Appends make the log longer than n. */
  lemma {:induction false} Grows(s: Sys, steps: seq<Step>, n: nat) returns (more: seq<Step>)
    requires s.file.flushed <= |s.file.log| && EnabledRun(s, steps)
    ensures EnabledRun(s, more) && After(s, more).sub == After(s, steps).sub && |After(s, more).file.log| > n
    ensures After(s, more).file.(log := []) == After(s, steps).file.(log := [])
    decreases n - |After(s, steps).file.log|
  {
    more := steps;
    if |After(s, steps).file.log| <= n {
      more := OneMore(s, steps, Append("x"));
      more := Grows(s, more, n);
    }
  }

  /** The backfill reads up to record n. */
  lemma {:induction false} ReadsTo(s: Sys, steps: seq<Step>, n: nat) returns (more: seq<Step>)
    requires s.file.flushed <= |s.file.log| && EnabledRun(s, steps)
    requires After(s, steps).sub.phase.Backfill? && After(s, steps).sub.cursor <= n <= After(s, steps).file.flushed
    ensures EnabledRun(s, more) && After(s, more).file == After(s, steps).file
    ensures After(s, more).sub.phase.Backfill? && After(s, more).sub.cursor == n
    ensures After(s, more).sub.from == After(s, steps).sub.from
    decreases n - After(s, steps).sub.cursor
  {
    more := steps;
    if After(s, steps).sub.cursor < n {
      more := OneMore(s, steps, Read);
      more := ReadsTo(s, more, n);
    }
  }

  /** Whatever the file and the offset, some run sends a record that is not synced: it is flushed and read in time. */
  lemma {:induction false} BackfillCanSendUnsynced(file: File, from: nat) returns (steps: seq<Step>)
    requires file.synced <= file.flushed <= |file.log|
    ensures EnabledRun(Subscribe(file, from), steps) && !SyncedWhenSent(Subscribe(file, from), steps)
  {
    var s, n := Subscribe(file, from), Max(from, file.synced);
    steps := Grows(s, [], n);
    steps := OneMore(s, steps, Flush(|After(s, steps).file.log|));
    steps := ReadsTo(s, steps, n);
    var last := After(s, steps);
    RunKeepsInv(s, steps);
    SendsUnsyncedIff(last, Read);
    var more := OneMore(s, steps, Read);
    assert more[..|steps|] == steps;
    steps := more;
  }
}
