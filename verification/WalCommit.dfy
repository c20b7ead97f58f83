/**
 Group commit of the main log in SyncAlways mode (internal/wal/wal.go, AppendRecord,
 groupCommitLocked and poisonLocked), one step per stretch of code that holds the mutex. Counts of
 records as in module ShardCommit. `syncErr` is true when the stored error is not nil.
 */
module WalCommit {
  import opened Options

  /** A returned writer remembers which record it wrote, if it wrote one. */
  datatype Writer =
    | Waiting(gen: nat, off: nat)
    | Syncing(gen: nat, off: nat, syncingGen: nat, flushedTail: nat)
    | Returned(isNil: bool, rec: Option<nat>)

  datatype Log = Log(pendingGen: nat, syncedGen: nat, syncing: bool, syncErr: bool, fatal: bool,
                     gens: seq<nat>, flushed: nat, durable: nat, writers: map<nat, Writer>)

  const OPENED := Log(1, 0, false, false, false, [], 0, 0, map[])

  datatype Step =
    | Write(id: nat, spill: nat)
    | WriteFails(id: nat)
    | Return(id: nat)
    | StartSync(id: nat, flushOk: bool)
    | EndSync(id: nat, ok: bool, durable: nat)
    | Writeback(durable: nat)

  predicate Enabled(s: Log, step: Step) {
    match step
    case Write(id, spill) => id !in s.writers && s.flushed <= spill <= |s.gens| + 1
    case WriteFails(id) => id !in s.writers && !s.fatal
    case Return(id) =>
      id in s.writers && s.writers[id].Waiting? && (s.fatal || s.syncedGen >= s.writers[id].gen)
    case StartSync(id, _) =>
      id in s.writers && s.writers[id].Waiting? && !s.fatal && s.syncedGen < s.writers[id].gen && !s.syncing
    case EndSync(id, ok, d) =>
      id in s.writers && s.writers[id].Syncing? && s.durable <= d <= s.flushed
      && (ok ==> s.writers[id].flushedTail <= d)
    case Writeback(d) => s.durable <= d <= s.flushed
  }

  function Do(s: Log, step: Step): Log
    requires Enabled(s, step)
  {
    match step
    case Write(id, spill) =>
      if s.fatal then s.(writers := s.writers[id := Returned(!s.syncErr, None)])
      else s.(gens := s.gens + [s.pendingGen], flushed := spill,
              writers := s.writers[id := Waiting(s.pendingGen, |s.gens|)])
    case WriteFails(id) => s.(fatal := true, syncErr := true, writers := s.writers[id := Returned(false, None)])
    case Return(id) => s.(writers := s.writers[id := Returned(!s.syncErr, Some(s.writers[id].off))])
    case StartSync(id, flushOk) =>
      var w := s.writers[id];
      if !flushOk then s.(fatal := true, syncErr := true, writers := s.writers[id := Returned(false, Some(w.off))])
      else s.(syncing := true, flushed := |s.gens|, pendingGen := s.pendingGen + 1,
              writers := s.writers[id := Syncing(w.gen, w.off, s.pendingGen, |s.gens|)])
    case EndSync(id, ok, d) =>
      var w := s.writers[id];
      if !ok then
        s.(fatal := true, syncErr := true, syncing := false, durable := d,
           writers := s.writers[id := Returned(false, Some(w.off))])
      else s.(syncedGen := w.syncingGen, syncErr := false, syncing := false, durable := d,
              writers := s.writers[id := Waiting(w.gen, w.off)])
    case Writeback(d) => s.(durable := d)
  }

  predicate EnabledRun(steps: seq<Step>)
    decreases |steps|, 0
  {
    steps == [] || (EnabledRun(steps[..|steps| - 1]) && Enabled(After(steps[..|steps| - 1]), steps[|steps| - 1]))
  }

  function After(steps: seq<Step>): Log
    requires EnabledRun(steps)
    decreases |steps|, 1
  {
    if steps == [] then OPENED else Do(After(steps[..|steps| - 1]), steps[|steps| - 1])
  }

  lemma {:induction false} PrefixEnabled(steps: seq<Step>, n: nat)
    requires EnabledRun(steps) && n <= |steps|
    ensures EnabledRun(steps[..n])
    ensures n < |steps| ==> Enabled(After(steps[..n]), steps[n])
    decreases |steps|
  {
    if n == |steps| {
      assert steps[..n] == steps;
    } else {
      PrefixEnabled(steps[..|steps| - 1], n);
      assert steps[..|steps| - 1][..n] == steps[..n];
    }
  }

  // ---------------------------------------------------------------- what every step keeps

  ghost predicate CoveredBy(gens: seq<nat>, g: nat, n: nat) {
    forall i :: 0 <= i < |gens| && gens[i] <= g ==> i < n
  }

  /** The log is poisoned, but the stored error has been cleared. */
  predicate Cleared(s: Log) {
    s.fatal && !s.syncErr
  }

  ghost predicate WriterOk(s: Log, w: Writer) {
    match w
    case Waiting(g, off) => off < |s.gens| && s.gens[off] == g
    case Syncing(g, off, sg, ft) =>
      && off < |s.gens| && s.gens[off] == g
      && s.syncing && s.syncedGen < sg < s.pendingGen && ft <= s.flushed && CoveredBy(s.gens, sg, ft)
    case Returned(isNil, rec) => isNil && !Cleared(s) ==> rec.Some? && rec.value < s.durable
  }

  ghost predicate Levels(s: Log) {
    && s.durable <= s.flushed <= |s.gens| && s.syncedGen < s.pendingGen
    && CoveredBy(s.gens, s.syncedGen, s.durable)
    && (forall i :: 0 <= i < |s.gens| ==> s.gens[i] <= s.pendingGen)
  }

  ghost predicate OneSyncer(s: Log) {
    && (forall i, j :: i in s.writers && j in s.writers && s.writers[i].Syncing? && s.writers[j].Syncing? ==> i == j)
    && (s.syncing ==> exists i :: i in s.writers && s.writers[i].Syncing?)
  }

  ghost predicate Inv(s: Log) {
    && Levels(s) && OneSyncer(s)
    && (Cleared(s) ==> !s.syncing)
    && (forall i :: i in s.writers ==> WriterOk(s, s.writers[i]))
  }

  lemma {:induction false} StepKeepsLevels(s: Log, step: Step)
    requires Inv(s) && Enabled(s, step)
    ensures Levels(Do(s, step))
  {
    var f := Do(s, step);
    assert forall i :: 0 <= i < |s.gens| ==> f.gens[i] == s.gens[i];
    if step.EndSync? {
      assert WriterOk(s, s.writers[step.id]);
    }
  }

  lemma {:induction false} StepKeepsOneSyncer(s: Log, step: Step)
    requires Inv(s) && Enabled(s, step)
    ensures OneSyncer(Do(s, step))
  {
    var f := Do(s, step);
    if step.StartSync? && step.flushOk {
      assert forall i :: i in s.writers && s.writers[i].Syncing? ==> WriterOk(s, s.writers[i]);
      assert f.writers[step.id].Syncing?;
    } else if s.syncing && !step.EndSync? {
      var i :| i in s.writers && s.writers[i].Syncing?;
      assert i in f.writers && f.writers[i].Syncing?;
    }
  }

  lemma {:induction false} StepKeepsWriter(s: Log, step: Step, i: nat)
    requires Inv(s) && Enabled(s, step) && i in Do(s, step).writers
    ensures WriterOk(Do(s, step), Do(s, step).writers[i])
  {
    var f := Do(s, step);
    if i in s.writers {
      assert WriterOk(s, s.writers[i]);
    }
    assert forall n :: 0 <= n < |s.gens| ==> f.gens[n] == s.gens[n];
    if step.EndSync? {
      assert WriterOk(s, s.writers[step.id]);
    }
  }

  lemma {:induction false} RunKeepsInv(steps: seq<Step>)
    requires EnabledRun(steps)
    ensures Inv(After(steps))
  {
    if steps != [] {
      var s, step := After(steps[..|steps| - 1]), steps[|steps| - 1];
      RunKeepsInv(steps[..|steps| - 1]);
      StepKeepsLevels(s, step);
      StepKeepsOneSyncer(s, step);
      ClearedStays(s, step);
      forall i | i in Do(s, step).writers
        ensures WriterOk(Do(s, step), Do(s, step).writers[i])
      {
        StepKeepsWriter(s, step, i);
      }
    }
  }

  // ---------------------------------------------------------------- when the stored error is lost

  /** A write failed while an fsync was in flight, and that fsync then succeeded. */
  ghost predicate Overlapped(steps: seq<Step>)
    requires EnabledRun(steps)
  {
    exists i, j :: 0 <= i < j < |steps| && WriteFailedDuringSync(steps, i) && steps[j].EndSync? && steps[j].ok
  }

  ghost predicate WriteFailedDuringSync(steps: seq<Step>, i: nat)
    requires EnabledRun(steps) && i < |steps|
  {
    PrefixEnabled(steps, i);
    steps[i].WriteFails? && After(steps[..i]).syncing
  }

  lemma {:induction false} OverlapStep(steps: seq<Step>)
    requires EnabledRun(steps) && steps != []
    ensures EnabledRun(steps[..|steps| - 1])
    ensures var init, last := steps[..|steps| - 1], steps[|steps| - 1];
            Overlapped(steps)
            <==> (Overlapped(init)
                  || (last.EndSync? && last.ok && exists i :: 0 <= i < |init| && WriteFailedDuringSync(init, i)))
  {
    var init, last := steps[..|steps| - 1], steps[|steps| - 1];
    forall i | 0 <= i < |init|
      ensures WriteFailedDuringSync(steps, i) <==> WriteFailedDuringSync(init, i)
    {
      assert steps[..i] == init[..i];
    }
    if Overlapped(init) {
      var i, j :| 0 <= i < j < |init| && WriteFailedDuringSync(init, i) && init[j].EndSync? && init[j].ok;
      assert WriteFailedDuringSync(steps, i) && steps[j] == init[j];
    }
    if last.EndSync? && last.ok && exists i :: 0 <= i < |init| && WriteFailedDuringSync(init, i) {
      var i :| 0 <= i < |init| && WriteFailedDuringSync(init, i);
      assert WriteFailedDuringSync(steps, i) && steps[|steps| - 1] == last;
    }
    if Overlapped(steps) {
      var i, j :| 0 <= i < j < |steps| && WriteFailedDuringSync(steps, i) && steps[j].EndSync? && steps[j].ok;
      assert WriteFailedDuringSync(init, i);
      if j < |init| {
        assert init[j] == steps[j];
      }
    }
  }

  /** While an fsync is in flight, the log is poisoned exactly when a write failed under it. */
  lemma {:induction false} PoisonedDuringSync(steps: seq<Step>)
    requires EnabledRun(steps)
    ensures var s := After(steps);
            && ((exists i :: 0 <= i < |steps| && WriteFailedDuringSync(steps, i)) ==> s.fatal)
            && (s.syncing && s.fatal ==> exists i :: 0 <= i < |steps| && WriteFailedDuringSync(steps, i))
  {
    if steps != [] {
      var init, last := steps[..|steps| - 1], steps[|steps| - 1];
      PoisonedDuringSync(init);
      RunKeepsInv(init);
      var s, b := After(steps), After(init);
      forall i | 0 <= i < |init|
        ensures WriteFailedDuringSync(steps, i) <==> WriteFailedDuringSync(init, i)
      {
        assert steps[..i] == init[..i];
      }
      if i :| 0 <= i < |steps| && WriteFailedDuringSync(steps, i) {
        if i < |init| {
          assert WriteFailedDuringSync(init, i);
        }
      }
      if s.syncing && s.fatal {
        if b.syncing && b.fatal {
          var i :| 0 <= i < |init| && WriteFailedDuringSync(init, i);
          assert WriteFailedDuringSync(steps, i);
        } else {
          assert last.WriteFails? && b.syncing;
          assert WriteFailedDuringSync(steps, |init|);
        }
      }
    }
  }

  /** The stored error is lost exactly by that overlap, and then it stays lost. */
  lemma {:induction false} ClearedIffOverlapped(steps: seq<Step>)
    requires EnabledRun(steps)
    ensures Cleared(After(steps)) <==> Overlapped(steps)
  {
    if steps != [] {
      var init, last := steps[..|steps| - 1], steps[|steps| - 1];
      ClearedIffOverlapped(init);
      OverlapStep(steps);
      PoisonedDuringSync(init);
      RunKeepsInv(init);
      if last.EndSync? {
        assert WriterOk(After(init), After(init).writers[last.id]);
      }
      ClearedStays(After(init), last);
    }
  }

  lemma {:induction false} ClearedStays(s: Log, step: Step)
    requires Inv(s) && Enabled(s, step)
    ensures Cleared(s) ==> Cleared(Do(s, step))
    ensures Cleared(Do(s, step)) ==> !Do(s, step).syncing
  {
    if step.EndSync? {
      assert WriterOk(s, s.writers[step.id]);
    }
  }

  /**
   In SyncAlways mode every append that returned nil has its record durable, unless a write failed
   while an fsync was in flight and that fsync succeeded.
   */
  lemma {:induction false} NilMeansDurable(steps: seq<Step>, i: nat)
    requires EnabledRun(steps) && !Overlapped(steps)
    requires i in After(steps).writers && After(steps).writers[i].Returned? && After(steps).writers[i].isNil
    ensures var w := After(steps).writers[i]; w.rec.Some? && w.rec.value < After(steps).durable
  {
    RunKeepsInv(steps);
    ClearedIffOverlapped(steps);
    assert WriterOk(After(steps), After(steps).writers[i]);
  }

  /**
   Once the log is poisoned, a writer that returns gets an error, unless there was such an overlap; and
   after an overlap every further append returns nil although nothing is written.
   */
  lemma {:induction false} AfterPoison(steps: seq<Step>, step: Step, id: nat)
    requires EnabledRun(steps) && After(steps).fatal && Enabled(After(steps), step)
    requires (step.Write? || step.Return?) && step.id == id
    ensures var f := Do(After(steps), step);
            && f.writers[id].Returned? && (f.writers[id].isNil <==> Overlapped(steps))
            && f.gens == After(steps).gens && (step.Write? ==> f.writers[id].rec == None)
  {
    ClearedIffOverlapped(steps);
  }

  lemma {:induction false} OneMore(steps: seq<Step>, step: Step)
    requires EnabledRun(steps) && Enabled(After(steps), step)
    ensures EnabledRun(steps + [step]) && After(steps + [step]) == Do(After(steps), step)
  {
    assert (steps + [step])[..|steps|] == steps;
  }

  /** Such a run exists: a third writer is told nil and its record is nowhere. */
  lemma {:induction false} AppendCanBeLost()
    ensures exists steps ::
              && EnabledRun(steps) && 3 in After(steps).writers
              && After(steps).writers[3] == Returned(true, None)
  {
    var s1 := [] + [Write(1, 0)];
    OneMore([], Write(1, 0));
    var s2 := s1 + [StartSync(1, true)];
    OneMore(s1, StartSync(1, true));
    var s3 := s2 + [WriteFails(2)];
    OneMore(s2, WriteFails(2));
    var s4 := s3 + [EndSync(1, true, 1)];
    OneMore(s3, EndSync(1, true, 1));
    OneMore(s4, Write(3, 1));
    assert After(s4 + [Write(3, 1)]).writers[3] == Returned(true, None);
  }

  /** The synced generation and the durable end never go back; at most one writer is inside fsync. */
  lemma {:induction false} MarksNeverFall(steps: seq<Step>, step: Step)
    requires EnabledRun(steps) && Enabled(After(steps), step)
    ensures var s, f := After(steps), Do(After(steps), step);
            && s.syncedGen <= f.syncedGen && s.durable <= f.durable && (s.fatal ==> f.fatal)
            && forall i, j :: i in s.writers && j in s.writers && s.writers[i].Syncing? && s.writers[j].Syncing? ==>
               i == j
  {
    RunKeepsInv(steps);
    if step.EndSync? {
      assert WriterOk(After(steps), After(steps).writers[step.id]);
    }
  }
}
