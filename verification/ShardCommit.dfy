/**
 Group commit of the shard log (internal/cluster/shardwal/shardwal.go, Append and
 groupCommitLocked): any number of writers, one step per stretch of code that holds the mutex.

 Records are counted: `tail` are buffered, the first `flushed` of them have reached the file, and
 the first `durable` survive a crash. A successful fsync makes everything that was flushed before it
 durable. A writer error is sticky, as it is in Go's bufio.
 */
module ShardCommit {

  datatype Writer =
    | Waiting(gen: nat, off: nat)
    | Syncing(gen: nat, off: nat, syncingGen: nat, flushedTail: nat)
    | Returned(ok: bool, off: nat)

  datatype Shard = Shard(tail: nat, synced: nat, pendingGen: nat, syncedGen: nat, syncing: bool, syncErr: bool,
                         closed: bool, gens: seq<nat>, flushed: nat, durable: nat, broken: bool,
                         writers: map<nat, Writer>)

  /** A shard opened on a file of n whole records. */
  function Open(n: nat): Shard {
    Shard(n, n, 1, 0, false, false, false, seq(n, i => 0), n, n, false, map[])
  }

  datatype Step =
    | Write(id: nat, spill: nat)               // header and payload go to the buffer, which may spill to the file
    | WriteFails(id: nat)
    | Return(id: nat)                          // the writer's generation is synced
    | StartSync(id: nat, flushOk: bool)        // becomes the syncer
    | EndSync(id: nat, ok: bool, durable: nat)
    | Writeback(durable: nat)                  // the kernel writes dirty pages on its own
    | Close(flushOk: bool, syncOk: bool)

  predicate Enabled(s: Shard, step: Step) {
    match step
    case Write(id, spill) => id !in s.writers && s.flushed <= spill <= s.tail + 1 && (s.broken ==> spill == s.flushed)
    case WriteFails(id) => id !in s.writers && !s.closed
    case Return(id) => id in s.writers && s.writers[id].Waiting? && s.syncedGen >= s.writers[id].gen
    case StartSync(id, flushOk) =>
      id in s.writers && s.writers[id].Waiting? && s.syncedGen < s.writers[id].gen && !s.syncing
      && (s.broken ==> !flushOk)
    case EndSync(id, ok, d) =>
      id in s.writers && s.writers[id].Syncing? && s.durable <= d <= s.flushed
      && (ok ==> s.writers[id].flushedTail <= d)
    case Writeback(d) => s.durable <= d <= s.flushed
    case Close(flushOk, _) => !s.closed && !s.syncing && (s.broken ==> !flushOk)
  }

  function Do(s: Shard, step: Step): Shard
    requires Enabled(s, step)
  {
    match step
    case Write(id, spill) =>
      if s.closed || s.broken then s.(writers := s.writers[id := Returned(false, s.tail)])
      else s.(tail := s.tail + 1, gens := s.gens + [s.pendingGen], flushed := spill,
              writers := s.writers[id := Waiting(s.pendingGen, s.tail)])
    case WriteFails(id) => s.(broken := true, writers := s.writers[id := Returned(false, s.tail)])
    case Return(id) => s.(writers := s.writers[id := Returned(!s.syncErr, s.writers[id].off)])
    case StartSync(id, flushOk) =>
      var w := s.writers[id];
      if !flushOk then s.(broken := true, syncErr := true, writers := s.writers[id := Returned(false, w.off)])
      else s.(syncing := true, flushed := s.tail, pendingGen := s.pendingGen + 1,
              writers := s.writers[id := Syncing(w.gen, w.off, s.pendingGen, s.tail)])
    case EndSync(id, ok, d) =>
      var w := s.writers[id];
      if !ok then
        s.(syncErr := true, syncing := false, durable := d, writers := s.writers[id := Returned(false, w.off)])
      else s.(syncedGen := w.syncingGen, synced := w.flushedTail, syncErr := false, syncing := false, durable := d,
              writers := s.writers[id := Waiting(w.gen, w.off)])
    case Writeback(d) => s.(durable := d)
    case Close(flushOk, syncOk) =>
      s.(closed := true, flushed := if flushOk then s.tail else s.flushed, broken := s.broken || !flushOk,
         durable := if flushOk && syncOk then s.tail else s.durable)
  }

  predicate EnabledRun(s: Shard, steps: seq<Step>)
    decreases |steps|, 0
  {
    steps == [] || (EnabledRun(s, steps[..|steps| - 1]) && Enabled(After(s, steps[..|steps| - 1]), steps[|steps| - 1]))
  }

  function After(s: Shard, steps: seq<Step>): Shard
    requires EnabledRun(s, steps)
    decreases |steps|, 1
  {
    if steps == [] then s else Do(After(s, steps[..|steps| - 1]), steps[|steps| - 1])
  }

  // ---------------------------------------------------------------- what every step keeps

  /** Everything tagged with a generation up to g lies below offset n. */
  ghost predicate CoveredBy(gens: seq<nat>, g: nat, n: nat) {
    forall i :: 0 <= i < |gens| && gens[i] <= g ==> i < n
  }

  ghost predicate Levels(s: Shard) {
    && s.synced <= s.durable <= s.flushed <= s.tail == |s.gens|
    && s.syncedGen < s.pendingGen
    && (forall i :: 0 <= i < |s.gens| ==> s.gens[i] <= s.pendingGen)
    && CoveredBy(s.gens, s.syncedGen, s.synced)
  }

  ghost predicate WriterOk(s: Shard, w: Writer) {
    match w
    case Waiting(g, off) => off < |s.gens| && s.gens[off] == g
    case Syncing(g, off, sg, ft) =>
      && off < |s.gens| && s.gens[off] == g
      && s.syncing && s.syncedGen < sg < s.pendingGen && s.synced <= ft <= s.flushed && CoveredBy(s.gens, sg, ft)
    case Returned(ok, off) => ok ==> off < s.synced
  }

  ghost predicate OneSyncer(s: Shard) {
    && (forall i, j :: i in s.writers && j in s.writers && s.writers[i].Syncing? && s.writers[j].Syncing? ==> i == j)
    && (s.syncing ==> exists i :: i in s.writers && s.writers[i].Syncing?)
  }

  /** The writer's record is in the log, and it has not been told of a failure. */
  predicate Owns(w: Writer) {
    w.Returned? ==> w.ok
  }

  ghost predicate OwnOffsets(s: Shard) {
    forall i, j :: (i in s.writers && j in s.writers && i != j && Owns(s.writers[i]) && Owns(s.writers[j]))
                   ==> s.writers[i].off != s.writers[j].off
  }

  ghost predicate Inv(s: Shard) {
    && Levels(s) && OneSyncer(s) && OwnOffsets(s)
    && (forall i :: i in s.writers ==> WriterOk(s, s.writers[i]))
  }

  lemma {:induction false} StepKeepsLevels(s: Shard, step: Step)
    requires Inv(s) && Enabled(s, step)
    ensures Levels(Do(s, step))
  {
    if step.Write? || step.EndSync? {
      var f := Do(s, step);
      assert forall i :: 0 <= i < |s.gens| ==> f.gens[i] == s.gens[i];
    }
  }

  lemma {:induction false} StepKeepsOneSyncer(s: Shard, step: Step)
    requires Inv(s) && Enabled(s, step)
    ensures OneSyncer(Do(s, step))
  {
    var f := Do(s, step);
    if step.StartSync? && step.flushOk {
      assert forall i :: i in s.writers && s.writers[i].Syncing? ==> WriterOk(s, s.writers[i]);
      assert f.writers[step.id].Syncing?;
    } else if s.syncing && !step.EndSync? {
      var i :| i in s.writers && s.writers[i].Syncing?;
      assert i in f.writers && f.writers[i].Syncing?;
    }
  }

  lemma {:induction false} StepKeepsWriter(s: Shard, step: Step, i: nat)
    requires Inv(s) && Enabled(s, step) && i in Do(s, step).writers
    ensures WriterOk(Do(s, step), Do(s, step).writers[i])
  {
    if i in s.writers {
      assert WriterOk(s, s.writers[i]);
    }
    if step.Write? || step.WriteFails? {
      WriteKeepsWriter(s, step, i);
    } else if step.StartSync? {
      StartKeepsWriter(s, step, i);
    } else if step.EndSync? {
      EndKeepsWriter(s, step, i);
    }
  }

  lemma {:induction false} WriteKeepsWriter(s: Shard, step: Step, i: nat)
    requires Inv(s) && Enabled(s, step) && i in Do(s, step).writers && (step.Write? || step.WriteFails?)
    requires i in s.writers ==> WriterOk(s, s.writers[i])
    ensures WriterOk(Do(s, step), Do(s, step).writers[i])
  {
    var f := Do(s, step);
    assert forall n :: 0 <= n < |s.gens| ==> f.gens[n] == s.gens[n];
  }

  lemma {:induction false} StartKeepsWriter(s: Shard, step: Step, i: nat)
    requires Inv(s) && Enabled(s, step) && i in Do(s, step).writers && step.StartSync?
    requires i in s.writers ==> WriterOk(s, s.writers[i])
    ensures WriterOk(Do(s, step), Do(s, step).writers[i])
  {
  }

  lemma {:induction false} EndKeepsWriter(s: Shard, step: Step, i: nat)
    requires Inv(s) && Enabled(s, step) && i in Do(s, step).writers && step.EndSync?
    requires i in s.writers ==> WriterOk(s, s.writers[i])
    ensures WriterOk(Do(s, step), Do(s, step).writers[i])
  {
    assert WriterOk(s, s.writers[step.id]);
  }

  lemma {:induction false} StepKeepsOffsets(s: Shard, step: Step)
    requires Inv(s) && Enabled(s, step)
    ensures OwnOffsets(Do(s, step))
  {
    assert forall i :: i in s.writers && Owns(s.writers[i]) ==> WriterOk(s, s.writers[i]) && s.writers[i].off < s.tail;
    if !step.Writeback? && !step.Close? {
      OneWriterMoves(s, Do(s, step), step.id);
    }
  }

  /** A writer keeps its offset, or gets one above all others. */
  lemma {:induction false} OneWriterMoves(s: Shard, f: Shard, id: nat)
    requires OwnOffsets(s) && id in f.writers && f.writers == s.writers[id := f.writers[id]]
    requires Owns(f.writers[id]) ==>
               || (id in s.writers && Owns(s.writers[id]) && s.writers[id].off == f.writers[id].off)
               || (forall i :: i in s.writers && Owns(s.writers[i]) ==> s.writers[i].off < f.writers[id].off)
    ensures OwnOffsets(f)
  {
  }

  lemma {:induction false} StepKeepsInv(s: Shard, step: Step)
    requires Inv(s) && Enabled(s, step)
    ensures Inv(Do(s, step))
  {
    StepKeepsLevels(s, step);
    StepKeepsOneSyncer(s, step);
    StepKeepsOffsets(s, step);
    forall i | i in Do(s, step).writers
      ensures WriterOk(Do(s, step), Do(s, step).writers[i])
    {
      StepKeepsWriter(s, step, i);
    }
  }

  /** Neither mark ever goes back, and once a writer has returned it stays returned. */
  lemma {:induction false} MarksNeverFall(s: Shard, step: Step)
    requires Inv(s) && Enabled(s, step)
    ensures var f := Do(s, step);
            && s.synced <= f.synced && s.syncedGen <= f.syncedGen && s.durable <= f.durable && s.tail <= f.tail
            && forall i :: i in s.writers && s.writers[i].Returned? ==> i in f.writers && f.writers[i] == s.writers[i]
  {
    if step.EndSync? {
      assert WriterOk(s, s.writers[step.id]);
    }
  }

  lemma {:induction false} RunKeepsInv(n: nat, steps: seq<Step>)
    requires EnabledRun(Open(n), steps)
    ensures Inv(After(Open(n), steps))
  {
    if steps != [] {
      RunKeepsInv(n, steps[..|steps| - 1]);
      StepKeepsInv(After(Open(n), steps[..|steps| - 1]), steps[|steps| - 1]);
    }
  }

  /**
   For any number of writers and any pattern of write, flush and fsync failures: an Append that
   returned nil has its record below both the synced mark and the durable end of the file, no two such
   appends got the same offset, and at most one writer is inside fsync.
   */
  lemma {:induction false} NilMeansDurable(n: nat, steps: seq<Step>, i: nat, j: nat)
    requires EnabledRun(Open(n), steps)
    requires i in After(Open(n), steps).writers && j in After(Open(n), steps).writers
    ensures var s := After(Open(n), steps);
            && s.synced <= s.durable
            && (s.writers[i].Returned? && s.writers[i].ok ==> s.writers[i].off < s.synced)
            && (i != j && s.writers[i].Returned? && s.writers[i].ok && s.writers[j].Returned? && s.writers[j].ok ==>
                  s.writers[i].off != s.writers[j].off)
            && (s.writers[i].Syncing? && s.writers[j].Syncing? ==> i == j)
  {
    RunKeepsInv(n, steps);
    assert WriterOk(After(Open(n), steps), After(Open(n), steps).writers[i]);
  }
}
