/**
 A shard subscription (internal/cluster/shardwal/shardwal.go, Subscribe over Replay) running against
 a file that grows under it. The file holds `flushed` whole records of the log; `synced` of them are
 known durable. Every Replay opens the file again and reads it from the start.
 */
module ShardSubscribe {

  type Payload = string

  datatype File = File(log: seq<Payload>, flushed: nat, synced: nat)

  datatype Sent = Sent(off: nat, payload: Payload, live: bool)

  datatype Phase = Backfill | Wait | Live(start: nat, limit: nat) | Stopped

  /** `cursor` is the record the current Replay reads next. */
  datatype Sub = Sub(from: nat, next: nat, cursor: nat, phase: Phase, mark: nat, out: seq<Sent>)

  datatype Sys = Sys(file: File, sub: Sub)

  function Subscribe(file: File, from: nat): Sys {
    Sys(file, Sub(from, from, 0, Backfill, 0, []))
  }

  datatype Step =
    | Append(payload: Payload)
    | Flush(upTo: nat)
    | Sync(upTo: nat)
    | Read       // Replay reads one whole record
    | AtEnd      // Replay finds no further whole record
    | Wake       // the live loop sees synced past next
    | Stop

  predicate Enabled(s: Sys, step: Step) {
    match step
    case Append(_) => true
    case Flush(n) => s.file.flushed <= n <= |s.file.log|
    case Sync(n) => s.file.synced <= n <= s.file.flushed
    case Read => (s.sub.phase.Backfill? || s.sub.phase.Live?) && s.sub.cursor < s.file.flushed
    case AtEnd => (s.sub.phase.Backfill? || s.sub.phase.Live?) && s.sub.cursor >= s.file.flushed
    case Wake => s.sub.phase.Wait? && s.file.synced > s.sub.next
    case Stop => true
  }

  function Send(b: Sub, payload: Payload): Sub {
    b.(next := b.cursor + 1, cursor := b.cursor + 1, out := b.out + [Sent(b.cursor, payload, b.phase.Live?)])
  }

  function ReadOne(b: Sub, payload: Payload): Sub {
    match b.phase
    case Backfill => if b.cursor >= b.from then Send(b, payload) else b.(cursor := b.cursor + 1)
    case Live(start, limit) =>
      if b.cursor < start then b.(cursor := b.cursor + 1)
      else if b.cursor >= limit then b.(phase := Wait)
      else Send(b, payload)
    case _ => b
  }

  function Do(s: Sys, step: Step): Sys
    requires Enabled(s, step) && s.file.flushed <= |s.file.log|
  {
    match step
    case Append(p) => s.(file := s.file.(log := s.file.log + [p]))
    case Flush(n) => s.(file := s.file.(flushed := n))
    case Sync(n) => s.(file := s.file.(synced := n))
    case Read => s.(sub := ReadOne(s.sub, s.file.log[s.sub.cursor]))
    case AtEnd => s.(sub := s.sub.(phase := Wait))
    case Wake => s.(sub := s.sub.(phase := Live(s.sub.next, s.file.synced), cursor := 0, mark := s.file.synced))
    case Stop => s.(sub := s.sub.(phase := Stopped))
  }

  /** What was sent is the slice of the log that starts at `from`, and live records were durable. */
  ghost predicate ExactSlice(s: Sys) {
    && s.sub.next == s.sub.from + |s.sub.out|
    && (forall i :: 0 <= i < |s.sub.out| ==>
          && s.sub.out[i].off == s.sub.from + i
          && s.sub.out[i].off < |s.file.log| && s.sub.out[i].payload == s.file.log[s.sub.out[i].off]
          && (s.sub.out[i].live ==> s.sub.out[i].off < s.file.synced))
  }

  function Max(a: nat, b: nat): nat {
    if a < b then b else a
  }

  ghost predicate Inv(s: Sys) {
    && s.file.synced <= s.file.flushed <= |s.file.log|
    && ExactSlice(s)
    && s.sub.mark <= s.file.synced
    && (match s.sub.phase
        case Backfill => s.sub.next == Max(s.sub.from, s.sub.cursor) && s.sub.mark == 0
        case Live(start, limit) =>
          s.sub.next == Max(start, s.sub.cursor) && start < limit == s.sub.mark && s.sub.next <= limit
        case Wait => s.sub.mark <= s.sub.next
        case Stopped => true)
  }

  lemma {:induction false} ReadKeepsInv(s: Sys)
    requires Inv(s) && Enabled(s, Read)
    ensures Inv(Do(s, Read))
  {
  }

  lemma {:induction false} StepKeepsInv(s: Sys, step: Step)
    requires Inv(s) && Enabled(s, step)
    ensures Inv(Do(s, step))
  {
    if step.Read? {
      ReadKeepsInv(s);
    }
  }

  predicate EnabledRun(s: Sys, steps: seq<Step>)
    requires s.file.flushed <= |s.file.log|
    decreases |steps|, 0
  {
    steps == [] || (EnabledRun(s, steps[..|steps| - 1]) && Enabled(After(s, steps[..|steps| - 1]), steps[|steps| - 1]))
  }

  function After(s: Sys, steps: seq<Step>): (f: Sys)
    requires s.file.flushed <= |s.file.log| && EnabledRun(s, steps)
    ensures f.file.flushed <= |f.file.log|
    decreases |steps|, 1
  {
    if steps == [] then s else Do(After(s, steps[..|steps| - 1]), steps[|steps| - 1])
  }

  lemma {:induction false} RunKeepsInv(s: Sys, steps: seq<Step>)
    requires Inv(s) && EnabledRun(s, steps)
    ensures Inv(After(s, steps))
  {
    if steps != [] {
      RunKeepsInv(s, steps[..|steps| - 1]);
      StepKeepsInv(After(s, steps[..|steps| - 1]), steps[|steps| - 1]);
    }
  }

  /**
   While the file grows by any appends, flushes and syncs, a subscription from any offset sends the
   records at from, from+1, ... with the log's payloads and no gap or repeat across the handover from
   backfill to live; what it sends live was already synced; and whenever it waits again it has sent
   everything below the mark it last woke for.
   */
  lemma {:induction false} SubscriptionIsAnExactSlice(file: File, from: nat, steps: seq<Step>)
    requires file.synced <= file.flushed <= |file.log|
    requires EnabledRun(Subscribe(file, from), steps)
    ensures var s := After(Subscribe(file, from), steps);
            && ExactSlice(s)
            && s.sub.from == from
            && (s.sub.phase.Wait? ==> s.sub.mark <= from + |s.sub.out|)
  {
    RunKeepsInv(Subscribe(file, from), steps);
    FromIsFixed(Subscribe(file, from), steps);
  }

  lemma {:induction false} FromIsFixed(s: Sys, steps: seq<Step>)
    requires s.file.flushed <= |s.file.log| && EnabledRun(s, steps)
    ensures After(s, steps).sub.from == s.sub.from
    ensures |s.file.log| <= |After(s, steps).file.log|
    ensures After(s, steps).file.log[..|s.file.log|] == s.file.log
  {
    if steps != [] {
      FromIsFixed(s, steps[..|steps| - 1]);
    }
  }
}
