/**
 The workflow poller (internal/workflow/poller.go): one cursor per partition over the ring-buffer
 topic. A partition's cursor is only moved by its own drain, so a run is told partition by partition.
 */
module Polling {
  import opened Bytes
  import opened TopicLog

  const BATCH: nat := 512

  datatype Part = Part(history: seq<Message>, capacity: nat, cursor: int)

  /** The messages one drain of the partition visits. */
  function Visited(p: Part): seq<Message> {
    Fetched(p.history, p.capacity, p.cursor, BATCH)
  }

  function CursorAfter(cursor: int, msgs: seq<Message>): int {
    if msgs == [] then cursor else msgs[|msgs| - 1].offset + 1
  }

  /** The envelopes among the messages that are recognised as events. */
  function Recognised(parses: Str -> bool, msgs: seq<Message>): seq<Message> {
    if msgs == [] then []
    else
      var rest, m := Recognised(parses, msgs[..|msgs| - 1]), msgs[|msgs| - 1];
      if parses(m.payload) then rest + [m] else rest
  }

  /** What one pass over the partitions ingests, partition after partition. */
  function Pass(parses: Str -> bool, parts: seq<Part>): seq<Message> {
    if parts == [] then []
    else Pass(parses, parts[..|parts| - 1]) + Recognised(parses, Visited(parts[|parts| - 1]))
  }

  /** The first n cursors have moved past what their partitions' drains visit, the others have not moved. */
  ghost predicate Moved(cursors: seq<int>, parts: seq<Part>, n: nat) {
    && |cursors| == |parts|
    && (forall p :: 0 <= p < n && p < |parts| ==> cursors[p] == CursorAfter(parts[p].cursor, Visited(parts[p])))
    && (forall p :: n <= p < |parts| ==> cursors[p] == parts[p].cursor)
  }

  lemma {:induction false} MovedNext(before: seq<int>, after: seq<int>, parts: seq<Part>, n: nat)
    requires Moved(before, parts, n) && n < |parts| == |after|
    requires after[n] == CursorAfter(parts[n].cursor, Visited(parts[n]))
    requires forall p :: 0 <= p < |after| && p != n ==> after[p] == before[p]
    ensures Moved(after, parts, n + 1)
  {
  }

  lemma {:induction false} PassNext(parses: Str -> bool, parts: seq<Part>, n: nat)
    requires n < |parts|
    ensures Pass(parses, parts[..n + 1]) == Pass(parses, parts[..n]) + Recognised(parses, Visited(parts[n]))
  {
    assert parts[..n + 1][..n] == parts[..n];
  }

  class Poller {
    var cursors: seq<int>
    var ingested: seq<Message>

    constructor (partitions: nat)
      ensures ingested == [] && cursors == seq(partitions, _ => 0)
    {
      cursors := seq(partitions, _ => 0);
      ingested := [];
    }

    ghost function Parts(topics: seq<Topic>): seq<Part>
      requires |topics| == |cursors|
      reads this, topics
    {
      seq(|topics|, p requires 0 <= p < |topics| && |topics| == |cursors| reads this, topics =>
        Part(topics[p].history, topics[p].cap, cursors[p]))
    }

    /** Every partition is drained once, in order; the result counts the events ingested. */
    method DrainOnce(topics: seq<Topic>, parses: Str -> bool) returns (count: nat)
      requires |topics| == |cursors|
      requires forall t :: t in topics ==> t.Valid()
      modifies this
      ensures ingested == old(ingested) + Pass(parses, old(Parts(topics)))
      ensures count == |Pass(parses, old(Parts(topics)))|
      ensures Moved(cursors, old(Parts(topics)), |cursors|)
    {
      count := 0;
      ghost var parts := Parts(topics);
      for part := 0 to |topics|
        invariant ingested == old(ingested) + Pass(parses, parts[..part]) && count == |Pass(parses, parts[..part])|
        invariant forall t :: t in topics ==> t.Valid()
        invariant Moved(cursors, parts, part)
      {
        PassNext(parses, parts, part);
        var n := DrainOne(topics[part], part, parses, parts);
        count := count + n;
      }
      assert parts[..|parts|] == parts;
    }

    method DrainOne(topic: Topic, part: nat, parses: Str -> bool, ghost parts: seq<Part>) returns (count: nat)
      requires topic.Valid() && part < |parts| && Moved(cursors, parts, part)
      requires parts[part].history == topic.history && parts[part].capacity == topic.cap
      modifies this
      ensures var events := Recognised(parses, Visited(parts[part]));
              ingested == old(ingested) + events && count == |events|
      ensures Moved(cursors, parts, part + 1)
    {
      ghost var before := cursors;
      var msgs, _ := topic.Fetch(cursors[part], BATCH);
      count := Ingest(part, msgs, parses);
      MovedNext(before, cursors, parts, part);
    }

    method Ingest(part: nat, msgs: seq<Message>, parses: Str -> bool) returns (count: nat)
      requires part < |cursors|
      modifies this
      ensures ingested == old(ingested) + Recognised(parses, msgs) && count == |Recognised(parses, msgs)|
      ensures cursors == old(cursors)[part := CursorAfter(old(cursors[part]), msgs)]
    {
      count := 0;
      for i := 0 to |msgs|
        invariant ingested == old(ingested) + Recognised(parses, msgs[..i]) && count == |Recognised(parses, msgs[..i])|
        invariant cursors == old(cursors)[part := CursorAfter(old(cursors[part]), msgs[..i])]
      {
        var m := msgs[i];
        assert msgs[..i + 1][..i] == msgs[..i];
        if parses(m.payload) {
          ingested := ingested + [m];
          count := count + 1;
        }
        cursors := cursors[part := m.offset + 1];
      }
      assert msgs[..|msgs|] == msgs;
    }
  }

  // ---------------------------------------------------------------- runs

  datatype Step = Publish(payload: Str, now: int) | Drain

  /** One partition, and every message its drains have visited so far. */
  datatype State = State(part: Part, taken: seq<Message>)

  function Next(s: State, step: Step): State {
    match step
    case Publish(payload, now) =>
      s.(part := s.part.(history := s.part.history + [Message(|s.part.history|, now, payload)]))
    case Drain =>
      var msgs := Visited(s.part);
      State(s.part.(cursor := CursorAfter(s.part.cursor, msgs)), s.taken + msgs)
  }

  function Run(capacity: nat, steps: seq<Step>): State {
    if steps == [] then State(Part([], capacity, 0), [])
    else Next(Run(capacity, steps[..|steps| - 1]), steps[|steps| - 1])
  }

  function Oldest(s: State): nat {
    Head(|s.part.history|, s.part.capacity)
  }

  ghost predicate Increasing(msgs: seq<Message>) {
    forall i, j :: 0 <= i < j < |msgs| ==> msgs[i].offset < msgs[j].offset
  }

  ghost predicate Sound(s: State) {
    && Numbered(s.part.history) && 0 <= s.part.cursor <= |s.part.history|
    && (forall i :: 0 <= i < |s.taken| ==> 0 <= s.taken[i].offset < s.part.cursor)
    && (forall i :: 0 <= i < |s.taken| ==> s.taken[i] == s.part.history[s.taken[i].offset])
  }

  /**
   A drain visits consecutive offsets from its cursor, or from the oldest kept, up to its new cursor:
   512 of them, or as many as there are.
   */
  lemma {:induction false} DrainShape(s: State)
    requires Sound(s) && s.part.capacity > 0
    ensures var msgs, from := Visited(s.part), From(Oldest(s), s.part.cursor);
            && 0 <= from <= |s.part.history| && (msgs == [] ==> s.part.cursor == from == |s.part.history|)
            && CursorAfter(s.part.cursor, msgs) == from + |msgs| <= |s.part.history|
            && msgs == s.part.history[from..from + |msgs|]
            && (|msgs| == 512 || (|msgs| < 512 && from + |msgs| == |s.part.history|))
            && forall i :: 0 <= i < |msgs| ==> msgs[i].offset == from + i
  {
    FetchedIsASlice(s.part.history, s.part.capacity, s.part.cursor, BATCH, From(Oldest(s), s.part.cursor));
  }

  lemma {:induction false} StepSound(s: State, step: Step)
    requires Sound(s) && s.part.capacity > 0 && Increasing(s.taken)
    ensures Sound(Next(s, step)) && Increasing(Next(s, step).taken)
  {
    if step.Drain? {
      DrainShape(s);
    }
  }

  /** Whatever is published in between, the poller takes messages at strictly increasing offsets, as published. */
  lemma {:induction false} OffsetsIncrease(capacity: nat, steps: seq<Step>)
    requires capacity > 0
    ensures var s := Run(capacity, steps);
            Sound(s) && Increasing(s.taken) && s.part.capacity == capacity
  {
    if steps != [] {
      OffsetsIncrease(capacity, steps[..|steps| - 1]);
      StepSound(Run(capacity, steps[..|steps| - 1]), steps[|steps| - 1]);
    }
  }

  /** At step k the poller drains while the ring has already dropped offset o, which it has not visited. */
  ghost predicate SkippedAt(capacity: nat, steps: seq<Step>, k: nat, o: nat) {
    && k < |steps| && steps[k].Drain?
    && Run(capacity, steps[..k]).part.cursor <= o < Oldest(Run(capacity, steps[..k]))
  }

  ghost predicate Skipped(capacity: nat, steps: seq<Step>, o: nat) {
    exists k: nat :: SkippedAt(capacity, steps, k, o)
  }

  /** An offset behind the cursor was visited, or the ring had evicted it before the drain that passed it. */
  lemma {:induction false} SkippedOnlyIfEvicted(capacity: nat, steps: seq<Step>, o: nat)
    requires capacity > 0 && o < Run(capacity, steps).part.cursor
    ensures var s := Run(capacity, steps);
            o < |s.part.history| && (s.part.history[o] in s.taken || Skipped(capacity, steps, o))
  {
    OffsetsIncrease(capacity, steps);
    if steps != [] {
      var n := |steps| - 1;
      var before := Run(capacity, steps[..n]);
      OffsetsIncrease(capacity, steps[..n]);
      if o < before.part.cursor {
        SkippedOnlyIfEvicted(capacity, steps[..n], o);
        SkippedStays(capacity, steps, o);
        assert before.part.history[o] == Run(capacity, steps).part.history[o];
      } else {
        DrainShape(before);
        if o < Oldest(before) {
          assert SkippedAt(capacity, steps, n, o);
        } else {
          var from := From(Oldest(before), before.part.cursor);
          assert Visited(before.part)[o - from] == before.part.history[o];
        }
      }
    }
  }

  lemma {:induction false} SkippedStays(capacity: nat, steps: seq<Step>, o: nat)
    requires |steps| > 0
    ensures Skipped(capacity, steps[..|steps| - 1], o) ==> Skipped(capacity, steps, o)
  {
    var n := |steps| - 1;
    if k: nat :| SkippedAt(capacity, steps[..n], k, o) {
      assert steps[..n][..k] == steps[..k];
      assert SkippedAt(capacity, steps, k, o);
    }
  }

  /** No drain found its cursor behind the ring. */
  ghost predicate KeptUp(capacity: nat, steps: seq<Step>) {
    forall k :: 0 <= k < |steps| && steps[k].Drain? ==> InTime(Run(capacity, steps[..k]))
  }

  ghost predicate InTime(s: State) {
    Oldest(s) <= s.part.cursor
  }

  lemma {:induction false} KeptUpBefore(capacity: nat, steps: seq<Step>)
    requires |steps| > 0
    ensures var n := |steps| - 1;
            KeptUp(capacity, steps) <==> (
              KeptUp(capacity, steps[..n]) && (steps[n].Drain? ==> InTime(Run(capacity, steps[..n]))))
  {
    var n := |steps| - 1;
    assert forall k :: 0 <= k < n ==> steps[..n][..k] == steps[..k] && steps[..n][k] == steps[k];
    if KeptUp(capacity, steps) {
      forall k | 0 <= k < n && steps[..n][k].Drain?
        ensures InTime(Run(capacity, steps[..n][..k]))
      {
        assert steps[k].Drain?;
      }
    }
  }

  /** The poller has seen everything up to its cursor exactly when every drain came before the ring wrapped past it. */
  lemma {:induction false} NothingMissedIff(capacity: nat, steps: seq<Step>)
    requires capacity > 0
    ensures var s := Run(capacity, steps);
            && 0 <= s.part.cursor <= |s.part.history|
            && (s.taken == s.part.history[..s.part.cursor] <==> KeptUp(capacity, steps))
            && |s.taken| <= s.part.cursor && (!KeptUp(capacity, steps) ==> |s.taken| < s.part.cursor)
  {
    OffsetsIncrease(capacity, steps);
    if steps != [] {
      var n := |steps| - 1;
      OffsetsIncrease(capacity, steps[..n]);
      NothingMissedIff(capacity, steps[..n]);
      KeptUpBefore(capacity, steps);
      MissedStep(Run(capacity, steps[..n]), steps[n]);
    }
  }

  /** A step keeps what was taken whole, unless it is a drain that comes too late. */
  lemma {:induction false} MissedStep(s: State, step: Step)
    requires Sound(s) && s.part.capacity > 0
    ensures var t := Next(s, step);
            && 0 <= t.part.cursor <= |t.part.history| && |t.taken| - t.part.cursor <= |s.taken| - s.part.cursor
            && (s.taken == s.part.history[..s.part.cursor] && (step.Drain? ==> InTime(s)) ==>
               t.taken == t.part.history[..t.part.cursor])
            && (step.Drain? && !InTime(s) ==> |t.taken| - t.part.cursor < |s.taken| - s.part.cursor)
  {
    if step.Drain? {
      DrainShape(s);
    }
  }
}
