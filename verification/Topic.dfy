/** The ring-buffer topic (internal/broker/topic.go) against the unbounded log it stands for. */
module TopicLog {
  import opened Bytes

  datatype Message = Message(offset: int, timestamp: int, payload: Str)

  const DEFAULT_CAPACITY: nat := 1048576

  /** The oldest offset that a ring of the given capacity still holds. */
  function Head(tail: nat, capacity: nat): nat {
    if tail > capacity then tail - capacity else 0
  }

  function From(head: nat, offset: int): int {
    if offset < head then head else offset
  }

  /** Every message ever published, at its offset. */
  ghost predicate Numbered(history: seq<Message>) {
    forall i :: 0 <= i < |history| ==> history[i].offset == i
  }

  /** What Fetch promises, on the full history: up to maxCount messages from offset, or from the oldest kept. */
  function Fetched(history: seq<Message>, capacity: nat, offset: int, maxCount: nat): seq<Message> {
    var from := From(Head(|history|, capacity), offset);
    if from >= |history| then []
    else if from + maxCount > |history| then history[from..]
    else history[from..from + maxCount]
  }

  /** Where the ring keeps an offset. */
  function Slot(offset: nat, capacity: nat): (slot: nat)
    requires capacity > 0
    ensures slot < capacity
  {
    offset % capacity
  }

  /** Offsets less than a ring apart never share a slot. */
  lemma {:induction false} SlotsDiffer(i: nat, j: nat, n: nat)
    requires i < j < i + n
    ensures Slot(i, n) != Slot(j, n)
  {
    TooFar(n, i / n, j / n, i, j, i % n, j % n);
  }

  lemma {:induction false} TooFar(n: nat, a: nat, b: nat, i: nat, j: nat, r: nat, s: nat)
    requires i == n * a + r && j == n * b + s && i < j < i + n
    ensures r != s
  {
    if b > a {
      Apart(n, b, a);
    } else if a > b {
      Apart(n, a, b);
    }
  }

  lemma {:induction false} Apart(n: nat, a: int, b: int)
    requires a > b
    ensures n * a >= n * b + n
    decreases a - b
  {
    assert n * a == n * (a - 1) + n;
    if a > b + 1 {
      Apart(n, a - 1, b);
    }
  }

  class Topic {
    const messages: array<Message>
    const cap: nat
    var head: int
    var tail: int
    var evictions: int
    ghost var history: seq<Message>

    ghost predicate Valid()
      reads this, messages
    {
      && cap > 0 && messages.Length == cap
      && tail == |history| && Numbered(history)
      && head == Head(tail, cap) == evictions
      && forall i {:trigger Slot(i, cap)} :: head <= i < tail ==> messages[Slot(i, cap)] == history[i]
    }

    constructor (capacity: int)
      ensures Valid() && history == [] && fresh(messages)
      ensures cap == if capacity <= 0 then DEFAULT_CAPACITY else capacity
    {
      var size: nat := if capacity <= 0 then DEFAULT_CAPACITY else capacity;
      cap := size;
      messages := new Message[size](_ => Message(0, 0, []));
      head, tail, evictions := 0, 0, 0;
      history := [];
    }

    /** The message is appended to the history; the ring forgets the oldest one when it is full. */
    method Publish(payload: Str, now: int) returns (offset: int)
      requires Valid()
      modifies this, messages
      ensures Valid() && offset == old(tail)
      ensures history == old(history) + [Message(offset, now, payload)]
    {
      offset := tail;
      var idx := Slot(offset, cap);
      messages[idx] := Message(offset, now, payload);
      history := history + [Message(offset, now, payload)];
      tail := tail + 1;
      if tail - head > cap {
        head := head + 1;
        evictions := evictions + 1;
      }
      forall i | head <= i < tail - 1
        ensures Slot(i, cap) != idx
      {
        SlotsDiffer(i, offset, cap);
      }
    }

    /**
     The ring answers as the full history would, from the oldest offset it keeps. With messages to
     return, a negative count panics: the result is made with a negative capacity.
     */
    method Fetch(offset: int, maxCount: int) returns (out: seq<Message>, panics: bool)
      requires Valid()
      ensures panics <==> maxCount < 0 && From(head, offset) < tail
      ensures out == if maxCount < 0 then [] else Fetched(history, cap, offset, maxCount)
    {
      panics := false;
      var start := offset;
      if start < head {
        start := head;
      }
      if start >= tail {
        return [], false;
      }
      var end := start + maxCount;
      if end > tail {
        end := tail;
      }
      if end - start < 0 {
        return [], true;
      }
      out := [];
      for i := start to end
        invariant 0 <= start <= i <= end <= tail && out == history[start..i]
      {
        assert messages[Slot(i, cap)] == history[i];
        out := out + [messages[Slot(i, cap)]];
      }
      assert history[start..tail] == history[start..];
    }
  }

  /** Consecutive offsets, none older than the ring keeps and none before the one asked for. */
  lemma {:induction false} FetchedIsASlice(history: seq<Message>, capacity: nat, offset: int, maxCount: nat, from: int)
    requires Numbered(history) && from == From(Head(|history|, capacity), offset)
    ensures var out := Fetched(history, capacity, offset, maxCount);
            && |out| <= maxCount && (out == [] <==> maxCount == 0 || from >= |history|)
            && (out != [] ==> 0 <= from && from + |out| <= |history| && out == history[from..from + |out|])
            && (forall i :: 0 <= i < |out| ==> out[i].offset == from + i)
  {
    var out := Fetched(history, capacity, offset, maxCount);
    if out != [] {
      SliceIsNumbered(history, from, |out|);
    }
  }

  lemma {:induction false} SliceIsNumbered(history: seq<Message>, from: nat, n: nat)
    requires Numbered(history) && from + n <= |history|
    ensures var out := history[from..from + n];
            forall i :: 0 <= i < n ==> out[i].offset == from + i
  {
    var out := history[from..from + n];
    forall i | 0 <= i < n
      ensures out[i].offset == from + i
    {
      assert out[i] == history[from + i];
    }
  }
}
