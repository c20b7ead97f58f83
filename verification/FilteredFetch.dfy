/** The filtered path of the Fetch call (internal/grpcapi/server.go), with no publish during the call. */
module FilteredFetch {
  import opened Bytes
  import opened TopicLog

  function Clamp(n: int, default: nat, most: nat): nat {
    if n <= 0 then default else if n > most then most else n
  }

  function MaxCount(n: int): nat {
    Clamp(n, 256, 4096)
  }

  function ScanLimit(n: int): nat {
    Clamp(n, 16384, 65536)
  }

  function PageSize(scanLimit: nat): nat {
    if 1024 > scanLimit then scanLimit else 1024
  }

  /** The messages that pass the filter, in order. */
  function Matching(filter: Str -> bool, msgs: seq<Message>): seq<Message> {
    if msgs == [] then []
    else
      var rest, m := Matching(filter, msgs[..|msgs| - 1]), msgs[|msgs| - 1];
      if filter(m.payload) then rest + [m] else rest
  }

  function First(msgs: seq<Message>, n: nat): seq<Message> {
    if |msgs| > n then msgs[..n] else msgs
  }

  /** A request: what the topic holds, the filter, and the two limits in force. */
  datatype Query = Query(history: seq<Message>, capacity: nat, filter: Str -> bool, max: nat, limit: nat)

  function Request(history: seq<Message>, capacity: nat, filter: Str -> bool, maxCount: int, scanLimit: int): Query {
    Query(history, capacity, filter, MaxCount(maxCount), ScanLimit(scanLimit))
  }

  /** The limits in force, whatever was asked for. */
  lemma {:induction false} LimitsInForce(history: seq<Message>, capacity: nat, filter: Str -> bool, maxCount: int,
                                         scanLimit: int)
    ensures var q := Request(history, capacity, filter, maxCount, scanLimit);
            && 1 <= q.max <= 4096 && 1 <= q.limit <= 65536 && 1 <= PageSize(q.limit) <= 1024
            && (maxCount <= 0 ==> q.max == 256) && (1 <= maxCount <= 4096 ==> q.max == maxCount)
            && (scanLimit <= 0 ==> q.limit == 16384) && (1 <= scanLimit <= 65536 ==> q.limit == scanLimit)
            && (q.limit >= 1024 ==> PageSize(q.limit) == 1024) && (q.limit < 1024 ==> PageSize(q.limit) == q.limit)
  {
  }

  datatype Answer = Answer(messages: seq<Message>, next: int)

  function Page(q: Query, offset: int): seq<Message> {
    Fetched(q.history, q.capacity, offset, PageSize(q.limit))
  }

  /** What a page adds to the answer. */
  function Taken(q: Query, out: seq<Message>, msgs: seq<Message>): seq<Message> {
    First(out + Matching(q.filter, msgs), q.max)
  }

  predicate GoesOn(q: Query, offset: int, scanned: nat, out: seq<Message>) {
    |out| < q.max && scanned < q.limit && offset < |q.history| && Page(q, offset) != []
  }

  /** The pages from offset on, on the full history. */
  function Pages(q: Query, offset: int, scanned: nat, out: seq<Message>): Answer
    decreases |q.history| - offset
  {
    if !GoesOn(q, offset, scanned, out) then Answer(out, offset)
    else
      var msgs := Page(q, offset);
      Pages(q, offset + |msgs|, scanned + |msgs|, Taken(q, out, msgs))
  }

  /** One more page. A full answer ends the call, so how much of its page was visited does not matter. */
  lemma {:induction false} PagesStep(q: Query, offset: int, scanned: nat, out: seq<Message>, msgs: seq<Message>,
                                     page: seq<Message>, after: nat, end: int)
    requires GoesOn(q, offset, scanned, out) && msgs == Page(q, offset) && page == Taken(q, out, msgs)
    requires (|page| < q.max ==> after == scanned + |msgs|) && end == offset + |msgs|
    ensures Pages(q, offset, scanned, out) == Pages(q, end, after, page)
  {
  }

  lemma {:induction false} PagesStop(q: Query, offset: int, scanned: nat, out: seq<Message>)
    requires !GoesOn(q, offset, scanned, out)
    ensures Pages(q, offset, scanned, out) == Answer(out, offset)
  {
  }

  method Fetch(topic: Topic, fromOffset: int, maxCount: int, scanLimit: int, filter: Str -> bool)
    returns (out: seq<Message>, next: int)
    requires topic.Valid()
    ensures Answer(out, next)
            == Pages(Request(topic.history, topic.cap, filter, maxCount, scanLimit), fromOffset, 0, [])
  {
    var max, limit := MaxCount(maxCount), ScanLimit(scanLimit);
    var pageSize := 1024;
    if pageSize > limit {
      pageSize := limit;
    }
    out := [];
    var offset, scanned: nat := fromOffset, 0;
    var tail := topic.tail;
    ghost var q := Query(topic.history, topic.cap, filter, max, limit);
    ghost var answer := Pages(q, offset, scanned, out);
    while |out| < max && scanned < limit && offset < tail
      invariant topic.Valid() && topic.history == q.history
      invariant Pages(q, offset, scanned, out) == answer
      decreases tail - offset
    {
      var page, after, end := ReadPage(topic, pageSize, filter, max, offset, scanned, out, q);
      if end == offset {
        break;
      }
      out, scanned, offset := page, after, end;
    }
    PagesStop(q, offset, scanned, out);
    next := offset;
  }

  /** One round of the outer loop. */
  method ReadPage(topic: Topic, pageSize: nat, filter: Str -> bool, max: nat, offset: int, scanned: nat,
                  out: seq<Message>, ghost q: Query)
    returns (page: seq<Message>, after: nat, end: int)
    requires topic.Valid() && q == Query(topic.history, topic.cap, filter, max, q.limit)
             && pageSize == PageSize(q.limit)
    requires |out| < max && scanned < q.limit && offset < topic.tail
    ensures end == offset + |Page(q, offset)|
    ensures end > offset ==> Pages(q, offset, scanned, out) == Pages(q, end, after, page)
  {
    var msgs, _ := topic.Fetch(offset, pageSize);
    if |msgs| == 0 {
      return out, scanned, offset;
    }
    var visited;
    page, visited := TakePage(msgs, filter, max, out);
    after, end := scanned + visited, offset + |msgs|;
    PagesStep(q, offset, scanned, out, msgs, page, after, end);
  }

  /** The loop over one page: it stops at the message that fills the answer. */
  method TakePage(msgs: seq<Message>, filter: Str -> bool, max: nat, before: seq<Message>)
    returns (out: seq<Message>, visited: nat)
    requires |before| < max
    ensures out == First(before + Matching(filter, msgs), max)
    ensures |out| < max ==> visited == |msgs|
  {
    out, visited := before, 0;
    for i := 0 to |msgs|
      invariant visited == i && |out| < max && out == before + Matching(filter, msgs[..i])
    {
      assert msgs[..i + 1][..i] == msgs[..i];
      visited := visited + 1;
      if filter(msgs[i].payload) {
        out := out + [msgs[i]];
        if |out| >= max {
          MatchingGrows(filter, msgs, i + 1);
          return;
        }
      }
    }
    assert msgs[..|msgs|] == msgs;
  }

  lemma {:induction false} MatchingGrows(filter: Str -> bool, msgs: seq<Message>, i: nat)
    requires i <= |msgs|
    ensures Matching(filter, msgs[..i]) <= Matching(filter, msgs)
  {
    if i == |msgs| {
      assert msgs[..i] == msgs;
    } else {
      MatchingGrows(filter, msgs[..|msgs| - 1], i);
      assert msgs[..|msgs| - 1][..i] == msgs[..i];
    }
  }

  // ---------------------------------------------------------------- exactness

  lemma {:induction false} MatchingConcat(filter: Str -> bool, a: seq<Message>, b: seq<Message>)
    ensures Matching(filter, a + b) == Matching(filter, a) + Matching(filter, b)
  {
    if b == [] {
      assert a + b == a;
    } else {
      var c := b[..|b| - 1];
      MatchingConcat(filter, a, c);
      assert (a + b)[..|a + b| - 1] == a + c;
    }
  }

  /** The matches in a range of offsets. */
  function Matches(q: Query, from: nat, to: nat): seq<Message>
    requires from <= to <= |q.history|
  {
    Matching(q.filter, q.history[from..to])
  }

  lemma {:induction false} MatchesSplit(q: Query, from: nat, mid: nat, to: nat)
    requires from <= mid <= to <= |q.history|
    ensures Matches(q, from, to) == Matches(q, from, mid) + Matches(q, mid, to)
  {
    MatchingConcat(q.filter, q.history[from..mid], q.history[mid..to]);
    assert q.history[from..to] == q.history[from..mid] + q.history[mid..to];
  }

  /** The answer is the first max matches of what the cursor moves over. */
  ghost predicate Exact(q: Query, from: int, a: Answer) {
    0 <= from <= a.next <= |q.history| && a.messages == First(Matches(q, from, a.next), q.max)
  }

  /** The oldest offset that the request can still reach. */
  function Oldest(q: Query): nat {
    Head(|q.history|, q.capacity)
  }

  /** Each page adds the matches between its offset and the next, once the cursor is inside the ring. */
  lemma {:induction false} PagesAreExact(q: Query, from: nat, offset: nat, scanned: nat, out: seq<Message>)
    requires Oldest(q) <= from <= offset <= |q.history| && q.limit > 0 && Exact(q, from, Answer(out, offset))
    ensures var a := Pages(q, offset, scanned, out);
            && Exact(q, from, a)
            && (a.next == |q.history| || |a.messages| >= q.max || a.next - offset + scanned >= q.limit)
    decreases |q.history| - offset
  {
    if GoesOn(q, offset, scanned, out) {
      var msgs := Page(q, offset);
      var page, after, end := Taken(q, out, msgs), scanned + |msgs|, offset + |msgs|;
      ExactStep(q, from, offset, out, msgs, page, end);
      PagesAreExact(q, from, end, after, page);
      PagesStep(q, offset, scanned, out, msgs, page, after, end);
    } else {
      PagesStop(q, offset, scanned, out);
    }
  }

  lemma {:induction false} ExactStep(q: Query, from: nat, offset: nat, out: seq<Message>, msgs: seq<Message>,
                                     page: seq<Message>, end: nat)
    requires Oldest(q) <= from <= offset < |q.history| && |out| < q.max && Exact(q, from, Answer(out, offset))
    requires msgs == Page(q, offset) && page == Taken(q, out, msgs) && end == offset + |msgs|
    ensures Exact(q, from, Answer(page, end))
  {
    assert msgs == q.history[offset..end];
    MatchesSplit(q, from, offset, end);
  }

  /**
   From an offset that is still kept, the answer holds the first max matches of the range the
   cursor moves over; fewer than max means all of them; and the call stops early for no other
   reason than a full answer or a spent scan budget.
   */
  lemma {:induction false} FilteredFetchIsExact(history: seq<Message>, capacity: nat, filter: Str -> bool,
                                                maxCount: int, scanLimit: int, from: nat)
    requires Head(|history|, capacity) <= from <= |history|
    ensures var q := Request(history, capacity, filter, maxCount, scanLimit);
            var a := Pages(q, from, 0, []);
            && Exact(q, from, a)
            && (|a.messages| < q.max ==> a.messages == Matches(q, from, a.next))
            && (a.next == |history| || |a.messages| == q.max || a.next - from >= q.limit)
  {
    assert history[from..from] == [];
    PagesAreExact(Request(history, capacity, filter, maxCount, scanLimit), from, from, 0, []);
  }

  ghost predicate Ascending(msgs: seq<Message>) {
    forall i, j :: 0 <= i < j < |msgs| ==> msgs[i].offset < msgs[j].offset
  }

  ghost predicate Within(msgs: seq<Message>, from: nat, to: nat) {
    forall i :: 0 <= i < |msgs| ==> from <= msgs[i].offset < to
  }

  /** Matches come in the order of their offsets, each once. */
  lemma {:induction false} MatchesAscend(q: Query, from: nat, to: nat)
    requires Numbered(q.history) && from <= to <= |q.history|
    ensures Ascending(Matches(q, from, to)) && Within(Matches(q, from, to), from, to)
  {
    if from < to {
      var msgs, last := q.history[from..to], to - 1;
      MatchesAscend(q, from, last);
      assert msgs[..|msgs| - 1] == q.history[from..last] && msgs[|msgs| - 1] == q.history[last];
    }
  }
}
