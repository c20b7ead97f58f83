/**
 What going on page by page does to a filtered fetch: when a caller that resumes at the next offset
 misses a match, and when one that asks for a dropped offset gets a message twice.
 */
module FilteredPaging {
  import opened Bytes
  import opened TopicLog
  import opened FilteredFetch

  // ---------------------------------------------------------------- matches passed over

  /** Where page j starts, while the history lasts. */
  function PageStart(q: Query, from: nat, j: nat): nat {
    if j == 0 then from else PageStart(q, from, j - 1) + PageSize(q.limit)
  }

  function UpTo(q: Query, n: nat): nat {
    if n > |q.history| then |q.history| else n
  }

  /** Page j is within the budget and the history, finds room in the answer, and holds more than that. */
  ghost predicate Overfull(q: Query, from: nat, j: nat) {
    var start := PageStart(q, from, j);
    && from <= start < |q.history| && start - from < q.limit
    && |Matches(q, from, start)| < q.max < |Matches(q, from, UpTo(q, start + PageSize(q.limit)))|
  }

  lemma {:induction false} PagesAscend(q: Query, from: nat, i: nat, j: nat)
    requires i <= j
    ensures from <= PageStart(q, from, i) <= PageStart(q, from, j)
    decreases j
  {
    if i < j {
      PagesAscend(q, from, i, j - 1);
    } else if i > 0 {
      PagesAscend(q, from, i - 1, j - 1);
    }
  }

  /** The call stops before any page that comes later could be overfull. */
  lemma {:induction false} StoppedForGood(q: Query, from: nat, j: nat, offset: nat, scanned: nat, out: seq<Message>,
                                          i: nat)
    requires from <= offset == UpTo(q, PageStart(q, from, j)) && scanned == offset - from && j <= i
    requires Exact(q, from, Answer(out, offset)) && q.limit > 0 && Oldest(q) <= from && !GoesOn(q, offset, scanned, out)
    ensures !Overfull(q, from, i)
  {
    PagesAscend(q, from, j, i);
    var start := PageStart(q, from, i);
    if start < |q.history| {
      MatchesSplit(q, from, offset, start);
    }
  }

  lemma {:induction false} PagesPassOverIff(q: Query, from: nat, j: nat, offset: nat, scanned: nat, out: seq<Message>)
    requires Oldest(q) <= from <= offset == UpTo(q, PageStart(q, from, j)) && scanned == offset - from && q.limit > 0
    requires Exact(q, from, Answer(out, offset))
    ensures var a := Pages(q, offset, scanned, out);
            && from <= a.next <= |q.history|
            && (|Matches(q, from, a.next)| > q.max
                <==> |Matches(q, from, offset)| > q.max || exists i :: j <= i && Overfull(q, from, i))
    decreases |q.history| - offset
  {
    if GoesOn(q, offset, scanned, out) {
      var msgs := Page(q, offset);
      var page, after, end := Taken(q, out, msgs), scanned + |msgs|, offset + |msgs|;
      ExactStep(q, from, offset, out, msgs, page, end);
      PagesPassOverIff(q, from, j + 1, end, after, page);
      PagesStep(q, offset, scanned, out, msgs, page, after, end);
      assert Overfull(q, from, j) <==> |Matches(q, from, end)| > q.max;
    } else {
      PagesStop(q, offset, scanned, out);
      forall i | j <= i
        ensures !Overfull(q, from, i)
      {
        StoppedForGood(q, from, j, offset, scanned, out, i);
      }
    }
  }

  /**
   Callers are told to go on from the next offset. A match is passed over by doing so exactly when
   some page of the scan finds room for less than it holds: the matches before it do not fill the
   answer, and with its own they are more than max.
   */
  lemma {:induction false} MatchIsPassedOverIff(history: seq<Message>, capacity: nat, filter: Str -> bool,
                                                maxCount: int, scanLimit: int, from: nat)
    requires Numbered(history) && Head(|history|, capacity) <= from <= |history|
    ensures var q := Request(history, capacity, filter, maxCount, scanLimit);
            var a := Pages(q, from, 0, []);
            && from <= a.next <= |history|
            && ((exists m :: m in Matches(q, from, a.next) && m !in a.messages) <==> exists j :: Overfull(q, from, j))
  {
    var q := Request(history, capacity, filter, maxCount, scanLimit);
    var a := Pages(q, from, 0, []);
    assert history[from..from] == [];
    FilteredFetchIsExact(history, capacity, filter, maxCount, scanLimit, from);
    PagesPassOverIff(q, from, 0, from, 0, []);
    MissingIff(q, from, a);
  }

  lemma {:induction false} MissingIff(q: Query, from: nat, a: Answer)
    requires Numbered(q.history) && Exact(q, from, a)
    ensures (exists m :: m in Matches(q, from, a.next) && m !in a.messages) <==> |Matches(q, from, a.next)| > q.max
  {
    var all := Matches(q, from, a.next);
    if |all| > q.max {
      MatchesAscend(q, from, a.next);
      NotAmongFirst(all, q.max);
      assert all[q.max] in all && all[q.max] !in a.messages;
    }
  }

  lemma {:induction false} NotAmongFirst(all: seq<Message>, max: nat)
    requires max < |all| && Ascending(all)
    ensures all[max] !in First(all, max)
  {
    forall i | 0 <= i < max
      ensures all[..max][i] != all[max]
    {
      assert all[i].offset < all[max].offset;
    }
  }

  /** Two matching messages and a limit of one: the second is passed over. */
  lemma {:induction false} AMatchCanBePassedOver(a: Message, b: Message, filter: Str -> bool)
    requires a.offset == 0 && b.offset == 1 && filter(a.payload) && filter(b.payload)
    ensures Pages(Request([a, b], 4, filter, 1, 0), 0, 0, []) == Answer([a], 2)
  {
    var h := [a, b];
    var q := Request(h, 4, filter, 1, 0);
    assert Page(q, 0) == h;
    assert [a][..0] == [] && h[..1] == [a];
    assert Matching(filter, [a][..0]) == [];
    assert Matching(filter, [a]) == [a];
    assert Matching(filter, h) == [a] + [b];
    assert Taken(q, [], h) == [a];
  }

  // ---------------------------------------------------------------- offsets that were dropped

  ghost predicate Repeats(a: Answer) {
    exists i, j :: 0 <= i < j < |a.messages| && a.messages[i] == a.messages[j]
  }

  /** How many messages the first page holds when it starts at the oldest kept. */
  function FirstPage(q: Query): nat
    requires Oldest(q) <= |q.history|
  {
    if PageSize(q.limit) > |q.history| - Oldest(q) then |q.history| - Oldest(q) else PageSize(q.limit)
  }

  lemma {:induction false} ExactDoesNotRepeat(q: Query, from: nat, a: Answer)
    requires Numbered(q.history) && Exact(q, from, a)
    ensures !Repeats(a)
  {
    var all := Matches(q, from, a.next);
    MatchesAscend(q, from, a.next);
    assert forall i, j :: 0 <= i < j < |a.messages| ==> all[i].offset < all[j].offset;
  }

  /** Pages only add to an answer. */
  lemma {:induction false} PagesOnlyAdd(q: Query, offset: int, scanned: nat, out: seq<Message>)
    requires |out| <= q.max
    ensures out <= Pages(q, offset, scanned, out).messages
    decreases |q.history| - offset
  {
    if GoesOn(q, offset, scanned, out) {
      var msgs := Page(q, offset);
      PagesOnlyAdd(q, offset + |msgs|, scanned + |msgs|, Taken(q, out, msgs));
      assert out <= Taken(q, out, msgs);
    }
  }

  /** While the cursor is below the ring, pages without a match leave the answer empty. */
  lemma {:induction false} EmptyPagesDoNotRepeat(q: Query, offset: int, scanned: nat)
    requires Numbered(q.history) && q.limit > 0 && q.capacity > 0 && offset < Oldest(q)
    requires Oldest(q) <= |q.history| && Oldest(q) + FirstPage(q) <= |q.history|
    requires Matches(q, Oldest(q), Oldest(q) + FirstPage(q)) == []
    ensures !Repeats(Pages(q, offset, scanned, []))
    decreases |q.history| - offset
  {
    var n := FirstPage(q);
    if GoesOn(q, offset, scanned, []) {
      var head, msgs := Oldest(q), Page(q, offset);
      assert msgs == q.history[head..head + n] && Taken(q, [], msgs) == [];
      var after, end := scanned + n, offset + n;
      PagesStep(q, offset, scanned, [], msgs, [], after, end);
      if end < head {
        EmptyPagesDoNotRepeat(q, end, after);
      } else {
        MatchesSplit(q, head, end, head + n);
        assert Exact(q, head, Answer([], end));
        PagesAreExact(q, head, end, after, []);
        ExactDoesNotRepeat(q, head, Pages(q, end, after, []));
      }
    } else {
      PagesStop(q, offset, scanned, []);
    }
  }

  lemma {:induction false} RepeatStays(q: Query, offset: int, scanned: nat, page: seq<Message>, i: nat, j: nat)
    requires |page| <= q.max && i < j < |page| && page[i] == page[j]
    ensures Repeats(Pages(q, offset, scanned, page))
  {
    PagesOnlyAdd(q, offset, scanned, page);
    var a := Pages(q, offset, scanned, page);
    assert a.messages[i] == a.messages[j];
  }

  /** The second page starts inside the first. */
  lemma {:induction false} SecondPageRepeats(q: Query, offset: int, scanned: nat, start: nat, end: nat,
                                             out: seq<Message>)
    requires Oldest(q) <= start < end <= |q.history| && offset < |q.history|
    requires start == From(Oldest(q), offset) && end <= Oldest(q) + PageSize(q.limit)
    requires out == Matches(q, Oldest(q), end) && |out| < q.max && scanned < q.limit && Matches(q, start, end) != []
    ensures Repeats(Pages(q, offset, scanned, out))
  {
    var msgs := Page(q, offset);
    var after, next, page := scanned + |msgs|, offset + |msgs|, Taken(q, out, msgs);
    var i := TakenTwice(q, start, end, start + |msgs|, out, msgs, page);
    PagesStep(q, offset, scanned, out, msgs, page, after, next);
    RepeatStays(q, next, after, page, i, |out|);
  }

  lemma {:induction false} TakenTwice(q: Query, start: nat, end: nat, stop: nat, out: seq<Message>, msgs: seq<Message>,
                                      page: seq<Message>) returns (i: nat)
    requires Oldest(q) <= start <= end <= stop <= |q.history| && out == Matches(q, Oldest(q), end)
    requires Matches(q, start, end) != [] && msgs == q.history[start..stop] && |out| < q.max
    requires page == Taken(q, out, msgs)
    ensures i < |out| < |page| <= q.max && page[i] == page[|out|]
  {
    var before, again := Matches(q, Oldest(q), start), Matches(q, start, end);
    MatchesSplit(q, Oldest(q), start, end);
    MatchesSplit(q, start, end, stop);
    i := |before|;
    assert out[i] == again[0] && Matching(q.filter, msgs)[0] == again[0];
  }

  /** The first page from a dropped offset. */
  lemma {:induction false} FirstPageTaken(q: Query, from: int, head: nat, n: nat, end: nat, offset: int)
    returns (out: seq<Message>)
    requires offset == from + n && 0 < q.capacity && q.max > 0 && q.limit > 0 && from < Oldest(q)
    requires head == Oldest(q) && head <= |q.history| && n == FirstPage(q) && end == head + n <= |q.history| && n > 0
    ensures out == First(Matches(q, head, end), q.max)
    ensures Pages(q, from, 0, []) == Pages(q, offset, n, out)
  {
    var msgs := Page(q, from);
    assert msgs == q.history[head..end];
    assert |msgs| == n;
    out := Taken(q, [], msgs);
    assert [] + Matching(q.filter, msgs) == Matches(q, head, end);
    PagesStep(q, from, 0, [], msgs, out, n, offset);
  }

  lemma {:induction false} NoMatchAgain(q: Query, offset: int, scanned: nat, head: nat, again: nat, end: nat,
                                        out: seq<Message>)
    requires Numbered(q.history) && q.limit > 0 && q.capacity > 0 && head == Oldest(q) <= again < end <= |q.history|
    requires end == head + FirstPage(q) && again == From(head, offset)
    requires out == Matches(q, head, end) && |out| < q.max && Matches(q, again, end) == []
    ensures !Repeats(Pages(q, offset, scanned, out))
  {
    if offset < head {
      EmptyPagesDoNotRepeat(q, offset, scanned);
    } else {
      MatchesSplit(q, head, offset, end);
      PagesAreExact(q, head, offset, scanned, out);
      ExactDoesNotRepeat(q, head, Pages(q, offset, scanned, out));
    }
  }

  lemma {:induction false} RepeatsIff(q: Query, from: int, head: nat, n: nat, end: nat, offset: int, again: nat)
    requires Numbered(q.history) && 0 < q.capacity && q.max > 0 && q.limit > 0
             && from < head == Oldest(q) <= |q.history|
    requires n == FirstPage(q) && end == head + n && offset == from + n && again == From(head, offset)
    requires head <= again <= end <= |q.history|
    ensures Repeats(Pages(q, from, 0, [])) <==>
            n < q.limit && |Matches(q, head, end)| < q.max && Matches(q, again, end) != []
  {
    if n == 0 {
      PagesStop(q, from, 0, []);
    } else {
      var out := FirstPageTaken(q, from, head, n, end, offset);
      GoesOnIff(q, offset, head, n, end, again, out);
    }
  }

  lemma {:induction false} GoesOnIff(q: Query, offset: int, head: nat, n: nat, end: nat, again: nat, out: seq<Message>)
    requires Numbered(q.history) && 0 < q.capacity && q.limit > 0 && head == Oldest(q) <= again < end <= |q.history|
    requires n == FirstPage(q) && end == head + n && offset < end && again == From(head, offset)
    requires out == First(Matches(q, head, end), q.max)
    ensures Repeats(Pages(q, offset, n, out)) <==>
            n < q.limit && |Matches(q, head, end)| < q.max && Matches(q, again, end) != []
  {
    if n >= q.limit || |Matches(q, head, end)| >= q.max {
      PagesStop(q, offset, n, out);
      ExactDoesNotRepeat(q, head, Answer(out, end));
    } else if Matches(q, again, end) != [] {
      SecondPageRepeats(q, offset, n, again, end, out);
    } else {
      NoMatchAgain(q, offset, n, head, again, end, out);
    }
  }

  /**
   From an offset that the ring has dropped, the answer starts at the oldest message kept while the
   cursor counts from the offset asked for. A message is returned twice exactly when the scan goes
   on after its first page, and a match lies in the part of that page that the second one visits again.
   */
  lemma {:induction false} DroppedOffsetRepeatsIff(history: seq<Message>, capacity: nat, filter: Str -> bool,
                                                   maxCount: int, scanLimit: int, from: int)
    requires Numbered(history) && capacity > 0 && from < Head(|history|, capacity)
    ensures var q := Request(history, capacity, filter, maxCount, scanLimit);
            var head, n := Oldest(q), FirstPage(q);
            var end, again := head + n, From(head, from + n);
            && head <= again <= end <= |history|
            && (Repeats(Pages(q, from, 0, [])) <==>
                n < q.limit && |Matches(q, head, end)| < q.max && Matches(q, again, end) != [])
  {
    var q := Request(history, capacity, filter, maxCount, scanLimit);
    var head, n := Oldest(q), FirstPage(q);
    RepeatsIff(q, from, head, n, head + n, from + n, From(head, from + n));
  }

  /** A ring that keeps one of two messages: asking from offset 0 gets the one it keeps twice. */
  lemma {:induction false} DroppedOffsetRepeats(a: Message, b: Message, filter: Str -> bool)
    requires a.offset == 0 && b.offset == 1 && filter(b.payload)
    ensures Pages(Request([a, b], 1, filter, 0, 0), 0, 0, []) == Answer([b, b], 2)
  {
    var q := Request([a, b], 1, filter, 0, 0);
    assert Page(q, 0) == [b] && Page(q, 1) == [b];
    assert Matching(filter, [b]) == [b];
    PagesStep(q, 0, 0, [], [b], [b], 1, 1);
    PagesStep(q, 1, 1, [b], [b], [b, b], 2, 2);
    PagesStop(q, 2, 2, [b, b]);
  }
}
