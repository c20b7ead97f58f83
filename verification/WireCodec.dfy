/**
 The TCP wire format (internal/protocol/protocol.go): frames, batch payloads and fetch responses.
 Encoders fill a buffer from a moving position; decoders advance a position over the input.
 */
module WireCodec {
  import opened Bytes

  const MAGIC := 0x474B

  datatype Error = NoInput | Truncated | BadMagic | BadPayload

  datatype Result<+T> = Ok(value: T) | Err(error: Error)

  /** copy(out[pos:], src). */
  method Copy(out: array<Byte>, pos: nat, src: Str)
    requires pos + |src| <= out.Length
    modifies out
    ensures out[..] == old(out[..])[..pos] + src + old(out[..])[pos + |src|..]
  {
    var i := 0;
    while i < |src|
      invariant 0 <= i <= |src|
      invariant out[..] == old(out[..])[..pos] + src[..i] + old(out[..])[pos + i..]
    {
      ghost var before := out[..];
      out[pos + i] := src[i];
      assert out[..] == before[pos + i := src[i]];
      assert src[..i + 1] == src[..i] + [src[i]];
      i := i + 1;
    }
    assert src[..|src|] == src;
  }

  // ---------------------------------------------------------------- frames

  datatype Frame = Frame(op: Byte, topic: Str, payload: Str)

  function FrameHead(f: Frame): Str {
    Put(MAGIC, 2) + [f.op] + Put(|f.topic|, 1) + Put(|f.payload|, 4)
  }

  /** Lengths go into one and four bytes: longer ones lose their high bits. */
  function FrameBytes(f: Frame): Str {
    FrameHead(f) + f.topic + f.payload
  }

  predicate FrameFits(f: Frame) {
    |f.topic| < 256 && |f.payload| < 0x1_0000_0000
  }

  method Encode(f: Frame) returns (buf: array<Byte>)
    ensures fresh(buf) && buf[..] == FrameBytes(f)
  {
    buf := new Byte[8 + |f.topic| + |f.payload|](_ => 0);
    Copy(buf, 0, Put(MAGIC, 2));
    Copy(buf, 2, [f.op]);
    Copy(buf, 3, Put(|f.topic|, 1));
    Copy(buf, 4, Put(|f.payload|, 4));
    assert buf[..8] == FrameHead(f);
    Copy(buf, 8, f.topic);
    assert buf[..8] == FrameHead(f);
    Copy(buf, 8 + |f.topic|, f.payload);
    assert buf[..] == FrameHead(f) + f.topic + f.payload;
  }

  lemma {:induction false} FrameParts(f: Frame, rest: Str)
    ensures var s := FrameBytes(f) + rest;
            && |s| >= 8 && s[..2] == Put(MAGIC, 2) && s[2] == f.op && s[3..4] == Put(|f.topic|, 1)
               && s[4..8] == Put(|f.payload|, 4)
            && s[8..] == f.topic + f.payload + rest
  {
    var s, h := FrameBytes(f) + rest, FrameHead(f);
    assert s == h + (f.topic + f.payload + rest);
    assert s[..2] == h[..2] == Put(MAGIC, 2) && s[2] == h[2] == f.op;
    assert s[3..4] == h[3..4] == Put(|f.topic|, 1);
    assert s[4..8] == h[4..8] == Put(|f.payload|, 4);
  }

  ghost predicate IsFrame(input: Str, f: Frame, rest: Str) {
    FrameFits(f) && FrameBytes(f) + rest == input
  }

  ghost predicate NotAFrame(input: Str) {
    forall f, rest :: !IsFrame(input, f, rest)
  }

  /** What the header of an input that starts with a frame says. */
  lemma {:induction false} HeaderSays(input: Str, f: Frame, rest: Str)
    requires IsFrame(input, f, rest)
    ensures |input| >= 8 && Get(input[..2]) == MAGIC && input[2] == f.op
    ensures Get(input[3..4]) == |f.topic| && Get(input[4..8]) == |f.payload|
    ensures input[8..] == f.topic + f.payload + rest
  {
    Widths();
    FrameParts(f, rest);
    GetPut(MAGIC, 2);
    GetPut(|f.topic|, 1);
    GetPut(|f.payload|, 4);
  }

  predicate HasFrame(input: Str) {
    |input| >= 8 && Get(input[..2]) == MAGIC && 8 + Get(input[3..4]) + Get(input[4..8]) <= |input|
  }

  lemma {:induction false} NoFrame(input: Str)
    requires !HasFrame(input)
    ensures NotAFrame(input)
  {
    forall f, rest
      ensures !IsFrame(input, f, rest)
    {
      if IsFrame(input, f, rest) {
        HeaderSays(input, f, rest);
      }
    }
  }

  function FrameIn(input: Str): (Frame, Str)
    requires HasFrame(input)
  {
    var topicEnd := 8 + Get(input[3..4]);
    var end := topicEnd + Get(input[4..8]);
    (Frame(input[2], input[8..topicEnd], input[topicEnd..end]), input[end..])
  }

  lemma {:induction false} FoundFrame(input: Str)
    requires HasFrame(input)
    ensures IsFrame(input, FrameIn(input).0, FrameIn(input).1)
  {
    Widths();
    GetPut(MAGIC, 2);
    PutGet(input[..2]);
    GetBound(input[3..4]);
    GetBound(input[4..8]);
    PutGet(input[3..4]);
    PutGet(input[4..8]);
    var (f, rest) := FrameIn(input);
    assert FrameHead(f) == input[..8] by {
      assert input[..8] == input[..2] + [input[2]] + input[3..4] + input[4..8];
    }
    assert input == input[..8] + f.topic + f.payload + rest;
  }

  /**
   A frame is returned exactly when the input starts with the bytes of one, and then it is that frame
   and what is left is the rest of the input.
   */
  method Decode(input: Str) returns (r: Result<(Frame, Str)>)
    ensures r.Ok? ==> IsFrame(input, r.value.0, r.value.1)
    ensures r.Err? ==> NotAFrame(input)
    ensures r == Err(BadMagic) <==> |input| >= 8 && Get(input[..2]) != MAGIC
    ensures r == Err(NoInput) ==> input == [] || |input| == 8
  {
    if |input| < 8 {
      NoFrame(input);
      return Err(if input == [] then NoInput else Truncated);
    }
    if Get(input[..2]) != MAGIC {
      NoFrame(input);
      return Err(BadMagic);
    }
    var op, topicLen, payloadLen := input[2], Get(input[3..4]), Get(input[4..8]);
    if 8 + topicLen + payloadLen > |input| {
      NoFrame(input);
      return Err(if |input| == 8 then NoInput else Truncated);
    }
    var topicEnd := 8 + topicLen;
    var end := topicEnd + payloadLen;
    FoundFrame(input);
    r := Ok((Frame(op, input[8..topicEnd], input[topicEnd..end]), input[end..]));
  }

  /** Equal encodings of frames that fit, with anything after them, are of equal frames. */
  lemma {:induction false} FrameIsUnique(input: Str, f: Frame, x: Str, g: Frame, y: Str)
    requires IsFrame(input, f, x) && IsFrame(input, g, y)
    ensures f == g && x == y
  {
    HeaderSays(input, f, x);
    HeaderSays(input, g, y);
    var s, i := input[8..], |f.topic| + |f.payload|;
    assert f.topic == s[..|f.topic|] && g.topic == s[..|f.topic|];
    assert f.payload == s[|f.topic|..i] && g.payload == s[|f.topic|..i];
    assert x == s[i..] && y == s[i..];
  }

  /** A frame survives encoding, followed by any bytes, exactly when its lengths fit their fields. */
  method FrameRoundTrip(f: Frame, rest: Str) returns (r: Result<(Frame, Str)>)
    ensures r == Ok((f, rest)) <==> FrameFits(f)
  {
    var buf := Encode(f);
    r := Decode(buf[..] + rest);
    if FrameFits(f) {
      assert IsFrame(buf[..] + rest, f, rest);
      FrameIsUnique(buf[..] + rest, f, rest, r.value.0, r.value.1);
    }
  }

  // ---------------------------------------------------------------- counted lists of items

  /** One entry of a batch payload (no head) or of a fetch response (an eight-byte head). */
  datatype Item = Item(head: Str, payload: Str)

  function ItemBytes(it: Item): Str {
    it.head + Put(|it.payload|, 4) + it.payload
  }

  function Body(items: seq<Item>): Str {
    if items == [] then [] else Body(items[..|items| - 1]) + ItemBytes(items[|items| - 1])
  }

  function ListBytes(items: seq<Item>): Str {
    Put(|items|, 2) + Body(items)
  }

  /** Heads have the given width, payload lengths fit four bytes and the count fits two. */
  ghost predicate ListFits(items: seq<Item>, width: nat) {
    |items| < 65536 && forall i :: 0 <= i < |items| ==> |items[i].head| == width && |items[i].payload| < 0x1_0000_0000
  }

  method EncodeList(items: seq<Item>) returns (out: array<Byte>)
    ensures fresh(out) && out[..] == ListBytes(items)
  {
    var size := ListSize(items);
    out := new Byte[size](_ => 0);
    Copy(out, 0, Put(|items|, 2));
    assert out[..2] == Put(|items|, 2) + Body(items[..0]);
    var pos := 2;
    for i := 0 to |items|
      invariant 0 <= pos <= out.Length && Filled(out[..pos], items, i)
    {
      BodyStep(items, i);
      pos := CopyItem(out, pos, items[i]);
    }
    assert items[..|items|] == items;
    assert out[..] == out[..pos];
  }

  ghost predicate Filled(bytes: Str, items: seq<Item>, i: nat)
    requires i <= |items|
  {
    bytes == Put(|items|, 2) + Body(items[..i])
  }

  method ListSize(items: seq<Item>) returns (size: nat)
    ensures size == |ListBytes(items)|
  {
    size := 2;
    for i := 0 to |items|
      invariant size == 2 + |Body(items[..i])|
    {
      BodyStep(items, i);
      size := size + |items[i].head| + 4 + |items[i].payload|;
    }
    assert items[..|items|] == items;
  }

  method CopyItem(out: array<Byte>, pos: nat, it: Item) returns (end: nat)
    requires pos + |ItemBytes(it)| <= out.Length
    modifies out
    ensures end == pos + |ItemBytes(it)|
    ensures out[..end] == old(out[..pos]) + ItemBytes(it)
  {
    Copy(out, pos, ItemBytes(it));
    end := pos + |it.head| + 4 + |it.payload|;
  }

  lemma {:induction false} BodyStep(items: seq<Item>, i: nat)
    requires i < |items|
    ensures Body(items[..i + 1]) == Body(items[..i]) + ItemBytes(items[i])
    ensures |Body(items[..i + 1])| <= |Body(items)|
  {
    assert items[..i + 1][..i] == items[..i];
    BodyGrows(items, i + 1);
  }

  lemma {:induction false} BodyGrows(items: seq<Item>, i: nat)
    requires i <= |items|
    ensures |Body(items[..i])| <= |Body(items)|
  {
    if i < |items| {
      BodyGrows(items[..|items| - 1], i);
      assert items[..|items| - 1][..i] == items[..i];
    } else {
      assert items[..i] == items;
    }
  }

  lemma {:induction false} BodySplits(items: seq<Item>, i: nat)
    requires i < |items|
    ensures Body(items[..i]) + ItemBytes(items[i]) <= Body(items)
  {
    if i == |items| - 1 {
    } else {
      var init := items[..|items| - 1];
      BodySplits(init, i);
      assert init[..i] == items[..i];
      assert Body(init) <= Body(items);
    }
  }

  /** Where item i of an encoded list lies. */
  lemma {:induction false} ItemAt(input: Str, items: seq<Item>, i: nat, width: nat)
    requires ListFits(items, width) && input == ListBytes(items) && i < |items|
    ensures var pos, l := 2 + |Body(items[..i])|, |items[i].payload|;
            && pos + width + 4 + l <= |input|
            && input[pos..pos + width] == items[i].head
            && input[pos + width..pos + width + 4] == Put(l, 4)
            && input[pos + width + 4..pos + width + 4 + l] == items[i].payload
  {
    BodySplits(items, i);
    var b := Body(items[..i]);
    var pos := 2 + |b|;
    var it := items[i];
    var upTo := Put(|items|, 2) + b + ItemBytes(it);
    assert upTo <= input;
    assert input[pos..pos + |ItemBytes(it)|] == ItemBytes(it);
    var cut := input[pos..pos + |ItemBytes(it)|];
    assert cut[..width] == it.head && cut[width..width + 4] == Put(|it.payload|, 4) && cut[width + 4..] == it.payload;
  }

  /** One round of the decoder's loop: the two length checks, then the item and the position after it. */
  function NextAt(input: Str, pos: nat, width: nat): Result<(Item, nat)> {
    if pos + width + 4 > |input| then Err(BadPayload)
    else
      var l := Get(input[pos + width..pos + width + 4]);
      if pos + width + 4 + l > |input| then Err(BadPayload)
      else Ok((Item(input[pos..pos + width], input[pos + width + 4..pos + width + 4 + l]), pos + width + 4 + l))
  }

  lemma {:induction false} NextIsWhole(input: Str, pos: nat, width: nat)
    requires NextAt(input, pos, width).Ok?
    ensures var next := NextAt(input, pos, width).value;
            && |next.0.head| == width && |next.0.payload| < 0x1_0000_0000
            && next.1 == pos + |ItemBytes(next.0)| <= |input|
            && input[..next.1] == input[..pos] + ItemBytes(next.0)
  {
    Widths();
    var field := input[pos + width..pos + width + 4];
    GetBound(field);
    PutGet(field);
    var next := NextAt(input, pos, width).value;
    assert ItemBytes(next.0) == input[pos..next.1];
  }

  ghost predicate Encodes(input: Str, width: nat, items: seq<Item>) {
    ListFits(items, width) && ListBytes(items) == input
  }

  /** A list that encodes to the input has its next item at the position reached, whole. */
  lemma {:induction false} NextOfList(input: Str, width: nat, items: seq<Item>, i: nat, pos: nat)
    requires Encodes(input, width, items) && i < |items| && pos == 2 + |Body(items[..i])|
    ensures NextAt(input, pos, width).Ok? && NextAt(input, pos, width).value.0 == items[i]
  {
    Widths();
    ItemAt(input, items, i, width);
    GetPut(|items[i].payload|, 4);
  }

  ghost predicate StartsWith(items: seq<Item>, n: nat, got: seq<Item>) {
    |items| == n && |got| <= n && items[..|got|] == got
  }

  /** Any list that encodes to the input starts with the items read so far. */
  ghost predicate OnlyCandidates(input: Str, width: nat, n: nat, got: seq<Item>) {
    forall items: seq<Item> :: Encodes(input, width, items) ==> StartsWith(items, n, got)
  }

  ghost predicate NotAList(input: Str, width: nat) {
    forall items: seq<Item> :: !Encodes(input, width, items)
  }

  /** The decoder's progress: got are the first items of whatever list the input encodes, and end at pos. */
  ghost predicate Consumed(input: Str, width: nat, n: nat, pos: nat, got: seq<Item>) {
    && ListFits(got, width) && pos == 2 + |Body(got)| <= |input|
    && input[..pos] == Put(n, 2) + Body(got)
  }

  /**
   A list is returned exactly when the input is the encoding of one, and then it is that list: the
   decoder inverts the encoder and accepts nothing else.
   */
  method DecodeList(input: Str, width: nat) returns (r: Result<seq<Item>>)
    ensures r.Ok? ==> Encodes(input, width, r.value)
    ensures r.Err? ==> NotAList(input, width)
  {
    if |input| < 2 {
      return Err(BadPayload);
    }
    var n := Get(input[..2]);
    FirstCandidates(input, width, n);
    var pos: nat, out: seq<Item> := 2, [];
    for i := 0 to n
      invariant |out| == i && Consumed(input, width, n, pos, out) && OnlyCandidates(input, width, n, out)
    {
      var next := NextAt(input, pos, width);
      if next.Err? {
        NoMoreCandidates(input, width, n, pos, out);
        return Err(next.error);
      }
      NextCandidate(input, width, n, pos, out);
      ConsumedStep(input, width, n, pos, out);
      out, pos := out + [next.value.0], next.value.1;
    }
    ReadingEnds(input, width, n, pos, out);
    if pos != |input| {
      return Err(BadPayload);
    }
    r := Ok(out);
  }

  lemma {:induction false} FirstCandidates(input: Str, width: nat, n: nat)
    requires |input| >= 2 && n == Get(input[..2])
    ensures n < 65536 && Consumed(input, width, n, 2, []) && OnlyCandidates(input, width, n, [])
  {
    Widths();
    GetBound(input[..2]);
    PutGet(input[..2]);
    forall items: seq<Item> | Encodes(input, width, items)
      ensures StartsWith(items, n, [])
    {
      CountOfList(input, width, items);
    }
  }

  lemma {:induction false} CountOfList(input: Str, width: nat, items: seq<Item>)
    requires Encodes(input, width, items)
    ensures Get(input[..2]) == |items|
  {
    Widths();
    GetPut(|items|, 2);
    assert input[..2] == Put(|items|, 2);
  }

  lemma {:induction false} NoMoreCandidates(input: Str, width: nat, n: nat, pos: nat, got: seq<Item>)
    requires OnlyCandidates(input, width, n, got) && |got| < n && pos == 2 + |Body(got)|
             && NextAt(input, pos, width).Err?
    ensures NotAList(input, width)
  {
    forall items: seq<Item>
      ensures !Encodes(input, width, items)
    {
      if Encodes(input, width, items) {
        NextOfCandidate(input, width, n, pos, got, items);
      }
    }
  }

  lemma {:induction false} NextOfCandidate(input: Str, width: nat, n: nat, pos: nat, got: seq<Item>, items: seq<Item>)
    requires OnlyCandidates(input, width, n, got) && |got| < n && pos == 2 + |Body(got)| && Encodes(input, width, items)
    ensures NextAt(input, pos, width).Ok? && StartsWith(items, n, got + [NextAt(input, pos, width).value.0])
  {
    assert StartsWith(items, n, got);
    NextOfList(input, width, items, |got|, pos);
    assert items[..|got| + 1] == items[..|got|] + [items[|got|]];
  }

  lemma {:induction false} NextCandidate(input: Str, width: nat, n: nat, pos: nat, got: seq<Item>)
    requires OnlyCandidates(input, width, n, got) && |got| < n && pos == 2 + |Body(got)|
             && NextAt(input, pos, width).Ok?
    ensures OnlyCandidates(input, width, n, got + [NextAt(input, pos, width).value.0])
  {
    forall items: seq<Item> | Encodes(input, width, items)
      ensures StartsWith(items, n, got + [NextAt(input, pos, width).value.0])
    {
      NextOfCandidate(input, width, n, pos, got, items);
    }
  }

  lemma {:induction false} ConsumedStep(input: Str, width: nat, n: nat, pos: nat, got: seq<Item>)
    requires Consumed(input, width, n, pos, got) && |got| < n < 65536 && NextAt(input, pos, width).Ok?
    ensures var next := NextAt(input, pos, width).value;
            Consumed(input, width, n, next.1, got + [next.0])
  {
    NextIsWhole(input, pos, width);
    var next := NextAt(input, pos, width).value;
    assert (got + [next.0])[..|got|] == got;
    assert Body(got + [next.0]) == Body(got) + ItemBytes(next.0);
  }

  lemma {:induction false} ReadingEnds(input: Str, width: nat, n: nat, pos: nat, got: seq<Item>)
    requires Consumed(input, width, n, pos, got) && OnlyCandidates(input, width, n, got) && |got| == n
    ensures if pos == |input| then Encodes(input, width, got) else NotAList(input, width)
  {
    forall items: seq<Item> | Encodes(input, width, items)
      ensures |input| == pos
    {
      assert StartsWith(items, n, got);
      assert items[..n] == items;
    }
    assert pos == |input| ==> input[..pos] == input;
  }

  /** A list comes back as it was sent exactly when its count fits 16 bits and each length 32. */
  method ListRoundTrip(items: seq<Item>, width: nat) returns (r: Result<seq<Item>>)
    ensures r == Ok(items) <==> ListFits(items, width)
  {
    var buf := EncodeList(items);
    r := DecodeList(buf[..], width);
    if ListFits(items, width) {
      assert Encodes(buf[..], width, items);
      ListIsUnique(buf[..], items, r.value, width);
    }
  }

  /** Lists that fit have different encodings. */
  lemma {:induction false} ListIsUnique(input: Str, p: seq<Item>, q: seq<Item>, width: nat)
    requires Encodes(input, width, p) && Encodes(input, width, q)
    ensures p == q
  {
    CountOfList(input, width, p);
    CountOfList(input, width, q);
    SamePrefix(input, p, q, width, |p|);
    assert p[..|p|] == p && q[..|q|] == q;
  }

  lemma {:induction false} SamePrefix(input: Str, p: seq<Item>, q: seq<Item>, width: nat, i: nat)
    requires Encodes(input, width, p) && Encodes(input, width, q) && i <= |p| == |q|
    ensures p[..i] == q[..i]
  {
    if i != 0 {
      var j := i - 1;
      SamePrefix(input, p, q, width, j);
      var pos := 2 + |Body(p[..j])|;
      NextOfList(input, width, p, j, pos);
      NextOfList(input, width, q, j, pos);
      assert p[..i] == p[..j] + [p[j]] && q[..i] == q[..j] + [q[j]];
    }
  }

  // ---------------------------------------------------------------- batch payloads and fetch responses

  function BatchItems(payloads: seq<Str>): seq<Item> {
    seq(|payloads|, i requires 0 <= i < |payloads| => Item([], payloads[i]))
  }

  ghost predicate BatchFits(payloads: seq<Str>) {
    |payloads| < 65536 && forall i :: 0 <= i < |payloads| ==> |payloads[i]| < 0x1_0000_0000
  }

  /** count(2), then payloadLen(4) and payload for each. */
  method BatchRoundTrip(payloads: seq<Str>) returns (r: Result<seq<Item>>)
    ensures r == Ok(BatchItems(payloads)) <==> BatchFits(payloads)
  {
    r := ListRoundTrip(BatchItems(payloads), 0);
    assert ListFits(BatchItems(payloads), 0) <==> BatchFits(payloads) by {
      if ListFits(BatchItems(payloads), 0) {
        assert forall i :: 0 <= i < |payloads| ==> BatchItems(payloads)[i].payload == payloads[i];
      }
    }
  }

  datatype Message = Message(offset: int, payload: Str)

  predicate Int64(n: int) {
    FitsSigned(n, 8)
  }

  function FetchItems(ms: seq<Message>): seq<Item>
    requires forall i :: 0 <= i < |ms| ==> Int64(ms[i].offset)
  {
    seq(|ms|, i requires 0 <= i < |ms| => FetchItem(ms[i]))
  }

  function FetchMessages(items: seq<Item>): seq<Message> {
    seq(|items|, i requires 0 <= i < |items| => Message(Signed(Get(items[i].head), 8), items[i].payload))
  }

  /**
   A fetch response that the decoder accepts encodes back to the same bytes, and a response whose
   count and payload lengths fit is decoded to itself.
   */
  method DecodeFetchResponse(input: Str) returns (r: Result<seq<Message>>)
    ensures r.Ok? ==> forall i :: 0 <= i < |r.value| ==> Int64(r.value[i].offset)
    ensures r.Ok? ==> Encodes(input, 8, FetchItems(r.value))
    ensures r.Err? ==> NotAList(input, 8)
  {
    var d := DecodeList(input, 8);
    if d.Err? {
      return Err(d.error);
    }
    ItemsRoundTrip(d.value);
    r := Ok(FetchMessages(d.value));
  }

  function FetchItem(m: Message): Item
    requires Int64(m.offset)
  {
    Item(Put(Unsigned(m.offset, 8), 8), m.payload)
  }

  lemma {:induction false} HeadRoundTrip(it: Item)
    requires |it.head| == 8
    ensures Int64(Signed(Get(it.head), 8)) && FetchItem(Message(Signed(Get(it.head), 8), it.payload)) == it
  {
    Widths();
    GetBound(it.head);
    PutGet(it.head);
  }

  lemma {:induction false} MessagesRoundTrip(ms: seq<Message>)
    requires forall i :: 0 <= i < |ms| ==> Int64(ms[i].offset)
    ensures FetchMessages(FetchItems(ms)) == ms
  {
    forall i | 0 <= i < |ms|
      ensures FetchMessages(FetchItems(ms))[i] == ms[i]
    {
      SignedRoundTrip(ms[i].offset, 8);
      GetPut(Unsigned(ms[i].offset, 8), 8);
    }
  }

  lemma {:induction false} ItemsRoundTrip(items: seq<Item>)
    requires forall i :: 0 <= i < |items| ==> |items[i].head| == 8
    ensures forall i :: 0 <= i < |items| ==> Int64(FetchMessages(items)[i].offset)
    ensures FetchItems(FetchMessages(items)) == items
  {
    forall i | 0 <= i < |items|
      ensures Int64(FetchMessages(items)[i].offset) && FetchItem(FetchMessages(items)[i]) == items[i]
    {
      HeadRoundTrip(items[i]);
    }
  }

  ghost predicate ResponseFits(ms: seq<Message>) {
    |ms| < 65536 && forall i :: 0 <= i < |ms| ==> |ms[i].payload| < 0x1_0000_0000
  }

  /** A response comes back as it was sent exactly when its count fits 16 bits and each length 32. */
  method FetchRoundTrip(ms: seq<Message>) returns (r: Result<seq<Message>>)
    requires forall i :: 0 <= i < |ms| ==> Int64(ms[i].offset)
    ensures r == Ok(ms) <==> ResponseFits(ms)
  {
    var encoded := EncodeList(FetchItems(ms));
    r := DecodeFetchResponse(encoded[..]);
    MessagesRoundTrip(ms);
    FetchFits(ms);
    if ListFits(FetchItems(ms), 8) {
      assert Encodes(encoded[..], 8, FetchItems(ms));
      ListIsUnique(encoded[..], FetchItems(r.value), FetchItems(ms), 8);
      MessagesRoundTrip(r.value);
    }
  }

  lemma {:induction false} FetchFits(ms: seq<Message>)
    requires forall i :: 0 <= i < |ms| ==> Int64(ms[i].offset)
    ensures ListFits(FetchItems(ms), 8) <==> ResponseFits(ms)
  {
    if ListFits(FetchItems(ms), 8) {
      assert forall i :: 0 <= i < |ms| ==> FetchItems(ms)[i].payload == ms[i].payload;
    }
  }
}
