/**
 The four byte formats, field by field: every number is big-endian, at the position and of the width
 that the source writes it (internal/wal/wal.go, internal/cluster/shardwal/shardwal.go,
 internal/protocol/protocol.go). Positions, widths and constants are written out here and not taken
 from the encoders.
 */
module Layouts {
  import opened Bytes
  import ShardLog
  import WalCodec
  import WireCodec

  /** The number stored at a position is the given one. */
  predicate Field(s: Str, at: nat, width: nat, value: int) {
    at + width <= |s| && Get(s[at..at + width]) == value
  }

  /** Big-endian: the first byte counts most. */
  lemma {:induction false} FirstByteCountsMost(s: Str)
    requires s != []
    ensures Get(s) == s[0] * Pow256(|s| - 1) + Get(s[1..])
  {
    if |s| == 1 {
      assert s[..0] == [] && s[1..] == [];
    } else {
      var init, tail := s[..|s| - 1], s[1..];
      FirstByteCountsMost(init);
      assert tail[..|tail| - 1] == init[1..];
      Scaled(s[0], Pow256(|s| - 2), Get(init[1..]));
    }
  }

  lemma {:induction false} Scaled(n: nat, p: nat, m: nat)
    ensures 256 * (n * p + m) == n * (256 * p) + 256 * m
  {
  }

  lemma {:induction false} StoredField(s: Str, at: nat, width: nat, value: nat)
    requires at + width <= |s| && s[at..at + width] == Put(value, width) && value < Pow256(width)
    ensures Field(s, at, width, value)
  {
    GetPut(value, width);
  }

  lemma {:induction false} WalParts(crc: Str -> nat, r: WalCodec.Record, b: Str)
    requires WalCodec.Typed(r) && b == WalCodec.RecordBytes(crc, r)
    ensures |b| == 28 + |r.topic| + |r.key| + |r.payload| && b[0] == 71 && b[1] == 87
    ensures b[2..24] == WalCodec.Header(3, r) && b[2..|b| - 4] == WalCodec.Covered(r)
    ensures b[24..|b| - 4] == r.topic + r.key + r.payload
    ensures b[|b| - 4..|b|] == Put(crc(WalCodec.Covered(r)), 4)
  {
  }

  /** A record of the write-ahead log, as AppendRecord writes it. */
  lemma {:induction false} WalRecord(crc: Str -> nat, r: WalCodec.Record, b: Str)
    requires WalCodec.Typed(r) && b == WalCodec.RecordBytes(crc, r)
    requires |r.topic| <= 0xFFFF && |r.key| <= 0xFFFF && |r.payload| < 0x1_0000_0000
    ensures |b| == 28 + |r.topic| + |r.key| + |r.payload|
    ensures b[0] == 71 && b[1] == 87 && b[2] == 3 && b[3] == 0
    ensures Field(b, 4, 8, if r.timestamp < 0 then r.timestamp + 0x1_0000_0000_0000_0000 else r.timestamp)
    ensures Field(b, 12, 4, if r.partition < 0 then r.partition + 0x1_0000_0000 else r.partition)
    ensures Field(b, 16, 2, |r.topic|) && Field(b, 18, 2, |r.key|) && Field(b, 20, 4, |r.payload|)
    ensures b[24..|b| - 4] == r.topic + r.key + r.payload
    ensures var sum := crc(b[2..|b| - 4]);
            sum < 0x1_0000_0000 ==> Field(b, |b| - 4, 4, sum)
  {
    Widths();
    var h, body := WalCodec.Header(3, r), WalCodec.Covered(r);
    WalParts(crc, r, b);
    WalHeader(r, h);
    WalFields(b, h);
    StoredField(b, 4, 8, Unsigned(r.timestamp, 8));
    StoredField(b, 12, 4, Unsigned(r.partition, 4));
    StoredField(b, 16, 2, |r.topic|);
    StoredField(b, 18, 2, |r.key|);
    StoredField(b, 20, 4, |r.payload|);
    GetPut(crc(body), 4);
  }

  lemma {:induction false} WalHeader(r: WalCodec.Record, h: Str)
    requires WalCodec.Typed(r) && h == WalCodec.Header(3, r)
    ensures h[0] == 3 && h[1] == 0
    ensures h[2..10] == Put(Unsigned(r.timestamp, 8), 8) && h[10..14] == Put(Unsigned(r.partition, 4), 4)
    ensures h[14..16] == Put(|r.topic|, 2) && h[16..18] == Put(|r.key|, 2) && h[18..22] == Put(|r.payload|, 4)
  {
  }

  /** A slice of what follows the magic is a slice of the record. */
  lemma {:induction false} Inside(b: Str, h: Str, i: nat, j: nat)
    requires |b| >= 24 && b[2..24] == h && i <= j <= 22
    ensures h[i..j] == b[i + 2..j + 2]
  {
    forall n | i <= n < j
      ensures h[n] == b[n + 2]
    {
      assert b[2..24][n] == b[n + 2];
    }
  }

  lemma {:induction false} WalFields(b: Str, h: Str)
    requires |b| >= 24 && b[2..24] == h
    ensures b[2] == h[0] && b[3] == h[1] && b[4..12] == h[2..10] && b[12..16] == h[10..14]
    ensures b[16..18] == h[14..16] && b[18..20] == h[16..18] && b[20..24] == h[18..22]
  {
    assert b[2..24][0] == b[2] && b[2..24][1] == b[3];
    Inside(b, h, 2, 10);
    Inside(b, h, 10, 14);
    Inside(b, h, 14, 16);
    Inside(b, h, 16, 18);
    Inside(b, h, 18, 22);
  }

  /** A record of a shard's log, as Append writes it. */
  lemma {:induction false} ShardRecord(crc: Str -> nat, payload: Str, b: Str)
    requires |payload| < 0x1_0000_0000 && crc(payload) < 0x1_0000_0000 && b == ShardLog.Enc(crc)(payload)
    ensures |b| == 8 + |payload|
    ensures Field(b, 0, 4, |payload|) && Field(b, 4, 4, crc(payload)) && b[8..] == payload
  {
    Widths();
    assert b[0..4] == Put(|payload|, 4) && b[4..8] == Put(crc(payload), 4);
    GetPut(|payload|, 4);
    GetPut(crc(payload), 4);
  }

  /** A frame of the TCP protocol. */
  lemma {:induction false} WireFrame(f: WireCodec.Frame, b: Str)
    requires |f.topic| <= 0xFF && |f.payload| < 0x1_0000_0000 && b == WireCodec.FrameBytes(f)
    ensures |b| == 8 + |f.topic| + |f.payload|
    ensures b[0] == 0x47 && b[1] == 0x4B && b[2] == f.op
    ensures Field(b, 3, 1, |f.topic|) && Field(b, 4, 4, |f.payload|) && b[8..] == f.topic + f.payload
  {
    Widths();
    WireCodec.FrameParts(f, []);
    assert b + [] == b;
    assert Put(0x474B, 2) == [0x47, 0x4B];
    assert b[0] == b[..2][0] && b[1] == b[..2][1];
    StoredField(b, 3, 1, |f.topic|);
    StoredField(b, 4, 4, |f.payload|);
  }

  /** Where item i of a list starts: after the count and the items before it (head, length, payload). */
  function Start(items: seq<WireCodec.Item>, width: nat, i: nat): nat
    requires i <= |items|
  {
    if i == 0 then 2 else Start(items, width, i - 1) + width + 4 + |items[i - 1].payload|
  }

  lemma {:induction false} StartIsAfterBody(items: seq<WireCodec.Item>, width: nat, i: nat)
    requires WireCodec.ListFits(items, width) && i <= |items|
    ensures Start(items, width, i) == 2 + |WireCodec.Body(items[..i])|
  {
    if i != 0 {
      StartIsAfterBody(items, width, i - 1);
      WireCodec.BodyStep(items, i - 1);
    }
  }

  ghost predicate ItemLies(b: Str, it: WireCodec.Item, at: nat, width: nat) {
    && at + width + 4 + |it.payload| <= |b|
    && b[at..at + width] == it.head && Field(b, at + width, 4, |it.payload|)
    && b[at + width + 4..at + width + 4 + |it.payload|] == it.payload
  }

  lemma {:induction false} ItemIsPlaced(items: seq<WireCodec.Item>, width: nat, b: Str, i: nat, at: nat)
    requires WireCodec.ListFits(items, width) && b == WireCodec.ListBytes(items) && i < |items|
    requires at == Start(items, width, i)
    ensures ItemLies(b, items[i], at, width)
  {
    Widths();
    StartIsAfterBody(items, width, i);
    WireCodec.ItemAt(b, items, i, width);
    GetPut(|items[i].payload|, 4);
  }

  /** A batch payload (no heads) or a fetch response (heads of eight bytes). */
  lemma {:induction false} WireList(items: seq<WireCodec.Item>, width: nat, b: Str)
    requires |items| <= 0xFFFF && b == WireCodec.ListBytes(items)
    requires forall i :: 0 <= i < |items| ==> |items[i].head| == width && |items[i].payload| < 0x1_0000_0000
    ensures Field(b, 0, 2, |items|) && |b| == Start(items, width, |items|)
    ensures forall i :: 0 <= i < |items| ==> ItemLies(b, items[i], Start(items, width, i), width)
  {
    WireCodec.CountOfList(b, width, items);
    StartIsAfterBody(items, width, |items|);
    assert items[..|items|] == items;
    forall i | 0 <= i < |items|
      ensures ItemLies(b, items[i], Start(items, width, i), width)
    {
      ItemIsPlaced(items, width, b, i, Start(items, width, i));
    }
  }
}
