/**
 What the readers of the two logs accept (internal/wal/wal.go, readRecord and its versions;
 internal/cluster/shardwal/shardwal.go): exactly the bytes of a record, with anything behind them.
 So no damage, torn tail or foreign file is ever read as a record that does not stand there.
 */
module Readable {
  import opened Bytes
  import opened Scanning
  import opened WalCodec
  import ShardLog

  // ---------------------------------------------------------------- the shard log

  lemma {:induction false} ShardReadsExactly(crc: Str -> nat, input: Str, payload: Str, rest: Str)
    requires Checksum(crc)
    ensures ShardLog.ReadOne(crc, input) == Got(payload, rest) <==>
            |payload| <= 0x400_0000 && input == Put(|payload|, 4) + Put(crc(payload), 4) + payload + rest
  {
    if |payload| <= 0x400_0000 {
      ShardLog.WholeRecordReads(crc, payload, rest);
    }
    if ShardLog.ReadOne(crc, input) == Got(payload, rest) {
      PutGet(input[..8][..4]);
      PutGet(input[..8][4..]);
      assert input == input[..8][..4] + input[..8][4..] + payload + rest;
    }
  }

  // ---------------------------------------------------------------- the write-ahead log

  /** The versions in use: a byte that is not looked at follows the version, and version 3 ends in a checksum. */
  function Versioned(crc: Str -> nat, version: Byte, spare: Byte, r: Record): Str
    requires Typed(r)
  {
    var h := Header(version, r)[1 := spare];
    MAGIC + h + BodyOf(r) + (if version == 3 then Put(crc(h + BodyOf(r)), 4) else [])
  }

  ghost predicate IsVersioned(crc: Str -> nat, version: Byte, spare: Byte, input: Str, r: Record, rest: Str) {
    (version == 2 || version == 3) && Storable(r) && input == Versioned(crc, version, spare, r) + rest
  }

  function UnversionedHeader(r: Record): Str
    requires Typed(r)
  {
    Put(Unsigned(r.timestamp, 8), 8) + Put(|r.topic|, 2) + Put(|r.payload|, 4)
  }

  /** The first layout: timestamp, two lengths, topic and payload. */
  function Unversioned(r: Record): Str
    requires Typed(r)
  {
    UnversionedHeader(r) + (r.topic + r.payload)
  }

  /** It has no magic, so it must not begin like one, and neither key nor partition. */
  ghost predicate IsUnversioned(input: Str, r: Record, rest: Str) {
    && Storable(r) && r.key == [] && r.partition == -1
    && input == Unversioned(r) + rest && input[..2] != [71, 87]
  }

  lemma {:induction false} UnsignedSigned(u: nat, w: nat)
    requires u < Pow256(w)
    ensures FitsSigned(Signed(u, w), w) && Unsigned(Signed(u, w), w) == u
  {
  }

  lemma {:induction false} ParsedParts(header: Str, body: Str)
    requires |header| == 22 && |body| == Get(header[14..16]) + Get(header[16..18]) + Get(header[18..22])
    ensures var r := Parsed(header, body);
            && BodyOf(r) == body && |r.topic| == Get(header[14..16]) && |r.key| == Get(header[16..18])
            && |r.payload| == Get(header[18..22])
  {
  }

  lemma {:induction false} Rejoined(h: Str, a: Str, b: Str, c: Str, d: Str, e: Str)
    requires |h| == 22 && h[2..10] == a && h[10..14] == b && h[14..16] == c && h[16..18] == d && h[18..22] == e
    ensures h == ([h[0], 0] + a + b + c + d + e)[1 := h[1]]
  {
    assert h == h[..2] + h[2..10] + h[10..14] + h[14..16] + h[16..18] + h[18..22];
  }

  /** A header is the header of what is parsed from it. */
  lemma {:induction false} ParsedHeader(header: Str, body: Str)
    requires |header| == 22 && |body| == Get(header[14..16]) + Get(header[16..18]) + Get(header[18..22])
    requires Get(header[18..22]) <= MAX_PAYLOAD
    ensures var r := Parsed(header, body);
            Storable(r) && BodyOf(r) == body && Header(header[0], r)[1 := header[1]] == header
  {
    Widths();
    ParsedParts(header, body);
    SignedField(header, 2, 8);
    SignedField(header, 10, 4);
    PlainField(header, 14, 2);
    PlainField(header, 16, 2);
    PlainField(header, 18, 4);
    Rejoined(header, header[2..10], header[10..14], header[14..16], header[16..18], header[18..22]);
  }

  lemma {:induction false} PlainField(s: Str, at: nat, width: nat)
    requires at + width <= |s|
    ensures Put(Get(s[at..at + width]), width) == s[at..at + width] && Get(s[at..at + width]) < Pow256(width)
  {
    PutGet(s[at..at + width]);
    GetBound(s[at..at + width]);
  }

  lemma {:induction false} SignedField(s: Str, at: nat, width: nat)
    requires at + width <= |s|
    ensures var n := Signed(Get(s[at..at + width]), width);
            FitsSigned(n, width) && Put(Unsigned(n, width), width) == s[at..at + width]
  {
    PlainField(s, at, width);
    UnsignedSigned(Get(s[at..at + width]), width);
  }

  lemma {:induction false} ReadBodyStands(crc: Str -> nat, header: Str, s: Str, r: Record, rest: Str)
    returns (body: Str, sum: Str)
    requires |header| == 22 && (header[0] == 2 || header[0] == 3) && ReadBody(crc, header, s) == Got(r, rest)
    ensures |body| == Get(header[14..16]) + Get(header[16..18]) + Get(header[18..22]) && r == Parsed(header, body)
    ensures sum == (if header[0] == 3 then Put(crc(header + body), 4) else []) && s == body + (sum + rest)
  {
    var n := Get(header[14..16]) + Get(header[16..18]) + Get(header[18..22]);
    body := s[..n];
    var after := s[n..];
    assert s == body + after;
    if header[0] == 3 {
      sum := after[..4];
      PutGet(sum);
      assert after == sum + rest;
    } else {
      sum := [];
      assert after == sum + rest;
    }
  }

  /** What is read behind the magic stands there. */
  lemma {:induction false} ReadIsVersioned(crc: Str -> nat, input: Str, r: Record, rest: Str)
    returns (version: Byte, spare: Byte)
    requires |input| >= 2 && input[..2] == MAGIC && ReadV2(crc, input[2..]) == Got(r, rest)
    ensures IsVersioned(crc, version, spare, input, r, rest)
  {
    var s := input[2..];
    var header, after := s[..22], s[22..];
    version, spare := header[0], header[1];
    var body, sum := ReadBodyStands(crc, header, after, r, rest);
    ParsedHeader(header, body);
    Regrouped(MAGIC, header, body, sum, rest);
    assert input == MAGIC + s && s == header + after;
  }

  lemma {:induction false} Regrouped(a: Str, b: Str, c: Str, d: Str, e: Str)
    ensures a + b + c + d + e == a + (b + (c + (d + e)))
  {
  }

  lemma {:induction false} BodyIsRead(crc: Str -> nat, version: Byte, r: Record, h: Str, sum: Str, rest: Str)
    requires Checksum(crc) && |h| == 22 && h[0] == version && (version == 2 || version == 3)
    requires |BodyOf(r)| == Get(h[14..16]) + Get(h[16..18]) + Get(h[18..22]) && Parsed(h, BodyOf(r)) == r
    requires sum == if version == 3 then Put(crc(h + BodyOf(r)), 4) else []
    ensures ReadBody(crc, h, BodyOf(r) + (sum + rest)) == Got(r, rest)
  {
    Took(BodyOf(r), sum + rest);
    if version == 3 {
      Took(sum, rest);
      Widths();
      GetPut(crc(h + BodyOf(r)), 4);
    } else {
      assert sum + rest == rest;
    }
  }

  /** What stands there is read. */
  lemma {:induction false} VersionedIsRead(crc: Str -> nat, version: Byte, spare: Byte, input: Str, r: Record,
                                           rest: Str)
    requires Checksum(crc) && IsVersioned(crc, version, spare, input, r, rest)
    ensures ReadRecord(crc, input) == Got(r, rest)
  {
    var h := Header(version, r)[1 := spare];
    var sum := if version == 3 then Put(crc(h + BodyOf(r)), 4) else [];
    var after := BodyOf(r) + (sum + rest);
    HeaderWithSpare(version, spare, r, h);
    BodyIsRead(crc, version, r, h, sum, rest);
    Regrouped(MAGIC, h, BodyOf(r), sum, rest);
    Took(MAGIC, h + after);
    Took(h, after);
  }

  lemma {:induction false} HeaderWithSpare(version: Byte, spare: Byte, r: Record, h: Str)
    requires Storable(r) && h == Header(version, r)[1 := spare]
    ensures h[0] == version && Get(h[18..22]) == |r.payload|
    ensures |BodyOf(r)| == Get(h[14..16]) + Get(h[16..18]) + Get(h[18..22]) && Parsed(h, BodyOf(r)) == r
  {
    var was := Header(version, r);
    HeaderFields(version, r);
    ParsedBack(version, r);
    assert h[2..10] == was[2..10] && h[10..14] == was[10..14];
    assert h[14..16] == was[14..16] && h[16..18] == was[16..18] && h[18..22] == was[18..22];
  }

  lemma {:induction false} UnversionedParts(input: Str, r: Record, rest: Str, header: Str)
    requires |input| >= 2 && ReadV1(input[..2], input[2..]) == Got(r, rest)
    requires |input| >= 14 && header == input[..14]
    ensures Get(header[10..14]) <= MAX_PAYLOAD && r.key == [] && r.partition == -1
    ensures r.timestamp == Signed(Get(header[..8]), 8)
    ensures |r.topic| == Get(header[8..10]) && |r.payload| == Get(header[10..14])
    ensures input == header + (r.topic + r.payload + rest)
  {
    assert input[..2] + input[2..][..12] == header;
    assert input[2..][12..] == input[14..];
  }

  lemma {:induction false} UnversionedRejoined(h: Str, r: Record)
    requires |h| == 14 && r.key == [] && r.partition == -1 && r.timestamp == Signed(Get(h[..8]), 8)
    requires |r.topic| == Get(h[8..10]) && |r.payload| == Get(h[10..14]) <= MAX_PAYLOAD
    ensures Storable(r) && UnversionedHeader(r) == h
  {
    Widths();
    assert h[0..8] == h[..8];
    SignedField(h, 0, 8);
    PlainField(h, 8, 2);
    PlainField(h, 10, 4);
    assert h == h[..8] + h[8..10] + h[10..14];
  }

  lemma {:induction false} ReadIsUnversioned(input: Str, r: Record, rest: Str)
    requires |input| >= 2 && input[..2] != MAGIC && ReadV1(input[..2], input[2..]) == Got(r, rest)
    ensures IsUnversioned(input, r, rest)
  {
    var h := input[..14];
    UnversionedParts(input, r, rest, h);
    UnversionedRejoined(h, r);
    assert input == h + (r.topic + r.payload) + rest;
  }

  lemma {:induction false} UnversionedFields(r: Record, h: Str)
    requires Storable(r) && h == UnversionedHeader(r)
    ensures |h| == 14 && Signed(Get(h[..8]), 8) == r.timestamp
    ensures Get(h[8..10]) == |r.topic| && Get(h[10..14]) == |r.payload|
  {
    Widths();
    assert h[..8] == Put(Unsigned(r.timestamp, 8), 8) && h[8..10] == Put(|r.topic|, 2);
    assert h[10..14] == Put(|r.payload|, 4);
    SignedRoundTrip(r.timestamp, 8);
    GetPut(Unsigned(r.timestamp, 8), 8);
    GetPut(|r.topic|, 2);
    GetPut(|r.payload|, 4);
  }

  lemma {:induction false} HeaderInTwoReads(h: Str, after: Str, input: Str)
    requires |h| == 14 && input == h + after
    ensures input[..2] + input[2..][..12] == h && input[2..][12..] == after
  {
  }

  lemma {:induction false} UnversionedIsRead(crc: Str -> nat, input: Str, r: Record, rest: Str)
    requires IsUnversioned(input, r, rest)
    ensures ReadRecord(crc, input) == Got(r, rest)
  {
    var h, body := UnversionedHeader(r), r.topic + r.payload;
    UnversionedFields(r, h);
    assert input == h + (body + rest);
    HeaderInTwoReads(h, body + rest, input);
    Took(body, rest);
    assert body[..|r.topic|] == r.topic && body[|r.topic|..] == r.payload;
  }

  /**
   The reader takes a record off the input if and only if the input starts with the bytes of that
   record, in version 2 or 3 or in the first layout, and it leaves what follows them.
   */
  lemma {:induction false} WalReadsExactly(crc: Str -> nat, input: Str, r: Record, rest: Str)
    requires Checksum(crc)
    ensures ReadRecord(crc, input) == Got(r, rest) <==>
            || (exists version, spare :: IsVersioned(crc, version, spare, input, r, rest))
            || IsUnversioned(input, r, rest)
  {
    if ReadRecord(crc, input) == Got(r, rest) {
      if input[..2] == MAGIC {
        var version, spare := ReadIsVersioned(crc, input, r, rest);
      } else {
        ReadIsUnversioned(input, r, rest);
      }
    } else if version, spare :| IsVersioned(crc, version, spare, input, r, rest) {
      VersionedIsRead(crc, version, spare, input, r, rest);
    } else if IsUnversioned(input, r, rest) {
      UnversionedIsRead(crc, input, r, rest);
    }
  }
}
