/**
 The write-ahead log's record format and its replay (internal/wal/wal.go).

 The checksum is a parameter: every statement holds for any function from bytes to 32-bit numbers.
 */
module WalCodec {
  import opened Bytes
  import opened Scanning
  import opened WireCodec

  const MAGIC: Str := [71, 87]

  datatype Record = Record(timestamp: int, topic: Str, key: Str, partition: int, payload: Str)

  datatype Refusal = CorruptRecord | PayloadTooLarge

  datatype Encoded = Written(bytes: Str) | Refused(why: Refusal)

  // ---------------------------------------------------------------- the format

  predicate Typed(r: Record) {
    FitsSigned(r.timestamp, 8) && FitsSigned(r.partition, 4)
  }

  /** What the fields of a record can hold, and the reader takes. */
  predicate Storable(r: Record) {
    Typed(r) && |r.topic| <= 65535 && |r.key| <= 65535 && |r.payload| <= MAX_PAYLOAD
  }

  /** What AppendRecord takes. */
  predicate Appendable(r: Record) {
    Storable(r) && r.partition >= -1 && (r.partition == 0 ==> r.topic != [])
  }

  /** The 22 bytes after the magic. */
  function Header(version: Byte, r: Record): (h: Str)
    requires Typed(r)
    ensures |h| == 22
  {
    [version, 0] + Put(Unsigned(r.timestamp, 8), 8) + Put(Unsigned(r.partition, 4), 4)
    + Put(|r.topic|, 2) + Put(|r.key|, 2) + Put(|r.payload|, 4)
  }

  function Covered(r: Record): Str
    requires Typed(r)
  {
    Header(3, r) + (r.topic + r.key + r.payload)
  }

  function RecordBytes(crc: Str -> nat, r: Record): Str
    requires Typed(r)
  {
    MAGIC + Covered(r) + Put(crc(Covered(r)), 4)
  }

  /** The record's bytes in the file. */
  ghost function Enc(crc: Str -> nat): Record -> Str {
    r => if Typed(r) then RecordBytes(crc, r) else []
  }

  // ---------------------------------------------------------------- append

  /** A zero timestamp is replaced by the clock. */
  function Stamped(r: Record, now: int): Record {
    if r.timestamp == 0 then r.(timestamp := now) else r
  }

  /**
   AppendRecord up to the write: the refusals, then the bytes. The header is filled in place.
   */
  method EncodeRecord(crc: Str -> nat, r: Record, now: int) returns (out: Encoded)
    requires Typed(r) && FitsSigned(now, 8)
    ensures out == Refused(CorruptRecord) <==> (
      r.partition < -1 || (r.partition == 0 && r.topic == []) || |r.topic| > 0xFFFF || |r.key| > 0xFFFF)
    ensures out.Written? <==> Appendable(r)
    ensures out == Refused(PayloadTooLarge) <==> out != Refused(CorruptRecord) && |r.payload| > 0x400_0000
    ensures out.Written? ==> out.bytes == RecordBytes(crc, Stamped(r, now))
  {
    if r.partition == 0 && r.topic == [] {
      return Refused(CorruptRecord);
    }
    var rec := r;
    if rec.timestamp == 0 {
      rec := rec.(timestamp := now);
    }
    if rec.partition < -1 || |rec.topic| > 0xFFFF || |rec.key| > 0xFFFF {
      return Refused(CorruptRecord);
    }
    if |rec.payload| > MAX_PAYLOAD {
      return Refused(PayloadTooLarge);
    }
    var header := FillHeader(rec);
    var sum := crc(header[2..] + (rec.topic + rec.key + rec.payload));
    out := Written(header + rec.topic + rec.key + rec.payload + Put(sum, 4));
    assert header[2..] == Header(3, rec);
    assert out.bytes == RecordBytes(crc, rec);
  }

  method FillHeader(rec: Record) returns (bytes: Str)
    requires Typed(rec)
    ensures bytes == MAGIC + Header(3, rec)
  {
    var header := new Byte[24](_ => 0);
    Copy(header, 0, MAGIC);
    header[2] := 3;
    header[3] := 0;
    assert header[..4] == MAGIC + [3, 0];
    Copy(header, 4, Put(Unsigned(rec.timestamp, 8), 8));
    Copy(header, 12, Put(Unsigned(rec.partition, 4), 4));
    Copy(header, 16, Put(|rec.topic|, 2));
    Copy(header, 18, Put(|rec.key|, 2));
    Copy(header, 20, Put(|rec.payload|, 4));
    bytes := header[..];
  }

  // ---------------------------------------------------------------- reading one record

  function ReadRecord(crc: Str -> nat, input: Str): (one: One<Record>)
    ensures one.Got? ==> |one.rest| < |input|
  {
    match ReadFull(input, 2)
    case Eof => Clean
    case UnexpectedEof => Short
    case Read(prefix, s) => if prefix == MAGIC then ReadV2(crc, s) else ReadV1(prefix, s)
  }

  function ReadV2(crc: Str -> nat, s: Str): (one: One<Record>)
    ensures one.Got? ==> |one.rest| < |s|
  {
    match ReadFull(s, 22)
    case Eof => Cut
    case UnexpectedEof => Short
    case Read(header, s) =>
      if header[0] != 2 && header[0] != 3 then Bad
      else if Get(header[18..22]) > MAX_PAYLOAD then Bad
      else ReadBody(crc, header, s)
  }

  function ReadBody(crc: Str -> nat, header: Str, s: Str): (one: One<Record>)
    requires |header| == 22
    ensures one.Got? ==> |one.rest| <= |s|
  {
    match ReadFull(s, Get(header[14..16]) + Get(header[16..18]) + Get(header[18..22]))
    case Eof => Cut
    case UnexpectedEof => Short
    case Read(body, s) =>
      if header[0] == 3 then ReadSum(crc, header, body, s) else Got(Parsed(header, body), s)
  }

  function ReadSum(crc: Str -> nat, header: Str, body: Str, s: Str): (one: One<Record>)
    requires |header| == 22 && |body| == Get(header[14..16]) + Get(header[16..18]) + Get(header[18..22])
    ensures one.Got? ==> |one.rest| <= |s|
  {
    match ReadFull(s, 4)
    case Eof => Cut
    case UnexpectedEof => Short
    case Read(sum, s) => if crc(header + body) != Get(sum) then Bad else Got(Parsed(header, body), s)
  }

  function Parsed(header: Str, body: Str): Record
    requires |header| == 22 && |body| == Get(header[14..16]) + Get(header[16..18]) + Get(header[18..22])
  {
    var topicEnd := Get(header[14..16]);
    var keyEnd := topicEnd + Get(header[16..18]);
    Record(Signed(Get(header[2..10]), 8), body[..topicEnd], body[topicEnd..keyEnd],
           Signed(Get(header[10..14]), 4), body[keyEnd..])
  }

  function ReadV1(prefix: Str, s: Str): (one: One<Record>)
    requires |prefix| == 2
    ensures one.Got? ==> |one.rest| < |s|
  {
    match ReadFull(s, 12)
    case Eof => Cut
    case UnexpectedEof => Short
    case Read(more, s) =>
      var header := prefix + more;
      var topicLen, payloadLen := Get(header[8..10]), Get(header[10..14]);
      if payloadLen > MAX_PAYLOAD then Bad
      else match ReadFull(s, topicLen + payloadLen)
        case Eof => Cut
        case UnexpectedEof => Short
        case Read(body, s) => Got(Record(Signed(Get(header[..8]), 8), body[..topicLen], [], -1, body[topicLen..]), s)
  }

  // ---------------------------------------------------------------- replay

  ghost function Reader(crc: Str -> nat): (read: Str -> One<Record>)
    ensures Shrinks(read)
  {
    s => ReadRecord(crc, s)
  }

  datatype Outcome = Nil | EofError | UnexpectedEofError | Corrupt | CallbackError

  /** What the end of the loop returns. */
  function Ending(one: One<Record>, allowPartialTail: bool): Outcome
    requires !one.Got?
  {
    match one
    case Clean => Nil
    case Short => if allowPartialTail then Nil else UnexpectedEofError
    case Cut => EofError
    case Bad => Corrupt
  }

  /**
   ReplayWithOptions over the bytes of a file. The callback is any function of the calls made so
   far: it is given the records of the file in order, up to its first error or the end.
   */
  method Replay(crc: Str -> nat, file: Str, partial: bool, fails: seq<Record> -> bool)
    returns (seen: seq<Record>, outcome: Outcome)
    ensures seen <= Scan(Reader(crc), file).records
    ensures NoneBefore(fails, seen)
    ensures outcome == CallbackError <==> |seen| > 0 && fails(seen)
    ensures outcome != CallbackError ==>
      seen == Scan(Reader(crc), file).records && outcome == Ending(Scan(Reader(crc), file).ending, partial)
  {
    var rest := file;
    seen := [];
    while true
      invariant Reached(Reader(crc), file, seen, rest)
      invariant NoneBefore(fails, seen) && (|seen| > 0 ==> !fails(seen))
      decreases |rest|
    {
      var one := ReadRecord(crc, rest);
      ReachedNext(Reader(crc), file, seen, rest, one);
      match one
      case Clean => return seen, Nil;
      case Short => return seen, if partial then Nil else UnexpectedEofError;
      case Cut => return seen, EofError;
      case Bad => return seen, Corrupt;
      case Got(record, after) =>
        NoneBeforeNext(fails, seen, record);
        seen := seen + [record];
        if fails(seen) {
          return seen, CallbackError;
        }
        rest := after;
    }
  }

  // ---------------------------------------------------------------- what replay gives back

  lemma {:induction false} HeaderFields(version: Byte, r: Record)
    requires Storable(r)
    ensures var h := Header(version, r);
            && h[0] == version
            && Signed(Get(h[2..10]), 8) == r.timestamp && Signed(Get(h[10..14]), 4) == r.partition
            && Get(h[14..16]) == |r.topic| && Get(h[16..18]) == |r.key| && Get(h[18..22]) == |r.payload|
  {
    Widths();
    var h := Header(version, r);
    assert h[2..10] == Put(Unsigned(r.timestamp, 8), 8);
    assert h[10..14] == Put(Unsigned(r.partition, 4), 4);
    assert h[14..16] == Put(|r.topic|, 2);
    assert h[16..18] == Put(|r.key|, 2);
    assert h[18..22] == Put(|r.payload|, 4);
    SignedRoundTrip(r.timestamp, 8);
    SignedRoundTrip(r.partition, 4);
    GetPut(Unsigned(r.timestamp, 8), 8);
    GetPut(Unsigned(r.partition, 4), 4);
    GetPut(|r.topic|, 2);
    GetPut(|r.key|, 2);
    GetPut(|r.payload|, 4);
  }

  function BodyOf(r: Record): Str {
    r.topic + r.key + r.payload
  }

  lemma {:induction false} ParsedBack(version: Byte, r: Record)
    requires Storable(r)
    ensures var h := Header(version, r);
            |BodyOf(r)| == Get(h[14..16]) + Get(h[16..18]) + Get(h[18..22]) && Parsed(h, BodyOf(r)) == r
  {
    HeaderFields(version, r);
    var body := BodyOf(r);
    assert body[..|r.topic|] == r.topic;
    assert body[|r.topic|..|r.topic| + |r.key|] == r.key;
    assert body[|r.topic| + |r.key|..] == r.payload;
  }

  /** The whole record, followed by anything, is read back as it was. */
  lemma {:induction false} WholeRecordReads(crc: Str -> nat, r: Record, rest: Str)
    requires Checksum(crc) && Appendable(r)
    ensures ReadRecord(crc, RecordBytes(crc, r) + rest) == Got(r, rest)
  {
    Widths();
    var sum := Put(crc(Covered(r)), 4);
    var input := RecordBytes(crc, r) + rest;
    assert input[..2] == MAGIC && input[2..] == Header(3, r) + (BodyOf(r) + (sum + rest));
    ReadsFields(crc, r, sum, rest);
    GetPut(crc(Covered(r)), 4);
  }

  lemma {:induction false} Took(a: Str, b: Str)
    ensures ReadFull(a + b, |a|) == Read(a, b)
  {
  }

  /** Where a cut falls between two of the reader's reads. */
  predicate BetweenReads(r: Record, n: nat) {
    n == 2 || n == 24 || n == 24 + |BodyOf(r)|
  }

  lemma {:induction false} CutBehind(a: Str, b: Str, n: nat)
    requires |a| <= n <= |a + b|
    ensures (a + b)[..n][..|a|] == a && (a + b)[..n][|a|..] == b[..n - |a|]
  {
  }

  /** A record cut short is never delivered; a cut between two reads looks like a clean end of input. */
  lemma {:induction false} CutRecordReads(crc: Str -> nat, r: Record, n: nat)
    requires Checksum(crc) && Appendable(r) && n < |RecordBytes(crc, r)|
    ensures ReadRecord(crc, RecordBytes(crc, r)[..n])
            == (if n == 0 then Clean else if BetweenReads(r, n) then Cut else Short)
  {
    if n >= 2 {
      var all := Covered(r) + Put(crc(Covered(r)), 4);
      assert RecordBytes(crc, r) == MAGIC + all;
      CutBehind(MAGIC, all, n);
      CutAfterMagic(crc, r, n - 2);
    }
  }

  lemma {:induction false} CutAfterMagic(crc: Str -> nat, r: Record, n: nat)
    requires Checksum(crc) && Appendable(r) && n < |RecordBytes(crc, r)| - 2
    ensures ReadV2(crc, (Covered(r) + Put(crc(Covered(r)), 4))[..n]) == (if BetweenReads(r, n + 2) then Cut else Short)
  {
    var all := Covered(r) + Put(crc(Covered(r)), 4);
    if n >= 22 {
      HeaderFields(3, r);
      assert all[..n][..22] == Header(3, r) && all[..n][22..] == (BodyOf(r) + Put(crc(Covered(r)), 4))[..n - 22];
      CutAfterHeader(crc, r, n - 22);
    }
  }

  lemma {:induction false} CutAfterHeader(crc: Str -> nat, r: Record, n: nat)
    requires Checksum(crc) && Appendable(r) && n < |BodyOf(r)| + 4
    ensures ReadBody(crc, Header(3, r), (BodyOf(r) + Put(crc(Covered(r)), 4))[..n])
            == (if BetweenReads(r, n + 24) then Cut else Short)
  {
    HeaderFields(3, r);
    var s := (BodyOf(r) + Put(crc(Covered(r)), 4))[..n];
    if n >= |BodyOf(r)| {
      assert s[..|BodyOf(r)|] == BodyOf(r);
    }
  }

  /** What the reader makes of the first n bytes of a record. */
  ghost function CutAt(r: Record, n: nat): One<Record> {
    if n == 0 then Clean else if BetweenReads(r, n) then Cut else Short
  }

  lemma {:induction false} LogIsAFormat(crc: Str -> nat)
    requires Checksum(crc)
    ensures Format(Reader(crc), Enc(crc), Appendable, CutAt)
  {
    forall r, rest: Str | Appendable(r)
      ensures Reader(crc)(Enc(crc)(r) + rest) == Got(r, rest)
    {
      WholeRecordReads(crc, r, rest);
    }
    forall r, n | Appendable(r) && 0 <= n < |Enc(crc)(r)|
      ensures Reader(crc)(Enc(crc)(r)[..n]) == CutAt(r, n)
    {
      CutRecordReads(crc, r, n);
    }
  }

  /**
   A crash leaves any prefix of the file. Replay finds every record that is whole in it, in order,
   and no part of another; a tail cut between two reads ends it differently from other tails.
   */
  lemma {:induction false} ReplayOfAnyPrefix(crc: Str -> nat, rs: seq<Record>, n: nat, m: nat, left: nat)
    requires Checksum(crc) && (forall r :: r in rs ==> Appendable(r)) && WholeWithin(Enc(crc), rs, n, m)
    requires left == n - |File(Enc(crc), rs[..m])|
    ensures Scan(Reader(crc), File(Enc(crc), rs)[..n])
         == Scanned(rs[..m], if m == |rs| then Clean else CutAt(rs[m], left))
  {
    LogIsAFormat(crc);
    ScanOfAnyPrefix(Reader(crc), Enc(crc), Appendable, CutAt, rs, n, m, left);
  }

  /** A log that was written out in full is replayed in full. */
  lemma {:induction false} ReplayOfWholeFile(crc: Str -> nat, rs: seq<Record>)
    requires Checksum(crc) && forall r :: r in rs ==> Appendable(r)
    ensures Scan(Reader(crc), File(Enc(crc), rs)) == Scanned(rs, Clean)
  {
    assert rs[..|rs|] == rs && File(Enc(crc), rs)[..|File(Enc(crc), rs)|] == File(Enc(crc), rs);
    ReplayOfAnyPrefix(crc, rs, |File(Enc(crc), rs)|, |rs|, 0);
  }

  /**
   Replay is meant to tolerate a torn tail when told to. It does exactly when the cut does not
   fall between two of its reads: after the magic, after the header or before the checksum the
   torn tail is reported as an error.
   */
  lemma {:induction false} TornTailIsToleratedIff(crc: Str -> nat, rs: seq<Record>, n: nat, m: nat, left: nat)
    returns (ending: One<Record>)
    requires Checksum(crc) && (forall r :: r in rs ==> Appendable(r)) && WholeWithin(Enc(crc), rs, n, m)
    requires m < |rs| && 0 < left == n - |File(Enc(crc), rs[..m])|
    ensures ending == Scan(Reader(crc), File(Enc(crc), rs)[..n]).ending && !ending.Got?
    ensures Ending(ending, true) == Nil <==> !BetweenReads(rs[m], left)
    ensures Ending(ending, false) != Nil
  {
    ending := CutAt(rs[m], left);
    ReplayOfAnyPrefix(crc, rs, n, m, left);
  }

  /** A log of one record without topic, key or payload, cut after its magic. */
  lemma {:induction false} TornTailCanFail(crc: Str -> nat)
    requires Checksum(crc)
    ensures var r := Record(1, [], [], -1, []);
            && Appendable(r) && 2 < |File(Enc(crc), [r])|
            && Ending(Scan(Reader(crc), File(Enc(crc), [r])[..2]).ending, true) == EofError
  {
    Widths();
    var r := Record(1, [], [], -1, []);
    ReplayOfAnyPrefix(crc, [r], 2, 0, 2);
  }

  /**
   Replacing the checksummed bytes of a record by others of the same field lengths is noticed
   exactly when the checksum differs.
   */
  lemma {:induction false} DamageIsCaughtIff(crc: Str -> nat, r: Record, damaged: Record, rest: Str)
    requires Checksum(crc) && Appendable(r) && Appendable(damaged)
    ensures ReadRecord(crc, MAGIC + Covered(damaged) + Put(crc(Covered(r)), 4) + rest)
         == (if crc(Covered(damaged)) == crc(Covered(r)) then Got(damaged, rest) else Bad)
  {
    Widths();
    var sum := Put(crc(Covered(r)), 4);
    var input := MAGIC + Covered(damaged) + sum + rest;
    assert input[..2] == MAGIC && input[2..] == Header(3, damaged) + (BodyOf(damaged) + (sum + rest));
    ReadsFields(crc, damaged, sum, rest);
    GetPut(crc(Covered(r)), 4);
  }

  lemma {:induction false} ReadsFields(crc: Str -> nat, r: Record, sum: Str, rest: Str)
    requires Appendable(r) && |sum| == 4
    ensures ReadV2(crc, Header(3, r) + (BodyOf(r) + (sum + rest)))
            == (if crc(Covered(r)) == Get(sum) then Got(r, rest) else Bad)
  {
    Took(Header(3, r), BodyOf(r) + (sum + rest));
    Took(BodyOf(r), sum + rest);
    Took(sum, rest);
    HeaderFields(3, r);
    ParsedBack(3, r);
  }

  /** Records written before the checksum was added are still read, byte for byte. */
  lemma {:induction false} Version2Reads(crc: Str -> nat, r: Record, rest: Str)
    requires Appendable(r)
    ensures ReadRecord(crc, MAGIC + Header(2, r) + BodyOf(r) + rest) == Got(r, rest)
  {
    var input := MAGIC + Header(2, r) + BodyOf(r) + rest;
    assert input[..2] == MAGIC && input[2..] == Header(2, r) + (BodyOf(r) + rest);
    Took(Header(2, r), BodyOf(r) + rest);
    Took(BodyOf(r), rest);
    HeaderFields(2, r);
    ParsedBack(2, r);
  }
}
