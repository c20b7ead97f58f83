/**
 A shard's log file: its record format, the tail recovered on open, and replay
 (internal/cluster/shardwal/shardwal.go). As in the write-ahead log, the checksum is a parameter.
 */
module ShardLog {
  import opened Bytes
  import opened Scanning

  predicate Fits(payload: Str) {
    |payload| <= MAX_PAYLOAD
  }

  /** length(4), checksum(4), payload. */
  function Enc(crc: Str -> nat): Str -> Str {
    payload => Put(|payload|, 4) + Put(crc(payload), 4) + payload
  }

  /** One turn of the loops of recoverTail and Replay. */
  function ReadOne(crc: Str -> nat, input: Str): (one: One<Str>)
    ensures one.Got? ==> |one.rest| < |input|
  {
    match ReadFull(input, 8)
    case Eof => Clean
    case UnexpectedEof => Short
    case Read(header, s) =>
      if Get(header[..4]) > MAX_PAYLOAD then Bad
      else match ReadFull(s, Get(header[..4]))
        case Eof => Short
        case UnexpectedEof => Short
        case Read(body, s) => if crc(body) != Get(header[4..]) then Bad else Got(body, s)
  }

  ghost function Reader(crc: Str -> nat): (read: Str -> One<Str>)
    ensures Shrinks(read)
  {
    s => ReadOne(crc, s)
  }

  // ---------------------------------------------------------------- recoverTail

  /** The tail that open computes, when it does not fail. It stays zero unless the file ends on a record. */
  method RecoverTail(crc: Str -> nat, file: Str) returns (tail: nat, failed: bool)
    ensures var all := Scan(Reader(crc), file);
            && (failed <==> all.ending.Bad?)
            && tail == (if all.ending.Clean? then |all.records| else 0)
  {
    tail, failed := 0, false;
    var count, rest := 0, file;
    ghost var seen: seq<Str> := [];
    while true
      invariant Reached(Reader(crc), file, seen, rest) && count == |seen| && tail == 0 && !failed
      decreases |rest|
    {
      var one := ReadOne(crc, rest);
      ReachedNext(Reader(crc), file, seen, rest, one);
      match one
      case Clean => break;
      case Short => return;
      case Cut => return;
      case Bad => return 0, true;
      case Got(body, after) =>
        seen := seen + [body];
        count, rest := count + 1, after;
    }
    tail := count;
  }

  // ---------------------------------------------------------------- Replay

  /** The calls on the callback for these records: offset and payload, from the given offset on. */
  function Calls(records: seq<Str>, from: nat): seq<(nat, Str)> {
    if from >= |records| then []
    else seq(|records| - from, i requires 0 <= i < |records| - from => (from + i, records[from + i]))
  }

  datatype Outcome = Nil | Corrupt | CallbackError

  method Replay(crc: Str -> nat, file: Str, from: nat, fails: seq<(nat, Str)> -> bool)
    returns (calls: seq<(nat, Str)>, outcome: Outcome)
    ensures calls <= Calls(Scan(Reader(crc), file).records, from)
    ensures NoneBefore(fails, calls)
    ensures outcome == CallbackError <==> |calls| > 0 && fails(calls)
    ensures outcome != CallbackError ==>
      && calls == Calls(Scan(Reader(crc), file).records, from)
      && outcome == if Scan(Reader(crc), file).ending.Bad? then Corrupt else Nil
  {
    var offset, rest := 0, file;
    calls := [];
    ghost var seen: seq<Str> := [];
    while true
      invariant Reached(Reader(crc), file, seen, rest) && offset == |seen|
      invariant calls == Calls(seen, from) && NoneBefore(fails, calls) && (|calls| > 0 ==> !fails(calls))
      decreases |rest|
    {
      var one := ReadOne(crc, rest);
      ReachedNext(Reader(crc), file, seen, rest, one);
      match one
      case Clean => return calls, Nil;
      case Short => return calls, Nil;
      case Cut => return calls, Nil;
      case Bad => return calls, Corrupt;
      case Got(body, after) =>
        CallsGrow(seen, body, Scan(Reader(crc), file).records, from);
        seen := seen + [body];
        if offset >= from {
          NoneBeforeNext(fails, calls, (offset, body));
          calls := calls + [(offset, body)];
          if fails(calls) {
            return calls, CallbackError;
          }
        }
        offset, rest := offset + 1, after;
    }
  }

  lemma {:induction false} CallsGrow(seen: seq<Str>, body: Str, all: seq<Str>, from: nat)
    requires seen + [body] <= all
    ensures Calls(seen + [body], from) == Calls(seen, from) + (if |seen| >= from then [(|seen|, body)] else [])
    ensures Calls(seen + [body], from) <= Calls(all, from)
  {
  }

  // ---------------------------------------------------------------- the format and its torn tails

  /** What the reader makes of the first n bytes of a record. */
  ghost function CutAt(payload: Str, n: nat): One<Str> {
    if n == 0 then Clean else Short
  }

  lemma {:induction false} WholeRecordReads(crc: Str -> nat, payload: Str, rest: Str)
    requires Checksum(crc) && Fits(payload)
    ensures ReadOne(crc, Enc(crc)(payload) + rest) == Got(payload, rest)
  {
    Widths();
    var input := Enc(crc)(payload) + rest;
    assert input[..8][..4] == Put(|payload|, 4) && input[..8][4..] == Put(crc(payload), 4);
    assert input[8..] == payload + rest;
    GetPut(|payload|, 4);
    GetPut(crc(payload), 4);
    assert (payload + rest)[..|payload|] == payload && (payload + rest)[|payload|..] == rest;
  }

  /** A record cut after its header, whatever follows, is not read while too few bytes follow. */
  lemma {:induction false} HeaderAwaitsItsPayload(crc: Str -> nat, payload: Str, tail: Str)
    requires Checksum(crc) && Fits(payload) && 8 <= |tail| < |Enc(crc)(payload)| && tail[..8] == Enc(crc)(payload)[..8]
    ensures ReadOne(crc, tail) == Short
  {
    Widths();
    assert tail[..8][..4] == Put(|payload|, 4);
    GetPut(|payload|, 4);
  }

  lemma {:induction false} ShardIsAFormat(crc: Str -> nat)
    requires Checksum(crc)
    ensures Format(Reader(crc), Enc(crc), Fits, CutAt)
  {
    forall payload: Str, rest: Str | Fits(payload)
      ensures Reader(crc)(Enc(crc)(payload) + rest) == Got(payload, rest)
    {
      WholeRecordReads(crc, payload, rest);
    }
    forall payload: Str, n | Fits(payload) && 0 <= n < |Enc(crc)(payload)|
      ensures Reader(crc)(Enc(crc)(payload)[..n]) == CutAt(payload, n)
    {
      if n >= 8 {
        HeaderAwaitsItsPayload(crc, payload, Enc(crc)(payload)[..n]);
      }
    }
  }

  /** A crash leaves any prefix of the file: exactly the whole records are replayed, without an error. */
  lemma {:induction false} ReplayOfAnyPrefix(crc: Str -> nat, ps: seq<Str>, n: nat, m: nat)
    requires Checksum(crc) && (forall p :: p in ps ==> Fits(p)) && WholeWithin(Enc(crc), ps, n, m)
    ensures var all := Scan(Reader(crc), File(Enc(crc), ps)[..n]);
            && all.records == ps[..m]
            && (all.ending == if n == |File(Enc(crc), ps[..m])| then Clean else Short)
  {
    ShardIsAFormat(crc);
    assert m == |ps| ==> ps[..m] == ps;
    ScanOfAnyPrefix(Reader(crc), Enc(crc), Fits, CutAt, ps, n, m, n - |File(Enc(crc), ps[..m])|);
  }

  /** The tail a method such as RecoverTail finds. */
  ghost function TailOf(crc: Str -> nat, file: Str): nat {
    var all := Scan(Reader(crc), file);
    if all.ending.Clean? then |all.records| else 0
  }

  /**
   After a crash the recovered tail counts the records that replay delivers exactly when the file
   was cut on a record boundary, or holds no whole record.
   */
  lemma {:induction false} TailIsRecoveredIff(crc: Str -> nat, ps: seq<Str>, n: nat, m: nat)
    requires Checksum(crc) && (forall p :: p in ps ==> Fits(p)) && WholeWithin(Enc(crc), ps, n, m)
    ensures TailOf(crc, File(Enc(crc), ps)[..n]) == m <==> n == |File(Enc(crc), ps[..m])| || m == 0
  {
    ReplayOfAnyPrefix(crc, ps, n, m);
  }

  /**
   A torn record is not removed on open, so later appends land behind it. While they are shorter
   than what the torn record lacks, replay finds none of them.
   */
  lemma {:induction false} TornRecordSwallows(crc: Str -> nat, ps: seq<Str>, torn: Str, left: nat, later: seq<Str>)
    requires Checksum(crc) && (forall p :: p in ps ==> Fits(p)) && Fits(torn)
    requires 8 <= left < |Enc(crc)(torn)| && left + |File(Enc(crc), later)| < |Enc(crc)(torn)|
    ensures Scan(Reader(crc), File(Enc(crc), ps) + Enc(crc)(torn)[..left] + File(Enc(crc), later)) == Scanned(ps, Short)
  {
    var tail := Enc(crc)(torn)[..left] + File(Enc(crc), later);
    assert File(Enc(crc), ps) + Enc(crc)(torn)[..left] + File(Enc(crc), later) == File(Enc(crc), ps) + tail;
    assert tail[..8] == Enc(crc)(torn)[..8];
    AwaitingTail(crc, ps, torn, tail);
  }

  lemma {:induction false} AwaitingTail(crc: Str -> nat, ps: seq<Str>, torn: Str, tail: Str)
    requires Checksum(crc) && (forall p :: p in ps ==> Fits(p)) && Fits(torn)
    requires 8 <= |tail| < |Enc(crc)(torn)| && tail[..8] == Enc(crc)(torn)[..8]
    ensures Scan(Reader(crc), File(Enc(crc), ps) + tail) == Scanned(ps, Short)
  {
    HeaderAwaitsItsPayload(crc, torn, tail);
    assert ps + [] == ps;
    ShardIsAFormat(crc);
    ScanBehind(Reader(crc), Enc(crc), Fits, CutAt, ps, tail);
  }

  /** One torn record of two bytes is enough to reset the tail of a file that holds a whole record. */
  lemma {:induction false} TailCanBeLost(crc: Str -> nat)
    requires Checksum(crc)
    ensures var ps := [[1], [2, 3]];
            19 == |File(Enc(crc), ps)| && ReplayedThenTail(crc, File(Enc(crc), ps)[..17]) == ([[1]], 0)
  {
    var ps: seq<Str> := [[1], [2, 3]];
    assert ps[1..] == [[2, 3]] && ps[..1] == [[1]] && ps[1..][1..] == [];
    assert File(Enc(crc), ps[..1]) == Enc(crc)([1]) + [];
    assert File(Enc(crc), ps[1..]) == Enc(crc)([2, 3]) + [];
    ReplayOfAnyPrefix(crc, ps, 17, 1);
  }

  ghost function ReplayedThenTail(crc: Str -> nat, file: Str): (seq<Str>, nat) {
    (Scan(Reader(crc), file).records, TailOf(crc, file))
  }
}
