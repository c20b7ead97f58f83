/** Reading an append-only file record by record, for any record format. */
module Scanning {
  import opened Bytes

  /** The largest payload that the readers of both logs accept. */
  const MAX_PAYLOAD: nat := 67108864

  ghost predicate Checksum(crc: Str -> nat) {
    forall s: Str :: crc(s) < 0x1_0000_0000
  }

  /**
   One turn of a reader's loop: a record and what follows it, the end of the file, a read that ran
   out of bytes part way (Short), a read inside a record that found no byte at all (Cut), or a
   record that is refused (Bad).
   */
  datatype One<+T> = Got(record: T, rest: Str) | Clean | Short | Cut | Bad

  datatype Scanned<+T> = Scanned(records: seq<T>, ending: One<T>)

  ghost predicate Shrinks<T>(read: Str -> One<T>) {
    forall s: Str :: read(s).Got? ==> |read(s).rest| < |s|
  }

  /** Every record the reader finds, and how it ends. */
  ghost function Scan<T>(read: Str -> One<T>, input: Str): (r: Scanned<T>)
    requires Shrinks(read)
    ensures !r.ending.Got?
    decreases |input|
  {
    var one := read(input);
    if !one.Got? then Scanned([], one)
    else
      var r := Scan(read, one.rest);
      Scanned([one.record] + r.records, r.ending)
  }

  /** A reader that has read seen has rest before it. */
  ghost predicate Reached<T>(read: Str -> One<T>, input: Str, seen: seq<T>, rest: Str)
    requires Shrinks(read)
  {
    Scan(read, input) == Scanned(seen + Scan(read, rest).records, Scan(read, rest).ending)
  }

  lemma {:induction false} ReachedNext<T>(read: Str -> One<T>, input: Str, seen: seq<T>, rest: Str, one: One<T>)
    requires Shrinks(read) && Reached(read, input, seen, rest) && one == read(rest)
    ensures if one.Got? then Reached(read, input, seen + [one.record], one.rest)
            else Scan(read, input) == Scanned(seen, one)
    ensures if one.Got? then seen + [one.record] <= Scan(read, input).records else true
  {
    if one.Got? {
      var r := Scan(read, one.rest);
      assert seen + ([one.record] + r.records) == seen + [one.record] + r.records;
    } else {
      assert seen + [] == seen;
    }
  }

  /** No call before the last one failed. */
  ghost predicate NoneBefore<T>(fails: seq<T> -> bool, seen: seq<T>) {
    forall j :: 0 < j < |seen| ==> !fails(seen[..j])
  }

  lemma {:induction false} NoneBeforeNext<T>(fails: seq<T> -> bool, seen: seq<T>, record: T)
    requires NoneBefore(fails, seen) && (|seen| > 0 ==> !fails(seen))
    ensures NoneBefore(fails, seen + [record])
  {
    forall j | 0 < j < |seen| + 1
      ensures !fails((seen + [record])[..j])
    {
      assert (seen + [record])[..j] == seen[..j];
      assert j == |seen| ==> seen[..j] == seen;
    }
  }

  /** The file that holds the records rs. */
  ghost function File<T>(enc: T -> Str, rs: seq<T>): Str {
    if rs == [] then [] else enc(rs[0]) + File(enc, rs[1..])
  }

  /** What a format owes: whole records are read back, and a cut record gives what cut says, never a record. */
  ghost predicate Format<T(!new)>(read: Str -> One<T>, enc: T -> Str, ok: T -> bool, cut: (T, nat) -> One<T>) {
    && Shrinks(read)
    && (forall r, rest: Str :: ok(r) ==> read(enc(r) + rest) == Got(r, rest))
    && (forall r, n :: ok(r) && 0 <= n < |enc(r)| ==> read(enc(r)[..n]) == cut(r, n) && !cut(r, n).Got?)
    && read([]) == Clean
  }

  /** m records lie whole within the first n bytes of the file, and no more. */
  ghost predicate WholeWithin<T>(enc: T -> Str, rs: seq<T>, n: nat, m: nat) {
    && m <= |rs| && |File(enc, rs[..m])| <= n <= |File(enc, rs)|
    && (m < |rs| ==> n < |File(enc, rs[..m])| + |enc(rs[m])|)
  }

  /** Every prefix of a file has such an m. */
  lemma {:induction false} SomeAreWhole<T>(enc: T -> Str, rs: seq<T>, n: nat) returns (m: nat)
    requires n <= |File(enc, rs)|
    ensures WholeWithin(enc, rs, n, m)
    decreases |rs|
  {
    m := 0;
    if rs != [] && n >= |enc(rs[0])| {
      var k := SomeAreWhole(enc, rs[1..], n - |enc(rs[0])|);
      m := k + 1;
      assert rs[..m][1..] == rs[1..][..k];
    }
  }

  /** A crash leaves any prefix of the file: exactly its whole records are read. */
  lemma {:induction false} ScanOfAnyPrefix<T(!new)>(read: Str -> One<T>, enc: T -> Str, ok: T -> bool,
                                                    cut: (T, nat) -> One<T>, rs: seq<T>, n: nat, m: nat, left: nat)
    requires Format(read, enc, ok, cut) && (forall r :: r in rs ==> ok(r)) && WholeWithin(enc, rs, n, m)
    requires left == n - |File(enc, rs[..m])|
    ensures Scan(read, File(enc, rs)[..n]) == Scanned(rs[..m], if m == |rs| then Clean else cut(rs[m], left))
    decreases |rs|
  {
    if rs == [] {
    } else if m == 0 {
      assert File(enc, rs)[..n] == enc(rs[0])[..n];
    } else {
      assert rs[..m][1..] == rs[1..][..m - 1];
      var rest := n - |enc(rs[0])|;
      assert File(enc, rs)[..n] == enc(rs[0]) + File(enc, rs[1..])[..rest];
      ScanOfAnyPrefix(read, enc, ok, cut, rs[1..], rest, m - 1, left);
    }
  }

  /** Bytes that follow a prefix of whole records are read on their own. */
  lemma {:induction false} ScanBehind<T(!new)>(read: Str -> One<T>, enc: T -> Str, ok: T -> bool,
                                               cut: (T, nat) -> One<T>, rs: seq<T>, tail: Str)
    requires Format(read, enc, ok, cut) && forall r :: r in rs ==> ok(r)
    ensures Scan(read, File(enc, rs) + tail) == Scanned(rs + Scan(read, tail).records, Scan(read, tail).ending)
    decreases |rs|
  {
    if rs == [] {
      assert File(enc, rs) + tail == tail;
      assert rs + Scan(read, tail).records == Scan(read, tail).records;
    } else {
      assert File(enc, rs) + tail == enc(rs[0]) + (File(enc, rs[1..]) + tail);
      ScanBehind(read, enc, ok, cut, rs[1..], tail);
      assert [rs[0]] + (rs[1..] + Scan(read, tail).records) == rs + Scan(read, tail).records;
    }
  }
}
