/** Big-endian integers and readers over byte strings, as encoding/binary and io.ReadFull use them. */
module Bytes {

  type Byte = b: int | 0 <= b < 256

  type Str = seq<Byte>

  /** 256 to the power w. */
  function Pow256(w: nat): (p: nat)
    ensures p > 0
  {
    if w == 0 then 1 else 256 * Pow256(w - 1)
  }

  /** The low w bytes of n, most significant first: a fixed-width store that drops what does not fit. */
  function Put(n: nat, w: nat): (s: Str)
    ensures |s| == w
  {
    if w == 0 then [] else Put(n / 256, w - 1) + [n % 256]
  }

  function Get(s: Str): nat {
    if s == [] then 0 else Get(s[..|s| - 1]) * 256 + s[|s| - 1]
  }

  lemma {:induction false} GetBound(s: Str)
    ensures Get(s) < Pow256(|s|)
  {
    if s != [] {
      GetBound(s[..|s| - 1]);
    }
  }

  /** Reading back a stored number gives that number exactly when it fits. */
  lemma {:induction false} GetPut(n: nat, w: nat)
    ensures Get(Put(n, w)) == n <==> n < Pow256(w)
  {
    GetBound(Put(n, w));
    if n < Pow256(w) {
      GetPutFits(n, w);
    }
  }

  lemma {:induction false} GetPutFits(n: nat, w: nat)
    requires n < Pow256(w)
    ensures Get(Put(n, w)) == n
  {
    if w != 0 {
      GetPutFits(n / 256, w - 1);
      assert Put(n, w)[..w - 1] == Put(n / 256, w - 1);
    }
  }

  /** Storing a number read from w bytes gives those bytes back. */
  lemma {:induction false} PutGet(s: Str)
    ensures Put(Get(s), |s|) == s
  {
    if s != [] {
      PutGet(s[..|s| - 1]);
      assert Get(s) / 256 == Get(s[..|s| - 1]) && Get(s) % 256 == s[|s| - 1];
    }
  }

  lemma {:induction false} Widths()
    ensures Pow256(1) == 256 && Pow256(2) == 65536 && Pow256(4) == 0x1_0000_0000 && Pow256(8) == 0x1_0000_0000_0000_0000
  {
    assert Pow256(0) == 1;
    assert Pow256(1) == 256;
    assert Pow256(2) == 65536;
    assert Pow256(3) == 16777216;
    assert Pow256(4) == 0x1_0000_0000;
    assert Pow256(5) == 0x100_0000_0000;
    assert Pow256(6) == 0x1_0000_0000_0000;
    assert Pow256(7) == 0x100_0000_0000_0000;
  }

  /** Two's-complement views of a signed number of w bytes. */
  predicate FitsSigned(n: int, w: nat) {
    0 <= 2 * n + Pow256(w) && 2 * n < Pow256(w)
  }

  function Unsigned(n: int, w: nat): (u: nat)
    requires FitsSigned(n, w)
  {
    if n < 0 then n + Pow256(w) else n
  }

  function Signed(u: nat, w: nat): int {
    if 2 * u >= Pow256(w) then u - Pow256(w) else u
  }

  lemma {:induction false} SignedRoundTrip(n: int, w: nat)
    requires FitsSigned(n, w)
    ensures Unsigned(n, w) < Pow256(w) && Signed(Unsigned(n, w), w) == n
  {
  }

  datatype ReadResult = Read(got: Str, rest: Str) | Eof | UnexpectedEof

  /** io.ReadFull: no bytes at all is EOF, too few is an unexpected EOF. */
  function ReadFull(input: Str, n: nat): ReadResult {
    if n <= |input| then Read(input[..n], input[n..])
    else if input == [] then Eof else UnexpectedEof
  }
}
