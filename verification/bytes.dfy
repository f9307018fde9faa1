/**
  Octets, fixed-width unsigned integers and their little-endian encodings.

  C++ unsigned arithmetic wraps modulo 2^width; the model writes every such
  wrap out with `Wrap32` / `Wrap64` (Dafny's `%` is Euclidean, so the
  remainder of a negative difference is the unsigned wrap-around value).
 */
module Bytes {

  type byte = b: int | 0 <= b < 0x100
  type u16 = x: int | 0 <= x < 0x1_0000
  type u32 = x: int | 0 <= x < 0x1_0000_0000
  type u64 = x: int | 0 <= x < 0x1_0000_0000_0000_0000

  /** The sector: the unit of every transfer and of every on-disk structure. */
  const SectorSize: nat := 512

  const Two32: int := 0x1_0000_0000
  const Two64: int := 0x1_0000_0000_0000_0000

  /** `static_cast<uint32_t>` of an integer, and the result of uint32_t arithmetic. */
  function Wrap32(x: int): (r: u32)
    ensures 0 <= x < Two32 ==> r == x
    ensures -Two32 <= x < 0 ==> r == x + Two32
  {
    x % Two32
  }

  /** The result of uint64_t arithmetic. */
  function Wrap64(x: int): (r: u64)
    ensures 0 <= x < Two64 ==> r == x
    ensures -Two64 <= x < 0 ==> r == x + Two64
    ensures Two64 <= x < 2 * Two64 ==> r == x - Two64
  {
    x % Two64
  }

  /** `n` zero bytes. */
  function Zeros(n: nat): (r: seq<byte>)
    ensures |r| == n
    ensures forall i :: 0 <= i < n ==> r[i] == 0
  {
    seq(n, _ => 0)
  }

  predicate AllZero(s: seq<byte>)
  {
    forall i :: 0 <= i < |s| ==> s[i] == 0
  }

  /** Little-endian encoding of a 16-bit value. */
  function Le16(x: u16): (r: seq<byte>)
    ensures |r| == 2
  {
    [x % 0x100, x / 0x100]
  }

  /** Little-endian encoding of a 32-bit value. */
  function Le32(x: u32): (r: seq<byte>)
    ensures |r| == 4
  {
    [x % 0x100, (x / 0x100) % 0x100, (x / 0x1_0000) % 0x100, x / 0x100_0000]
  }

  /** The value of two little-endian bytes. */
  function Le16Value(s: seq<byte>): u16
    requires |s| == 2
  {
    s[0] as int + 0x100 * s[1] as int
  }

  /** The value of four little-endian bytes. */
  function Le32Value(s: seq<byte>): u32
    requires |s| == 4
  {
    s[0] as int + 0x100 * s[1] as int + 0x1_0000 * s[2] as int + 0x100_0000 * s[3] as int
  }

  lemma Le16RoundTrip(x: u16)
    ensures Le16Value(Le16(x)) == x
  {
  }

  lemma Le16Canonical(s: seq<byte>)
    requires |s| == 2
    ensures Le16(Le16Value(s)) == s
  {
  }

  lemma Le32RoundTrip(x: u32)
    ensures Le32Value(Le32(x)) == x
  {
    var b0, q0 := x % 0x100, x / 0x100;
    var b1, q1 := q0 % 0x100, q0 / 0x100;
    var b2, b3 := q1 % 0x100, q1 / 0x100;
    assert x == b0 + 0x100 * q0;
    assert q0 == b1 + 0x100 * q1;
    assert q1 == b2 + 0x100 * b3;
    assert (x / 0x100) % 0x100 == b1;
    assert x / 0x1_0000 == q1;
    assert x / 0x100_0000 == b3;
  }

  lemma Le32Canonical(s: seq<byte>)
    requires |s| == 4
    ensures Le32(Le32Value(s)) == s
  {
    var x := Le32Value(s);
    var lo, hi := s[0] as int + 0x100 * s[1] as int, s[2] as int + 0x100 * s[3] as int;
    assert x == s[0] as int + 0x100 * (s[1] as int + 0x100 * hi);
    assert x == lo + 0x1_0000 * hi;
    Digit8(s[0], s[1] as int + 0x100 * hi);
    Digit8(s[1], hi);
    Digit16(lo, hi);
    Digit8(s[2], s[3]);
    assert x == (lo + 0x1_0000 * s[2] as int) + 0x100_0000 * s[3] as int;
    Digit24(lo + 0x1_0000 * s[2] as int, s[3]);
  }

  /** Dividing `a + 2^8 b` by 2^8, for a digit `a` below 2^8. */
  lemma Digit8(a: int, b: int)
    requires 0 <= a < 0x100 && 0 <= b
    ensures (a + 0x100 * b) / 0x100 == b && (a + 0x100 * b) % 0x100 == a
  {
  }

  lemma Digit16(a: int, b: int)
    requires 0 <= a < 0x1_0000 && 0 <= b
    ensures (a + 0x1_0000 * b) / 0x1_0000 == b && (a + 0x1_0000 * b) % 0x1_0000 == a
  {
  }

  lemma Digit24(a: int, b: int)
    requires 0 <= a < 0x100_0000 && 0 <= b
    ensures (a + 0x100_0000 * b) / 0x100_0000 == b && (a + 0x100_0000 * b) % 0x100_0000 == a
  {
  }

  /** Two 32-bit values are equal exactly when their encodings are. */
  lemma Le32Injective(x: u32, y: u32)
    ensures Le32(x) == Le32(y) <==> x == y
  {
    if Le32(x) == Le32(y) {
      Le32RoundTrip(x);
      Le32RoundTrip(y);
    }
  }

  /** Little-endian encoding of a sequence of 32-bit words, one after another. */
  function Le32Words(ws: seq<u32>): (r: seq<byte>)
    ensures |r| == 4 * |ws|
  {
    if ws == [] then [] else Le32(ws[0]) + Le32Words(ws[1..])
  }

  /** Word `k` of `Le32Words(ws)` occupies bytes `4k .. 4k+3`. */
  lemma {:induction false} Le32WordsAt(ws: seq<u32>, k: nat)
    requires k < |ws|
    ensures Le32Words(ws)[4 * k .. 4 * k + 4] == Le32(ws[k])
  {
    if k > 0 {
      Le32WordsAt(ws[1..], k - 1);
      assert Le32Words(ws) == Le32(ws[0]) + Le32Words(ws[1..]);
    }
  }

  /** Words that are all zero encode to zero bytes. */
  lemma {:induction false} Le32WordsZero(ws: seq<u32>)
    requires forall k :: 0 <= k < |ws| ==> ws[k] == 0
    ensures Le32Words(ws) == Zeros(4 * |ws|)
  {
    if ws != [] {
      Le32WordsZero(ws[1..]);
      assert Le32(ws[0]) == [0, 0, 0, 0];
    }
  }
}
