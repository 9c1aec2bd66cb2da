/**
 * Bytes and fixed-width integers as the JVM sees them.
 * A `Byte` holds the unsigned value `b.toInt() and 0xFF`; `Signed` recovers Kotlin's
 * signed `Byte`, and `WrapInt32` is the wrap-around of 32-bit `Int` arithmetic.
 */
module Bytes {

  type Byte = b: int | 0 <= b < 256

  /** The value of `b.toInt()` for the signed JVM byte whose bits are `b`. */
  function Signed(b: Byte): (v: int)
    ensures -128 <= v < 128
    ensures v % 256 == b
  {
    if b >= 128 then b - 256 else b
  }

  predicate IsInt32(x: int) {
    -0x8000_0000 <= x < 0x8000_0000
  }

  /** The 32-bit two's-complement value congruent to `x`. */
  function WrapInt32(x: int): (r: int)
    ensures IsInt32(r)
    ensures (r - x) % 0x1_0000_0000 == 0
    ensures IsInt32(x) ==> r == x
  {
    (x + 0x8000_0000) % 0x1_0000_0000 - 0x8000_0000
  }

  /** The `len` bytes of `n mod 256^len`, most significant first (`ByteBuffer.putLong` for `len == 8`). */
  function BigEndian(n: int, len: nat): (r: seq<Byte>)
    ensures |r| == len
    decreases len
  {
    if len == 0 then [] else BigEndian(n / 256, len - 1) + [n % 256]
  }

  /** The unsigned value of a big-endian byte string. */
  function FromBigEndian(s: seq<Byte>): nat {
    if s == [] then 0 else FromBigEndian(s[..|s| - 1]) * 256 + s[|s| - 1]
  }

  function Pow256(len: nat): (p: nat)
    ensures p >= 1
  {
    if len == 0 then 1 else 256 * Pow256(len - 1)
  }

  /** Reading back `len` big-endian bytes gives the number modulo `256^len`. */
  lemma {:induction false} BigEndianRoundTrip(n: int, len: nat)
    ensures FromBigEndian(BigEndian(n, len)) == n % Pow256(len)
    decreases len
  {
    if len > 0 {
      var s := BigEndian(n, len);
      assert s[..|s| - 1] == BigEndian(n / 256, len - 1);
      BigEndianRoundTrip(n / 256, len - 1);
      DivModStep(n, Pow256(len - 1));
    }
  }

  /** `(n / 256) % p * 256 + n % 256 == n % (256 * p)` for Euclidean division. */
  lemma DivModStep(n: int, p: nat)
    requires p >= 1
    ensures ((n / 256) % p) * 256 + n % 256 == n % (256 * p)
  {
    var q := n / 256;
    var r := n % 256;
    var q1 := q / p;
    var r1 := q % p;
    assert n == 256 * (p * q1 + r1) + r;
    assert n == (256 * p) * q1 + (256 * r1 + r);
    assert 0 <= 256 * r1 + r < 256 * p;
    LemmaModUnique(n, 256 * p, q1, 256 * r1 + r);
  }

  lemma LemmaModUnique(n: int, m: int, q: int, r: int)
    requires m > 0 && 0 <= r < m && n == m * q + r
    ensures n % m == r
  {
    var q0 := n / m;
    var r0 := n % m;
    assert m * q0 + r0 == m * q + r;
    var d := q - q0;
    assert m * d == r0 - r;
    if d > 0 {
      MulAtLeast(m, d);
    } else if d < 0 {
      MulAtLeast(m, -d);
    }
  }

  /** Euclidean quotient and remainder are unique. */
  lemma LemmaDivModUnique(n: int, m: int, q: int, r: int)
    requires m > 0 && 0 <= r < m && n == m * q + r
    ensures n / m == q && n % m == r
  {
    LemmaModUnique(n, m, q, r);
    assert m * (n / m) == m * q;
    assert m * (n / m - q) == 0;
  }

  lemma MulAtLeast(m: int, d: int)
    requires m > 0 && d >= 1
    ensures m * d >= m
  {
    assert m * d == m * (d - 1) + m;
  }
}
