/** Bytes, unsigned words and their little-endian memory images. */
module Bytes {
  type byte = x: int | 0 <= x < 0x100
  type u16 = x: int | 0 <= x < 0x1_0000
  type u32 = x: int | 0 <= x < 0x1_0000_0000
  type u64 = x: int | 0 <= x < 0x1_0000_0000_0000_0000

  // ---------- little-endian images: what memcpy of an unsigned word reads and writes ----------

  function Pow256(k: nat): (p: nat)
    ensures p > 0
  {
    if k == 0 then 1 else 256 * Pow256(k - 1)
  }

  lemma Pow256Words()
    ensures Pow256(2) == 0x1_0000
    ensures Pow256(4) == 0x1_0000_0000
    ensures Pow256(8) == 0x1_0000_0000_0000_0000
  {
    assert Pow256(1) == 256 && Pow256(2) == 256 * Pow256(1) && Pow256(3) == 256 * Pow256(2);
    assert Pow256(4) == 256 * Pow256(3) && Pow256(5) == 256 * Pow256(4);
    assert Pow256(6) == 256 * Pow256(5) && Pow256(7) == 256 * Pow256(6);
  }

  function LittleEndian(n: nat, k: nat): (s: seq<byte>)
    ensures |s| == k
  {
    if k == 0 then [] else [n % 256] + LittleEndian(n / 256, k - 1)
  }

  function FromLittleEndian(s: seq<byte>): nat {
    if s == [] then 0 else s[0] + 256 * FromLittleEndian(s[1..])
  }

  /** Reading back a written word of k bytes gives the word, whenever the word fits. */
  lemma {:induction false} WordRoundTrip(n: nat, k: nat)
    requires n < Pow256(k)
    ensures FromLittleEndian(LittleEndian(n, k)) == n
  {
    if k > 0 {
      WordRoundTrip(n / 256, k - 1);
      assert LittleEndian(n, k)[1..] == LittleEndian(n / 256, k - 1);
    }
  }

  /** Every string of bytes is the image of exactly the word it reads as. */
  lemma {:induction false} ImageRoundTrip(s: seq<byte>)
    ensures FromLittleEndian(s) < Pow256(|s|)
    ensures LittleEndian(FromLittleEndian(s), |s|) == s
  {
    if s != [] {
      ImageRoundTrip(s[1..]);
      assert FromLittleEndian(s) / 256 == FromLittleEndian(s[1..]);
      assert FromLittleEndian(s) % 256 == s[0];
    }
  }

  /** Byte i of the image is digit i of the word to the base 256: the least significant byte comes first. */
  lemma {:induction false} LittleEndianByte(n: nat, k: nat, i: nat)
    requires i < k
    ensures LittleEndian(n, k)[i] == n / Pow256(i) % 256
    decreases k
  {
    if i > 0 {
      LittleEndianByte(n / 256, k - 1, i - 1);
      DivideTwice(n, Pow256(i - 1));
    }
  }

  lemma DivideTwice(n: nat, p: nat)
    requires p > 0
    ensures n / 256 / p == n / (256 * p)
  {
    var q, r := n / 256 / p, n / 256 % p;
    assert n / 256 == q * p + r;
    assert n == (q * p + r) * 256 + n % 256 == q * (256 * p) + (r * 256 + n % 256);
    QuotientUnique(n, 256 * p, q, r * 256 + n % 256);
  }

  lemma QuotientUnique(n: nat, d: nat, q: nat, r: nat)
    requires d > 0 && r < d && n == q * d + r
    ensures n / d == q
  {
    var q', r' := n / d, n % d;
    assert n == q' * d + r';
    var k: int := q - q';
    assert k * d + r == r';
    SmallProduct(k, d);
  }

  lemma SmallProduct(k: int, d: nat)
    requires 0 < k * d + d && k * d < d
    ensures k == 0
  {
  }

  // ---------- unsigned words read from memory ----------

  function Word16(s: seq<byte>): u16
    requires |s| == 2
  {
    Pow256Words(); ImageRoundTrip(s); FromLittleEndian(s)
  }

  function Word32(s: seq<byte>): u32
    requires |s| == 4
  {
    Pow256Words(); ImageRoundTrip(s); FromLittleEndian(s)
  }

  function Word64(s: seq<byte>): u64
    requires |s| == 8
  {
    Pow256Words(); ImageRoundTrip(s); FromLittleEndian(s)
  }

  lemma Word16RoundTrip(n: u16)
    ensures Word16(LittleEndian(n, 2)) == n
  {
    Pow256Words(); WordRoundTrip(n, 2);
  }

  lemma Word32RoundTrip(n: u32)
    ensures Word32(LittleEndian(n, 4)) == n
  {
    Pow256Words(); WordRoundTrip(n, 4);
  }

  lemma Word64RoundTrip(n: u64)
    ensures Word64(LittleEndian(n, 8)) == n
  {
    Pow256Words(); WordRoundTrip(n, 8);
  }

  // ---------- bitwise exclusive or ----------

  function Pow2(k: nat): (p: nat)
    ensures p > 0
  {
    if k == 0 then 1 else 2 * Pow2(k - 1)
  }

  function XorBits(k: nat, a: nat, b: nat): (x: nat)
    requires a < Pow2(k) && b < Pow2(k)
    ensures x < Pow2(k)
  {
    if k == 0 then 0 else (a % 2 + b % 2) % 2 + 2 * XorBits(k - 1, a / 2, b / 2)
  }

  lemma Pow2Byte()
    ensures Pow2(8) == 256
  {
    assert Pow2(2) == 4 && Pow2(4) == 4 * Pow2(2) && Pow2(6) == 4 * Pow2(4);
  }

  function XorByte(a: byte, b: byte): byte {
    Pow2Byte(); XorBits(8, a, b)
  }

  lemma XorBitsStep(k: nat, a: nat, b: nat)
    requires k > 0 && a < Pow2(k) && b < Pow2(k)
    ensures XorBits(k, a, b) % 2 == (a % 2 + b % 2) % 2
    ensures XorBits(k, a, b) / 2 == XorBits(k - 1, a / 2, b / 2)
  {
  }

  lemma {:induction false} XorBitsLaws(k: nat, a: nat, b: nat)
    requires a < Pow2(k) && b < Pow2(k)
    ensures XorBits(k, a, b) == XorBits(k, b, a)
    ensures XorBits(k, 0, a) == a
  {
    if k == 0 {
    } else {
      hide XorBits;
      XorBitsStep(k, a, b);
      XorBitsStep(k, b, a);
      XorBitsStep(k, 0, a);
      XorBitsLaws(k - 1, a / 2, b / 2);
    }
  }

  lemma ParityCancel(x: nat, y: nat, z: nat)
    requires x < 2 && y < 2 && z < 2 && (x + z) % 2 == (y + z) % 2
    ensures x == y
  {
  }

  lemma {:induction false} XorBitsCancel(k: nat, a: nat, b: nat, c: nat)
    requires a < Pow2(k) && b < Pow2(k) && c < Pow2(k)
    requires XorBits(k, a, c) == XorBits(k, b, c)
    ensures a == b
  {
    hide XorBits;
    if k > 0 {
      XorBitsStep(k, a, c);
      XorBitsStep(k, b, c);
      ParityCancel(a % 2, b % 2, c % 2);
      XorBitsCancel(k - 1, a / 2, b / 2, c / 2);
    }
  }

  function Parity(x: nat, y: nat): nat {
    (x + y) % 2
  }

  lemma ParityAssociative(x: nat, y: nat, z: nat)
    requires x < 2 && y < 2 && z < 2
    ensures Parity(Parity(x, y), z) == Parity(x, Parity(y, z))
  {
  }

  lemma SameHalves(x: nat, y: nat)
    requires x % 2 == y % 2 && x / 2 == y / 2
    ensures x == y
  {
  }

  lemma LowBit(k: nat, a: nat, b: nat)
    requires k > 0 && a < Pow2(k) && b < Pow2(k)
    ensures XorBits(k, a, b) % 2 == Parity(a % 2, b % 2)
  {
    hide XorBits;
    XorBitsHalves(k, a, b);
  }

  lemma LowBitAssociative(k: nat, a: nat, b: nat, c: nat)
    requires k > 0 && a < Pow2(k) && b < Pow2(k) && c < Pow2(k)
    ensures XorBits(k, XorBits(k, a, b), c) % 2 == XorBits(k, a, XorBits(k, b, c)) % 2
  {
    hide *;
    LowBit(k, a, b);
    LowBit(k, b, c);
    LowBit(k, XorBits(k, a, b), c);
    LowBit(k, a, XorBits(k, b, c));
    ParityAssociative(a % 2, b % 2, c % 2);
  }

  lemma HalfOfThree(k: nat, a: nat, b: nat, c: nat)
    requires k > 0 && a < Pow2(k) && b < Pow2(k) && c < Pow2(k)
    ensures a / 2 < Pow2(k - 1) && b / 2 < Pow2(k - 1) && c / 2 < Pow2(k - 1)
    ensures XorBits(k, XorBits(k, a, b), c) / 2 == XorBits(k - 1, XorBits(k - 1, a / 2, b / 2), c / 2)
    ensures XorBits(k, a, XorBits(k, b, c)) / 2 == XorBits(k - 1, a / 2, XorBits(k - 1, b / 2, c / 2))
  {
    hide *;
    XorBitsHalves(k, a, b);
    XorBitsHalves(k, b, c);
    XorBitsHalves(k, XorBits(k, a, b), c);
    XorBitsHalves(k, a, XorBits(k, b, c));
  }

  lemma {:induction false} XorBitsAssociative(k: nat, a: nat, b: nat, c: nat)
    requires a < Pow2(k) && b < Pow2(k) && c < Pow2(k)
    ensures XorBits(k, XorBits(k, a, b), c) == XorBits(k, a, XorBits(k, b, c))
  {
    hide *;
    if k == 0 {
      XorBitsNothing(a, b);
      XorBitsNothing(b, c);
    } else {
      LowBitAssociative(k, a, b, c);
      HalfOfThree(k, a, b, c);
      XorBitsAssociative(k - 1, a / 2, b / 2, c / 2);
      SameHalves(XorBits(k, XorBits(k, a, b), c), XorBits(k, a, XorBits(k, b, c)));
    }
  }

  lemma XorBitsNothing(a: nat, b: nat)
    requires a < Pow2(0) && b < Pow2(0)
    ensures a == b == XorBits(0, a, b)
  {
  }

  lemma XorBitsHalves(k: nat, a: nat, b: nat)
    requires k > 0 && a < Pow2(k) && b < Pow2(k)
    ensures a / 2 < Pow2(k - 1) && b / 2 < Pow2(k - 1)
    ensures XorBits(k, a, b) % 2 == (a % 2 + b % 2) % 2
    ensures XorBits(k, a, b) / 2 == XorBits(k - 1, a / 2, b / 2)
  {
  }

  lemma {:induction false} XorBitsSelf(k: nat, a: nat)
    requires a < Pow2(k)
    ensures XorBits(k, a, a) == 0
  {
    if k > 0 {
      XorBitsSelf(k - 1, a / 2);
    }
  }

  lemma XorLaws(a: byte, b: byte)
    ensures XorByte(a, b) == XorByte(b, a)
    ensures XorByte(0, a) == a
  {
    Pow2Byte(); XorBitsLaws(8, a, b);
  }

  /** Exclusive or with a fixed byte is injective. */
  lemma XorCancel(a: byte, b: byte, c: byte)
    requires a != b
    ensures XorByte(a, c) != XorByte(b, c)
  {
    Pow2Byte();
    if XorByte(a, c) == XorByte(b, c) { XorBitsCancel(8, a, b, c); }
  }

  lemma XorAssociative(a: byte, b: byte, c: byte)
    ensures XorByte(XorByte(a, b), c) == XorByte(a, XorByte(b, c))
  {
    Pow2Byte(); XorBitsAssociative(8, a, b, c);
  }

  lemma XorIsZero(a: byte, b: byte)
    ensures XorByte(a, b) == 0 <==> a == b
  {
    hide XorBits;
    Pow2Byte();
    XorBitsSelf(8, b);
    if a != b { XorCancel(a, b, b); }
  }

  /** Four operands regroup in pairs. */
  lemma XorMedial(a: byte, b: byte, c: byte, d: byte)
    ensures XorByte(XorByte(a, b), XorByte(c, d)) == XorByte(XorByte(a, c), XorByte(b, d))
  {
    hide XorByte;
    XorAssociative(XorByte(a, b), c, d);
    XorAssociative(a, b, c);
    XorLaws(b, c);
    XorAssociative(a, c, b);
    XorAssociative(XorByte(a, c), b, d);
  }

  /** A 32-bit word held as its memory image, on which ^= works byte by byte. */
  datatype Image32 = Image32(b0: byte, b1: byte, b2: byte, b3: byte) {
    function Xor(that: Image32): Image32 {
      Image32(XorByte(b0, that.b0), XorByte(b1, that.b1), XorByte(b2, that.b2), XorByte(b3, that.b3))
    }

    function Memory(): (s: seq<byte>)
      ensures |s| == 4
    {
      [b0, b1, b2, b3]
    }
  }

  function Load32(s: seq<byte>): Image32
    requires |s| == 4
  {
    Image32(s[0], s[1], s[2], s[3])
  }
}
