/** Bytes, flag bits, XOR and the fixed-width integer encodings that the wire formats share. */
module Bytes {

  type byte = b: int | 0 <= b < 256

  /** Bitwise exclusive or, one bit at a time from the low end. */
  function Xor(a: nat, b: nat): nat
    decreases a + b
  {
    if a == 0 && b == 0 then 0
    else (a % 2 + b % 2) % 2 + 2 * Xor(a / 2, b / 2)
  }

  lemma XorBits(a: nat, k: nat)
    ensures Xor(a, k) % 2 == (a % 2 + k % 2) % 2
    ensures Xor(a, k) / 2 == Xor(a / 2, k / 2)
  {
  }

  lemma ParityTwice(p: nat, q: nat)
    requires p < 2 && q < 2
    ensures ((p + q) % 2 + q) % 2 == p
  {
  }

  lemma SameHalves(x: nat, y: nat)
    requires x / 2 == y / 2 && x % 2 == y % 2
    ensures x == y
  {
  }

  lemma {:induction false} XorInvolution(a: nat, k: nat)
    ensures Xor(Xor(a, k), k) == a
    decreases a + k
  {
    if a != 0 || k != 0 {
      hide Xor;
      var x := Xor(a, k);
      XorBits(a, k);
      XorBits(x, k);
      XorInvolution(a / 2, k / 2);
      ParityTwice(a % 2, k % 2);
      SameHalves(Xor(x, k), a);
    } else {
      assert Xor(0, 0) == 0;
    }
  }

  lemma {:induction false} XorBound(a: nat, b: nat, bound: nat, bits: nat)
    requires bound == Pow2(bits) && a < bound && b < bound
    ensures Xor(a, b) < bound
    decreases bits
  {
    if bits > 0 {
      if a != 0 || b != 0 {
        XorBound(a / 2, b / 2, Pow2(bits - 1), bits - 1);
      }
    }
  }

  function Pow2(n: nat): nat { if n == 0 then 1 else 2 * Pow2(n - 1) }

  /** The XOR of two bytes is a byte. */
  function XorByte(a: byte, b: byte): (r: byte)
  {
    assert Pow2(8) == 256;
    XorBound(a, b, 256, 8);
    Xor(a, b)
  }

  /** Masking twice with the same key byte gives the byte back. */
  lemma XorByteTwice(a: byte, k: byte)
    ensures XorByte(XorByte(a, k), k) == a
  {
    XorInvolution(a, k);
  }

  /** The place values of a byte's bits. */
  const PLACES: seq<nat> := [1, 2, 4, 8, 16, 32, 64, 128]

  /** Bit i of a number, taken by division. */
  function Bit(a: nat, i: nat): (r: nat)
    requires i < 8
  {
    a / PLACES[i] % 2
  }

  /** Bit i + 1 of a number is bit i of its half. */
  lemma NextBit(a: nat, i: nat)
    requires i < 7
    ensures Bit(a, i + 1) == Bit(a / 2, i)
  {
    assert a / 2 == a / 2 / 1 && a / 4 == a / 2 / 2 && a / 8 == a / 2 / 4 && a / 16 == a / 2 / 8;
    assert a / 32 == a / 2 / 16 && a / 64 == a / 2 / 32 && a / 128 == a / 2 / 64;
  }

  /** Every bit of the XOR is the sum of the two bits without carry. */
  lemma {:induction false} XorBitAt(a: nat, k: nat, i: nat)
    requires i < 8
    ensures Bit(Xor(a, k), i) == (Bit(a, i) + Bit(k, i)) % 2
    decreases i
  {
    XorBits(a, k);
    if i > 0 {
      hide Xor, Bit;
      NextBit(Xor(a, k), i - 1);
      NextBit(a, i - 1);
      NextBit(k, i - 1);
      XorBitAt(a / 2, k / 2, i - 1);
    }
  }

  /** XorByte in numbers: the bit of each place value, taken by division, is the sum modulo two of the
      bits of a and k there. */
  lemma XorByteBits(a: byte, k: byte, i: nat)
    requires i < 8
    ensures var n := [1, 2, 4, 8, 16, 32, 64, 128][i];
            XorByte(a, k) / n % 2 == (a / n % 2 + k / n % 2) % 2
  {
    XorBitAt(a, k, i);
  }

  lemma XorStep(a: nat, k: nat)
    ensures Xor(a, k) == (a % 2 + k % 2) % 2 + 2 * Xor(a / 2, k / 2)
  {
  }

  lemma {:induction false} XorZero(a: nat)
    ensures Xor(a, 0) == a
  {
    if a > 0 {
      XorZero(a / 2);
    }
  }

  lemma Associative(a: seq<byte>, b: seq<byte>, c: seq<byte>)
    ensures (a + b) + c == a + (b + c)
  {
  }

  // Little- and big-endian 16-bit words.

  function LE16(n: nat): (s: seq<byte>)
    requires n < 65536
  {
    [n % 256, n / 256]
  }

  function FromLE16(s: seq<byte>): (n: nat)
    requires |s| == 2
    ensures n < 65536
  {
    var lo: nat, hi: nat := s[0], s[1];
    lo + 256 * hi
  }

  function BE16(n: nat): (s: seq<byte>)
    requires n < 65536
  {
    [n / 256, n % 256]
  }

  function FromBE16(s: seq<byte>): (n: nat)
    requires |s| == 2
    ensures n < 65536
  {
    var hi: nat, lo: nat := s[0], s[1];
    256 * hi + lo
  }

  // Big-endian words of any width (64-bit lengths use width 8).

  function Pow256(n: nat): nat { if n == 0 then 1 else 256 * Pow256(n - 1) }

  function BE(n: nat, width: nat): (s: seq<byte>)
    ensures |s| == width
  {
    if width == 0 then [] else BE(n / 256, width - 1) + [n % 256]
  }

  function FromBE(s: seq<byte>): nat
  {
    if s == [] then 0 else 256 * FromBE(s[..|s| - 1]) + s[|s| - 1]
  }

  /** The two widths in use, digit by digit: the first byte weighs most. */
  lemma BigEndian(s: seq<byte>)
    ensures |s| == 2 ==> FromBE(s) == s[0] as int * 0x100 + s[1] as int
    ensures |s| == 8 ==>
              FromBE(s) == s[0] as int * 0x100_0000_0000_0000 + s[1] as int * 0x1_0000_0000_0000 + s[2] as int * 0x100_0000_0000
                           + s[3] as int * 0x1_0000_0000 + s[4] as int * 0x100_0000 + s[5] as int * 0x1_0000 + s[6] as int * 0x100 + s[7] as int
  {
    if |s| == 2 || |s| == 8 {
      BigEndianStep(s);
      BigEndianStep(s[..1]);
      if |s| == 8 {
        BigEndianStep(s[..7]);
        BigEndianStep(s[..6]);
        BigEndianStep(s[..5]);
        BigEndianStep(s[..4]);
        BigEndianStep(s[..3]);
        BigEndianStep(s[..2]);
        assert s[..7][..6] == s[..6] && s[..6][..5] == s[..5] && s[..5][..4] == s[..4] && s[..4][..3] == s[..3];
        assert s[..3][..2] == s[..2];
      }
      assert s[..2][..1] == s[..1] && s[..1][..0] == [];
    }
  }

  lemma BigEndianStep(s: seq<byte>)
    requires s != []
    ensures FromBE(s) == 256 * FromBE(s[..|s| - 1]) + s[|s| - 1]
  {
  }

  lemma {:induction false} FromBEOfBE(n: nat, width: nat)
    requires n < Pow256(width)
    ensures FromBE(BE(n, width)) == n
  {
    if width > 0 {
      FromBEOfBE(n / 256, width - 1);
      assert BE(n, width)[..width - 1] == BE(n / 256, width - 1);
    }
  }
}
