/** Bytes as bounded integers, with the few bit operations the hub performs on them. */
module Bits {
  type byte = x: int | 0 <= x < 256
  type Word16 = x: int | 0 <= x < 0x1_0000

  const U32: nat := 0x1_0000_0000

  function Pow2(n: nat): nat {
    if n == 0 then 1 else 2 * Pow2(n - 1)
  }

  /** Bitwise exclusive or of two naturals. */
  function XorNat(a: nat, b: nat): nat
    decreases a + b
  {
    if a == 0 && b == 0 then 0
    else 2 * XorNat(a / 2, b / 2) + (if a % 2 == b % 2 then 0 else 1)
  }

  function Xor(a: byte, b: byte): byte {
    XorNatBound(8, a, b);
    XorNat(a, b)
  }

  lemma {:induction false} XorNatBound(n: nat, a: nat, b: nat)
    requires a < Pow2(n) && b < Pow2(n)
    ensures XorNat(a, b) < Pow2(n)
  {
    if n > 0 {
      XorNatBound(n - 1, a / 2, b / 2);
    }
  }

  lemma {:induction false} XorNatCancel(a: nat, b: nat, c: nat)
    requires XorNat(a, b) == XorNat(a, c)
    ensures b == c
    decreases a + b + c
  {
    if a + b + c > 0 {
      XorNatCancel(a / 2, b / 2, c / 2);
    }
  }

  lemma {:induction false} XorNatCommutes(a: nat, b: nat)
    ensures XorNat(a, b) == XorNat(b, a)
    decreases a + b
  {
    if a + b > 0 {
      XorNatCommutes(a / 2, b / 2);
    }
  }

  lemma {:induction false} XorNatZero(a: nat)
    ensures XorNat(0, a) == a
  {
    if a > 0 {
      XorNatZero(a / 2);
    }
  }

  lemma {:induction false} XorNatSelf(a: nat, b: nat)
    ensures XorNat(a, b) == 0 <==> a == b
    decreases a + b
  {
    if a + b > 0 {
      XorNatSelf(a / 2, b / 2);
    }
  }

  /** Exclusive or keeps both arguments apart, so that a check byte notices every change. */
  lemma {:induction false} XorCancel(a: byte, b: byte, c: byte)
    ensures Xor(a, b) == Xor(a, c) <==> b == c
    ensures Xor(b, a) == Xor(c, a) <==> b == c
    ensures Xor(a, b) == 0 <==> a == b
  {
    XorNatCommutes(a, b);
    XorNatCommutes(a, c);
    XorNatSelf(a, b);
    if Xor(a, b) == Xor(a, c) {
      XorNatCancel(a, b, c);
    }
  }

  /** The unsigned value of a little-endian byte string. */
  function LittleEndian(s: seq<byte>): nat {
    if s == [] then 0 else s[0] + 256 * LittleEndian(s[1..])
  }

  /** `n` as `width` little-endian bytes, higher bits dropped. */
  function ToLittleEndian(n: nat, width: nat): (s: seq<byte>)
    ensures |s| == width
  {
    if width == 0 then [] else [n % 256] + ToLittleEndian(n / 256, width - 1)
  }

  /** An unsigned number read as two's complement of the given width. */
  function Signed(n: nat, bits: nat): int
    requires bits > 0
  {
    if n < Pow2(bits - 1) then n else n - Pow2(bits)
  }

  lemma {:induction false} Pow2Byte(n: nat)
    ensures Pow2(n + 8) == 256 * Pow2(n)
  {
    assert Pow2(n + 2) == 4 * Pow2(n);
    assert Pow2(n + 4) == 16 * Pow2(n);
    assert Pow2(n + 6) == 64 * Pow2(n);
  }

  lemma {:induction false} ScaleProduct(a: nat, b: nat)
    ensures 256 * (a * b) == a * (256 * b)
  {
  }

  lemma {:induction false} LittleEndianSnoc(s: seq<byte>, b: byte)
    ensures LittleEndian(s + [b]) == LittleEndian(s) + b * Pow2(8 * |s|)
  {
    if s == [] {
      assert s + [b] == [b] && [b][1..] == [];
    } else {
      assert (s + [b])[1..] == s[1..] + [b];
      LittleEndianSnoc(s[1..], b);
      Pow2Byte(8 * |s[1..]|);
      ScaleProduct(b, Pow2(8 * |s[1..]|));
    }
  }

  lemma {:induction false} LittleEndianOf(n: nat, width: nat)
    requires n < Pow2(8 * width)
    ensures LittleEndian(ToLittleEndian(n, width)) == n
  {
    if width > 0 {
      Pow2Byte(8 * (width - 1));
      LittleEndianOf(n / 256, width - 1);
      assert ToLittleEndian(n, width)[1..] == ToLittleEndian(n / 256, width - 1);
    }
  }
}
