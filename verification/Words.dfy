/** Machine words as numbers below 2^32, and the bitwise exclusive or on numbers. */
module Words {

  const LIMIT := 0x1_0000_0000

  type Word = x: int | 0 <= x < LIMIT

  function Pow2(k: nat): (r: nat)
    ensures r > 0
  {
    if k == 0 then 1 else 2 * Pow2(k - 1)
  }

  /** Bit by bit, the lowest first. */
  function XorBits(x: nat, y: nat): nat
    decreases x + y
  {
    if x == 0 && y == 0 then 0 else 2 * XorBits(x / 2, y / 2) + (x + y) % 2
  }

  lemma {:induction false} XorBound(x: nat, y: nat, k: nat)
    requires x < Pow2(k) && y < Pow2(k)
    ensures XorBits(x, y) < Pow2(k)
    decreases k
  {
    if x + y > 0 { XorBound(x / 2, y / 2, k - 1); }
  }

  lemma Pow2Word()
    ensures Pow2(32) == LIMIT
  {
    assert Pow2(8) == 256;
    assert Pow2(16) == 256 * Pow2(8);
    assert Pow2(24) == 256 * Pow2(16);
    assert Pow2(32) == 256 * Pow2(24);
  }

  function Xor(x: Word, y: Word): Word {
    Pow2Word();
    XorBound(x, y, 32);
    XorBits(x, y)
  }

  // ----- laws

  /** Bit `i` of a number. */
  function Bit(x: nat, i: nat): nat {
    if i == 0 then x % 2 else Bit(x / 2, i - 1)
  }

  /** The exclusive or has exactly the bits that one of the two has and the other has not. */
  lemma {:induction false} XorBit(x: nat, y: nat, i: nat)
    ensures Bit(XorBits(x, y), i) == if Bit(x, i) == Bit(y, i) then 0 else 1
    decreases i
  {
    var r := XorBits(x, y);
    if x == 0 && y == 0 {
      ZeroBits(i);
    } else if i > 0 {
      assert r / 2 == XorBits(x / 2, y / 2);
      XorBit(x / 2, y / 2, i - 1);
    }
  }

  lemma {:induction false} ZeroBits(i: nat)
    ensures Bit(0, i) == 0
  {
    if i > 0 { ZeroBits(i - 1); }
  }

  /** The bits determine the number. */
  lemma {:induction false} SameBits(x: nat, y: nat)
    requires forall i: nat :: Bit(x, i) == Bit(y, i)
    ensures x == y
    decreases x + y
  {
    if x + y > 0 {
      assert Bit(x, 0) == Bit(y, 0);
      forall i: nat ensures Bit(x / 2, i) == Bit(y / 2, i) { assert Bit(x, i + 1) == Bit(y, i + 1); }
      SameBits(x / 2, y / 2);
    }
  }

  lemma XorZero(x: nat)
    ensures XorBits(x, 0) == x
  {
    forall i: nat ensures Bit(XorBits(x, 0), i) == Bit(x, i) {
      XorBit(x, 0, i);
      ZeroBits(i);
      BitIsBit(x, i);
    }
    SameBits(XorBits(x, 0), x);
  }

  lemma {:induction false} BitIsBit(x: nat, i: nat)
    ensures Bit(x, i) <= 1
  {
    if i > 0 { BitIsBit(x / 2, i - 1); }
  }

  /** What is common to two exclusive ors cancels. */
  lemma XorCancels(x: nat, y: nat, z: nat)
    ensures XorBits(XorBits(x, y), XorBits(x, z)) == XorBits(y, z)
  {
    var a, b := XorBits(XorBits(x, y), XorBits(x, z)), XorBits(y, z);
    forall i: nat ensures Bit(a, i) == Bit(b, i) {
      XorBit(XorBits(x, y), XorBits(x, z), i);
      XorBit(x, y, i);
      XorBit(x, z, i);
      XorBit(y, z, i);
      BitIsBit(x, i);
      BitIsBit(y, i);
      BitIsBit(z, i);
    }
    SameBits(a, b);
  }
}
