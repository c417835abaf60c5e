/** Numbers of k bits and their exclusive or. */
module Words {
  import opened Entries

  // x ^ 0xffffffff
  function Reverse(x: nat): nat
    requires x < TWO_32
  {
    TWO_32 - 1 - x
  }

  // The exclusive or of two numbers of k bits.
  function XorBits(x: nat, y: nat, k: nat): (r: nat)
    requires x < Pow(2, k) && y < Pow(2, k)
    ensures r < Pow(2, k)
    decreases k
  {
    if k == 0 then 0 else (x + y) % 2 + 2 * XorBits(x / 2, y / 2, k - 1)
  }

  function Xor(x: nat, y: nat): (r: nat)
    requires x < TWO_32 && y < TWO_32
    ensures r < TWO_32
  {
    Pow32();
    XorBits(x, y, 32)
  }

  lemma Pow32()
    ensures Pow(2, 32) == TWO_32
  {
    assert Pow(2, 8) == 0x100;
    assert Pow(2, 16) == 0x1_0000;
    assert Pow(2, 24) == 0x100_0000;
  }

  lemma {:induction false} XorSelf(x: nat, k: nat)
    requires x < Pow(2, k)
    ensures XorBits(x, x, k) == 0
    decreases k
  {
    if k > 0 {
      XorSelf(x / 2, k - 1);
    }
  }

  lemma {:induction false} XorSwap(x: nat, y: nat, k: nat)
    requires x < Pow(2, k) && y < Pow(2, k)
    ensures XorBits(x, y, k) == XorBits(y, x, k)
    decreases k
  {
    if k > 0 {
      XorSwap(x / 2, y / 2, k - 1);
    }
  }

  // The lowest j bits are 0.
  ghost predicate LowZero(y: nat, j: nat)
  {
    j > 0 ==> y % 2 == 0 && LowZero(y / 2, j - 1)
  }

  // Numbers that have no bits in common add up.
  lemma {:induction false} XorApart(x: nat, y: nat, j: nat, k: nat)
    requires x < Pow(2, j) && LowZero(y, j) && x < Pow(2, k) && y < Pow(2, k)
    ensures XorBits(x, y, k) == x + y
    decreases k
  {
    hide XorBits, Pow;
    if j == 0 || k == 0 {
      PowNone();
      XorZero(y, k);
    } else {
      HalfBelow(x, j);
      HalfBelow(x, k);
      HalfBelow(y, k);
      XorApart(x / 2, y / 2, j - 1, k - 1);
      XorStep(x, y, k);
      EvenSum(x, y);
    }
  }

  lemma PowNone()
    ensures Pow(2, 0) == 1
  {
  }

  lemma HalfBelow(x: nat, k: nat)
    requires k > 0 && x < Pow(2, k)
    ensures x / 2 < Pow(2, k - 1)
  {
  }

  lemma XorStep(x: nat, y: nat, k: nat)
    requires k > 0 && x < Pow(2, k) && y < Pow(2, k) && x / 2 < Pow(2, k - 1) && y / 2 < Pow(2, k - 1)
    ensures XorBits(x, y, k) == (x + y) % 2 + 2 * XorBits(x / 2, y / 2, k - 1)
  {
  }

  lemma EvenSum(x: nat, y: nat)
    requires y % 2 == 0
    ensures (x + y) % 2 + 2 * (x / 2 + y / 2) == x + y
  {
  }

  lemma {:induction false} XorZero(y: nat, k: nat)
    requires y < Pow(2, k)
    ensures Pow(2, k) > 0 && XorBits(0, y, k) == y
    decreases k
  {
    if k > 0 {
      XorZero(y / 2, k - 1);
    }
  }

  // Two numbers are complements exactly when their exclusive or is all ones.
  lemma {:induction false} XorOnes(x: nat, y: nat, k: nat)
    requires x < Pow(2, k) && y < Pow(2, k)
    ensures XorBits(x, y, k) == Pow(2, k) - 1 <==> x + y == Pow(2, k) - 1
    decreases k
  {
    if k > 0 {
      XorOnes(x / 2, y / 2, k - 1);
      LowBit(x, y, XorBits(x / 2, y / 2, k - 1), Pow(2, k - 1));
    }
  }

  lemma LowBit(x: nat, y: nat, r: nat, p: nat)
    requires r < p && (r == p - 1 <==> x / 2 + y / 2 == p - 1)
    ensures (x + y) % 2 + 2 * r == 2 * p - 1 <==> x + y == 2 * p - 1
  {
    var a, b, c := x / 2, y / 2, x % 2 + y % 2;
    assert x + y == 2 * (a + b) + c;
    assert (x + y) % 2 == if c == 1 then 1 else 0;
  }

  lemma Complements(x: nat, y: nat)
    requires x < TWO_32 && y < TWO_32
    ensures Xor(x, y) == 0xFFFF_FFFF <==> y == Reverse(x)
  {
    Pow32();
    XorOnes(x, y, 32);
  }
}
