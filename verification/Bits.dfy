/** Powers of two and the machine's bitwise operations, on natural numbers. */
module Bits {

  function Pow2(e: nat): (p: nat)
    ensures p >= 1
    ensures e > 0 ==> p % 2 == 0
  {
    if e == 0 then 1 else 2 * Pow2(e - 1)
  }

  function And(a: nat, b: nat): nat {
    if a == 0 || b == 0 then 0
    else 2 * And(a / 2, b / 2) + (if a % 2 == 1 && b % 2 == 1 then 1 else 0)
  }

  function Or(a: nat, b: nat): nat
    decreases a + b
  {
    if a == 0 && b == 0 then 0
    else 2 * Or(a / 2, b / 2) + (if a % 2 == 1 || b % 2 == 1 then 1 else 0)
  }

  function Xor(a: nat, b: nat): nat
    decreases a + b
  {
    if a == 0 && b == 0 then 0
    else 2 * Xor(a / 2, b / 2) + (if a % 2 != b % 2 then 1 else 0)
  }

  lemma {:induction false} OrWithZero(a: nat)
    ensures Or(a, 0) == a
  {
    if a > 0 {
      OrWithZero(a / 2);
    }
  }

  lemma {:induction false} XorWithZero(a: nat)
    ensures Xor(a, 0) == a
  {
    if a > 0 {
      XorWithZero(a / 2);
    }
  }

  /** Testing, clearing and setting the bit of weight 2^e of a number with no higher bit. */
  lemma {:induction false} TopBit(j: nat, e: nat)
    requires j < Pow2(e + 1)
    ensures And(j, Pow2(e)) != 0 <==> j >= Pow2(e)
    ensures j >= Pow2(e) ==> Xor(j, Pow2(e)) == j - Pow2(e)
    ensures j < Pow2(e) ==> Or(j, Pow2(e)) == j + Pow2(e)
  {
    if e == 0 {
      assert Pow2(1) == 2;
      assert And(1, 1) == 1 && Xor(1, 1) == 0 && Or(0, 1) == 1;
    } else {
      TopBit(j / 2, e - 1);
      assert Pow2(e) / 2 == Pow2(e - 1);
    }
  }

  lemma {:induction false} Pow2IsMonotone(a: nat, b: nat)
    requires a < b
    ensures 2 * Pow2(a) <= Pow2(b)
  {
    if a + 1 < b {
      Pow2IsMonotone(a, b - 1);
    }
  }

  lemma KnownPowers()
    ensures Pow2(6) == 64 && Pow2(16) == 65536
  {
    assert Pow2(3) == 8;
    assert Pow2(6) == 64;
    assert Pow2(9) == 512;
    assert Pow2(12) == 4096;
    assert Pow2(14) == 16384;
  }

  /** usize::next_power_of_two. */
  function NextPowerOfTwo(x: nat): (p: nat)
    ensures p >= x && p >= 1
  {
    if x <= 1 then 1 else 2 * NextPowerOfTwo((x + 1) / 2)
  }

  /** usize::is_power_of_two. */
  predicate IsPowerOfTwo(x: nat) {
    x == NextPowerOfTwo(x)
  }

  /** The exponent of NextPowerOfTwo(x). */
  function Log2Up(x: nat): (e: nat)
    ensures Pow2(e) == NextPowerOfTwo(x)
  {
    if x <= 1 then 0 else 1 + Log2Up((x + 1) / 2)
  }

  lemma {:induction false} NextPowerOfTwoIsTight(x: nat)
    requires x >= 2
    ensures NextPowerOfTwo(x) < 2 * x
  {
    if x > 2 {
      NextPowerOfTwoIsTight((x + 1) / 2);
      // even, and below 2x + 2
      assert NextPowerOfTwo(x) == 2 * NextPowerOfTwo((x + 1) / 2);
      assert NextPowerOfTwo((x + 1) / 2) % 2 == 0;
    }
  }
}
