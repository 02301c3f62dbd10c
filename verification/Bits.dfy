/** Bitwise operations on natural numbers, defined bit by bit. */
module Bits {
  import opened Evm

  function Pow2(k: nat): (r: nat)
    ensures r > 0
  {
    if k == 0 then 1 else 2 * Pow2(k - 1)
  }

  function BitOr(a: nat, b: nat): (r: nat)
    ensures r >= a && r >= b
    decreases a + b
  {
    if a == 0 then b
    else if b == 0 then a
    else (if a % 2 == 1 || b % 2 == 1 then 1 else 0) + 2 * BitOr(a / 2, b / 2)
  }

  lemma {:induction false} Pow2Add(j: nat, k: nat)
    ensures Pow2(j + k) == Pow2(j) * Pow2(k)
  {
    if j > 0 {
      Pow2Add(j - 1, k);
      assert Pow2(j) == 2 * Pow2(j - 1) && Pow2(j + k) == 2 * Pow2(j - 1 + k);
      hide Pow2;
      DoubleFactor(Pow2(j - 1), Pow2(k));
    }
  }

  lemma DoubleFactor(a: int, b: int)
    ensures 2 * (a * b) == (2 * a) * b
  {
  }

  lemma Pow2Sum(j: nat, k: nat, x: int, y: int)
    requires Pow2(j) == x && Pow2(k) == y
    ensures Pow2(j + k) == x * y
  {
    Pow2Add(j, k);
  }

  /** The powers of two that delimit the fields of the packed words. */
  lemma Pow2Values(k: nat)
    ensures k == 48 ==> Pow2(k) == TWO_48
    ensures k == 120 ==> Pow2(k) == TWO_120
    ensures k == 160 ==> Pow2(k) == TWO_160
    ensures k == 208 ==> Pow2(k) == TWO_160 * TWO_48
  {
    var d8, d16, d32, d48, d96, d112 := 8, 16, 32, 48, 96, 112;
    assert Pow2(d8) == 0x100;
    Pow2Sum(d8, d8, 0x100, 0x100);
    Pow2Sum(d16, d16, 0x1_0000, 0x1_0000);
    Pow2Sum(d32, d16, 0x1_0000_0000, 0x1_0000);
    Pow2Sum(d48, d48, TWO_48, TWO_48);
    Pow2Sum(d96, d16, TWO_96, 0x1_0000);
    Pow2Sum(d112, d8, TWO_112, 0x100);
    Pow2Sum(d112, d48, TWO_112, TWO_48);
    Pow2Sum(d112 + d48, d48, TWO_160, TWO_48);
  }

  /** A bitwise or stays below a power of two exactly when both operands do. */
  lemma {:induction false} BitOrBound(a: nat, b: nat, k: nat)
    ensures BitOr(a, b) < Pow2(k) <==> a < Pow2(k) && b < Pow2(k)
    decreases a + b
  {
    if a != 0 && b != 0 {
      if k > 0 {
        BitOrBound(a / 2, b / 2, k - 1);
      }
    }
  }

  /** When no bit position is shared, a bitwise or is a sum. */
  lemma {:induction false} BitOrDisjoint(a: nat, b: nat, k: nat)
    requires a < Pow2(k)
    ensures BitOr(a, b * Pow2(k)) == a + b * Pow2(k)
    decreases k
  {
    if k > 0 && a != 0 && b != 0 {
      DoubleProduct(b, k);
      BitOrDisjoint(a / 2, b, k - 1);
    }
  }

  lemma DoubleProduct(b: nat, k: nat)
    requires k > 0 && b > 0
    ensures b * Pow2(k) == 2 * (b * Pow2(k - 1)) && b * Pow2(k - 1) > 0
  {
    var d := Pow2(k - 1);
    assert b * (2 * d) == 2 * (b * d);
  }
}
