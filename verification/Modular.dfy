/** Arithmetic modulo a prime: congruences, greatest common divisors and inverses. */
module Modular {
  predicate Divides(d: int, n: int)
    requires d != 0
  {
    n % d == 0
  }

  predicate Prime(p: int) {
    p > 1 && forall d :: 1 < d < p ==> !Divides(d, p)
  }

  // ---------- congruences ----------

  lemma DivMod(a: int, p: int)
    requires p > 0
    ensures a == (a / p) * p + a % p && 0 <= a % p < p
  {
  }

  lemma Distribute(i: int, j: int, p: int)
    ensures (i + j) * p == i * p + j * p
    ensures (i - j) * p == i * p - j * p
  {
  }

  lemma MultipleGrows(d: int, p: int)
    requires p > 0
    ensures d >= 1 ==> d * p >= p
    ensures d <= -1 ==> d * p <= -p
  {
  }

  lemma ModOfMultiple(a: int, k: int, p: int)
    requires p > 0
    ensures (a + k * p) % p == a % p
  {
    var n := a + k * p;
    DivMod(a, p);
    DivMod(n, p);
    Distribute(a / p, k, p);
    Distribute(a / p + k, n / p, p);
    MultipleGrows(a / p + k - n / p, p);
  }

  /** Congruent numbers differ by a multiple of the modulus. */
  lemma Multiple(a: int, b: int, p: int) returns (k: int)
    requires p > 0 && a % p == b % p
    ensures a == b + k * p
  {
    k := a / p - b / p;
    DivMod(a, p);
    DivMod(b, p);
    Distribute(a / p, b / p, p);
  }

  lemma SameResidue(a: int, b: int, k: int, p: int)
    requires p > 0 && a == b + k * p
    ensures a % p == b % p
  {
    ModOfMultiple(b, k, p);
  }

  lemma CongSum(a: int, b: int, c: int, d: int, p: int)
    requires p > 0 && a % p == b % p && c % p == d % p
    ensures (a + c) % p == (b + d) % p
  {
    var i := Multiple(a, b, p);
    var j := Multiple(c, d, p);
    Distribute(i, j, p);
    SameResidue(a + c, b + d, i + j, p);
  }

  lemma CongMinus(a: int, b: int, c: int, d: int, p: int)
    requires p > 0 && a % p == b % p && c % p == d % p
    ensures (a - c) % p == (b - d) % p
  {
    var i := Multiple(a, b, p);
    var j := Multiple(c, d, p);
    Distribute(i, j, p);
    SameResidue(a - c, b - d, i - j, p);
  }

  lemma CongAdd(a: int, b: int, c: int, d: int, p: int)
    requires p > 0 && a % p == b % p && c % p == d % p
    ensures (a + c) % p == (b + d) % p
    ensures (a - c) % p == (b - d) % p
  {
    CongSum(a, b, c, d, p);
    CongMinus(a, b, c, d, p);
  }

  lemma CongMul(a: int, b: int, c: int, d: int, p: int)
    requires p > 0 && a % p == b % p && c % p == d % p
    ensures (a * c) % p == (b * d) % p
  {
    CongScale(a, b, c, p);
    CongScale(c, d, b, p);
    assert c * b == b * c && d * b == b * d;
  }

  lemma CongScale(a: int, b: int, c: int, p: int)
    requires p > 0 && a % p == b % p
    ensures (a * c) % p == (b * c) % p
  {
    var i := Multiple(a, b, p);
    Rearrange(b, i, c, p);
    SameResidue(a * c, b * c, i * c, p);
  }

  lemma Rearrange(b: int, i: int, c: int, p: int)
    ensures (b + i * p) * c == b * c + (i * c) * p
  {
  }

  lemma CongMod(a: int, p: int)
    requires p > 0
    ensures (a % p) % p == a % p && 0 <= a % p < p
  {
    var r := a % p;
    assert 0 <= r < p;
    Small(r, p);
  }

  lemma Small(a: int, p: int)
    requires 0 <= a < p
    ensures a % p == a
  {
  }

  /** Congruence is a difference divisible by the modulus. */
  lemma CongDifference(a: int, b: int, p: int)
    requires p > 0
    ensures a % p == b % p <==> (a - b) % p == 0
  {
    Small(0, p);
    if a % p == b % p {
      CongAdd(a, b, b, b, p);
    }
    if (a - b) % p == 0 {
      CongAdd(a - b, 0, b, b, p);
    }
  }

  // ---------- greatest common divisor ----------

  function Gcd(a: nat, b: nat): nat
    decreases b
  {
    if b == 0 then a else Gcd(b, a % b)
  }

  /** `Gcd` divides both arguments, and every common divisor divides it. */
  lemma {:induction false} GcdIsGreatest(a: nat, b: nat, c: int)
    requires a > 0 && c > 0
    ensures Gcd(a, b) > 0 && Divides(Gcd(a, b), a) && Divides(Gcd(a, b), b)
    ensures Divides(c, a) && Divides(c, b) ==> Divides(c, Gcd(a, b))
    decreases b
  {
    if b == 0 {
      Small(0, a);
      assert a % a == 0 by {
        ModOfMultiple(0, 1, a);
      }
    } else {
      GcdIsGreatest(b, a % b, c);
      var g := Gcd(b, a % b);
      DividesCombination(g, b, a % b, a / b);
      assert b * (a / b) + a % b == a;
      if Divides(c, a) && Divides(c, b) {
        DividesCombination(c, b, a, -(a / b));
        assert b * -(a / b) == -(b * (a / b));
      }
    }
  }

  lemma DividesCombination(d: int, x: int, y: int, k: int)
    requires d > 0 && Divides(d, x) && Divides(d, y)
    ensures Divides(d, x * k + y)
  {
    Small(0, d);
    CongScale(x, 0, k, d);
    CongAdd(x * k, 0, y, 0, d);
  }

  lemma DivisorBound(d: int, n: int)
    requires d > 0 && n > 0 && Divides(d, n)
    ensures d <= n
  {
    if d > n {
      Small(n, d);
    }
  }

  lemma GcdWithPrime(x: nat, p: int)
    requires Prime(p) && x % p != 0
    ensures Gcd(p, x) == 1
  {
    GcdIsGreatest(p, x, 1);
    DivisorBound(Gcd(p, x), p);
  }

  // ---------- inverses ----------

  predicate IsInverse(a: int, r: int, p: int)
    requires p > 0
  {
    (a * r) % p == 1 % p
  }

  ghost predicate Unit(a: int, p: int)
    requires p > 0
  {
    exists r :: IsInverse(a, r, p)
  }

  lemma UnitProduct(a: int, b: int, p: int)
    requires p > 0 && Unit(a, p) && Unit(b, p)
    ensures Unit(a * b, p)
  {
    var r :| IsInverse(a, r, p);
    var s :| IsInverse(b, s, p);
    CongMul(a * r, 1, b * s, 1, p);
    assert (a * b) * (r * s) == (a * r) * (b * s);
    assert IsInverse(a * b, r * s, p);
  }

  lemma UnitOfCong(a: int, b: int, p: int)
    requires p > 0 && a % p == b % p && Unit(a, p)
    ensures Unit(b, p)
  {
    var r :| IsInverse(a, r, p);
    CongScale(a, b, r, p);
    assert IsInverse(b, r, p);
  }

  /** A unit factor may be cancelled from both sides of a congruence. */
  lemma Cancel(a: int, b: int, c: int, p: int)
    requires p > 0 && Unit(c, p) && (a * c) % p == (b * c) % p
    ensures a % p == b % p
  {
    var r :| IsInverse(c, r, p);
    CongScale(a * c, b * c, r, p);
    assert (a * c) * r == a * (c * r) && (b * c) * r == b * (c * r);
    CongMul(a, a, c * r, 1, p);
    CongMul(b, b, c * r, 1, p);
  }

  lemma UnitNonzero(a: int, p: int)
    requires p > 1 && Unit(a, p)
    ensures a % p != 0
  {
    var r :| IsInverse(a, r, p);
    Small(1, p);
    Small(0, p);
    if a % p == 0 {
      CongScale(a, 0, r, p);
    }
  }
}
