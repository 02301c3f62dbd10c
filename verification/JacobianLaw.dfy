/** What the Jacobian formulas compute: the affine chord and tangent law, up to the factor z. */
module JacobianLaw {
  import opened Evm
  import opened Modular
  import opened BLSHelper

  // ---------- the modular inverse ----------

  lemma AddModIsSum(a: nat, b: nat, p: nat)
    requires p > 0
    ensures AddMod(a, b, p) % p == (a + b) % p
    ensures b < p ==> AddMod(a, p - b, p) % p == (a - b) % p
  {
    CongMod(a + b, p);
    if b < p {
      CongMod(a + (p - b), p);
      ModOfMultiple(a - b, 1, p);
    }
  }

  lemma MulModIsProduct(a: nat, b: nat, p: nat)
    requires p > 0
    ensures MulMod(a, b, p) % p == (a * b) % p
  {
    CongMod(a * b, p);
  }

  lemma {:induction false} EuclidKeepsBezout(q: nat, newT: nat, r: nat, x: nat, p: nat, x0: int)
    requires p > 1 && q < p && newT < p
    requires (q * x0) % p == r % p && (newT * x0) % p == x % p
    ensures Euclid(q, newT, r, x, p) < p
    ensures (Euclid(q, newT, r, x, p) * x0) % p == Gcd(r, x) % p
    decreases x
  {
    if x != 0 {
      var t := Quotient(r, x);
      var q' := AddMod(q, p - MulMod(t, newT, p), p);
      AddModIsSum(q, MulMod(t, newT, p), p);
      MulModIsProduct(t, newT, p);
      CongAdd(q, q, MulMod(t, newT, p), t * newT, p);
      CongScale(q', q - t * newT, x0, p);
      Factor(q, t, newT, x0);
      CongScale(newT * x0, x, t, p);
      CongAdd(q * x0, r, (newT * x0) * t, x * t, p);
      assert r - x * t == r % x;
      EuclidKeepsBezout(newT, q', x, r % x, p, x0);
    }
  }

  lemma Factor(q: int, t: int, n: int, x: int)
    ensures (q - t * n) * x == q * x - (n * x) * t
  {
  }

  /**
   * The loop returns a reduced Bezout coefficient: multiplied by `x` it gives the greatest common divisor.
   * It fails exactly on the three inputs the guard names.
   */
  lemma InverseIsBezout(x: nat, p: nat)
    requires p > 1
    ensures Inverse(x, p).Some? <==> x != 0 && x != p
    ensures Inverse(x, p).Some? ==>
              var q := Inverse(x, p).value;
              q < p && (q * x) % p == Gcd(p, x) % p
  {
    if x != 0 && x != p {
      var q: nat, t: nat := 0, 1;
      Small(0, p);
      ModOfMultiple(0, 1, p);
      EuclidKeepsBezout(q, t, p, x, p, x);
    }
  }

  /** Coprime arguments, of any size, get their inverse. */
  lemma InverseOfCoprime(x: nat, p: nat)
    requires p > 1 && Gcd(p, x) == 1
    ensures Inverse(x, p).Some? && Inverse(x, p).value < p && IsInverse(x, Inverse(x, p).value, p)
  {
    assert Gcd(p, p) == p by {
      ModOfMultiple(0, 1, p);
    }
    InverseIsBezout(x, p);
  }

  lemma UnitOfNonzero(x: int, p: nat)
    requires Prime(p) && x % p != 0
    ensures Unit(x, p)
  {
    var r := x % p;
    CongMod(x, p);
    GcdWithPrime(r, p);
    InverseOfCoprime(r, p);
    var i := Inverse(r, p).value;
    assert IsInverse(r, i, p);
    UnitOfCong(r, x, p);
  }

  /** Euclid's lemma. */
  lemma ZeroProduct(a: int, b: int, p: nat)
    requires Prime(p) && (a * b) % p == 0
    ensures a % p == 0 || b % p == 0
  {
    if b % p != 0 {
      UnitOfNonzero(b, p);
      Small(0, p);
      assert 0 * b == 0;
      Cancel(a, 0, b, p);
    }
  }

  // ---------- representation ----------

  /** The Jacobian triple stands for the affine point (x, y). */
  ghost predicate Represents(j: Jacobian, x: int, y: int, p: int)
    requires p > 0
  {
    && Unit(j.z, p)
    && j.x % p == (x * Square(j.z)) % p
    && j.y % p == (y * Cube(j.z)) % p
  }

  function Square(z: int): int { z * z }
  function Cube(z: int): int { z * z * z }

  /** The third intersection of a line of slope `l` through (x1, y1) and x2, reflected. */
  function LineX(l: int, x1: int, x2: int): int { l * l - x1 - x2 }
  function LineY(l: int, x1: int, y1: int, x3: int): int { l * (x1 - x3) - y1 }

  predicate ChordSlope(l: int, x1: int, y1: int, x2: int, y2: int, p: int)
    requires p > 0
  {
    (l * (x2 - x1)) % p == (y2 - y1) % p
  }

  predicate TangentSlope(l: int, x: int, y: int, coefficient: int, p: int)
    requires p > 0
  {
    (l * (2 * y)) % p == (3 * (x * x) + coefficient) % p
  }

  // ---------- addition ----------

  /** The reduced intermediate values of `JacAdd`, as congruences between integers. */
  lemma AddFormulas(a: Jacobian, b: Jacobian, p: nat)
    returns (u1: int, s1: int, u2: int, s2: int, h: int, r: int, q: Jacobian)
    requires p > 0 && !NoPoint(a.x, a.y) && !NoPoint(b.x, b.y) && JacAdd(a, b, p).Some?
    ensures q == JacAdd(a, b, p).value && q.x < p && q.y < p && q.z < p
    ensures u1 % p == (a.x * Square(b.z)) % p && s1 % p == (a.y * Cube(b.z)) % p
    ensures u2 % p == (b.x * Square(a.z)) % p && s2 % p == (b.y * Cube(a.z)) % p
    ensures h % p == (u2 - u1) % p && r % p == (s2 - s1) % p
    ensures q.x % p == (r * r - h * h * h - 2 * (u1 * (h * h))) % p
    ensures q.y % p == (r * (u1 * (h * h) - q.x) - s1 * (h * h * h)) % p
    ensures q.z % p == (h * (a.z * b.z)) % p
  {
    q := JacAdd(a, b, p).value;
    var a2 := MulMod(a.z, a.z, p);
    var a3 := MulMod(a.z, a2, p);
    var b2 := MulMod(b.z, b.z, p);
    var b3 := MulMod(b.z, b2, p);
    PowersMod(a.z, p);
    PowersMod(b.z, p);
    u1, s1, u2, s2 := MulMod(a.x, b2, p), MulMod(a.y, b3, p), MulMod(b.x, a2, p), MulMod(b.y, a3, p);
    ProductCong(a.x, b2, Square(b.z), p);
    ProductCong(a.y, b3, Cube(b.z), p);
    ProductCong(b.x, a2, Square(a.z), p);
    ProductCong(b.y, a3, Cube(a.z), p);
    h := AddMod(u2, p - u1, p);
    r := AddMod(s2, p - s1, p);
    AddModIsSum(u2, u1, p);
    AddModIsSum(s2, s1, p);
    AddTail(u1, s1, h, r, p, q.x, q.y);
    ProductCong(h, MulMod(a.z, b.z, p), a.z * b.z, p) by {
      MulModIsProduct(a.z, b.z, p);
    }
  }

  lemma ProductCong(a: nat, b: nat, b': int, p: nat)
    requires p > 0 && b % p == b' % p
    ensures MulMod(a, b, p) % p == (a * b') % p
  {
    MulModIsProduct(a, b, p);
    CongMul(a, a, b, b', p);
  }

  lemma PowersMod(z: nat, p: nat)
    requires p > 0
    ensures MulMod(z, z, p) % p == Square(z) % p
    ensures MulMod(z, MulMod(z, z, p), p) % p == Cube(z) % p
  {
    MulModIsProduct(z, z, p);
    ProductCong(z, MulMod(z, z, p), z * z, p);
    assert z * (z * z) == z * z * z;
  }

  lemma AddTail(u1: nat, s1: nat, h: nat, r: nat, p: nat, qx: nat, qy: nat)
    requires p > 0 && u1 < p && s1 < p
    requires var h2 := MulMod(h, h, p); var h3 := MulMod(h2, h, p);
             && qx == AddMod(AddMod(MulMod(r, r, p), p - h3, p), p - MulMod(2, MulMod(u1, h2, p), p), p)
             && qy == AddMod(MulMod(r, AddMod(MulMod(u1, h2, p), p - qx, p), p), p - MulMod(s1, h3, p), p)
    ensures qx % p == (r * r - h * h * h - 2 * (u1 * (h * h))) % p
    ensures qy % p == (r * (u1 * (h * h) - qx) - s1 * (h * h * h)) % p
  {
    var h2 := MulMod(h, h, p);
    var h3 := MulMod(h2, h, p);
    MulModIsProduct(h, h, p);
    MulModIsProduct(h2, h, p);
    CongScale(h2, h * h, h, p);
    var rr := MulMod(r, r, p);
    MulModIsProduct(r, r, p);
    var uh := MulMod(u1, h2, p);
    ProductCong(u1, h2, h * h, p);
    var t := AddMod(rr, p - h3, p);
    AddModIsSum(rr, h3, p);
    CongAdd(rr, r * r, h3, h * h * h, p);
    var d := MulMod(2, uh, p);
    ProductCong(2, uh, u1 * (h * h), p);
    AddModIsSum(t, d, p);
    CongAdd(t, r * r - h * h * h, d, 2 * (u1 * (h * h)), p);
    var e := AddMod(uh, p - qx, p);
    AddModIsSum(uh, qx, p);
    CongAdd(uh, u1 * (h * h), qx, qx, p);
    var v := MulMod(r, e, p);
    ProductCong(r, e, u1 * (h * h) - qx, p);
    var g := MulMod(s1, h3, p);
    ProductCong(s1, h3, h * h * h, p);
    AddModIsSum(v, g, p);
    CongAdd(v, r * (u1 * (h * h) - qx), g, s1 * (h * h * h), p);
  }

  /** The chord law on scaled coordinates, with `w` the product of both z and `qz` the new z. */
  lemma ChordCore(l: int, x1: int, y1: int, x2: int, y2: int, w: int,
                  u1: int, s1: int, u2: int, s2: int, h: int, r: int, qx: int, qy: int, qz: int, p: int)
    requires p > 0 && ChordSlope(l, x1, y1, x2, y2, p)
    requires u1 % p == (x1 * Square(w)) % p && s1 % p == (y1 * Cube(w)) % p
    requires u2 % p == (x2 * Square(w)) % p && s2 % p == (y2 * Cube(w)) % p
    requires h % p == (u2 - u1) % p && r % p == (s2 - s1) % p
    requires qx % p == (r * r - h * h * h - 2 * (u1 * (h * h))) % p
    requires qy % p == (r * (u1 * (h * h) - qx) - s1 * (h * h * h)) % p
    requires qz % p == (h * w) % p
    ensures var x3 := LineX(l, x1, x2);
            && qx % p == (x3 * Square(qz)) % p
            && qy % p == (LineY(l, x1, y1, x3) * Cube(qz)) % p
    ensures qz % p == ((x2 - x1) * Cube(w)) % p
  {
    var hw := h * w;
    // h = (x2 - x1) w^2, hence qz = (x2 - x1) w^3 and r = l qz
    CongAdd(u2, x2 * Square(w), u1, x1 * Square(w), p);
    CongScale(h, (x2 - x1) * Square(w), w, p) by { RingDifference(x1, x2, Square(w)); }
    RingCube(x2 - x1, w);
    CongAdd(s2, y2 * Cube(w), s1, y1 * Cube(w), p);
    CongScale(l * (x2 - x1), y2 - y1, Cube(w), p);
    CongMul(l, l, qz, (x2 - x1) * Cube(w), p);
    RingSlope(l, x2 - x1, y1, y2, Cube(w));
    assert r % p == (l * qz) % p;
    PowersCong(hw, qz, p);
    // qx
    CongAdd(u2, x2 * Square(w), 0, 0, p);
    CongAdd(u1, x1 * Square(w), u2, x2 * Square(w), p);
    CongAdd(u2 - u1, h, 2 * u1, 2 * u1, p);
    RingSum(x1, x2, Square(w), u1, u2);
    CongMul(h * h, h * h, h + 2 * u1, (x1 + x2) * Square(w), p);
    RingMiddle(h, u1, x1 + x2, w);
    CongMul(x1 + x2, x1 + x2, Square(hw), Square(qz), p);
    CongMul(r, l * qz, r, l * qz, p);
    CongAdd(r * r, (l * qz) * (l * qz), h * h * (h + 2 * u1), (x1 + x2) * Square(qz), p);
    RingLineX(l, x1, x2, qz, r, h, u1);
    // qy
    var x3 := LineX(l, x1, x2);
    CongScale(u1, x1 * Square(w), h * h, p);
    RingScaled(x1, y1, w, h);
    CongMul(x1, x1, Square(hw), Square(qz), p);
    CongAdd(u1 * (h * h), x1 * Square(qz), qx, x3 * Square(qz), p);
    CongMul(r, l * qz, u1 * (h * h) - qx, x1 * Square(qz) - x3 * Square(qz), p);
    CongScale(s1, y1 * Cube(w), h * h * h, p);
    CongMul(y1, y1, Cube(hw), Cube(qz), p);
    CongAdd(r * (u1 * (h * h) - qx), (l * qz) * (x1 * Square(qz) - x3 * Square(qz)),
            s1 * (h * h * h), y1 * Cube(qz), p);
    RingLineY(l, x1, y1, x3, qz);
  }

  lemma PowersCong(a: int, b: int, p: int)
    requires p > 0 && a % p == b % p
    ensures Square(a) % p == Square(b) % p && Cube(a) % p == Cube(b) % p
  {
    CongMul(a, b, a, b, p);
    CongMul(a * a, b * b, a, b, p);
  }

  lemma RingDifference(x1: int, x2: int, v: int)
    ensures x2 * v - x1 * v == (x2 - x1) * v
  {}

  lemma RingCube(d: int, w: int)
    ensures (d * Square(w)) * w == d * Cube(w)
  {
    assert (d * (w * w)) * w == d * (w * w * w);
  }

  lemma RingSlope(l: int, d: int, y1: int, y2: int, v: int)
    ensures y2 * v - y1 * v == (y2 - y1) * v
    ensures (l * d) * v == l * (d * v)
  {}

  lemma RingSum(x1: int, x2: int, v: int, u1: int, u2: int)
    ensures x1 * v + x2 * v == (x1 + x2) * v
    ensures u2 - u1 + 2 * u1 == u1 + u2
  {}

  lemma RingMiddle(h: int, u1: int, t: int, w: int)
    ensures h * h * (t * Square(w)) == t * Square(h * w)
  {
    assert (h * h) * (t * (w * w)) == t * ((h * w) * (h * w));
  }

  lemma RingLineX(l: int, x1: int, x2: int, qz: int, r: int, h: int, u1: int)
    ensures (l * qz) * (l * qz) - (x1 + x2) * Square(qz) == LineX(l, x1, x2) * Square(qz)
    ensures r * r - h * h * (h + 2 * u1) == r * r - h * h * h - 2 * (u1 * (h * h))
  {
    assert (l * qz) * (l * qz) == (l * l) * (qz * qz);
  }

  lemma RingScaled(x1: int, y1: int, w: int, h: int)
    ensures (x1 * Square(w)) * (h * h) == x1 * Square(h * w)
    ensures (y1 * Cube(w)) * (h * h * h) == y1 * Cube(h * w)
  {
    assert (w * w) * (h * h) == (h * w) * (h * w);
    assert (w * w * w) * (h * h * h) == (h * w) * (h * w) * (h * w);
    Assoc(x1, w * w, h * h);
    Assoc(y1, w * w * w, h * h * h);
  }

  lemma Assoc(a: int, b: int, c: int)
    ensures (a * b) * c == a * (b * c)
  {}

  lemma RingLineY(l: int, x1: int, y1: int, x3: int, qz: int)
    ensures (l * qz) * (x1 * Square(qz) - x3 * Square(qz)) - y1 * Cube(qz) == LineY(l, x1, y1, x3) * Cube(qz)
  {
    var v := Square(qz);
    assert x1 * v - x3 * v == (x1 - x3) * v;
    assert (l * qz) * ((x1 - x3) * v) == (l * (x1 - x3)) * (qz * v);
    assert qz * v == Cube(qz);
  }

  /**
   * `JacAdd` adds projectively: for any representations of two affine points and any slope of their chord,
   * the result has the coordinates of the chord law scaled by its own z.
   */
  lemma JacAddIsChord(a: Jacobian, b: Jacobian, p: nat, l: int, x1: int, y1: int, x2: int, y2: int)
    requires p > 0 && !NoPoint(a.x, a.y) && !NoPoint(b.x, b.y) && JacAdd(a, b, p).Some?
    requires Represents(a, x1, y1, p) && Represents(b, x2, y2, p) && ChordSlope(l, x1, y1, x2, y2, p)
    ensures var q := JacAdd(a, b, p).value;
            var x3 := LineX(l, x1, x2);
            && q.x < p && q.y < p && q.z < p
            && q.x % p == (x3 * Square(q.z)) % p
            && q.y % p == (LineY(l, x1, y1, x3) * Cube(q.z)) % p
            && q.z % p == ((x2 - x1) * Cube(a.z * b.z)) % p
  {
    var u1, s1, u2, s2, h, r, q := AddFormulas(a, b, p);
    var w := a.z * b.z;
    Common(a.x, a.y, x1, y1, a.z, b.z, p);
    Common(b.x, b.y, x2, y2, b.z, a.z, p);
    assert b.z * a.z == w;
    ChordCore(l, x1, y1, x2, y2, w, u1, s1, u2, s2, h, r, q.x, q.y, q.z, p);
  }

  /** Scaling both coordinates to the common z. */
  lemma Common(x: int, y: int, ax: int, ay: int, z: int, z': int, p: int)
    requires p > 0 && x % p == (ax * Square(z)) % p && y % p == (ay * Cube(z)) % p
    ensures (x * Square(z')) % p == (ax * Square(z * z')) % p
    ensures (y * Cube(z')) % p == (ay * Cube(z * z')) % p
  {
    CongScale(x, ax * Square(z), Square(z'), p);
    CongScale(y, ay * Cube(z), Cube(z'), p);
    RingScaled(ax, ay, z, z');
    assert z' * z == z * z';
  }

  // ---------- doubling ----------

  lemma DoubleFormulas(a: Jacobian, coefficient: nat, p: nat) returns (s: int, m: int, q: Jacobian)
    requires p > 0 && a.z != 0
    ensures JacDouble(a, coefficient, p) == Some(q) && q.x < p && q.y < p && q.z < p
    ensures s % p == (4 * (a.x * Square(a.y))) % p
    ensures m % p == (3 * Square(a.x) + coefficient * Square(Square(a.z))) % p
    ensures q.x % p == (m * m - (s + s)) % p
    ensures q.y % p == (m * (s - q.x) - 8 * Square(Square(a.y))) % p
    ensures q.z % p == (2 * (a.y * a.z)) % p
  {
    q := JacDouble(a, coefficient, p).value;
    var x2 := MulMod(a.x, a.x, p);
    var y2 := MulMod(a.y, a.y, p);
    var z2 := MulMod(a.z, a.z, p);
    PowersMod(a.x, p);
    PowersMod(a.y, p);
    PowersMod(a.z, p);
    var s' := MulMod(4, MulMod(a.x, y2, p), p);
    ProductCong(a.x, y2, Square(a.y), p);
    ProductCong(4, MulMod(a.x, y2, p), a.x * Square(a.y), p);
    var m1 := MulMod(3, x2, p);
    ProductCong(3, x2, Square(a.x), p);
    var z4 := MulMod(z2, z2, p);
    MulModIsProduct(z2, z2, p);
    CongMul(z2, Square(a.z), z2, Square(a.z), p);
    var m2 := MulMod(coefficient, z4, p);
    ProductCong(coefficient, z4, Square(Square(a.z)), p);
    var m' := AddMod(m1, m2, p);
    AddModIsSum(m1, m2, p);
    CongAdd(m1, 3 * Square(a.x), m2, coefficient * Square(Square(a.z)), p);
    DoubleTail(s', m', y2, a.y, p, q.x, q.y);
    ProductCong(2, MulMod(a.y, a.z, p), a.y * a.z, p) by {
      MulModIsProduct(a.y, a.z, p);
    }
    s, m := s', m';
  }

  lemma DoubleTail(s: nat, m: nat, y2: nat, y: int, p: nat, qx: nat, qy: nat)
    requires p > 0 && y2 % p == Square(y) % p
    requires qx == AddMod(MulMod(m, m, p), p - AddMod(s, s, p), p)
    requires qy == AddMod(MulMod(m, AddMod(s, p - qx, p), p), p - MulMod(8, MulMod(y2, y2, p), p), p)
    ensures qx % p == (m * m - (s + s)) % p
    ensures qy % p == (m * (s - qx) - 8 * Square(Square(y))) % p
  {
    var mm, ss := MulMod(m, m, p), AddMod(s, s, p);
    MulModIsProduct(m, m, p);
    AddModIsSum(s, s, p);
    AddModIsSum(mm, ss, p);
    CongAdd(mm, m * m, ss, s + s, p);
    AddModIsSum(s, qx, p);
    var e := AddMod(s, p - qx, p);
    var v := MulMod(m, e, p);
    ProductCong(m, e, s - qx, p);
    var y4 := MulMod(y2, y2, p);
    MulModIsProduct(y2, y2, p);
    CongMul(y2, Square(y), y2, Square(y), p);
    var g := MulMod(8, y4, p);
    ProductCong(8, y4, Square(Square(y)), p);
    AddModIsSum(v, g, p);
    CongAdd(v, m * (s - qx), g, 8 * Square(Square(y)), p);
  }

  /** The tangent law on scaled coordinates. */
  lemma TangentCore(l: int, x: int, y: int, coefficient: int, ax: int, ay: int, z: int,
                    s: int, m: int, qx: int, qy: int, qz: int, p: int)
    requires p > 0 && TangentSlope(l, x, y, coefficient, p)
    requires ax % p == (x * Square(z)) % p && ay % p == (y * Cube(z)) % p
    requires s % p == (4 * (ax * Square(ay))) % p
    requires m % p == (3 * Square(ax) + coefficient * Square(Square(z))) % p
    requires qx % p == (m * m - (s + s)) % p
    requires qy % p == (m * (s - qx) - 8 * Square(Square(ay))) % p
    requires qz % p == (2 * (ay * z)) % p
    ensures var x3 := LineX(l, x, x);
            && qx % p == (x3 * Square(qz)) % p
            && qy % p == (LineY(l, x, y, x3) * Cube(qz)) % p
    ensures qz % p == ((2 * y) * Square(Square(z))) % p
  {
    var yz := 2 * (ay * z);
    // qz = 2 y z^4
    CongScale(ay, y * Cube(z), 2 * z, p);
    RingFourth(ay, y, z);
    // m = l qz
    PowersCong(ax, x * Square(z), p);
    CongScale(Square(ax), Square(x * Square(z)), 3, p);
    CongAdd(3 * Square(ax), 3 * Square(x * Square(z)), coefficient * Square(Square(z)), coefficient * Square(Square(z)),
            p);
    CongScale(l * (2 * y), 3 * (x * x) + coefficient, Square(Square(z)), p);
    CongMul(l, l, qz, (2 * y) * Square(Square(z)), p);
    RingTangent(l, x, y, coefficient, Square(z));
    assert m % p == (l * qz) % p;
    PowersCong(yz, qz, p);
    // s = x qz^2
    CongScale(ax, x * Square(z), 4 * Square(ay), p);
    RingS(ax, ay, x, z);
    CongMul(x, x, Square(yz), Square(qz), p);
    assert s % p == (x * Square(qz)) % p;
    // qx
    CongMul(m, l * qz, m, l * qz, p);
    CongAdd(s, x * Square(qz), s, x * Square(qz), p);
    CongAdd(m * m, (l * qz) * (l * qz), s + s, x * Square(qz) + x * Square(qz), p);
    RingLineX(l, x, x, qz, 0, 0, 0);
    assert x * Square(qz) + x * Square(qz) == (x + x) * Square(qz);
    // qy
    var x3 := LineX(l, x, x);
    CongAdd(s, x * Square(qz), qx, x3 * Square(qz), p);
    CongMul(m, l * qz, s - qx, x * Square(qz) - x3 * Square(qz), p);
    CongScale(ay, y * Cube(z), 8 * Cube(ay), p);
    RingEighth(ay, y, z);
    CongMul(y, y, Cube(yz), Cube(qz), p);
    CongAdd(m * (s - qx), (l * qz) * (x * Square(qz) - x3 * Square(qz)), 8 * Square(Square(ay)), y * Cube(qz), p);
    RingLineY(l, x, y, x3, qz);
  }

  lemma RingFourth(ay: int, y: int, z: int)
    ensures ay * (2 * z) == 2 * (ay * z)
    ensures (y * Cube(z)) * (2 * z) == (2 * y) * Square(Square(z))
  {
    assert (z * z * z) * z == (z * z) * (z * z);
    Assoc(y, Cube(z), 2 * z);
    assert Cube(z) * (2 * z) == 2 * (Cube(z) * z);
  }

  lemma RingTangent(l: int, x: int, y: int, coefficient: int, v: int)
    ensures Square(x * v) * 3 == 3 * (x * x) * Square(v)
    ensures (3 * (x * x) + coefficient) * Square(v) == 3 * Square(x * v) + coefficient * Square(v)
    ensures (l * (2 * y)) * Square(v) == l * ((2 * y) * Square(v))
  {
    assert (x * v) * (x * v) == (x * x) * (v * v);
  }

  lemma RingS(ax: int, ay: int, x: int, z: int)
    ensures ax * (4 * Square(ay)) == 4 * (ax * Square(ay))
    ensures (x * Square(z)) * (4 * Square(ay)) == x * Square(2 * (ay * z))
  {
    assert (z * z) * (4 * (ay * ay)) == (2 * (ay * z)) * (2 * (ay * z));
    Assoc(x, Square(z), 4 * Square(ay));
  }

  lemma RingEighth(ay: int, y: int, z: int)
    ensures ay * (8 * Cube(ay)) == 8 * Square(Square(ay))
    ensures (y * Cube(z)) * (8 * Cube(ay)) == y * Cube(2 * (ay * z))
  {
    assert ay * (ay * ay * ay) == (ay * ay) * (ay * ay);
    assert ay * (8 * Cube(ay)) == 8 * (ay * Cube(ay));
    var t := ay * z;
    assert (2 * t) * (2 * t) * (2 * t) == 8 * (t * t * t);
    assert t * t * t == (z * z * z) * (ay * ay * ay);
    assert Cube(z) * (8 * Cube(ay)) == 8 * (Cube(z) * Cube(ay));
    Assoc(y, Cube(z), 8 * Cube(ay));
  }

  /** `JacDouble` doubles projectively along any slope of the tangent. */
  lemma JacDoubleIsTangent(a: Jacobian, coefficient: nat, p: nat, l: int, x: int, y: int)
    requires p > 0 && a.z != 0
    requires Represents(a, x, y, p) && TangentSlope(l, x, y, coefficient, p)
    ensures JacDouble(a, coefficient, p).Some?
    ensures var q := JacDouble(a, coefficient, p).value;
            var x3 := LineX(l, x, x);
            && q.x < p && q.y < p && q.z < p
            && q.x % p == (x3 * Square(q.z)) % p
            && q.y % p == (LineY(l, x, y, x3) * Cube(q.z)) % p
            && q.z % p == ((2 * y) * Square(Square(a.z))) % p
  {
    var s, m, q := DoubleFormulas(a, coefficient, p);
    TangentCore(l, x, y, coefficient, a.x, a.y, a.z, s, m, q.x, q.y, q.z, p);
  }
}
