/** `ecAdd` and `sum` against the affine law. */
module PointAddition {
  import opened Evm
  import opened Modular
  import opened BLSHelper
  import opened JacobianLaw
  import opened CurveLaw

  // ---------- to affine ----------

  lemma ToAffineOfRepresented(j: Jacobian, a: XY, p: nat)
    requires Prime(p) && j.z < p && Reduced(a, p) && Represents(j, a.x, a.y, p)
    ensures ToAffine(j, p) == Some(a)
  {
    var i := InverseOfUnit(j.z, p);
    InversePowers(j.z, i, p);
    AffineCoordinates(j, a, i, p);
  }

  lemma InverseOfUnit(z: nat, p: nat) returns (i: nat)
    requires Prime(p) && z < p && Unit(z, p)
    ensures Inverse(z, p) == Some(i) && i < p && IsInverse(z, i, p)
  {
    UnitNonzero(z, p);
    Small(0, p);
    GcdWithPrime(z, p);
    InverseOfCoprime(z, p);
    i := Inverse(z, p).value;
  }

  lemma AffineCoordinates(j: Jacobian, a: XY, i: nat, p: nat)
    requires p > 0 && Reduced(a, p)
    requires j.x % p == (a.x * Square(j.z)) % p && j.y % p == (a.y * Cube(j.z)) % p
    requires (Square(j.z) * (i * i)) % p == 1 % p && (Cube(j.z) * (i * (i * i))) % p == 1 % p
    ensures var i2 := MulMod(i, i, p);
            MulMod(j.x, i2, p) == a.x && MulMod(j.y, MulMod(i, i2, p), p) == a.y
  {
    var i2 := MulMod(i, i, p);
    MulModIsProduct(i, i, p);
    ProductCong(i, i2, i * i, p);
    Coordinate(j.x, a.x, Square(j.z), i2, i * i, p);
    Coordinate(j.y, a.y, Cube(j.z), MulMod(i, i2, p), i * (i * i), p);
  }

  lemma InversePowers(z: int, i: int, p: int)
    requires p > 0 && IsInverse(z, i, p)
    ensures (Square(z) * (i * i)) % p == 1 % p
    ensures (Cube(z) * (i * (i * i))) % p == 1 % p
  {
    var e := z * i;
    CongMul(e, 1, e, 1, p);
    CongMul(e * e, 1, e, 1, p);
    RegroupPowers(z, i);
  }

  lemma RegroupPowers(z: int, i: int)
    ensures Square(z) * (i * i) == (z * i) * (z * i)
    ensures Cube(z) * (i * (i * i)) == (z * i) * (z * i) * (z * i)
  {
    assert (z * z) * (i * i) == (z * i) * (z * i);
    var s, t := z * z, i * i;
    assert (s * z) * (i * t) == (s * t) * (z * i);
  }

  lemma Coordinate(x: nat, a: nat, s: int, i: nat, i': int, p: nat)
    requires p > 0 && a < p && x % p == (a * s) % p && i % p == i' % p && (s * i') % p == 1 % p
    ensures MulMod(x, i, p) == a
  {
    ProductCong(x, i, i', p);
    Unscale(x, a, s, i', p);
    Small(MulMod(x, i, p), p);
    Small(a, p);
  }

  lemma Unscale(x: int, a: int, s: int, i: int, p: int)
    requires p > 0 && x % p == (a * s) % p && (s * i) % p == 1 % p
    ensures (x * i) % p == a % p
  {
    CongScale(x, a * s, i, p);
    Assoc(a, s, i);
    CongMul(a, a, s * i, 1, p);
  }

  lemma ToAffineOfZero(j: Jacobian, p: nat)
    requires j.z == 0
    ensures ToAffine(j, p) == None
  {
  }

  lemma OneRepresents(a: XY, p: nat)
    requires Prime(p)
    ensures Represents(Jacobian(a.x, a.y, 1), a.x, a.y, p)
  {
    assert IsInverse(1, 1, p);
  }

  // ---------- one addition ----------

  /** A represented point is (0, 0) exactly when its reduced triple is. */
  lemma NoPointOfRepresented(j: Jacobian, a: XY, p: nat)
    requires Prime(p) && j.x < p && j.y < p && Reduced(a, p) && Represents(j, a.x, a.y, p)
    ensures NoPoint(j.x, j.y) <==> a == INFINITY
  {
    assert p > 1;
    hide Prime, Unit;
    Small(j.x, p);
    Small(j.y, p);
    Small(a.x, p);
    Small(a.y, p);
    UnitProduct(j.z, j.z, p);
    ScaledZero(a.x, j.z, j.z, p);
    ScaledZero(a.y, j.z, j.z * j.z, p);
    CubeIs(j.z);
  }

  lemma CubeIs(z: int)
    ensures Cube(z) == z * (z * z) && Square(z) == z * z
  {
  }

  lemma ScaledZero(a: int, z: int, v: int, p: int)
    requires p > 1 && Unit(z, p) && Unit(v, p)
    ensures (a * (z * v)) % p == 0 <==> a % p == 0
  {
    Small(0, p);
    UnitProduct(z, v, p);
    assert 0 * (z * v) == 0;
    if a % p == 0 {
      CongScale(a, 0, z * v, p);
    } else if (a * (z * v)) % p == 0 {
      Cancel(a, 0, z * v, p);
    }
  }

  lemma UnitSquareCube(z: int, p: int)
    requires p > 0 && Unit(z, p)
    ensures Unit(Square(z), p) && Unit(Cube(z), p)
  {
    UnitProduct(z, z, p);
    UnitProduct(z * z, z, p);
  }

  /** `JacAdd` fails on finite points exactly when they are the same point. */
  lemma AddFailsOnEqual(a: Jacobian, b: Jacobian, x1: XY, x2: XY, p: nat)
    requires Prime(p) && !NoPoint(a.x, a.y) && !NoPoint(b.x, b.y) && Reduced(x1, p) && Reduced(x2, p)
    requires Represents(a, x1.x, x1.y, p) && Represents(b, x2.x, x2.y, p)
    ensures JacAdd(a, b, p).None? <==> x1 == x2
  {
    var w := a.z * b.z;
    UnitProduct(a.z, b.z, p);
    UnitSquareCube(w, p);
    Common(a.x, a.y, x1.x, x1.y, a.z, b.z, p);
    Common(b.x, b.y, x2.x, x2.y, b.z, a.z, p);
    assert b.z * a.z == w;
    PowersMod(a.z, p);
    PowersMod(b.z, p);
    var a2 := MulMod(a.z, a.z, p);
    var b2 := MulMod(b.z, b.z, p);
    ScaledEqual(a.x, b2, Square(b.z), b.x, a2, Square(a.z), x1.x, x2.x, Square(w), p);
    ScaledEqual(a.y, MulMod(b.z, b2, p), Cube(b.z), b.y, MulMod(a.z, a2, p), Cube(a.z), x1.y, x2.y, Cube(w), p);
  }

  lemma ScaledEqual(a: nat, b: nat, b': int, c: nat, d: nat, d': int, x: nat, y: nat, w: int, p: nat)
    requires Prime(p) && b % p == b' % p && d % p == d' % p && x < p && y < p && Unit(w, p)
    requires (a * b') % p == (x * w) % p && (c * d') % p == (y * w) % p
    ensures MulMod(a, b, p) == MulMod(c, d, p) <==> x == y
  {
    ProductCong(a, b, b', p);
    ProductCong(c, d, d', p);
    Small(MulMod(a, b, p), p);
    Small(MulMod(c, d, p), p);
    Small(x, p);
    Small(y, p);
    if MulMod(a, b, p) == MulMod(c, d, p) {
      Cancel(x, y, w, p);
    }
  }

  /** Finite points with different x: the sum represents their chord. */
  lemma AddRepresentsChord(a: Jacobian, b: Jacobian, x1: XY, x2: XY, p: nat)
    requires Prime(p) && !NoPoint(a.x, a.y) && !NoPoint(b.x, b.y) && Reduced(x1, p) && Reduced(x2, p)
    requires Represents(a, x1.x, x1.y, p) && Represents(b, x2.x, x2.y, p) && x1.x != x2.x
    ensures (x2.x - x1.x) % p != 0
    ensures JacAdd(a, b, p).Some?
    ensures var q := JacAdd(a, b, p).value; var c := Chord(x1, x2, p);
            q.x < p && q.y < p && q.z < p && Reduced(c, p) && Represents(q, c.x, c.y, p)
  {
    DistinctResidues(x2.x, x1.x, p);
    AddFailsOnEqual(a, b, x1, x2, p);
    var q := JacAdd(a, b, p).value;
    var l := SlopeExists(x1, x2, p);
    JacAddIsChord(a, b, p, l, x1.x, x1.y, x2.x, x2.y);
    UnitProduct(a.z, b.z, p);
    UnitSquareCube(a.z * b.z, p);
    UnitOfNonzero(x2.x - x1.x, p);
    UnitProduct(x2.x - x1.x, Cube(a.z * b.z), p);
    UnitOfCong((x2.x - x1.x) * Cube(a.z * b.z), q.z, p);
    ReducedRepresents(q, LineX(l, x1.x, x2.x), LineY(l, x1.x, x1.y, LineX(l, x1.x, x2.x)), p);
  }

  lemma ReducedRepresents(q: Jacobian, x: int, y: int, p: nat)
    requires p > 0 && Represents(q, x, y, p)
    ensures Represents(q, x % p, y % p, p)
  {
    CongMod(x, p);
    CongMod(y, p);
    CongScale(x % p, x, Square(q.z), p);
    CongScale(y % p, y, Cube(q.z), p);
  }

  /** The triple left behind when a point meets another one with the same x: z = 0 and x = t^2, y = -t^3. */
  ghost predicate Degenerate(j: Jacobian, t: int, p: nat)
    requires p > 0
  {
    && j.z == 0 && j.x < p && j.y < p && t % p != 0
    && j.x % p == Square(t) % p && j.y % p == (-Cube(t)) % p
  }

  lemma AddMeetsSameX(a: Jacobian, b: Jacobian, x1: XY, x2: XY, p: nat) returns (t: int)
    requires Prime(p) && !NoPoint(a.x, a.y) && !NoPoint(b.x, b.y) && Reduced(x1, p) && Reduced(x2, p)
    requires Represents(a, x1.x, x1.y, p) && Represents(b, x2.x, x2.y, p) && x1.x == x2.x && x1.y != x2.y
    ensures JacAdd(a, b, p).Some? && Degenerate(JacAdd(a, b, p).value, t, p)
  {
    AddFailsOnEqual(a, b, x1, x2, p);
    var u1, s1, u2, s2, h, r, q := AddFormulas(a, b, p);
    var w := a.z * b.z;
    Common(a.x, a.y, x1.x, x1.y, a.z, b.z, p);
    Common(b.x, b.y, x2.x, x2.y, b.z, a.z, p);
    assert b.z * a.z == w;
    CongDifference(u2, u1, p);
    UnitProduct(a.z, b.z, p);
    UnitSquareCube(w, p);
    HeightDifference(s1, s2, x1.y, x2.y, Cube(w), r, p);
    t := r;
    ZeroH(h, r, u1, s1, q.x, q.y, p);
    ZeroProductOf(h, a.z * b.z, q.z, p);
  }

  lemma HeightDifference(s1: int, s2: int, y1: nat, y2: nat, v: int, r: int, p: nat)
    requires Prime(p) && y1 < p && y2 < p && y1 != y2 && Unit(v, p)
    requires s1 % p == (y1 * v) % p && s2 % p == (y2 * v) % p && r % p == (s2 - s1) % p
    ensures r % p != 0
  {
    CongAdd(s2, y2 * v, s1, y1 * v, p);
    assert y2 * v - y1 * v == (y2 - y1) * v;
    DistinctResidues(y2, y1, p);
    UnitNonzero(v, p);
    if r % p == 0 {
      ZeroProduct(y2 - y1, v, p);
    }
  }

  lemma ZeroProductOf(h: int, w: int, z: int, p: int)
    requires p > 0 && h % p == 0 && z % p == (h * w) % p && 0 <= z < p
    ensures z == 0
  {
    Small(0, p);
    CongScale(h, 0, w, p);
    assert 0 * w == 0;
    Small(z, p);
  }

  lemma ZeroH(h: int, r: int, u1: int, s1: int, qx: int, qy: int, p: int)
    requires p > 0 && h % p == 0
    requires qx % p == (r * r - h * h * h - 2 * (u1 * (h * h))) % p
    requires qy % p == (r * (u1 * (h * h) - qx) - s1 * (h * h * h)) % p
    ensures qx % p == Square(r) % p && qy % p == (-Cube(r)) % p
  {
    Small(0, p);
    CongMul(h, 0, h, 0, p);
    CongMul(h * h, 0, h, 0, p);
    CongMul(u1, u1, h * h, 0, p);
    CongMul(s1, s1, h * h * h, 0, p);
    CongAdd(u1 * (h * h), 0, u1 * (h * h), 0, p);
    CongAdd(r * r, r * r, h * h * h, 0, p);
    CongAdd(r * r - h * h * h, r * r, 2 * (u1 * (h * h)), 0, p);
    CongAdd(u1 * (h * h), 0, qx, r * r, p);
    CongMul(r, r, u1 * (h * h) - qx, 0 - r * r, p);
    CongAdd(r * (u1 * (h * h) - qx), r * (0 - r * r), s1 * (h * h * h), 0, p);
    assert r * (0 - r * r) == -(r * r * r);
  }

  lemma AddsToDegenerate(j: Jacobian, t: int, b: XY, p: nat)
    requires Prime(p) && Degenerate(j, t, p) && Reduced(b, p) && b != INFINITY
    ensures MulMod(j.x, 1, p) == j.x && JacAdd(j, Jacobian(b.x, b.y, 1), p).Some?
  {
    Small(0, p);
    Small(1, p);
    Small(j.x, p);
    DegenerateIsPoint(j, t, p);
    assert MulMod(0, 0, p) == 0 && MulMod(0, MulMod(0, 0, p), p) == 0 && MulMod(1, 1, p) == 1;
    assert MulMod(b.x, 0, p) == 0 && MulMod(b.y, 0, p) == 0;
  }

  /** Adding a finite point to a degenerate triple yields (0, 0, 0). */
  lemma AddToDegenerate(j: Jacobian, t: int, b: XY, p: nat)
    requires Prime(p) && Degenerate(j, t, p) && Reduced(b, p) && b != INFINITY
    ensures JacAdd(j, Jacobian(b.x, b.y, 1), p) == Some(Jacobian(0, 0, 0))
  {
    hide JacAdd;
    Small(0, p);
    Small(1, p);
    var one := Jacobian(b.x, b.y, 1);
    DegenerateIsPoint(j, t, p);
    AddsToDegenerate(j, t, b, p);
    var u1, s1, u2, s2, h, r, q := AddFormulas(j, one, p);
    assert u2 % p == 0 && s2 % p == 0 by {
      assert b.x * Square(0) == 0 && b.y * Cube(0) == 0;
    }
    assert u1 % p == Square(t) % p && s1 % p == (-Cube(t)) % p by {
      assert j.x * Square(1) == j.x && j.y * Cube(1) == j.y;
    }
    CongAdd(u2, 0, u1, Square(t), p);
    CongAdd(s2, 0, s1, -Cube(t), p);
    Vanishes(t, h, r, u1, s1, q.x, q.y, p);
    assert h * (0 * 1) == 0;
    Small(q.x, p);
    Small(q.y, p);
    Small(q.z, p);
  }

  lemma DegenerateIsPoint(j: Jacobian, t: int, p: nat)
    requires Prime(p) && Degenerate(j, t, p)
    ensures j.x != 0 && !NoPoint(j.x, j.y)
  {
    Small(0, p);
    if j.x == 0 {
      ZeroProduct(t, t, p);
    }
  }

  lemma Vanishes(t: int, h: int, r: int, u1: int, s1: int, qx: int, qy: int, p: int)
    requires p > 0 && h % p == (-Square(t)) % p && r % p == Cube(t) % p
    requires u1 % p == Square(t) % p && s1 % p == (-Cube(t)) % p
    requires qx % p == (r * r - h * h * h - 2 * (u1 * (h * h))) % p
    requires qy % p == (r * (u1 * (h * h) - qx) - s1 * (h * h * h)) % p
    ensures qx % p == 0 && qy % p == 0
  {
    Small(0, p);
    var s, c := Square(t), Cube(t);
    CongMul(h, -s, h, -s, p);
    CongMul(h * h, (-s) * (-s), h, -s, p);
    CongMul(r, c, r, c, p);
    CongMul(u1, s, h * h, (-s) * (-s), p);
    CongAdd(u1 * (h * h), s * ((-s) * (-s)), u1 * (h * h), s * ((-s) * (-s)), p);
    CongAdd(r * r, c * c, h * h * h, (-s) * (-s) * (-s), p);
    CongAdd(r * r - h * h * h, c * c - (-s) * (-s) * (-s), 2 * (u1 * (h * h)), 2 * (s * ((-s) * (-s))), p);
    SixthPowers(t);
    CongAdd(u1 * (h * h), s * ((-s) * (-s)), qx, 0, p);
    CongMul(r, c, u1 * (h * h) - qx, s * ((-s) * (-s)), p);
    CongMul(s1, -c, h * h * h, (-s) * (-s) * (-s), p);
    CongAdd(r * (u1 * (h * h) - qx), c * (s * ((-s) * (-s))), s1 * (h * h * h), (-c) * ((-s) * (-s) * (-s)), p);
    NinthPowers(s, c);
  }

  lemma SixthPowers(t: int)
    ensures var s, c := Square(t), Cube(t);
            c * c - (-s) * (-s) * (-s) - 2 * (s * ((-s) * (-s))) == 0
  {
    var s, c := Square(t), Cube(t);
    assert c * c == s * s * s by {
      assert (t * t * t) * (t * t * t) == (t * t) * (t * t) * (t * t);
    }
    assert (-s) * (-s) == s * s;
    assert (s * s) * (-s) == -(s * s * s);
    assert s * (s * s) == s * s * s;
  }

  lemma NinthPowers(s: int, c: int)
    ensures c * (s * ((-s) * (-s))) - (-c) * ((-s) * (-s) * (-s)) == 0
  {
    assert (-s) * (-s) == s * s;
    assert (s * s) * (-s) == -(s * (s * s));
    var m := s * (s * s);
    assert (-c) * (-m) == c * m;
  }

  // ---------- ecAdd ----------

  /** On the curve, equal x means equal or opposite points. */
  lemma SameXOnCurve(a: XY, b: XY, coefficient: nat, constant: nat, p: nat)
    requires Prime(p) && OnCurve(a, coefficient, constant, p) && OnCurve(b, coefficient, constant, p) && a.x == b.x
    ensures a.y == b.y || (a.y + b.y) % p == 0
  {
    CongDifference(a.y * a.y, b.y * b.y, p);
    assert a.y * a.y - b.y * b.y == (a.y - b.y) * (a.y + b.y);
    ZeroProduct(a.y - b.y, a.y + b.y, p);
    DistinctResidues(a.y, b.y, p);
  }

  lemma DoubleRepresentsTangent(a: XY, coefficient: nat, p: nat)
    requires Prime(p) && Reduced(a, p) && (2 * a.y) % p != 0
    ensures JacDouble(Jacobian(a.x, a.y, 1), coefficient, p).Some?
    ensures var q := JacDouble(Jacobian(a.x, a.y, 1), coefficient, p).value; var c := Tangent(a, coefficient, p);
            q.z < p && Reduced(c, p) && Represents(q, c.x, c.y, p)
  {
    var one := Jacobian(a.x, a.y, 1);
    OneRepresents(a, p);
    var l := TangentSlopeExists(a, coefficient, p);
    JacDoubleIsTangent(one, coefficient, p, l, a.x, a.y);
    var q := JacDouble(one, coefficient, p).value;
    assert (2 * a.y) * Square(Square(1)) == 2 * a.y;
    UnitOfNonzero(2 * a.y, p);
    UnitOfCong(2 * a.y, q.z, p);
    ReducedRepresents(q, LineX(l, a.x, a.x), LineY(l, a.x, a.y, LineX(l, a.x, a.x)), p);
  }

  lemma OriginOffCurve(coefficient: nat, constant: nat, p: nat)
    requires p > 0 && constant % p != 0
    ensures !OnCurve(INFINITY, coefficient, constant, p)
  {
    CubicExpands(0, coefficient, constant);
    Small(0, p);
  }

  lemma TwiceNonzero(y: nat, p: nat)
    requires p > 2 && y < p && (y + y) % p != 0
    ensures (2 * y) % p != 0
  {
  }

  /**
   * `ecAdd` on two finite points of the curve never fails. It answers (0, 0) exactly on opposite points;
   * otherwise it answers their chord or, on equal points, the tangent, and that point is on the curve.
   */
  lemma EcAddIsGroupLaw(a: XY, b: XY, coefficient: nat, constant: nat, p: nat)
    requires Prime(p) && p > 2 && constant % p != 0
    requires OnCurve(a, coefficient, constant, p) && OnCurve(b, coefficient, constant, p)
    ensures EcAdd(a, b, coefficient, p).Some?
    ensures var r := EcAdd(a, b, coefficient, p).value;
            && (r == INFINITY <==> a.x == b.x && (a.y + b.y) % p == 0)
            && (r != INFINITY ==> OnCurve(r, coefficient, constant, p))
    ensures a.x != b.x ==> (b.x - a.x) % p != 0 && EcAdd(a, b, coefficient, p).value == Chord(a, b, p)
    ensures a.x == b.x && (a.y + b.y) % p != 0 ==>
              a == b && (2 * a.y) % p != 0 && EcAdd(a, b, coefficient, p).value == Tangent(a, coefficient, p)
  {
    OriginOffCurve(coefficient, constant, p);
    if a.x == b.x {
      SameXOnCurve(a, b, coefficient, constant, p);
      if (a.y + b.y) % p != 0 {
        TwiceNonzero(a.y, p);
        DoubleRepresentsTangent(a, coefficient, p);
        TangentOnCurve(a, coefficient, constant, p);
        ToAffineOfRepresented(JacDouble(Jacobian(a.x, a.y, 1), coefficient, p).value, Tangent(a, coefficient, p), p);
      }
    } else {
      DistinctResidues(b.x, a.x, p);
      OneRepresents(a, p);
      OneRepresents(b, p);
      var ja, jb := Jacobian(a.x, a.y, 1), Jacobian(b.x, b.y, 1);
      AddRepresentsChord(ja, jb, a, b, p);
      ChordOnCurve(a, b, coefficient, constant, p);
      ToAffineOfRepresented(JacAdd(ja, jb, p).value, Chord(a, b, p), p);
    }
  }

  lemma EcAddCommutes(a: XY, b: XY, coefficient: nat, constant: nat, p: nat)
    requires Prime(p) && p > 2 && constant % p != 0
    requires OnCurve(a, coefficient, constant, p) && OnCurve(b, coefficient, constant, p)
    ensures EcAdd(a, b, coefficient, p) == EcAdd(b, a, coefficient, p)
  {
    EcAddIsGroupLaw(a, b, coefficient, constant, p);
    EcAddIsGroupLaw(b, a, coefficient, constant, p);
    assert a.y + b.y == b.y + a.y;
    if a.x != b.x {
      ChordCommutes(a, b, p);
    }
  }

  // ---------- the point at infinity ----------

  lemma OddTwice(y: nat, p: nat)
    requires Prime(p) && p > 2 && 0 < y < p
    ensures (y + y) % p != 0 && (2 * y) % p != 0
  {
    if (y + y) % p == 0 {
      assert y + y == p by {
        if y + y < p {
          Small(y + y, p);
        } else if y + y > p {
          Small(y + y - p, p);
          ModOfMultiple(y + y - p, 1, p);
        }
      }
      assert Divides(2, p);
    }
  }

  /** A point is never its own double. */
  lemma DoubleDiffers(b: XY, coefficient: nat, p: nat)
    requires Prime(p) && p > 2 && Reduced(b, p) && b.x == 0 && b.y != 0 && (2 * b.y) % p != 0
    ensures Tangent(b, coefficient, p) != b
  {
    UnitOfNonzero(2 * b.y, p);
    var l := (3 * (b.x * b.x) + coefficient) * InverseMod(2 * b.y, p);
    FlatTangent(l, b.y, p);
  }

  lemma FlatTangent(l: int, y: nat, p: nat)
    requires Prime(p) && p > 2 && 0 < y < p
    ensures OnLine(l, XY(0, y), 0, p) != XY(0, y)
  {
    var x3 := LineX(l, 0, 0);
    Small(0, p);
    hide Prime, Divides, LineX;
    if x3 % p == 0 {
      MultipleVanishes(l, x3, p);
      OddTwice(y, p);
      if LineY(l, 0, y, x3) % p == y {
        SelfOpposite(l * (0 - x3), y, p);
      }
    }
  }

  lemma MultipleVanishes(l: int, x: int, p: int)
    requires p > 0 && x % p == 0
    ensures (l * (0 - x)) % p == 0
  {
    Small(0, p);
    CongMinus(0, 0, x, 0, p);
    CongScale(0 - x, 0, l, p);
    Zeroes(l, 0 - x);
  }

  lemma Zeroes(l: int, x: int)
    ensures 0 * l == 0 && x * l == l * x
  {
  }

  lemma SelfOpposite(h: int, y: int, p: int)
    requires p > 0 && h % p == 0 && 0 <= y < p && (h - y) % p == y
    ensures (y + y) % p == 0
  {
    Small(0, p);
    Small(y, p);
    CongMinus(h, 0, y, y, p);
    CongDifference(y, 0 - y, p);
  }

  lemma DoublesAlone(b: XY, coefficient: nat, p: nat)
    requires Prime(p) && p > 2 && Reduced(b, p) && b.x == 0 && b.y != 0
    ensures (2 * b.y) % p != 0 && EcAdd(b, INFINITY, coefficient, p) == Some(Tangent(b, coefficient, p))
  {
    OddTwice(b.y, p);
    Small(b.y, p);
    DoubleRepresentsTangent(b, coefficient, p);
    ToAffineOfRepresented(JacDouble(Jacobian(b.x, b.y, 1), coefficient, p).value, Tangent(b, coefficient, p), p);
  }

  lemma FailsFromInfinity(b: XY, coefficient: nat, p: nat)
    requires Prime(p) && p > 2 && Reduced(b, p) && b.x == 0 && b.y != 0
    ensures EcAdd(INFINITY, b, coefficient, p) == None
  {
    Small(b.y, p);
    Small(0, p);
    assert MulMod(0, 1, p) == 0 && MulMod(2, 0, p) == 0;
  }

  lemma AddsToInfinity(b: XY, coefficient: nat, p: nat)
    requires Prime(p) && Reduced(b, p) && b.x != 0
    ensures EcAdd(INFINITY, b, coefficient, p) == Some(b) == EcAdd(b, INFINITY, coefficient, p)
  {
    OneRepresents(b, p);
    ToAffineOfRepresented(Jacobian(b.x, b.y, 1), b, p);
  }

  /**
   * (0, 0) is neutral for `ecAdd` exactly next to points whose x is not 0: next to another finite point, from the left
   * it makes `ecAdd` revert, and from the right it makes it double that point.
   */
  lemma InfinityIsNeutralIff(b: XY, coefficient: nat, p: nat)
    requires Prime(p) && p > 2 && Reduced(b, p) && b != INFINITY
    ensures EcAdd(b, INFINITY, coefficient, p) == Some(b) <==> b.x != 0
    ensures EcAdd(INFINITY, b, coefficient, p) == Some(b) <==> b.x != 0
    ensures b.x == 0 ==>
              && EcAdd(INFINITY, b, coefficient, p) == None && (2 * b.y) % p != 0
              && EcAdd(b, INFINITY, coefficient, p) == Some(Tangent(b, coefficient, p))
    ensures EcAdd(INFINITY, INFINITY, coefficient, p) == Some(INFINITY)
  {
    hide EcAdd;
    TwoInfinities(coefficient, p);
    if b.x == 0 {
      FailsFromInfinity(b, coefficient, p);
      DoublesAlone(b, coefficient, p);
      DoubleDiffers(b, coefficient, p);
    } else {
      AddsToInfinity(b, coefficient, p);
    }
  }

  lemma TwoInfinities(coefficient: nat, p: nat)
    requires p > 0
    ensures EcAdd(INFINITY, INFINITY, coefficient, p) == Some(INFINITY)
  {
    Small(0, p);
  }

  // ---------- sum ----------

  /** What the running sum stands for. */
  datatype Running =
    | At(point: XY)   // the affine point, (0, 0) being the identity
    | Cancelled       // the last point met another one with the same x: z is zero
    | Lost            // a point was added to a cancelled sum: the triple is (0, 0, 0)

  ghost predicate Stands(j: Jacobian, s: Running, p: nat)
    requires p > 0
  {
    match s
    case At(a) => j.x < p && j.y < p && j.z < p && Reduced(a, p) && Represents(j, a.x, a.y, p)
    case Cancelled => exists t :: Degenerate(j, t, p)
    case Lost => j == Jacobian(0, 0, 0)
  }

  /** One addition of `sum`, in affine terms; None is a revert. */
  ghost function Step(s: Running, b: XY, p: nat): Option<Running>
    requires Prime(p)
    requires Reduced(b, p) && (s.At? ==> Reduced(s.point, p))
  {
    match s
    case At(a) =>
      if a == INFINITY then Some(At(b))
      else if b == INFINITY then Some(s)
      else if a.x != b.x then
        DistinctResidues(b.x, a.x, p);
        Some(At(Chord(a, b, p)))
      else if a.y == b.y then None
      else Some(Cancelled)
    case Cancelled => Some(if b == INFINITY then Cancelled else Lost)
    case Lost => Some(At(b))
  }

  predicate AllReduced(points: seq<XY>, p: nat) {
    forall i :: 0 <= i < |points| ==> Reduced(points[i], p)
  }

  ghost function Steps(s: Running, points: seq<XY>, p: nat): Option<Running>
    requires Prime(p) && AllReduced(points, p) && (s.At? ==> Reduced(s.point, p))
    decreases |points|
  {
    if |points| == 0 then Some(s)
    else
      match Step(s, points[0], p)
      case None => None
      case Some(next) => Steps(next, points[1..], p)
  }

  lemma StepSimulates(j: Jacobian, s: Running, b: XY, p: nat)
    requires Prime(p) && Stands(j, s, p) && Reduced(b, p)
    ensures JacAdd(j, Jacobian(b.x, b.y, 1), p).Some? <==> Step(s, b, p).Some?
    ensures Step(s, b, p).Some? ==> Stands(JacAdd(j, Jacobian(b.x, b.y, 1), p).value, Step(s, b, p).value, p)
  {
    var one := Jacobian(b.x, b.y, 1);
    OneRepresents(b, p);
    match s
    case At(a) =>
      NoPointOfRepresented(j, a, p);
      if a != INFINITY && b != INFINITY {
        AddFailsOnEqual(j, one, a, b, p);
        if a.x != b.x {
          AddRepresentsChord(j, one, a, b, p);
        } else if a.y != b.y {
          var t := AddMeetsSameX(j, one, a, b, p);
        }
      }
    case Cancelled =>
      var t :| Degenerate(j, t, p);
      DegenerateIsPoint(j, t, p);
      if b != INFINITY {
        AddToDegenerate(j, t, b, p);
      }
    case Lost =>
  }

  lemma {:induction false} SumSimulates(j: Jacobian, s: Running, points: seq<XY>, p: nat)
    requires Prime(p) && Stands(j, s, p) && AllReduced(points, p)
    ensures SumFrom(j, points, p).Some? <==> Steps(s, points, p).Some?
    ensures Steps(s, points, p).Some? ==> Stands(SumFrom(j, points, p).value, Steps(s, points, p).value, p)
    decreases |points|
  {
    if |points| > 0 {
      StepSimulates(j, s, points[0], p);
      var next := JacAdd(j, Jacobian(points[0].x, points[0].y, 1), p);
      if next.Some? {
        SumSimulates(next.value, Step(s, points[0], p).value, points[1..], p);
      }
    }
  }

  /** Only a sum that stands for an affine point can be converted. */
  function Answer(s: Option<Running>): Option<XY> {
    if s.Some? && s.value.At? then Some(s.value.point) else None
  }

  /** Everything `sum` can answer on reduced points: the affine point reached, and otherwise a revert. */
  lemma SumOutcome(points: seq<XY>, p: nat)
    requires Prime(p) && AllReduced(points, p)
    ensures |points| == 0 ==> SumOf(points, p).None?
    ensures |points| > 0 ==> SumOf(points, p) == Answer(Steps(At(points[0]), points[1..], p))
  {
    if |points| > 0 {
      var first := Jacobian(points[0].x, points[0].y, 1);
      OneRepresents(points[0], p);
      SumSimulates(first, At(points[0]), points[1..], p);
      var last := Steps(At(points[0]), points[1..], p);
      if last.Some? {
        var j := SumFrom(first, points[1..], p).value;
        if last.value.At? {
          ToAffineOfRepresented(j, last.value.point, p);
        } else {
          ToAffineOfZero(j, p);
        }
      }
    }
  }

  /** No step brings together two finite points with the same x. */
  ghost predicate Separated(a: XY, points: seq<XY>, p: nat)
    requires Prime(p) && Reduced(a, p) && AllReduced(points, p)
    decreases |points|
  {
    |points| == 0
    || var b := points[0];
       if a == INFINITY then Separated(b, points[1..], p)
       else if b == INFINITY then Separated(a, points[1..], p)
       else a.x != b.x && (DistinctResidues(b.x, a.x, p); Separated(Chord(a, b, p), points[1..], p))
  }

  /** The left fold of the chord law with (0, 0) as identity. */
  ghost function ChordFold(a: XY, points: seq<XY>, p: nat): XY
    requires Prime(p) && Reduced(a, p) && AllReduced(points, p) && Separated(a, points, p)
    decreases |points|
  {
    if |points| == 0 then a
    else
      var b := points[0];
      if a == INFINITY then ChordFold(b, points[1..], p)
      else if b == INFINITY then ChordFold(a, points[1..], p)
      else
        DistinctResidues(b.x, a.x, p);
        ChordFold(Chord(a, b, p), points[1..], p)
  }

  lemma {:induction false} SeparatedSteps(a: XY, points: seq<XY>, p: nat)
    requires Prime(p) && Reduced(a, p) && AllReduced(points, p) && Separated(a, points, p)
    ensures Steps(At(a), points, p) == Some(At(ChordFold(a, points, p)))
    decreases |points|
  {
    if |points| > 0 {
      var b := points[0];
      if a == INFINITY {
        SeparatedSteps(b, points[1..], p);
      } else if b == INFINITY {
        SeparatedSteps(a, points[1..], p);
      } else {
        DistinctResidues(b.x, a.x, p);
        SeparatedSteps(Chord(a, b, p), points[1..], p);
      }
    }
  }

  /** Under the side condition `sum` succeeds and is the fold of the affine law. */
  lemma SumRefinesFold(points: seq<XY>, p: nat)
    requires Prime(p) && |points| > 0 && AllReduced(points, p) && Separated(points[0], points[1..], p)
    ensures SumOf(points, p) == Some(ChordFold(points[0], points[1..], p))
  {
    SeparatedSteps(points[0], points[1..], p);
    SumOutcome(points, p);
  }

  // ---------- when the side condition fails ----------

  lemma {:induction false} StepsSplit(s: Running, x: seq<XY>, y: seq<XY>, p: nat)
    requires Prime(p) && AllReduced(x, p) && AllReduced(y, p) && AllReduced(x + y, p) && (s.At? ==> Reduced(s.point, p))
    ensures Steps(s, x, p) == None ==> Steps(s, x + y, p) == None
    ensures Steps(s, x, p).Some? && (Steps(s, x, p).value.At? ==> Reduced(Steps(s, x, p).value.point, p)) ==>
              Steps(s, x + y, p) == Steps(Steps(s, x, p).value, y, p)
    decreases |x|
  {
    if |x| == 0 {
      assert x + y == y;
    } else {
      assert (x + y)[0] == x[0] && (x + y)[1..] == x[1..] + y;
      var next := Step(s, x[0], p);
      if next.Some? {
        StepsSplit(next.value, x[1..], y, p);
      }
    }
  }

  lemma {:induction false} SeparatedPrefix(a: XY, points: seq<XY>, k: nat, p: nat)
    requires Prime(p) && Reduced(a, p) && AllReduced(points, p) && Separated(a, points, p) && k <= |points|
    ensures Separated(a, points[..k], p)
    decreases |points|
  {
    if k > 0 {
      var b := points[0];
      assert points[..k][1..] == points[1..][..k - 1];
      if a == INFINITY {
        SeparatedPrefix(b, points[1..], k - 1, p);
      } else if b == INFINITY {
        SeparatedPrefix(a, points[1..], k - 1, p);
      } else {
        DistinctResidues(b.x, a.x, p);
        SeparatedPrefix(Chord(a, b, p), points[1..], k - 1, p);
      }
    }
  }

  lemma {:induction false} FoldReduced(a: XY, points: seq<XY>, p: nat)
    requires Prime(p) && Reduced(a, p) && AllReduced(points, p) && Separated(a, points, p)
    ensures Reduced(ChordFold(a, points, p), p)
    decreases |points|
  {
    if |points| > 0 {
      var b := points[0];
      if a == INFINITY {
        FoldReduced(b, points[1..], p);
      } else if b == INFINITY {
        FoldReduced(a, points[1..], p);
      } else {
        DistinctResidues(b.x, a.x, p);
        FoldReduced(Chord(a, b, p), points[1..], p);
      }
    }
  }

  /** The fold of the points before `b` and `b` are finite and share an x. */
  ghost predicate Meets(a: XY, points: seq<XY>, b: XY, p: nat)
    requires Prime(p) && Reduced(a, p) && AllReduced(points, p)
  {
    Separated(a, points, p) && ChordFold(a, points, p) != INFINITY && b != INFINITY && ChordFold(a, points, p).x == b.x
  }

  /** Without the side condition there is a first meeting. */
  lemma {:induction false} FirstMeeting(a: XY, points: seq<XY>, p: nat) returns (k: nat)
    requires Prime(p) && Reduced(a, p) && AllReduced(points, p) && !Separated(a, points, p)
    ensures k < |points| && Meets(a, points[..k], points[k], p)
    decreases |points|
  {
    var b, rest := points[0], points[1..];
    if a == INFINITY || b == INFINITY || a.x != b.x {
      var next := if a == INFINITY then b else if b == INFINITY then a else NextPoint(a, b, p);
      var j := FirstMeeting(next, rest, p);
      k := j + 1;
      assert points[..k][1..] == rest[..j] && points[..k][0] == b;
    } else {
      k := 0;
      assert points[..0] == [];
    }
  }

  ghost function NextPoint(a: XY, b: XY, p: nat): XY
    requires Prime(p) && Reduced(a, p) && Reduced(b, p) && a.x != b.x
  {
    DistinctResidues(b.x, a.x, p);
    Chord(a, b, p)
  }

  /** What is left of the points after a meeting of opposite points: all up to the next finite point is forgotten. */
  function Survivors(rest: seq<XY>): (r: seq<XY>)
    ensures |r| <= |rest| && r == rest[|rest| - |r|..]
  {
    if |rest| == 0 then []
    else if rest[0] == INFINITY then Survivors(rest[1..])
    else rest[1..]
  }

  lemma {:induction false} CancelledForgets(rest: seq<XY>, p: nat)
    requires Prime(p) && AllReduced(rest, p)
    ensures AllReduced(Survivors(rest), p) && Answer(Steps(Cancelled, rest, p)) == SumOf(Survivors(rest), p)
    decreases |rest|
  {
    if |rest| > 0 {
      if rest[0] == INFINITY {
        CancelledForgets(rest[1..], p);
      } else {
        SumOutcome(rest[1..], p);
        LostStartsOver(rest[1..], p);
      }
    }
  }

  lemma LostStartsOver(rest: seq<XY>, p: nat)
    requires Prime(p) && AllReduced(rest, p)
    ensures Answer(Steps(Lost, rest, p)) == SumOf(rest, p)
  {
    SumOutcome(rest, p);
  }

  /**
   * At a first meeting, wherever it is: `sum` reverts if the two points are equal; if they are opposite it forgets
   * everything up to the next finite point, that point included, and answers the sum of the rest.
   */
  lemma MeetingSameX(points: seq<XY>, k: nat, p: nat)
    requires Prime(p) && AllReduced(points, p) && 1 <= k < |points|
    requires Meets(points[0], points[1..k], points[k], p)
    ensures var sum := ChordFold(points[0], points[1..k], p);
            SumOf(points, p) == if sum.y == points[k].y then None else SumOf(Survivors(points[k + 1..]), p)
  {
    var before, rest := points[1..k], points[k..];
    var sum := ChordFold(points[0], before, p);
    SumOutcome(points, p);
    assert points[1..] == before + rest;
    SeparatedSteps(points[0], before, p);
    FoldReduced(points[0], before, p);
    StepsSplit(At(points[0]), before, rest, p);
    assert rest[0] == points[k] && rest[1..] == points[k + 1..];
    if sum.y != points[k].y {
      assert Steps(At(sum), rest, p) == Steps(Cancelled, points[k + 1..], p);
      CancelledForgets(points[k + 1..], p);
    }
  }

  lemma MeetingHasNoSum(points: seq<XY>, k: nat, p: nat)
    requires Prime(p) && AllReduced(points, p) && 1 <= k < |points| && Meets(points[0], points[1..k], points[k], p)
    ensures SumOf(points[..k + 1], p).None?
  {
    hide SumOf, Meets, ChordFold;
    var upTo := points[..k + 1];
    assert upTo[0] == points[0] && upTo[1..k] == points[1..k] && upTo[k] == points[k] && upTo[k + 1..] == [];
    MeetingSameX(upTo, k, p);
    NothingToSum(p);
  }

  lemma NothingToSum(p: nat)
    ensures SumOf(Survivors([]), p) == None
  {
  }

  /**
   * The exact condition. The running sum never meets the next point with the same x if and only if `sum` answers on
   * every prefix of the points, and then each answer is the fold of the affine law.
   */
  lemma SumsAreFoldsIff(points: seq<XY>, p: nat)
    requires Prime(p) && |points| > 0 && AllReduced(points, p)
    ensures Separated(points[0], points[1..], p) <==> forall k :: 1 <= k <= |points| ==> SumOf(points[..k], p).Some?
    ensures Separated(points[0], points[1..], p) ==>
              forall k :: 1 <= k <= |points| ==>
                Separated(points[0], points[1..k], p)
                && SumOf(points[..k], p) == Some(ChordFold(points[0], points[1..k], p))
  {
    hide SumOf, ChordFold, Separated;
    var a, rest := points[0], points[1..];
    if Separated(a, rest, p) {
      forall k | 1 <= k <= |points|
        ensures Separated(a, points[1..k], p) && SumOf(points[..k], p) == Some(ChordFold(a, points[1..k], p))
      {
        SeparatedPrefix(a, rest, k - 1, p);
        assert rest[..k - 1] == points[1..k] == points[..k][1..];
        SumRefinesFold(points[..k], p);
      }
    } else {
      var j := FirstMeeting(a, rest, p);
      assert rest[..j] == points[1..j + 1];
      MeetingHasNoSum(points, j + 1, p);
      assert SumOf(points[..j + 2], p).None?;
    }
  }

  // ---------- a sum that is not the sum ----------

  const SEVEN: nat := 7

  /** Four points of the curve y^2 = x^3 + 2 modulo 7; the first two are opposite. */
  const OPPOSITE_FIRST: seq<XY> := [XY(3, 1), XY(3, 6), XY(5, 1), XY(6, 6)]

  lemma SevenIsPrime()
    ensures Prime(SEVEN)
  {
    forall d | 1 < d < SEVEN
      ensures !Divides(d, SEVEN)
    {
      assert d == 2 || d == 3 || d == 4 || d == 5 || d == 6;
    }
  }

  /**
   * The sum of these points of a curve is the chord point (0, 3) of the last two; `sum` answers (6, 6), the last
   * point alone.
   */
  lemma SumForgetsPoints()
    ensures Prime(SEVEN) && AllReduced(OPPOSITE_FIRST, SEVEN)
    ensures forall i :: 0 <= i < 4 ==> OnCurve(OPPOSITE_FIRST[i], 0, 2, SEVEN)
    ensures EcAdd(OPPOSITE_FIRST[0], OPPOSITE_FIRST[1], 0, SEVEN) == Some(INFINITY)
    ensures EcAdd(OPPOSITE_FIRST[2], OPPOSITE_FIRST[3], 0, SEVEN) == Some(XY(0, 3))
    ensures !Separated(OPPOSITE_FIRST[0], OPPOSITE_FIRST[1..], SEVEN)
    ensures SumOf(OPPOSITE_FIRST, SEVEN) == Some(XY(6, 6))
  {
    SevenIsPrime();
    OnCurveModSeven();
    ChordModSeven();
    ForgetsModSeven();
  }

  lemma ForgetsModSeven()
    requires Prime(SEVEN)
    ensures !Separated(OPPOSITE_FIRST[0], OPPOSITE_FIRST[1..], SEVEN)
    ensures SumOf(OPPOSITE_FIRST, SEVEN) == Some(XY(6, 6))
  {
    hide SumOf, OnCurve, Prime, Chord;
    var points, last := OPPOSITE_FIRST, [XY(6, 6)];
    assert points[1..][0] == XY(3, 6) && points[1..1] == [];
    MeetingSameX(points, 1, SEVEN);
    assert points[2..][0] == XY(5, 1) && points[2..][1..] == last;
    SumOutcome(last, SEVEN);
    assert last[1..] == [];
  }

  lemma OnCurveModSeven()
    ensures forall i :: 0 <= i < 4 ==> OnCurve(OPPOSITE_FIRST[i], 0, 2, SEVEN)
    ensures EcAdd(XY(3, 1), XY(3, 6), 0, SEVEN) == Some(INFINITY)
  {
    CubicExpands(3, 0, 2);
    CubicExpands(5, 0, 2);
    CubicExpands(6, 0, 2);
  }

  lemma ChordModSeven()
    ensures EcAdd(XY(5, 1), XY(6, 6), 0, SEVEN) == Some(XY(0, 3))
  {
    assert MulMod(1, 1, 7) == 1 && MulMod(5, 1, 7) == 5 && MulMod(6, 1, 7) == 6;
    assert AddMod(6, 7 - 5, 7) == 1 && AddMod(6, 7 - 1, 7) == 5;
    assert MulMod(5, 5, 7) == 4 && AddMod(4, 7 - 1, 7) == 3 && MulMod(2, 5, 7) == 3 && AddMod(3, 7 - 3, 7) == 0;
    assert AddMod(5, 7 - 0, 7) == 5 && AddMod(4, 7 - 1, 7) == 3;
    assert MulMod(0, 1, 7) == 0 && MulMod(3, 1, 7) == 3;
    InverseOfOneModSeven();
    hide MulMod, AddMod, Inverse;
    assert JacAdd(Jacobian(5, 1, 1), Jacobian(6, 6, 1), 7) == Some(Jacobian(0, 3, 1));
  }

  lemma InverseOfOneModSeven()
    ensures Inverse(1, 7) == Some(1)
  {
    assert Quotient(7, 1) == 7;
  }
}
