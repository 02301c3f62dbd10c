/** The affine chord and tangent law, and the proofs that `ecAdd` and `sum` refine it. */
module CurveLaw {
  import opened Modular
  import opened BLSHelper
  import opened JacobianLaw

  predicate Reduced(a: XY, p: nat) {
    a.x < p && a.y < p
  }

  ghost function InverseMod(a: int, p: nat): (r: int)
    requires p > 0 && Unit(a, p)
    ensures IsInverse(a, r, p)
  {
    var r :| IsInverse(a, r, p);
    r
  }

  /** The reflected third intersection of the line of slope `l` through `a` and an x coordinate. */
  function OnLine(l: int, a: XY, x2: int, p: nat): XY
    requires p > 0
  {
    var x3 := LineX(l, a.x, x2);
    XY(x3 % p, LineY(l, a.x, a.y, x3) % p)
  }

  ghost function Chord(a: XY, b: XY, p: nat): XY
    requires Prime(p) && (b.x - a.x) % p != 0
  {
    UnitOfNonzero(b.x - a.x, p);
    OnLine((b.y - a.y) * InverseMod(b.x - a.x, p), a, b.x, p)
  }

  ghost function Tangent(a: XY, coefficient: nat, p: nat): XY
    requires Prime(p) && (2 * a.y) % p != 0
  {
    UnitOfNonzero(2 * a.y, p);
    OnLine((3 * (a.x * a.x) + coefficient) * InverseMod(2 * a.y, p), a, a.x, p)
  }

  /** The value of a polynomial, given by its coefficients from the constant term on. */
  function Polynomial(coefficients: seq<int>, x: int): int {
    if |coefficients| == 0 then 0 else coefficients[0] + x * Polynomial(coefficients[1..], x)
  }

  /** The right side of the curve equation. */
  function Cubic(x: int, coefficient: int, constant: int): int {
    Polynomial([constant, coefficient, 0, 1], x)
  }

  lemma CubicExpands(x: int, coefficient: int, constant: int)
    ensures Cubic(x, coefficient, constant) == x * x * x + coefficient * x + constant
  {
    assert [1][1..] == [] && [0, 1][1..] == [1] && [coefficient, 0, 1][1..] == [0, 1]
           && [constant, coefficient, 0, 1][1..] == [coefficient, 0, 1];
    assert Polynomial([1], x) == 1 + x * Polynomial([], x) == 1;
    assert Polynomial([0, 1], x) == 0 + x * 1;
    assert Polynomial([coefficient, 0, 1], x) == coefficient + x * x;
    assert Polynomial([constant, coefficient, 0, 1], x) == constant + x * (coefficient + x * x);
    hide Polynomial;
    assert x * (coefficient + x * x) == coefficient * x + x * x * x;
  }

  predicate OnCurve(a: XY, coefficient: nat, constant: nat, p: nat) {
    Reduced(a, p) && (a.y * a.y) % p == Cubic(a.x, coefficient, constant) % p
  }

  // ---------- slopes ----------

  lemma QuotientSolves(d: int, n: int, p: nat)
    requires p > 0 && Unit(d, p)
    ensures ((n * InverseMod(d, p)) * d) % p == n % p
  {
    var i := InverseMod(d, p);
    CongMul(n, n, d * i, 1, p);
    Assoc(n, i, d);
    assert i * d == d * i;
  }

  lemma OnLineOfCong(l: int, l': int, a: XY, x2: int, p: nat)
    requires p > 0 && l % p == l' % p
    ensures OnLine(l, a, x2, p) == OnLine(l', a, x2, p)
  {
    CongMul(l, l', l, l', p);
    CongAdd(l * l, l' * l', a.x + x2, a.x + x2, p);
    var x3, x3' := LineX(l, a.x, x2), LineX(l', a.x, x2);
    assert x3 == l * l - (a.x + x2) && x3' == l' * l' - (a.x + x2);
    CongAdd(a.x, a.x, x3, x3', p);
    CongMul(l, l', a.x - x3, a.x - x3', p);
    CongAdd(l * (a.x - x3), l' * (a.x - x3'), a.y, a.y, p);
  }

  /** Any solution of the slope equation gives the chord. */
  lemma ChordOfSlope(l: int, a: XY, b: XY, p: nat)
    requires Prime(p) && (b.x - a.x) % p != 0 && ChordSlope(l, a.x, a.y, b.x, b.y, p)
    ensures Chord(a, b, p) == OnLine(l, a, b.x, p)
  {
    var d := b.x - a.x;
    UnitOfNonzero(d, p);
    QuotientSolves(d, b.y - a.y, p);
    Cancel((b.y - a.y) * InverseMod(d, p), l, d, p);
    OnLineOfCong((b.y - a.y) * InverseMod(d, p), l, a, b.x, p);
  }

  lemma SlopeExists(a: XY, b: XY, p: nat) returns (l: int)
    requires Prime(p) && (b.x - a.x) % p != 0
    ensures ChordSlope(l, a.x, a.y, b.x, b.y, p) && Chord(a, b, p) == OnLine(l, a, b.x, p)
  {
    UnitOfNonzero(b.x - a.x, p);
    l := (b.y - a.y) * InverseMod(b.x - a.x, p);
    QuotientSolves(b.x - a.x, b.y - a.y, p);
  }

  lemma NegateCong(a: int, p: int)
    requires p > 0
    ensures a % p == 0 <==> (-a) % p == 0
  {
    Small(0, p);
    if a % p == 0 {
      CongAdd(0, 0, a, 0, p);
    }
    if (-a) % p == 0 {
      CongAdd(0, 0, -a, 0, p);
    }
  }

  lemma DistinctResidues(x: int, y: int, p: int)
    requires 0 <= x < p && 0 <= y < p
    ensures (x - y) % p == 0 <==> x == y
  {
    Small(x, p);
    Small(y, p);
    CongDifference(x, y, p);
  }

  lemma ReverseSlope(l: int, x1: int, y1: int, x2: int, y2: int, p: int)
    requires p > 0 && ChordSlope(l, x1, y1, x2, y2, p)
    ensures ChordSlope(l, x2, y2, x1, y1, p)
  {
    CongAdd(0, 0, l * (x2 - x1), y2 - y1, p);
    NegatedFactor(l, x1, x2);
  }

  lemma NegatedFactor(l: int, x1: int, x2: int)
    ensures 0 - l * (x2 - x1) == l * (x1 - x2)
  {
  }

  /** Both end points of a chord put the reflected intersection at the same height. */
  lemma SameHeight(l: int, x1: int, y1: int, x2: int, y2: int, x3: int, p: int)
    requires p > 0 && ChordSlope(l, x1, y1, x2, y2, p)
    ensures LineY(l, x1, y1, x3) % p == LineY(l, x2, y2, x3) % p
  {
    CongDifference(l * (x2 - x1), y2 - y1, p);
    assert LineY(l, x2, y2, x3) - LineY(l, x1, y1, x3) == l * (x2 - x1) - (y2 - y1) by {
      assert l * (x2 - x3) - l * (x1 - x3) == l * (x2 - x1);
    }
    CongDifference(LineY(l, x2, y2, x3), LineY(l, x1, y1, x3), p);
  }

  lemma ChordCommutes(a: XY, b: XY, p: nat)
    requires Prime(p) && (b.x - a.x) % p != 0
    ensures (a.x - b.x) % p != 0 && Chord(a, b, p) == Chord(b, a, p)
  {
    NegateCong(b.x - a.x, p);
    assert -(b.x - a.x) == a.x - b.x;
    var l := SlopeExists(a, b, p);
    ReverseSlope(l, a.x, a.y, b.x, b.y, p);
    ChordOfSlope(l, b, a, p);
    assert LineX(l, b.x, a.x) == LineX(l, a.x, b.x);
    SameHeight(l, a.x, a.y, b.x, b.y, LineX(l, a.x, b.x), p);
  }

  // ---------- lines stay on the curve ----------

  /** The quotient of the line-cubic difference by X - x1. */
  function Quadratic(t: int, l: int, x1: int, y1: int, coefficient: int): int {
    t * t + t * x1 + x1 * x1 + coefficient - l * l * (t - x1) - 2 * l * y1
  }

  lemma Factorisation(t: int, l: int, x1: int, y1: int, coefficient: int, constant: int)
    ensures (t - x1) * Quadratic(t, l, x1, y1, coefficient)
         == Cubic(t, coefficient, constant) - (l * (t - x1) + y1) * (l * (t - x1) + y1)
            - (Cubic(x1, coefficient, constant) - y1 * y1)
  {
    hide Quadratic, Cubic;
    DifferenceOfCubics(t, l, x1, y1, coefficient);
    CubicExpands(t, coefficient, constant);
    CubicExpands(x1, coefficient, constant);
  }

  lemma DifferenceOfCubics(t: int, l: int, x1: int, y1: int, coefficient: int)
    ensures (t - x1) * Quadratic(t, l, x1, y1, coefficient)
         == t * t * t + coefficient * t - (l * (t - x1) + y1) * (l * (t - x1) + y1)
            - (x1 * x1 * x1 + coefficient * x1 - y1 * y1)
  {
    var d := t - x1;
    var squares, line := t * t + t * x1 + x1 * x1, l * l * d + 2 * l * y1;
    CubesFactor(t, x1);
    Minus(coefficient, t, x1);
    LineSquared(d, l, y1);
    Expand(d, squares, coefficient, line);
  }

  lemma CubesFactor(t: int, x: int)
    ensures (t - x) * (t * t + t * x + x * x) == t * t * t - x * x * x
  {
    var a, b, c := t * t, t * x, x * x;
    Minus(a + b + c, t, x);
    Plus(t, a, b, c);
    Plus(x, a, b, c);
    assert t * b == x * a && t * c == x * b;
  }

  lemma LineSquared(d: int, l: int, y: int)
    ensures d * (l * l * d + 2 * l * y) == (l * d + y) * (l * d + y) - y * y
  {
    var e := l * d;
    Plus(d, l * l * d, 2 * l * y, 0);
    assert d * (l * l * d) == e * e && d * (2 * l * y) == 2 * (e * y);
    Plus(e, e, y, 0);
    Plus(y, e, y, 0);
    Plus(e + y, e, y, 0);
  }

  lemma Plus(x: int, a: int, b: int, c: int)
    ensures x * (a + b + c) == x * a + x * b + x * c
  {
  }

  lemma Minus(x: int, a: int, b: int)
    ensures (a - b) * x == x * (a - b) == x * a - x * b
  {
  }

  lemma Expand(d: int, a: int, b: int, c: int)
    ensures d * (a + b - c) == d * a + d * b - d * c
  {}

  /** The third root: the quadratic takes the same value at x2 and at the intersection. */
  lemma ThirdRoot(l: int, x1: int, y1: int, x2: int, coefficient: int)
    ensures Quadratic(LineX(l, x1, x2), l, x1, y1, coefficient) == Quadratic(x2, l, x1, y1, coefficient)
  {
    var t := LineX(l, x1, x2);
    assert (t - x2) * (t + x2 + x1 - l * l) == 0;
    assert t * t + t * x1 - l * l * (t - x1) - (x2 * x2 + x2 * x1 - l * l * (x2 - x1))
           == (t - x2) * (t + x2 + x1 - l * l) by {
      assert (t - x2) * (t + x2) == t * t - x2 * x2;
      assert (t - x2) * x1 == t * x1 - x2 * x1;
      assert (t - x2) * (l * l) == l * l * (t - x1) - l * l * (x2 - x1);
      Expand(t - x2, t + x2, x1, l * l);
    }
  }

  /** A line through a point of the curve whose quadratic vanishes at x2 meets the curve again. */
  lemma LineMeetsCurve(l: int, x1: int, y1: int, x2: int, coefficient: int, constant: int, p: int)
    requires p > 0 && (y1 * y1) % p == Cubic(x1, coefficient, constant) % p
    requires Quadratic(x2, l, x1, y1, coefficient) % p == 0
    ensures var x3 := LineX(l, x1, x2); var y3 := LineY(l, x1, y1, x3);
            ((y3 % p) * (y3 % p)) % p == Cubic(x3 % p, coefficient, constant) % p
  {
    hide Cubic, Quadratic;
    var x3 := LineX(l, x1, x2);
    var y3 := LineY(l, x1, y1, x3);
    ThirdRoot(l, x1, y1, x2, coefficient);
    var g := Quadratic(x3, l, x1, y1, coefficient);
    Small(0, p);
    CongMul(x3 - x1, x3 - x1, g, 0, p);
    assert (x3 - x1) * 0 == 0;
    Factorisation(x3, l, x1, y1, coefficient, constant);
    CongDifference(Cubic(x1, coefficient, constant), y1 * y1, p);
    Negated(l, x1, y1, x3);
    var e := Cubic(x3, coefficient, constant) - y3 * y3;
    CongAdd((x3 - x1) * g, 0, Cubic(x1, coefficient, constant) - y1 * y1, 0, p);
    assert e % p == 0;
    CongDifference(Cubic(x3, coefficient, constant), y3 * y3, p);
    ReduceCubic(x3, coefficient, constant, p);
    CongMod(y3, p);
    CongMul(y3 % p, y3, y3 % p, y3, p);
  }

  lemma Negated(l: int, x1: int, y1: int, x3: int)
    ensures LineY(l, x1, y1, x3) * LineY(l, x1, y1, x3) == (l * (x3 - x1) + y1) * (l * (x3 - x1) + y1)
  {
    var u := l * (x3 - x1) + y1;
    assert LineY(l, x1, y1, x3) == -u by {
      assert l * (x1 - x3) == -(l * (x3 - x1));
    }
  }

  lemma ReduceCubic(x: int, coefficient: int, constant: int, p: int)
    requires p > 0
    ensures Cubic(x % p, coefficient, constant) % p == Cubic(x, coefficient, constant) % p
  {
    var r := x % p;
    CongMod(x, p);
    CongMul(r, x, r, x, p);
    CongMul(r * r, x * x, r, x, p);
    CongMul(coefficient, coefficient, r, x, p);
    CongAdd(r * r * r, x * x * x, coefficient * r, coefficient * x, p);
    CongAdd(r * r * r + coefficient * r, x * x * x + coefficient * x, constant, constant, p);
    CubicExpands(r, coefficient, constant);
    CubicExpands(x, coefficient, constant);
  }

  lemma ChordOnCurve(a: XY, b: XY, coefficient: nat, constant: nat, p: nat)
    requires Prime(p) && (b.x - a.x) % p != 0
    requires OnCurve(a, coefficient, constant, p) && OnCurve(b, coefficient, constant, p)
    ensures OnCurve(Chord(a, b, p), coefficient, constant, p)
  {
    hide Cubic, Chord, Quadratic, LineX, LineY;
    var l := SlopeExists(a, b, p);
    var d, g := b.x - a.x, Quadratic(b.x, l, a.x, a.y, coefficient);
    Factorisation(b.x, l, a.x, a.y, coefficient, constant);
    CongAdd(l * d, b.y - a.y, a.y, a.y, p);
    var h := l * d + a.y;
    assert h % p == b.y % p;
    CongMul(h, b.y, h, b.y, p);
    CongDifference(Cubic(b.x, coefficient, constant), h * h, p);
    CongDifference(Cubic(a.x, coefficient, constant), a.y * a.y, p);
    Small(0, p);
    CongAdd(Cubic(b.x, coefficient, constant) - h * h, 0, Cubic(a.x, coefficient, constant) - a.y * a.y, 0, p);
    assert (d * g) % p == 0;
    ZeroProduct(d, g, p);
    LineMeetsCurve(l, a.x, a.y, b.x, coefficient, constant, p);
  }

  lemma TangentSlopeExists(a: XY, coefficient: nat, p: nat) returns (l: int)
    requires Prime(p) && (2 * a.y) % p != 0
    ensures TangentSlope(l, a.x, a.y, coefficient, p) && Tangent(a, coefficient, p) == OnLine(l, a, a.x, p)
  {
    UnitOfNonzero(2 * a.y, p);
    l := (3 * (a.x * a.x) + coefficient) * InverseMod(2 * a.y, p);
    QuotientSolves(2 * a.y, 3 * (a.x * a.x) + coefficient, p);
  }

  lemma DoubleRoot(l: int, x: int, y: int, coefficient: int)
    ensures Quadratic(x, l, x, y, coefficient) == 3 * (x * x) + coefficient - l * (2 * y)
  {
    assert l * l * (x - x) == 0;
    assert 2 * l * y == l * (2 * y);
  }

  lemma TangentOnCurve(a: XY, coefficient: nat, constant: nat, p: nat)
    requires Prime(p) && (2 * a.y) % p != 0 && OnCurve(a, coefficient, constant, p)
    ensures OnCurve(Tangent(a, coefficient, p), coefficient, constant, p)
  {
    hide Cubic, Tangent, Quadratic, LineX, LineY;
    var l := TangentSlopeExists(a, coefficient, p);
    CongDifference(3 * (a.x * a.x) + coefficient, l * (2 * a.y), p);
    DoubleRoot(l, a.x, a.y, coefficient);
    LineMeetsCurve(l, a.x, a.y, a.x, coefficient, constant, p);
  }
}
