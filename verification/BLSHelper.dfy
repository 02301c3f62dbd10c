/**
 * Elliptic-curve arithmetic in Jacobian coordinates (BLSHelper.sol).
 *
 * Numbers have no width here: everything the code computes is below the modulus, at most one of its arguments, or
 * an intermediate of addmod and mulmod, which do not wrap. Words of 256 bits are a special case.
 */
module BLSHelper {
  import opened Evm
  import opened Modular

  /** An affine point; (0, 0) stands for the point at infinity. */
  datatype XY = XY(x: nat, y: nat)

  datatype Jacobian = Jacobian(x: nat, y: nat, z: nat)

  const INFINITY := XY(0, 0)

  predicate NoPoint(x: nat, y: nat) {
    x == 0 && y == 0
  }

  function AddMod(a: nat, b: nat, p: nat): (r: nat)
    requires p > 0
    ensures r < p
  {
    (a + b) % p
  }

  function MulMod(a: nat, b: nat, p: nat): (r: nat)
    requires p > 0
    ensures r < p
  {
    CongMod(a * b, p);
    (a * b) % p
  }

  function JacAdd(a: Jacobian, b: Jacobian, p: nat): Option<Jacobian> {
    if NoPoint(a.x, a.y) then Some(b)
    else if NoPoint(b.x, b.y) then Some(a)
    else if p == 0 then None
    else
      var a2 := MulMod(a.z, a.z, p);
      var a3 := MulMod(a.z, a2, p);
      var b2 := MulMod(b.z, b.z, p);
      var b3 := MulMod(b.z, b2, p);
      var u1, s1, u2, s2 := MulMod(a.x, b2, p), MulMod(a.y, b3, p), MulMod(b.x, a2, p), MulMod(b.y, a3, p);
      if u1 == u2 && s1 == s2 then None
      else
        var h := AddMod(u2, p - u1, p);
        var r := AddMod(s2, p - s1, p);
        var h2 := MulMod(h, h, p);
        var h3 := MulMod(h2, h, p);
        var t := AddMod(MulMod(r, r, p), p - h3, p);
        var qx := AddMod(t, p - MulMod(2, MulMod(u1, h2, p), p), p);
        var v := MulMod(r, AddMod(MulMod(u1, h2, p), p - qx, p), p);
        var qy := AddMod(v, p - MulMod(s1, h3, p), p);
        Some(Jacobian(qx, qy, MulMod(h, MulMod(a.z, b.z, p), p)))
  }

  function JacDouble(a: Jacobian, coefficient: nat, p: nat): Option<Jacobian> {
    if a.z == 0 then Some(a)
    else if p == 0 then None
    else
      var x2 := MulMod(a.x, a.x, p);
      var y2 := MulMod(a.y, a.y, p);
      var z2 := MulMod(a.z, a.z, p);
      var s := MulMod(4, MulMod(a.x, y2, p), p);
      var m := AddMod(MulMod(3, x2, p), MulMod(coefficient, MulMod(z2, z2, p), p), p);
      var qx := AddMod(MulMod(m, m, p), p - AddMod(s, s, p), p);
      var v := MulMod(m, AddMod(s, p - qx, p), p);
      var qy := AddMod(v, p - MulMod(8, MulMod(y2, y2, p), p), p);
      Some(Jacobian(qx, qy, MulMod(2, MulMod(a.y, a.z, p), p)))
  }

  function Quotient(r: nat, x: nat): (t: nat)
    requires x > 0
    ensures r - t * x == r % x
    ensures r % x < x
  {
    DivMod(r, x);
    r / x
  }

  /** What the extended Euclidean loop computes from its current variables. */
  function Euclid(q: nat, newT: nat, r: nat, x: nat, p: nat): nat
    requires p > 0
    decreases x
  {
    if x == 0 then q
    else
      Euclid(newT, AddMod(q, p - MulMod(Quotient(r, x), newT, p), p), x, r % x, p)
  }

  function Inverse(x: nat, p: nat): Option<nat> {
    if x == 0 || x == p || p == 0 then None else Some(Euclid(0, 1, p, x, p))
  }

  method InvMod(x: nat, p: nat) returns (result: Option<nat>)
    ensures result == Inverse(x, p)
  {
    if x == 0 || x == p || p == 0 {
      return None;
    }
    var q: nat, newT: nat, r: nat, d: nat := 0, 1, p, x;
    ghost var expected := Euclid(q, newT, r, d, p);
    while d != 0
      invariant Euclid(q, newT, r, d, p) == expected
      decreases d
    {
      var t := Quotient(r, d);
      q, newT := newT, AddMod(q, p - MulMod(t, newT, p), p);
      r, d := d, r - t * d;
    }
    return Some(q);
  }

  function ToAffine(a: Jacobian, p: nat): Option<XY> {
    var zInv :- Inverse(a.z, p);
    var zInv2 := MulMod(zInv, zInv, p);
    Some(XY(MulMod(a.x, zInv2, p), MulMod(a.y, MulMod(zInv, zInv2, p), p)))
  }

  function EcAdd(a: XY, b: XY, coefficient: nat, p: nat): Option<XY> {
    if a.x == b.x then
      if p == 0 then None
      else if AddMod(a.y, b.y, p) == 0 then Some(INFINITY)
      else
        var q :- JacDouble(Jacobian(a.x, a.y, 1), coefficient, p);
        ToAffine(q, p)
    else
      var q :- JacAdd(Jacobian(a.x, a.y, 1), Jacobian(b.x, b.y, 1), p);
      ToAffine(q, p)
  }

  function SumFrom(acc: Jacobian, points: seq<XY>, p: nat): Option<Jacobian>
    decreases |points|
  {
    if |points| == 0 then Some(acc)
    else
      var next :- JacAdd(acc, Jacobian(points[0].x, points[0].y, 1), p);
      SumFrom(next, points[1..], p)
  }

  /** The value of the loop of `sum`; an empty array is an out-of-bounds access. */
  function SumOf(points: seq<XY>, p: nat): Option<XY> {
    if |points| == 0 then None
    else
      var q :- SumFrom(Jacobian(points[0].x, points[0].y, 1), points[1..], p);
      ToAffine(q, p)
  }

  method Sum(points: array<XY>, p: nat) returns (result: Option<XY>)
    ensures result == SumOf(points[..], p)
  {
    if points.Length == 0 {
      return None;
    }
    var acc := Jacobian(points[0].x, points[0].y, 1);
    var i := 1;
    while i < points.Length
      invariant 1 <= i <= points.Length
      invariant SumFrom(acc, points[i..], p) == SumFrom(Jacobian(points[0].x, points[0].y, 1), points[..][1..], p)
    {
      var next := JacAdd(acc, Jacobian(points[i].x, points[i].y, 1), p);
      assert points[i..][0] == points[i] && points[i..][1..] == points[i + 1..];
      if next.None? {
        return None;
      }
      acc := next.value;
      i := i + 1;
    }
    result := ToAffine(acc, p);
  }
}
