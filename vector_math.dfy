/** The value vectors `Flow::Vec2f`, `Flow::Vec3f` and `Flow::Vec4f`, and the
    identical `vec2f` class of the older copy; the glm vectors of the renderer
    (`glm::dvec3`, `flow::vec3f`) use the same operations. Everything is over
    `real`, so the float and double copies coincide. */
module VectorMath {
  import opened Wrappers
  import opened Numerics

  /** `Flow::EPSILON` (and `EPSILON` of the older `vec2f`). */
  const Epsilon: real := 0.000001

  datatype Vec2 = Vec2(x: real, y: real)
  {
    function Dot(v: Vec2): real { x * v.x + y * v.y }

    function Length2(): (r: real)
      ensures 0.0 <= r
    {
      Dot(this)
    }

    function Length(lib: Libm): real { lib.sqrt(Length2()) }

    /** Aborts (the `assert`) unless the length exceeds `Epsilon`; otherwise
        divides each component by the length. */
    function Normalize(lib: Libm): (r: Option<Vec2>)
      ensures r.Some? <==> Length(lib) > Epsilon
      ensures r.Some? ==> r.value.Scale(Length(lib)) == this
    {
      var l := Length(lib);
      if l > Epsilon then Some(Vec2(x / l, y / l)) else None
    }

    function Add(rhs: Vec2): Vec2 { Vec2(x + rhs.x, y + rhs.y) }
    function Sub(rhs: Vec2): Vec2 { Vec2(x - rhs.x, y - rhs.y) }
    function Scale(s: real): Vec2 { Vec2(x * s, y * s) }

    /** `operator/`; a zero divisor (an IEEE infinity) is outside the model. */
    function DivBy(s: real): Vec2
      requires s != 0.0
    {
      Vec2(x / s, y / s)
    }
  }

  datatype Vec3 = Vec3(x: real, y: real, z: real)
  {
    function Neg(): Vec3 { Vec3(-x, -y, -z) }
    function Add(rhs: Vec3): Vec3 { Vec3(x + rhs.x, y + rhs.y, z + rhs.z) }
    function Sub(rhs: Vec3): Vec3 { Vec3(x - rhs.x, y - rhs.y, z - rhs.z) }

    /** `operator*(float)`. */
    function Scale(s: real): Vec3 { Vec3(x * s, y * s, z * s) }

    /** glm's component-wise product of two vectors. */
    function Times(v: Vec3): Vec3 { Vec3(x * v.x, y * v.y, z * v.z) }

    /** `operator/(float)`; a zero divisor (an IEEE infinity) is outside the model. */
    function DivBy(s: real): Vec3
      requires s != 0.0
    {
      Vec3(x / s, y / s, z / s)
    }

    function Dot(v: Vec3): real { x * v.x + y * v.y + z * v.z }

    function Cross(v: Vec3): (r: Vec3)
      ensures r.Dot(this) == 0.0 && r.Dot(v) == 0.0
    {
      var r := Vec3(y * v.z - z * v.y, z * v.x - x * v.z, x * v.y - y * v.x);
      assert r.Dot(this) == 0.0;
      assert r.Dot(v) == 0.0;
      r
    }

    /** Mirrors `d` about `n`; the receiver plays no part, as in the source. */
    function Reflect(d: Vec3, n: Vec3): (r: Vec3)
      ensures n.Length2() == 1.0 ==> r.Dot(n) == -d.Dot(n)
    {
      var k := d.Dot(n) * 2.0;
      assert d.Sub(n.Scale(k)).Dot(n) == d.Dot(n) - k * n.Dot(n);
      d.Sub(n.Scale(k))
    }

    function Length2(): (r: real)
      ensures 0.0 <= r
    {
      SquareNonNegative(x);
      SquareNonNegative(y);
      SquareNonNegative(z);
      Dot(this)
    }

    function Length(lib: Libm): real { lib.sqrt(Length2()) }

    /** Aborts (the `assert`) unless the length exceeds `Epsilon`; otherwise
        scales by the reciprocal of the length. */
    function Normalize(lib: Libm): (r: Option<Vec3>)
      ensures r.Some? <==> Length(lib) > Epsilon
      ensures r.Some? ==> r.value.Scale(Length(lib)) == this
    {
      var l := Length(lib);
      if l > Epsilon then
        var r := Scale(1.0 / l);
        assert r.Scale(l) == this;
        Some(r)
      else None
    }

    function Mean(): real { (x + y + z) / 3.0 }

    function Abs(): (r: Vec3)
      ensures 0.0 <= r.x && 0.0 <= r.y && 0.0 <= r.z
      ensures r.Length2() == Length2()
    {
      Vec3(Numerics.Abs(x), Numerics.Abs(y), Numerics.Abs(z))
    }

    function IsNearZero(): (r: bool)
      ensures r ==> Length2() < 3.0 * Epsilon * Epsilon
    {
      var r := Numerics.Abs(x) < Epsilon && Numerics.Abs(y) < Epsilon && Numerics.Abs(z) < Epsilon;
      if r then SmallSquare(x); SmallSquare(y); SmallSquare(z); r else r
    }
  }

  function Zero(): Vec3 { Vec3(0.0, 0.0, 0.0) }

  /** `glm::normalize`: scales by the reciprocal of the length, without the
      `assert` of `Vec3::Normalize`. A zero vector, for which the source
      divides by zero, is returned unchanged. The result has unit length
      when the square root is exact, and never points against `v`. */
  function Normalized(v: Vec3, lib: Libm): (r: Vec3)
    ensures SqrtExactAt(lib, v.Length2()) && 0.0 < v.Length2() ==> r.Length2() == 1.0
    ensures SqrtNonNegative(lib) ==> 0.0 <= r.Dot(v)
  {
    var l := v.Length(lib);
    if l == 0.0 then v
    else
      var r := v.Scale(1.0 / l);
      if SqrtExactAt(lib, v.Length2()) then ReciprocalScaleIsUnit(v, l); r else r
  }
  function One(): Vec3 { Vec3(1.0, 1.0, 1.0) }

  datatype Vec4 = Vec4(x: real, y: real, z: real, w: real)
  {
    function Dot(v: Vec4): real { x * v.x + y * v.y + z * v.z + w * v.w }

    /** Drops the `w` component. */
    function ToVec3(): Vec3 { Vec3(x, y, z) }
  }

  /** A `Flow::Vec3f` held in a variable, for the one operator that updates its
      receiver in place (`operator+=`). */
  class MutableVec3 {
    var x: real
    var y: real
    var z: real

    function Value(): Vec3
      reads this
    {
      Vec3(x, y, z)
    }

    constructor (v: Vec3)
      ensures Value() == v
    {
      x, y, z := v.x, v.y, v.z;
    }

    /** Adds `rhs` component-wise into the receiver and returns the receiver. */
    method AddAssign(rhs: Vec3) returns (self: MutableVec3)
      modifies this
      ensures self == this
      ensures Value() == old(Value()).Add(rhs)
    {
      x := x + rhs.x;
      y := y + rhs.y;
      z := z + rhs.z;
      self := this;
    }
  }

  lemma SquareNonNegative(a: real)
    ensures 0.0 <= a * a
  {
    if a < 0.0 { assert a * a == (-a) * (-a); }
  }

  lemma SmallSquare(a: real)
    requires Numerics.Abs(a) < Epsilon
    ensures a * a < Epsilon * Epsilon
  {
    var b := Numerics.Abs(a);
    assert a * a == b * b;
    assert b * b <= b * Epsilon;
  }

  /** Addition and subtraction are component-wise, so subtracting what was
      added gives the original vector back. */
  lemma Vec3AddSubCancel(a: Vec3, b: Vec3)
    ensures a.Add(b).Sub(b) == a
    ensures a.Sub(b).Add(b) == a
    ensures a.Add(b.Neg()) == a.Sub(b)
  {
  }

  lemma Vec2AddSubCancel(a: Vec2, b: Vec2)
    ensures a.Add(b).Sub(b) == a
    ensures a.Sub(b).Add(b) == a
  {
  }

  /** Turning one side round turns the dot product's sign. */
  lemma DotNeg(a: Vec3, b: Vec3)
    ensures a.Dot(b.Neg()) == -a.Dot(b)
  {
  }

  /** Scaling and then dividing by the same non-zero scalar is the identity. */
  lemma Vec2ScaleDivCancel(a: Vec2, s: real)
    requires s != 0.0
    ensures a.Scale(s).DivBy(s) == a
  {
    assert a.x * s / s == a.x;
    assert a.y * s / s == a.y;
  }

  /** The cross product of a vector with itself is zero and the product is
      anti-commutative. */
  lemma CrossSelfAndSwap(a: Vec3, b: Vec3)
    ensures a.Cross(a) == Zero()
    ensures b.Cross(a) == a.Cross(b).Neg()
  {
  }

  /** Scaling by the reciprocal of the length gives a unit vector. */
  lemma ReciprocalScaleIsUnit(v: Vec3, l: real)
    requires l != 0.0 && l * l == v.Length2()
    ensures v.Scale(1.0 / l).Length2() == 1.0
  {
    var k := 1.0 / l;
    calc {
      v.Scale(k).Length2();
      (v.x * k) * (v.x * k) + (v.y * k) * (v.y * k) + (v.z * k) * (v.z * k);
      v.Length2() * (k * k);
      (l * l) * (k * k);
      (l * k) * (l * k);
      1.0;
    }
  }

  /** A normalised vector has unit length when the square root is exact. */
  lemma NormalizeUnit(v: Vec3, lib: Libm)
    requires SqrtExactAt(lib, v.Length2())
    requires v.Normalize(lib).Some?
    ensures v.Normalize(lib).value.Length2() == 1.0
  {
    ReciprocalScaleIsUnit(v, v.Length(lib));
  }

  lemma Vec2NormalizeUnit(v: Vec2, lib: Libm)
    requires SqrtExactAt(lib, v.Length2())
    requires v.Normalize(lib).Some?
    ensures v.Normalize(lib).value.Length2() == 1.0
  {
    var l := v.Length(lib);
    var n := v.Normalize(lib).value;
    assert n == Vec2(v.x / l, v.y / l);
    var k := 1.0 / l;
    assert v.x / l == v.x * k && v.y / l == v.y * k;
    calc {
      n.Length2();
      (v.x * k) * (v.x * k) + (v.y * k) * (v.y * k);
      v.Length2() * (k * k);
      (l * l) * (k * k);
      (l * k) * (l * k);
      1.0;
    }
  }

  /** The mean of a constant vector is that constant, and `Vec4::dot` is the
      dot product of the `to_vec3` parts plus the product of the `w`s. */
  lemma MeanAndVec4Dot(c: real, a: Vec4, b: Vec4)
    ensures Vec3(c, c, c).Mean() == c
    ensures a.Dot(b) == a.ToVec3().Dot(b.ToVec3()) + a.w * b.w
  {
  }
}
