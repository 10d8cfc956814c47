/** The C vector header: `vec2f_t`, `vec3f_t` and `vec4f_t` are structs around
    a fixed array `float c[N]`, and every operation fills a fresh result array
    with a `for` loop over the components. A vector is modelled as its sequence
    of components; the loops become methods that write into a local array and
    are proved against the component-wise functions below. The 2- and
    3-component copies of each operation differ only in `N`, so each is
    written once for any common length. */
module CVec {
  import opened Wrappers
  import opened Numerics
  import VectorMath

  /** `FLOAT_EPSILON`: the least length `vecNf_normalize` accepts. */
  const FloatEpsilon: real := 0.0001

  /** `vec2f_make`, `vec3f_make` and `vec4f_make` are the displays `[x, y]`,
      `[x, y, z]` and `[x, y, z, w]`. */
  function Make3(x: real, y: real, z: real): seq<real> { [x, y, z] }

  // Component-wise specifications of the loops.

  function Sum(a: seq<real>, b: seq<real>): (r: seq<real>)
    requires |a| == |b|
    ensures |r| == |a|
  {
    seq(|a|, i requires 0 <= i < |a| => a[i] + b[i])
  }

  function Difference(a: seq<real>, b: seq<real>): (r: seq<real>)
    requires |a| == |b|
    ensures |r| == |a|
  {
    seq(|a|, i requires 0 <= i < |a| => a[i] - b[i])
  }

  function Scaled(a: seq<real>, s: real): (r: seq<real>)
    ensures |r| == |a|
  {
    seq(|a|, i requires 0 <= i < |a| => a[i] * s)
  }

  /** The first `if (v0.c[i] > v1.c[i])` picks `v1`, otherwise `v0`. */
  function ComponentMin(a: seq<real>, b: seq<real>): (r: seq<real>)
    requires |a| == |b|
    ensures |r| == |a|
  {
    seq(|a|, i requires 0 <= i < |a| => if a[i] > b[i] then b[i] else a[i])
  }

  /** `if (v0.c[i] < v1.c[i])` picks `v1`, otherwise `v0`. */
  function ComponentMax(a: seq<real>, b: seq<real>): (r: seq<real>)
    requires |a| == |b|
    ensures |r| == |a|
  {
    seq(|a|, i requires 0 <= i < |a| => if a[i] < b[i] then b[i] else a[i])
  }

  /** The running sum `res += v0.c[i] * v1.c[i]` over the first `|a|`
      components, accumulated from index 0 upwards. */
  function DotProduct(a: seq<real>, b: seq<real>): real
    requires |a| == |b|
  {
    if |a| == 0 then 0.0
    else DotProduct(a[..|a| - 1], b[..|a| - 1]) + a[|a| - 1] * b[|a| - 1]
  }

  function Length2(v: seq<real>): real { DotProduct(v, v) }

  /** `vec3f_cross`, written component by component in the source. */
  function Cross(a: seq<real>, b: seq<real>): (r: seq<real>)
    requires |a| == 3 && |b| == 3
    ensures |r| == 3
    ensures DotProduct(r, a) == 0.0 && DotProduct(r, b) == 0.0
  {
    var r := [a[1] * b[2] - a[2] * b[1], a[2] * b[0] - a[0] * b[2], a[0] * b[1] - a[1] * b[0]];
    Dot3(r, a);
    Dot3(r, b);
    r
  }

  // The loops.

  method Add(v0: seq<real>, v1: seq<real>) returns (r: seq<real>)
    requires |v0| == |v1|
    ensures r == Sum(v0, v1)
  {
    var res := new real[|v0|](_ => 0.0);
    for i := 0 to |v0|
      invariant forall k :: 0 <= k < i ==> res[k] == v0[k] + v1[k]
    {
      res[i] := v0[i] + v1[i];
    }
    r := res[..];
  }

  method Sub(v0: seq<real>, v1: seq<real>) returns (r: seq<real>)
    requires |v0| == |v1|
    ensures r == Difference(v0, v1)
  {
    var res := new real[|v0|](_ => 0.0);
    for i := 0 to |v0|
      invariant forall k :: 0 <= k < i ==> res[k] == v0[k] - v1[k]
    {
      res[i] := v0[i] - v1[i];
    }
    r := res[..];
  }

  method Scale(v: seq<real>, s: real) returns (r: seq<real>)
    ensures r == Scaled(v, s)
  {
    var res := new real[|v|](_ => 0.0);
    for i := 0 to |v|
      invariant forall k :: 0 <= k < i ==> res[k] == Scaled(v, s)[k]
    {
      res[i] := v[i] * s;
    }
    r := res[..];
  }

  method Dot(v0: seq<real>, v1: seq<real>) returns (res: real)
    requires |v0| == |v1|
    ensures res == DotProduct(v0, v1)
  {
    res := 0.0;
    for i := 0 to |v0|
      invariant res == DotProduct(v0[..i], v1[..i])
    {
      assert v0[..i + 1][..i] == v0[..i] && v1[..i + 1][..i] == v1[..i];
      res := res + v0[i] * v1[i];
    }
    assert v0[..|v0|] == v0 && v1[..|v1|] == v1;
  }

  method Min(v0: seq<real>, v1: seq<real>) returns (r: seq<real>)
    requires |v0| == |v1|
    ensures r == ComponentMin(v0, v1)
  {
    var res := new real[|v0|](_ => 0.0);
    for i := 0 to |v0|
      invariant forall k :: 0 <= k < i ==> res[k] == ComponentMin(v0, v1)[k]
    {
      if v0[i] > v1[i] {
        res[i] := v1[i];
      } else {
        res[i] := v0[i];
      }
    }
    r := res[..];
  }

  method Max(v0: seq<real>, v1: seq<real>) returns (r: seq<real>)
    requires |v0| == |v1|
    ensures r == ComponentMax(v0, v1)
  {
    var res := new real[|v0|](_ => 0.0);
    for i := 0 to |v0|
      invariant forall k :: 0 <= k < i ==> res[k] == ComponentMax(v0, v1)[k]
    {
      if v0[i] < v1[i] {
        res[i] := v1[i];
      } else {
        res[i] := v0[i];
      }
    }
    r := res[..];
  }

  /** `vecNf_normalize`: the `assert(l > FLOAT_EPSILON)` aborts (None);
      otherwise the vector is scaled by `1 / l`. */
  method Normalize(v: seq<real>, lib: Libm) returns (r: Option<seq<real>>)
    ensures r.Some? <==> lib.sqrt(Length2(v)) > FloatEpsilon
    ensures r.Some? ==> r.value == Scaled(v, 1.0 / lib.sqrt(Length2(v)))
  {
    var l2 := Dot(v, v);
    var l := lib.sqrt(l2);
    if !(l > FloatEpsilon) {
      return None;
    }
    var n := Scale(v, 1.0 / l);
    r := Some(n);
  }

  // Properties.

  /** The dot product of three components, written out. */
  lemma Dot3(a: seq<real>, b: seq<real>)
    requires |a| == 3 && |b| == 3
    ensures DotProduct(a, b) == a[0] * b[0] + a[1] * b[1] + a[2] * b[2]
  {
    assert a[..2][..1] == a[..1] && b[..2][..1] == b[..1];
    assert a[..1][..0] == [] && b[..1][..0] == [];
    assert DotProduct(a[..1], b[..1]) == a[0] * b[0];
    assert DotProduct(a[..2], b[..2]) == a[0] * b[0] + a[1] * b[1];
  }

  /** Subtracting what was added gives the vector back, and the other way round. */
  lemma SumDifferenceCancel(a: seq<real>, b: seq<real>)
    requires |a| == |b|
    ensures Difference(Sum(a, b), b) == a
    ensures Sum(Difference(a, b), b) == a
  {
  }

  lemma {:induction false} DotSymmetric(a: seq<real>, b: seq<real>)
    requires |a| == |b|
    ensures DotProduct(a, b) == DotProduct(b, a)
  {
    if |a| > 0 {
      DotSymmetric(a[..|a| - 1], b[..|a| - 1]);
    }
  }

  /** The squared length is never negative. */
  lemma {:induction false} Length2NonNegative(v: seq<real>)
    ensures 0.0 <= Length2(v)
  {
    if |v| > 0 {
      Length2NonNegative(v[..|v| - 1]);
      VectorMath.SquareNonNegative(v[|v| - 1]);
    }
  }

  /** Scaling one side scales the dot product. */
  lemma {:induction false} DotScaled(a: seq<real>, b: seq<real>, s: real)
    requires |a| == |b|
    ensures DotProduct(Scaled(a, s), b) == s * DotProduct(a, b)
  {
    if |a| > 0 {
      var n := |a| - 1;
      var sa := Scaled(a, s);
      ScaledPrefix(a, s, n);
      DotScaled(a[..n], b[..n], s);
      ScaledStep(DotProduct(a, b), DotProduct(sa, b), a[n], b[n], s, DotProduct(a[..n], b[..n]));
    }
  }

  /** A prefix of a scaled vector is the scaled prefix. */
  lemma ScaledPrefix(a: seq<real>, s: real, n: nat)
    requires n <= |a|
    ensures Scaled(a, s)[..n] == Scaled(a[..n], s)
  {
    assert forall i :: 0 <= i < n ==> Scaled(a, s)[..n][i] == Scaled(a[..n], s)[i];
  }

  /** The last step of `DotScaled`: with `dot == d + x * y`, the scaled sum
      `s * d + (x * s) * y` is `s * dot`. */
  lemma ScaledStep(dot: real, scaledDot: real, x: real, y: real, s: real, d: real)
    requires dot == d + x * y && scaledDot == s * d + (x * s) * y
    ensures scaledDot == s * dot
  {
  }

  /** The dot product distributes over a sum. */
  lemma {:induction false} DotSum(a: seq<real>, b: seq<real>, c: seq<real>)
    requires |a| == |b| == |c|
    ensures DotProduct(Sum(a, b), c) == DotProduct(a, c) + DotProduct(b, c)
  {
    if |a| > 0 {
      var n := |a| - 1;
      assert Sum(a, b)[..n] == Sum(a[..n], b[..n]);
      DotSum(a[..n], b[..n], c[..n]);
      assert Sum(a, b)[n] * c[n] == a[n] * c[n] + b[n] * c[n];
    }
  }

  /** A vector that `Normalize` accepts comes out with unit squared length
      when the square root is exact. */
  lemma NormalizedUnit(v: seq<real>, lib: Libm)
    requires SqrtExactAt(lib, Length2(v))
    requires lib.sqrt(Length2(v)) > FloatEpsilon
    ensures Length2(Scaled(v, 1.0 / lib.sqrt(Length2(v)))) == 1.0
  {
    var l := lib.sqrt(Length2(v));
    var k := 1.0 / l;
    var n := Scaled(v, k);
    DotScaled(v, n, k);
    DotSymmetric(v, n);
    DotScaled(v, v, k);
    calc {
      Length2(n);
      k * DotProduct(v, n);
      k * (k * DotProduct(v, v));
      (l * l) * (k * k);
      (l * k) * (l * k);
      1.0;
    }
  }

  /** The component-wise minimum and maximum: the minimum never exceeds the
      maximum, together they add up to the two inputs, and both are the
      identity on equal arguments. */
  lemma MinMax(a: seq<real>, b: seq<real>)
    requires |a| == |b|
    ensures forall i :: 0 <= i < |a| ==> ComponentMin(a, b)[i] <= ComponentMax(a, b)[i]
    ensures Sum(ComponentMin(a, b), ComponentMax(a, b)) == Sum(a, b)
    ensures ComponentMin(a, a) == a && ComponentMax(a, a) == a
    ensures ComponentMin(a, b) == ComponentMin(b, a) && ComponentMax(a, b) == ComponentMax(b, a)
  {
  }

  /** On three components the dot product and the sum agree with the value
      vector `Vec3`. */
  lemma DotAndSumAgreeWithVec3(a: VectorMath.Vec3, b: VectorMath.Vec3)
    ensures DotProduct(Make3(a.x, a.y, a.z), Make3(b.x, b.y, b.z)) == a.Dot(b)
    ensures Sum(Make3(a.x, a.y, a.z), Make3(b.x, b.y, b.z)) == Make3(a.Add(b).x, a.Add(b).y, a.Add(b).z)
  {
    Dot3(Make3(a.x, a.y, a.z), Make3(b.x, b.y, b.z));
  }

  /** `vec3f_cross` and `Flow::cross` compute the same vector. */
  lemma CrossAgreesWithVec3(a: VectorMath.Vec3, b: VectorMath.Vec3)
    ensures Cross(Make3(a.x, a.y, a.z), Make3(b.x, b.y, b.z)) == Make3(a.Cross(b).x, a.Cross(b).y, a.Cross(b).z)
  {
    var u, w := Make3(a.x, a.y, a.z), Make3(b.x, b.y, b.z);
    var r := Cross(u, w);
    var c := a.Cross(b);
    assert r[0] == c.x;
    assert r[1] == c.y;
    assert r[2] == c.z;
  }
}
