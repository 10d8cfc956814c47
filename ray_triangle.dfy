/** `ray_triangle_intersect`, the Möller–Trumbore ray/triangle test (Möller
    and Trumbore, "Fast, Minimum Storage Ray/Triangle Intersection", 1997),
    in its float copy (util.cpp) and its double copy (backup/util.cpp). The
    two differ only in the test that rejects a ray parallel to the
    triangle. The out-parameter `t` becomes the second component of the
    result: `None` where the source leaves it unwritten. */
module RayTriangle {
  import opened Wrappers
  import opened Numerics
  import opened VectorMath
  import opened SceneData

  /** The quantities the test computes for one ray and one triangle. */
  datatype Setup = Setup(ray: Ray, v0: Vec3, v1: Vec3, v2: Vec3)
  {
    function E1(): Vec3 { v1.Sub(v0) }
    function E2(): Vec3 { v2.Sub(v0) }
    function H(): Vec3 { ray.dir.Cross(E2()) }
    /** The determinant; near zero when the ray is parallel to the plane. */
    function A(): real { E1().Dot(H()) }
    function S(): Vec3 { ray.origin.Sub(v0) }
    function Q(): Vec3 { S().Cross(E1()) }
    function F(): real requires A() != 0.0 { 1.0 / A() }
    /** The barycentric coordinates of the crossing point and its distance
        along the ray. */
    function U(): real requires A() != 0.0 { F() * S().Dot(H()) }
    function V(): real requires A() != 0.0 { F() * ray.dir.Dot(Q()) }
    function T(): real requires A() != 0.0 { F() * E2().Dot(Q()) }

    /** The crossing point lies in the triangle. */
    predicate Inside()
      requires A() != 0.0
    {
      0.0 <= U() <= 1.0 && 0.0 <= V() && U() + V() <= 1.0
    }
  }

  /** The test after the parallel check: reject outside the triangle, else
      write `t` and return it converted to `bool`. */
  function Barycentric(s: Setup): (r: (bool, Option<real>))
    requires s.A() != 0.0
    ensures r.1.Some? <==> s.Inside()
    ensures r.1.Some? ==> r.1.value == s.T()
    ensures r.0 <==> r.1.Some? && r.1.value != 0.0
  {
    var u := s.U();
    if u < 0.0 || u > 1.0 then (false, None)
    else
      var v := s.V();
      if v < 0.0 || u + v > 1.0 then (false, None)
      else
        var t := s.T();
        (t != 0.0, Some(t))
  }

  /** The float copy: parallel when the determinant lies strictly between
      -0.00001 and 0.00001. */
  function IntersectFloat(ray: Ray, v0: Vec3, v1: Vec3, v2: Vec3): (r: (bool, Option<real>))
    ensures var s := Setup(ray, v0, v1, v2);
      (-0.00001 < s.A() < 0.00001 ==> r == (false, None))
      && (!(-0.00001 < s.A() < 0.00001) ==>
        s.A() != 0.0 && (r.1.Some? <==> s.Inside()) && (r.1.Some? ==> r.1.value == s.T()))
    ensures r.0 <==> r.1.Some? && r.1.value != 0.0
  {
    var s := Setup(ray, v0, v1, v2);
    var a := s.A();
    if a > -0.00001 && a < 0.00001 then (false, None)
    else Barycentric(s)
  }

  /** The double copy: parallel when the determinant's magnitude is below
      0.0001. */
  function IntersectDouble(ray: Ray, v0: Vec3, v1: Vec3, v2: Vec3): (r: (bool, Option<real>))
    ensures var s := Setup(ray, v0, v1, v2);
      (Abs(s.A()) < 0.0001 ==> r == (false, None))
      && (0.0001 <= Abs(s.A()) ==>
        s.A() != 0.0 && (r.1.Some? <==> s.Inside()) && (r.1.Some? ==> r.1.value == s.T()))
    ensures r.0 <==> r.1.Some? && r.1.value != 0.0
  {
    var s := Setup(ray, v0, v1, v2);
    var a := s.A();
    if Abs(a) < 0.0001 then (false, None)
    else Barycentric(s)
  }

  /** A crossing behind the ray's origin is still reported as a hit: the
      returned `t` is negative, and only `t == 0` reads as a miss. */
  lemma HitBehindOrigin(ray: Ray, v0: Vec3, v1: Vec3, v2: Vec3)
    requires 0.0001 <= Abs(Setup(ray, v0, v1, v2).A())
    requires Setup(ray, v0, v1, v2).Inside() && Setup(ray, v0, v1, v2).T() < 0.0
    ensures IntersectDouble(ray, v0, v1, v2) == (true, Some(Setup(ray, v0, v1, v2).T()))
    ensures IntersectFloat(ray, v0, v1, v2) == (true, Some(Setup(ray, v0, v1, v2).T()))
  {
  }

  /** Away from the parallel band of the double copy, which contains that
      of the float copy, the two copies give the same answer. */
  lemma CopiesAgreeAwayFromParallel(ray: Ray, v0: Vec3, v1: Vec3, v2: Vec3)
    requires 0.0001 <= Abs(Setup(ray, v0, v1, v2).A())
    ensures IntersectFloat(ray, v0, v1, v2) == IntersectDouble(ray, v0, v1, v2)
  {
  }
}
