/** The per-mesh queries of data.cpp: the nearest-hit scan `Mesh::hit`, its
    distance-only twin `Mesh::hit_p`, `Mesh::sample_point` and
    `Mesh::pdf`. The scans keep the closest distance found so far as the
    upper end of an open window `(tmin, closest)`, so a later triangle
    replaces the current hit only when it is strictly nearer.

    The triangle test is a parameter: data.cpp calls the double-precision
    `ray_triangle_intersect` declared in util.h (`RayTriangle.IntersectDouble`),
    and every property here holds for any test. */
module MeshHit {
  import opened Wrappers
  import opened Numerics
  import opened VectorMath
  import opened SceneData
  import RayTriangle

  /** `std::numeric_limits<double>::max()`. */
  const DoubleMax: real := 179769313486231570814527423731704356798070567525844996598917476803157260780028538760589558632766878171540458953514382464234321326889464182768467546703537516986049910576551282076245490090389328944075868508455133942304583236903222948165808559332123348274797826204144723168738177180919299881250404026184124858368.0

  /** A ray/triangle test: whether it reports a hit, and the distance it
      wrote, if any. */
  type Intersector = (Ray, Vec3, Vec3, Vec3) -> (bool, Option<real>)

  /** The distance at which triangle `k` is reported hit: the `t` the test
      writes when it returns true. */
  function TriangleHit(mesh: Mesh, k: nat, ray: Ray, test: Intersector): Option<real>
    requires mesh.WellFormed() && k < mesh.TriangleCount()
  {
    var (v0, v1, v2) := mesh.Corners(k);
    var (ok, t) := test(ray, v0, v1, v2);
    if ok then t else None
  }

  /** Triangle `k` is hit strictly inside the window `(tmin, tmax)`. */
  predicate InWindow(mesh: Mesh, k: nat, ray: Ray, test: Intersector, tmin: real, tmax: real)
    requires mesh.WellFormed() && k < mesh.TriangleCount()
  {
    var h := TriangleHit(mesh, k, ray, test);
    h.Some? && tmin < h.value < tmax
  }

  /** The distance of a triangle that is hit. */
  function Dist(mesh: Mesh, k: nat, ray: Ray, test: Intersector): real
    requires mesh.WellFormed() && k < mesh.TriangleCount()
    requires TriangleHit(mesh, k, ray, test).Some?
  {
    TriangleHit(mesh, k, ray, test).value
  }

  /** The triangle a scan of the first `k` triangles settles on: among
      those hit inside the window, the first whose distance is least. */
  function Nearest(mesh: Mesh, ray: Ray, test: Intersector, tmin: real, tmax: real, k: nat): (r: Option<nat>)
    requires mesh.WellFormed() && k <= mesh.TriangleCount()
    ensures r.Some? ==> r.value < k && InWindow(mesh, r.value, ray, test, tmin, tmax)
  {
    if k == 0 then None
    else
      var prev := Nearest(mesh, ray, test, tmin, tmax, k - 1);
      if InWindow(mesh, k - 1, ray, test, tmin, tmax)
         && (prev.None? || Dist(mesh, k - 1, ray, test) < Dist(mesh, prev.value, ray, test))
      then Some(k - 1)
      else prev
  }

  /** `Nearest` is what its name says: nothing exactly when no triangle is
      hit inside the window, and otherwise a triangle whose distance is
      at most that of every triangle hit inside the window and strictly
      below that of every earlier one. */
  lemma {:induction false} NearestIsLeast(mesh: Mesh, ray: Ray, test: Intersector, tmin: real, tmax: real, k: nat)
    requires mesh.WellFormed() && k <= mesh.TriangleCount()
    ensures Nearest(mesh, ray, test, tmin, tmax, k).None? <==>
      forall j :: 0 <= j < k ==> !InWindow(mesh, j, ray, test, tmin, tmax)
    ensures var r := Nearest(mesh, ray, test, tmin, tmax, k);
      r.Some? ==>
        (forall j :: 0 <= j < k && InWindow(mesh, j, ray, test, tmin, tmax) ==>
          Dist(mesh, r.value, ray, test) <= Dist(mesh, j, ray, test))
        && (forall j :: 0 <= j < r.value && InWindow(mesh, j, ray, test, tmin, tmax) ==>
          Dist(mesh, r.value, ray, test) < Dist(mesh, j, ray, test))
  {
    if k > 0 {
      NearestIsLeast(mesh, ray, test, tmin, tmax, k - 1);
    }
  }

  /** Shrinking the window's upper end to `c` keeps the nearest triangle
      when it lies below `c` and loses every hit otherwise. This is why the
      scene-wide scan may hand each mesh its closest distance so far. */
  lemma {:induction false} NearestNarrowed(mesh: Mesh, ray: Ray, test: Intersector, tmin: real, tmax: real, c: real, k: nat)
    requires mesh.WellFormed() && k <= mesh.TriangleCount() && c <= tmax
    ensures var r := Nearest(mesh, ray, test, tmin, tmax, k);
      Nearest(mesh, ray, test, tmin, c, k) ==
        if r.Some? && Dist(mesh, r.value, ray, test) < c then r else None
  {
    if k > 0 {
      NearestNarrowed(mesh, ray, test, tmin, tmax, c, k - 1);
    }
  }

  /** `HitRecord`; the `mesh` pointer becomes the mesh itself. */
  datatype HitRecord = HitRecord(position: Vec3, normal: Vec3, t: real, mesh: Mesh, isInside: bool)

  /** The unit normal of triangle `k` as its winding gives it. */
  function GeometricNormal(mesh: Mesh, k: nat, lib: Libm): Vec3
    requires mesh.WellFormed() && k < mesh.TriangleCount()
  {
    var (v0, v1, v2) := mesh.Corners(k);
    Normalized(v1.Sub(v0).Cross(v2.Sub(v0)), lib)
  }

  /** The record both branches of `Mesh::hit` write for a hit of triangle
      `k` at `t`: the normal is turned to face the ray, and `isInside`
      records whether it had to be turned. */
  function RecordAt(mesh: Mesh, k: nat, ray: Ray, t: real, lib: Libm): (r: HitRecord)
    requires mesh.WellFormed() && k < mesh.TriangleCount()
    ensures r.t == t && r.position == ray.At(t) && r.mesh == mesh
    ensures ray.dir.Dot(r.normal) <= 0.0
    ensures r.isInside <==> 0.0 < ray.dir.Dot(GeometricNormal(mesh, k, lib))
    ensures r.isInside ==> r.normal == GeometricNormal(mesh, k, lib).Neg()
    ensures !r.isInside ==> r.normal == GeometricNormal(mesh, k, lib)
  {
    var n := GeometricNormal(mesh, k, lib);
    DotNeg(ray.dir, n);
    if ray.dir.Dot(n) > 0.0 then
      HitRecord(ray.At(t), n.Neg(), t, mesh, true)
    else
      HitRecord(ray.At(t), n, t, mesh, false)
  }

  /** What `Mesh::hit` returns: the record of the nearest triangle. */
  function HitOf(mesh: Mesh, ray: Ray, test: Intersector, tmin: real, tmax: real, lib: Libm): (r: Option<HitRecord>)
    requires mesh.WellFormed()
    ensures r.Some? ==> tmin < r.value.t < tmax
  {
    match Nearest(mesh, ray, test, tmin, tmax, mesh.TriangleCount())
    case None => None
    case Some(k) => Some(RecordAt(mesh, k, ray, Dist(mesh, k, ray, test), lib))
  }

  /** What `Mesh::hit_p` returns: the distance of the nearest triangle. */
  function DistanceOf(mesh: Mesh, ray: Ray, test: Intersector, tmin: real, tmax: real): (r: Option<real>)
    requires mesh.WellFormed()
    ensures r.Some? ==> tmin < r.value < tmax
  {
    match Nearest(mesh, ray, test, tmin, tmax, mesh.TriangleCount())
    case None => None
    case Some(k) => Some(Dist(mesh, k, ray, test))
  }

  /** The scan state after the triangles before `k`: the upper end of the
      window and the record so far. */
  predicate ScanState(mesh: Mesh, ray: Ray, test: Intersector, tmin: real, tmax: real, lib: Libm,
                      k: nat, closest: real, res: Option<HitRecord>)
    requires mesh.WellFormed() && k <= mesh.TriangleCount()
  {
    match Nearest(mesh, ray, test, tmin, tmax, k)
    case None => res == None && closest == tmax
    case Some(j) => closest == Dist(mesh, j, ray, test) && res == Some(RecordAt(mesh, j, ray, closest, lib))
  }

  /** One turn of the scan: a triangle hit inside `(tmin, closest)`
      becomes the nearest so far, with its record; any other leaves the
      scan as it was. */
  lemma ScanStep(mesh: Mesh, ray: Ray, test: Intersector, tmin: real, tmax: real, lib: Libm,
                 k: nat, closest: real, res: Option<HitRecord>, ok: bool, t: Option<real>)
    requires mesh.WellFormed() && k < mesh.TriangleCount()
    requires ScanState(mesh, ray, test, tmin, tmax, lib, k, closest, res)
    requires (ok, t) == test(ray, mesh.Corners(k).0, mesh.Corners(k).1, mesh.Corners(k).2)
    ensures ok && t.Some? && tmin < t.value < closest ==>
      ScanState(mesh, ray, test, tmin, tmax, lib, k + 1, t.value, Some(RecordAt(mesh, k, ray, t.value, lib)))
    ensures !(ok && t.Some? && tmin < t.value < closest) ==>
      ScanState(mesh, ray, test, tmin, tmax, lib, k + 1, closest, res)
  {
  }

  /** `Mesh::hit`: the record of the nearest triangle hit strictly between
      `tmin` and `tmax`, the earliest one on a tie, and nothing when no
      triangle is hit there. */
  method Hit(mesh: Mesh, ray: Ray, tmin: real, tmax: real, test: Intersector, lib: Libm) returns (res: Option<HitRecord>)
    requires mesh.WellFormed()
    ensures res == HitOf(mesh, ray, test, tmin, tmax, lib)
  {
    res := None;
    var closest := tmax;
    var i := 0;
    ghost var k := 0;
    while i < |mesh.indices|
      invariant i == 3 * k && k <= mesh.TriangleCount()
      invariant ScanState(mesh, ray, test, tmin, tmax, lib, k, closest, res)
      decreases |mesh.indices| - i
    {
      var v0 := mesh.positions[mesh.indices[i]];
      var v1 := mesh.positions[mesh.indices[i + 1]];
      var v2 := mesh.positions[mesh.indices[i + 2]];
      assert (v0, v1, v2) == mesh.Corners(k);
      var (ok, t) := test(ray, v0, v1, v2);
      ScanStep(mesh, ray, test, tmin, tmax, lib, k, closest, res, ok, t);
      if ok && t.Some? && t.value > tmin && t.value < closest {
        var n := Normalized(v1.Sub(v0).Cross(v2.Sub(v0)), lib);
        var inside := false;
        if ray.dir.Dot(n) > 0.0 {
          n := n.Neg();
          inside := true;
        }
        res := Some(HitRecord(ray.At(t.value), n, t.value, mesh, inside));
        closest := t.value;
      }
      i, k := i + 3, k + 1;
    }
  }

  /** `Mesh::hit_p`, with the uninitialised `is_hit` taken to start out
      false: the distance of the nearest triangle hit strictly between
      `tmin` and `tmax`, and nothing when there is none. */
  method HitDistance(mesh: Mesh, ray: Ray, tmin: real, tmax: real, test: Intersector) returns (r: Option<real>)
    requires mesh.WellFormed()
    ensures r == DistanceOf(mesh, ray, test, tmin, tmax)
  {
    var isHit := false;
    var closest := tmax;
    var i := 0;
    ghost var k := 0;
    while i < |mesh.indices|
      invariant i == 3 * k && k <= mesh.TriangleCount()
      invariant match Nearest(mesh, ray, test, tmin, tmax, k)
        case None => !isHit && closest == tmax
        case Some(j) => isHit && closest == Dist(mesh, j, ray, test)
      decreases |mesh.indices| - i
    {
      var v0 := mesh.positions[mesh.indices[i]];
      var v1 := mesh.positions[mesh.indices[i + 1]];
      var v2 := mesh.positions[mesh.indices[i + 2]];
      assert (v0, v1, v2) == mesh.Corners(k);
      var (ok, t) := test(ray, v0, v1, v2);
      if ok && t.Some? && t.value > tmin && t.value < closest {
        closest := t.value;
        isHit := true;
      }
      i, k := i + 3, k + 1;
    }
    r := if isHit then Some(closest) else None;
  }

  /** The distance `hit_p` returns is the `t` of the record `hit` returns,
      and a narrower window keeps a hit exactly when it lies below the new
      upper end. */
  /** Narrowing the window's far end to `c` keeps a `hit_p` distance
      exactly when it lies below `c`. */
  lemma DistanceNarrowed(mesh: Mesh, ray: Ray, test: Intersector, tmin: real, tmax: real, c: real)
    requires mesh.WellFormed() && c <= tmax
    ensures var d := DistanceOf(mesh, ray, test, tmin, tmax);
      DistanceOf(mesh, ray, test, tmin, c) == if d.Some? && d.value < c then d else None
  {
    NearestNarrowed(mesh, ray, test, tmin, tmax, c, mesh.TriangleCount());
  }

  lemma {:induction false} HitAndDistanceAgree(mesh: Mesh, ray: Ray, test: Intersector, tmin: real, tmax: real, c: real, lib: Libm)
    requires mesh.WellFormed() && c <= tmax
    ensures var h := HitOf(mesh, ray, test, tmin, tmax, lib);
      DistanceOf(mesh, ray, test, tmin, tmax) == if h.Some? then Some(h.value.t) else None
    ensures var h := HitOf(mesh, ray, test, tmin, tmax, lib);
      HitOf(mesh, ray, test, tmin, c, lib) == if h.Some? && h.value.t < c then h else None
    ensures var d := DistanceOf(mesh, ray, test, tmin, tmax);
      DistanceOf(mesh, ray, test, tmin, c) == if d.Some? && d.value < c then d else None
  {
    NearestNarrowed(mesh, ray, test, tmin, tmax, c, mesh.TriangleCount());
  }

  /** With the double-precision test the renderer links, a triangle counts
      as hit only away from the parallel band, with the crossing point
      inside the triangle, at the distance the barycentric solve gives, and
      never at distance zero. */
  lemma DoubleTestHits(mesh: Mesh, k: nat, ray: Ray)
    requires mesh.WellFormed() && k < mesh.TriangleCount()
    requires TriangleHit(mesh, k, ray, RayTriangle.IntersectDouble).Some?
    ensures var (v0, v1, v2) := mesh.Corners(k);
      var s := RayTriangle.Setup(ray, v0, v1, v2);
      0.0001 <= Abs(s.A()) && s.Inside()
      && Dist(mesh, k, ray, RayTriangle.IntersectDouble) == s.T() != 0.0
  {
    var (v0, v1, v2) := mesh.Corners(k);
    var r := RayTriangle.IntersectDouble(ray, v0, v1, v2);
    assert r.0;
  }

  /** The triangle `sample_point` picks with the draw `r`:
      `floor(r * |indices| / 3)`, one of the mesh's triangles for a draw
      in `[0, 1)`. */
  function SampleIndex(mesh: Mesh, r: real): (k: int)
    ensures mesh.WellFormed() && 0 < mesh.TriangleCount() && 0.0 <= r < 1.0 ==>
      0 <= k < mesh.TriangleCount()
  {
    var x := r * (|mesh.indices| as real) / 3.0;
    if mesh.WellFormed() && 0.0 <= r < 1.0 then
      DrawScalesIntoRange(r, |mesh.indices|, mesh.TriangleCount());
      x.Floor
    else
      x.Floor
  }

  /** The fold of two draws into the unit triangle: a pair outside it is
      mirrored through `(1/2, 1/2)`. */
  function FoldIntoTriangle(u: real, v: real): (r: (real, real))
    ensures 0.0 <= u <= 1.0 && 0.0 <= v <= 1.0 ==>
      0.0 <= r.0 <= 1.0 && 0.0 <= r.1 <= 1.0 && r.0 + r.1 <= 1.0
    ensures u + v <= 1.0 ==> r == (u, v)
    ensures u + v > 1.0 ==> r.0 + u == 1.0 && r.1 + v == 1.0
  {
    if u + v > 1.0 then (1.0 - u, 1.0 - v) else (u, v)
  }

  /** `Mesh::sample_point` with its three draws `rIndex`, `rV` and `rU` (in
      the order the source takes them); `target` plays no part. The point
      is a convex combination of the chosen triangle's corners. */
  function SamplePoint(mesh: Mesh, target: Vec3, rIndex: real, rV: real, rU: real): (p: Vec3)
    requires mesh.WellFormed() && 0 < mesh.TriangleCount() && 0.0 <= rIndex < 1.0
    ensures var (v0, v1, v2) := mesh.Corners(SampleIndex(mesh, rIndex));
      var (u, v) := FoldIntoTriangle(rU, rV);
      p == v0.Scale(1.0 - u - v).Add(v1.Scale(u)).Add(v2.Scale(v))
  {
    var index := SampleIndex(mesh, rIndex);
    var (v0, v1, v2) := mesh.Corners(index);
    var (u, v) := FoldIntoTriangle(rU, rV);
    EdgeFormIsConvex(v0, v1, v2, u, v);
    v0.Add(v1.Sub(v0).Scale(u)).Add(v2.Sub(v0).Scale(v))
  }

  /** Walking `u` along one edge and `v` along the other is the weighted
      sum of the corners with weights `1 - u - v`, `u` and `v`. */
  lemma EdgeFormIsConvex(v0: Vec3, v1: Vec3, v2: Vec3, u: real, v: real)
    ensures v0.Add(v1.Sub(v0).Scale(u)).Add(v2.Sub(v0).Scale(v))
         == v0.Scale(1.0 - u - v).Add(v1.Scale(u)).Add(v2.Scale(v))
  {
    assert v0.x + (v1.x - v0.x) * u + (v2.x - v0.x) * v == v0.x * (1.0 - u - v) + v1.x * u + v2.x * v;
    assert v0.y + (v1.y - v0.y) * u + (v2.y - v0.y) * v == v0.y * (1.0 - u - v) + v1.y * u + v2.y * v;
    assert v0.z + (v1.z - v0.z) * u + (v2.z - v0.z) * v == v0.z * (1.0 - u - v) + v1.z * u + v2.z * v;
  }

  /** The weights of a sampled point are barycentric coordinates for
      draws in `[0, 1)`: none is negative and they sum to one. */
  lemma {:induction false} SampleWeightsAreBarycentric(rV: real, rU: real)
    requires 0.0 <= rV < 1.0 && 0.0 <= rU < 1.0
    ensures var (u, v) := FoldIntoTriangle(rU, rV);
      0.0 <= u && 0.0 <= v && 0.0 <= 1.0 - u - v && (1.0 - u - v) + u + v == 1.0
  {
  }

  /** The area `Mesh::area` computes. */
  function AreaOf(mesh: Mesh, lib: Libm): real
    requires mesh.WellFormed()
  {
    mesh.AreaSum(mesh.TriangleCount(), lib) / 2.0
  }

  /** `Mesh::pdf`: the solid-angle density of aiming from `origin` along
      `dir` at a point of the mesh, `t² / (cosine · area)` for the nearest
      hit beyond 0.0001; zero on a miss or at a grazing angle (cosine below
      0.0001). `None` is the division by a zero area, where the source
      yields an infinity. */
  function Pdf(mesh: Mesh, origin: Vec3, dir: Vec3, test: Intersector, lib: Libm): (r: Option<real>)
    requires mesh.WellFormed()
    ensures var h := HitOf(mesh, Ray(origin, dir), test, 0.0001, DoubleMax, lib);
      h.None? ==> r == Some(0.0)
    ensures var h := HitOf(mesh, Ray(origin, dir), test, 0.0001, DoubleMax, lib);
      h.Some? ==> r == Density(h.value.t, Max(dir.Neg().Dot(h.value.normal), 0.0), AreaOf(mesh, lib))
    ensures SqrtNonNegative(lib) && r.Some? ==> 0.0 <= r.value
  {
    match HitOf(mesh, Ray(origin, dir), test, 0.0001, DoubleMax, lib)
    case None => Some(0.0)
    case Some(rec) => Density(rec.t, Max(dir.Neg().Dot(rec.normal), 0.0), AreaOf(mesh, lib))
  }

  /** The density of a hit at distance `t` seen at `cosine` on a mesh of
      the given area: zero at a grazing angle, undefined (`None`) for a zero
      area, and otherwise the value that times `cosine · area` gives `t²`. */
  function Density(t: real, cosine: real, area: real): (r: Option<real>)
    ensures cosine < 0.0001 ==> r == Some(0.0)
    ensures 0.0001 <= cosine ==>
      (r.None? <==> area == 0.0) && (r.Some? ==> r.value * (cosine * area) == t * t)
    ensures 0.0 <= area && r.Some? ==> 0.0 <= r.value
  {
    if cosine < 0.0001 then Some(0.0)
    else if area == 0.0 then None
    else
      QuotientFacts(t * t, cosine, area, t * t / (cosine * area));
      Some(t * t / (cosine * area))
  }

  /** The quotient times the divisor is the dividend, and a square over a
      positive divisor is not negative. */
  lemma QuotientFacts(d: real, c: real, a: real, q: real)
    requires 0.0 < c && a != 0.0 && q == d / (c * a)
    ensures q * (c * a) == d
    ensures 0.0 < a && 0.0 <= d ==> 0.0 <= q
  {
  }
}
