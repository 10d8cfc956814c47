/** The integrators of backup/integrator.cpp. `PathIntegrator::trace_path`
    returns the hit normal right after the scene query (line 27), so the
    shading code after that return never runs; it is modelled on its own
    as `Shade`. Random draws are inputs. The scene is its sequence of
    meshes, and its queries are those of `SceneHit`. */
module Integrator {
  import opened Wrappers
  import opened Numerics
  import opened VectorMath
  import opened SceneData
  import opened MeshHit
  import opened SceneHit
  import opened Materials

  /** The near end of every camera and bounce ray's window. */
  const RayEpsilon: real := 0.001

  /** The scene query both integrators make. */
  function SceneQuery(ray: Ray, meshes: seq<Mesh>, test: Intersector, lib: Libm): Option<HitRecord>
    requires AllWellFormed(meshes)
  {
    SceneHitOf(meshes, ray, test, RayEpsilon, DoubleMax, lib)
  }

  /** `NormalIntegrator::li`: the normal of the nearest hit, which faces
      the ray, and black on a miss. */
  function NormalLi(ray: Ray, meshes: seq<Mesh>, test: Intersector, lib: Libm): (r: Vec3)
    requires AllWellFormed(meshes)
    ensures SceneQuery(ray, meshes, test, lib).None? ==> r == Zero()
    ensures SceneQuery(ray, meshes, test, lib).Some? ==> r == SceneQuery(ray, meshes, test, lib).value.normal
    ensures ray.dir.Dot(r) <= 0.0
  {
    match SceneQuery(ray, meshes, test, lib)
    case None => Zero()
    case Some(rec) =>
      HitNormalFacesRay(ray, meshes, test, lib);
      rec.normal
  }

  /** The normal of a scene hit faces the ray. */
  lemma HitNormalFacesRay(ray: Ray, meshes: seq<Mesh>, test: Intersector, lib: Libm)
    requires AllWellFormed(meshes)
    ensures var h := SceneQuery(ray, meshes, test, lib);
      h.Some? ==> ray.dir.Dot(h.value.normal) <= 0.0
  {
    match NearestMesh(meshes, ray, test, RayEpsilon, DoubleMax) {
      case None =>
      case Some(m) =>
        match Nearest(meshes[m], ray, test, RayEpsilon, DoubleMax, meshes[m].TriangleCount()) {
          case None =>
          case Some(k) =>
        }
    }
  }

  /** `PathIntegrator::trace_path` as written: black once the bounce budget
      is spent or on a miss, and otherwise the hit normal. */
  function TracePath(ray: Ray, meshes: seq<Mesh>, bounces: int, test: Intersector, lib: Libm): (r: Vec3)
    requires AllWellFormed(meshes)
    ensures bounces <= 0 ==> r == Zero()
    ensures 0 < bounces ==> r == NormalLi(ray, meshes, test, lib)
  {
    if bounces <= 0 then Zero()
    else
      match SceneQuery(ray, meshes, test, lib)
      case None => Zero()
      case Some(rec) => rec.normal
  }

  /** `Integrator::li`: dispatch on the variant; the path integrator starts
      from the scene's bounce budget. */
  function Li(kind: IntegratorKind, ray: Ray, meshes: seq<Mesh>, bounces: I16, test: Intersector, lib: Libm): (r: Vec3)
    requires AllWellFormed(meshes)
    ensures kind.NormalIntegrator? ==> r == NormalLi(ray, meshes, test, lib)
    ensures kind.PathIntegrator? ==> r == TracePath(ray, meshes, bounces, test, lib)
  {
    match kind
    case NormalIntegrator => NormalLi(ray, meshes, test, lib)
    case PathIntegrator => TracePath(ray, meshes, bounces, test, lib)
  }

  /** With the early return in place the two integrators differ only in the
      bounce budget: the path integrator draws the normal image when the
      scene has bounces to spend and a black image otherwise; either way
      the colour never faces along the ray. */
  lemma {:induction false} PathIntegratorDrawsNormals(ray: Ray, meshes: seq<Mesh>, bounces: I16, test: Intersector, lib: Libm)
    requires AllWellFormed(meshes)
    ensures Li(PathIntegrator, ray, meshes, bounces, test, lib) ==
      if 0 < bounces then Li(NormalIntegrator, ray, meshes, bounces, test, lib) else Zero()
    ensures ray.dir.Dot(Li(PathIntegrator, ray, meshes, bounces, test, lib)) <= 0.0
  {
  }

  /** The draws the shading block takes after the scene query: the
      scattered direction `Material::sample` builds from its own two draws,
      the draw that chooses light sampling, and the three draws of
      `Mesh::sample_point`. */
  datatype ShadeDraws = ShadeDraws(scattered: Vec3, choose: real, index: real, v: real, u: real)

  /** The shading block takes a light sample: the hit is on the outside of
      a surface that scatters, and the choosing draw is below one half. */
  predicate SamplesLight(rec: HitRecord, draws: ShadeDraws)
  {
    !rec.isInside && rec.mesh.material.Lambertian? && draws.choose < 0.5
  }

  /** What taking a light sample needs: a first mesh with triangles, and an
      index draw in `[0, 1)`. */
  predicate CanSampleFirstMesh(meshes: seq<Mesh>, draws: ShadeDraws)
  {
    0 < |meshes| && meshes[0].WellFormed() && 0 < meshes[0].TriangleCount() && 0.0 <= draws.index < 1.0
  }

  /** The direction the shading block continues in: towards a point of
      the first mesh of the scene when the choosing draw is below one
      half (`filtered.base().data()` is the start of the unfiltered mesh
      vector, whether or not that mesh is a light), and the scattered
      direction otherwise. */
  function NextDirection(meshes: seq<Mesh>, rec: HitRecord, scatter: ScatterRecord, draws: ShadeDraws, lib: Libm): Vec3
    requires draws.choose < 0.5 ==> CanSampleFirstMesh(meshes, draws)
  {
    if draws.choose < 0.5 then
      var p := SamplePoint(meshes[0], rec.position, draws.index, draws.v, draws.u);
      Normalized(p.Sub(rec.position), lib)
    else scatter.dir
  }

  /** Light sampling reads the first mesh and no other. */
  lemma LightSamplingReadsFirstMeshOnly(meshes: seq<Mesh>, others: seq<Mesh>, rec: HitRecord,
                                        scatter: ScatterRecord, draws: ShadeDraws, lib: Libm)
    requires draws.choose < 0.5 ==> CanSampleFirstMesh(meshes, draws)
    requires 0 < |meshes|
    ensures NextDirection(meshes, rec, scatter, draws, lib) == NextDirection([meshes[0]] + others, rec, scatter, draws, lib)
  {
  }

  /** The mixed density of the next direction: half the material's and half
      that of the hit mesh (the outer `mesh`, not the one light sampling
      used). `None` is an infinite mesh density. */
  function MixedPdf(ray: Ray, rec: HitRecord, nextDir: Vec3, test: Intersector, lib: Libm): (r: Option<real>)
    requires rec.mesh.WellFormed()
    ensures var meshPdf := MeshHit.Pdf(rec.mesh, rec.position, nextDir, test, lib);
      (r.None? <==> meshPdf.None?)
      && (r.Some? ==> r.value == 0.5 * Materials.Pdf(rec.mesh.material, ray.dir.Neg(), rec.normal, nextDir) + 0.5 * meshPdf.value)
    ensures SqrtNonNegative(lib) && r.Some? ==> 0.0 <= r.value
  {
    var materialPdf := Materials.Pdf(rec.mesh.material, ray.dir.Neg(), rec.normal, nextDir);
    match MeshHit.Pdf(rec.mesh, rec.position, nextDir, test, lib)
    case None => None
    case Some(meshPdf) => Some(0.5 * materialPdf + 0.5 * meshPdf)
  }

  /** The shading code after the early return of `trace_path`, for a hit
      `rec` of `ray`: the emission, plus the scattered light the next bounce
      (`trace_path` with one bounce fewer) brings, weighted by the
      material's density over the mixed one. It returns the emission alone
      for a hit from inside, for a material that does not scatter, and when
      the mixed density is below 0.0001; an infinite mixed density makes
      the scattered term vanish. */
  function Shade(ray: Ray, meshes: seq<Mesh>, rec: HitRecord, draws: ShadeDraws, bounces: int,
                 test: Intersector, lib: Libm): (r: Vec3)
    requires AllWellFormed(meshes) && rec.mesh.WellFormed()
    requires SamplesLight(rec, draws) ==> CanSampleFirstMesh(meshes, draws)
    ensures rec.isInside ==> r == Emit(rec.mesh.material)
    ensures IsLight(rec.mesh.material) ==> r == Emit(rec.mesh.material)
    ensures !rec.isInside && rec.mesh.material.Lambertian? ==>
      var scatter := Sample(rec.mesh.material, ray.dir.Neg(), rec.normal, draws.scattered).value;
      var pdf := MixedPdf(ray, rec, NextDirection(meshes, rec, scatter, draws, lib), test, lib);
      (pdf.None? || pdf.value < 0.0001) ==> r == Emit(rec.mesh.material)
  {
    var material := rec.mesh.material;
    var emitted := Emit(material);
    if rec.isInside then emitted
    else
      match Sample(material, ray.dir.Neg(), rec.normal, draws.scattered)
      case None => emitted
      case Some(scatter) =>
        var nextDir := NextDirection(meshes, rec, scatter, draws, lib);
        match MixedPdf(ray, rec, nextDir, test, lib)
        case None => emitted
        case Some(pdf) =>
          if pdf < 0.0001 then emitted
          else
            var nextRay := Ray(rec.position.Add(rec.normal.Scale(0.0001)), nextDir);
            var scatterPdf := Materials.Pdf(material, ray.dir.Neg(), rec.normal, nextDir);
            var incoming := TracePath(nextRay, meshes, bounces - 1, test, lib);
            emitted.Add(scatter.attenuation.Scale(scatterPdf).Times(incoming).DivBy(pdf))
  }
}
