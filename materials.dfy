/** The closed variant `Material` of data.cpp and its four visitors:
    `emit`, `is_light`, `sample` and `pdf`. A Lambertian surface scatters
    and does not glow; a diffuse light glows and does not scatter. */
module Materials {
  import opened Wrappers
  import opened Numerics
  import opened VectorMath
  import opened SceneData
  import opened Sampling

  /** `Material::emit`: the light's colour scaled by its intensity, and
      black for a surface that does not glow. */
  function Emit(m: Material): (r: Vec3)
    ensures m.DiffuseLight? ==> r == m.color.Scale(m.intensity)
    ensures m.Lambertian? ==> r == Zero()
  {
    match m
    case DiffuseLight(color, intensity) => color.Scale(intensity)
    case Lambertian(_) => Zero()
  }

  /** `Material::is_light`. */
  predicate IsLight(m: Material)
  {
    match m
    case DiffuseLight(_, _) => true
    case Lambertian(_) => false
  }

  /** `ScatterRecord`: the direction to continue in, the colour it is
      filtered by, and whether the bounce is specular. */
  datatype ScatterRecord = ScatterRecord(dir: Vec3, attenuation: Vec3, isSpecular: bool)

  /** `Material::sample`. `scattered` is the cosine-weighted direction the
      source draws and turns into the frame of the normal `n`; only the
      dispatch and the record are modelled. A light does not scatter; a
      Lambertian surface scatters with its own colour and is not specular. */
  function Sample(m: Material, wo: Vec3, n: Vec3, scattered: Vec3): (r: Option<ScatterRecord>)
    ensures r.Some? <==> m.Lambertian?
    ensures r.Some? ==> r.value == ScatterRecord(scattered, m.color, false)
  {
    match m
    case Lambertian(color) => Some(ScatterRecord(scattered, color, false))
    case DiffuseLight(_, _) => None
  }

  /** `Material::pdf`: the cosine density about `n` for a Lambertian
      surface, and zero for a light. */
  function Pdf(m: Material, wo: Vec3, n: Vec3, wi: Vec3): (r: real)
    ensures 0.0 <= r
    ensures m.Lambertian? ==> r == CosinePdf(n, wi, Pi)
    ensures m.DiffuseLight? ==> r == 0.0
  {
    match m
    case Lambertian(_) => CosinePdf(n, wi, Pi)
    case DiffuseLight(_, _) => 0.0
  }

  /** The four visitors agree on what a light is: exactly the materials
      that are lights refuse to scatter and have no density, and only
      they can emit anything. A Lambertian surface has a density exactly
      in the hemisphere about its normal. */
  lemma {:induction false} VisitorsAgree(m: Material, wo: Vec3, n: Vec3, wi: Vec3, scattered: Vec3)
    ensures IsLight(m) <==> Sample(m, wo, n, scattered).None?
    ensures IsLight(m) ==> Pdf(m, wo, n, wi) == 0.0
    ensures Emit(m) != Zero() ==> IsLight(m)
    ensures !IsLight(m) ==> (Pdf(m, wo, n, wi) == 0.0 <==> n.Dot(wi) <= 0.0)
  {
    match m {
      case Lambertian(_) =>
        assert !IsLight(m);
      case DiffuseLight(_, _) =>
        assert IsLight(m);
    }
  }
}
