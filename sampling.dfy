/** The hemisphere samplers and their densities (sampling.cpp, and the copy
    in namespace `flow` of backup/sampling.cpp). The two copies differ only
    in the constant they use for π: `glm::pi<double>()` in the live copy and
    `pif` in the backup, whose header is not part of this model. Every
    member therefore takes the value of π as a parameter `pi`; the live
    copy passes `Numerics.Pi`. Directions are given about the +z axis. */
module Sampling {
  import opened Numerics
  import opened VectorMath

  /** `sample_hemisphere_uniform_pdf`: the density of a uniformly chosen
      direction `d` of the hemisphere about `n`, and zero below it. */
  function UniformPdf(n: Vec3, d: Vec3, pi: real): (r: real)
    requires 0.0 < pi
    ensures 0.0 <= r
    ensures r == 0.0 <==> n.Dot(d) <= 0.0
    ensures 0.0 < n.Dot(d) ==> r * (2.0 * pi) == 1.0
  {
    if n.Dot(d) > 0.0 then 0.5 / pi else 0.0
  }

  /** `sample_hemisphere_cosine_pdf`: the cosine-weighted density, clamped
      at zero below the hemisphere. */
  function CosinePdf(n: Vec3, d: Vec3, pi: real): (r: real)
    requires 0.0 < pi
    ensures 0.0 <= r
    ensures r == 0.0 <==> n.Dot(d) <= 0.0
  {
    var cosine := Max(0.0, n.Dot(d));
    cosine / pi
  }

  /** The angles of a hemisphere sample: `phi` about the axis, and the
      cosine and sine of the angle from it. */
  datatype Angles = Angles(phi: real, cosTheta: real, sinTheta: real)
  {
    /** The direction before normalisation. */
    function Raw(lib: Libm): Vec3
    {
      Vec3(sinTheta * lib.cos(phi), sinTheta * lib.sin(phi), cosTheta)
    }

    /** The sampled direction, normalised as `glm::normalize` does (the
        backup's `normalize` is taken to be the same). */
    function Direction(lib: Libm): Vec3
    {
      Normalized(Raw(lib), lib)
    }
  }

  /** The angles of `sample_hemisphre_uniform(u1, u2)`: the height of the
      direction is the draw `u2` itself. */
  function UniformAngles(u1: real, u2: real, lib: Libm, pi: real): (r: Angles)
    ensures r.phi == 2.0 * pi * u1 && r.cosTheta == u2
    ensures SqrtExactAt(lib, 1.0 - u2 * u2) ==>
      0.0 <= r.sinTheta && r.sinTheta * r.sinTheta + r.cosTheta * r.cosTheta == 1.0
  {
    Angles(2.0 * pi * u1, u2, lib.sqrt(1.0 - u2 * u2))
  }

  /** The angles of `sample_hemisphere_cosine(u1, u2)`: the height is the
      square root of `u2`, so its square is `u2` when the root is exact. */
  function CosineAngles(u1: real, u2: real, lib: Libm, pi: real): (r: Angles)
    ensures r.phi == 2.0 * pi * u1
    ensures 0.0 <= u2 <= 1.0 && SqrtExactAt(lib, u2) && SqrtExactAt(lib, 1.0 - u2) ==>
      0.0 <= r.cosTheta && r.cosTheta * r.cosTheta == u2
      && 0.0 <= r.sinTheta && r.sinTheta * r.sinTheta == 1.0 - r.cosTheta * r.cosTheta
  {
    var cosTheta := lib.sqrt(u2);
    var r := Angles(2.0 * pi * u1, cosTheta, lib.sqrt(1.0 - cosTheta * cosTheta));
    if SqrtExactAt(lib, u2) then
      assert 1.0 - cosTheta * cosTheta == 1.0 - u2;
      r
    else r
  }

  /** Both samplers stay in the upper hemisphere: the height of the
      normalised direction is never negative. */
  lemma SampledDirectionsPointUp(u1: real, u2: real, lib: Libm, pi: real)
    requires 0.0 <= u2 && SqrtNonNegative(lib)
    ensures 0.0 <= UniformAngles(u1, u2, lib, pi).Direction(lib).z
    ensures 0.0 <= CosineAngles(u1, u2, lib, pi).Direction(lib).z
  {
    HeightKeepsSign(UniformAngles(u1, u2, lib, pi), lib);
    assert 0.0 <= lib.sqrt(u2);
    HeightKeepsSign(CosineAngles(u1, u2, lib, pi), lib);
  }

  /** Normalisation does not change the sign of the height. */
  lemma HeightKeepsSign(a: Angles, lib: Libm)
    requires 0.0 <= a.cosTheta && SqrtNonNegative(lib)
    ensures 0.0 <= a.Direction(lib).z
  {
    var v := a.Raw(lib);
    var l := v.Length(lib);
    assert 0.0 <= l;
    if l != 0.0 {
      assert 0.0 < 1.0 / l;
      assert a.Direction(lib).z == a.cosTheta * (1.0 / l);
    }
  }

  /** When the angles are consistent (`sin² + cos² = 1` for both `theta`
      and `phi`) and the square root of 1 is 1, the raw direction is
      already a unit vector, so normalising leaves it alone and the height
      of the sample is `cosTheta`: `u2` for uniform sampling and `sqrt(u2)`
      for cosine sampling. */
  lemma {:induction false} HeightIsCosTheta(a: Angles, lib: Libm)
    requires a.sinTheta * a.sinTheta + a.cosTheta * a.cosTheta == 1.0
    requires lib.sin(a.phi) * lib.sin(a.phi) + lib.cos(a.phi) * lib.cos(a.phi) == 1.0
    requires lib.sqrt(1.0) == 1.0
    ensures a.Raw(lib).Length2() == 1.0
    ensures a.Direction(lib) == a.Raw(lib)
    ensures a.Direction(lib).z == a.cosTheta
  {
    var s, c, n := a.sinTheta, lib.cos(a.phi), lib.sin(a.phi);
    calc {
      a.Raw(lib).Length2();
      (s * c) * (s * c) + (s * n) * (s * n) + a.cosTheta * a.cosTheta;
      (s * s) * (c * c + n * n) + a.cosTheta * a.cosTheta;
      1.0;
    }
  }

  /** The cosine density is the uniform one weighted by twice the cosine:
      both vanish below the hemisphere, and above it
      `cos/π = 2·cos · 1/(2π)`. */
  lemma {:induction false} CosinePdfWeightsUniform(n: Vec3, d: Vec3, pi: real)
    requires 0.0 < pi
    ensures CosinePdf(n, d, pi) == 2.0 * Max(0.0, n.Dot(d)) * UniformPdf(n, d, pi)
  {
    if n.Dot(d) > 0.0 {
      calc {
        2.0 * n.Dot(d) * UniformPdf(n, d, pi);
        2.0 * n.Dot(d) * (0.5 / pi);
        n.Dot(d) / pi;
      }
    }
  }
}
