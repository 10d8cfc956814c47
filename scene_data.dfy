/** The renderer's scene records (scene_data.h over `glm::dvec3`, with the
    float copy data.h and the `vec3f` copy backup/scene_data.h having the
    same members): rays, materials, triangle meshes, the film and the
    scene. The `Film` and the `Scene` are updated in place and are
    classes; the rest are values. */
module SceneData {
  import opened Numerics
  import opened VectorMath

  /** `uint16_t` and `int16_t`. */
  type U16 = x: int | 0 <= x < 0x1_0000
  type I16 = x: int | -0x8000 <= x < 0x8000

  /** The conversion of an `int` to `uint16_t`: reduction modulo 2^16. */
  function ToU16(v: int): (r: U16)
    ensures (v - r) % 0x1_0000 == 0
    ensures 0 <= v < 0x1_0000 ==> r == v
  {
    v % 0x1_0000
  }

  /** The conversion of an `int` to `int16_t`: the value in
      [-2^15, 2^15) congruent to `v` modulo 2^16. */
  function ToI16(v: int): (r: I16)
    ensures (v - r) % 0x1_0000 == 0
    ensures -0x8000 <= v < 0x8000 ==> r == v
  {
    var m := v % 0x1_0000;
    if m < 0x8000 then m else m - 0x1_0000
  }

  datatype Ray = Ray(origin: Vec3, dir: Vec3)
  {
    /** `Ray::at`: the point `t` direction-lengths along the ray. */
    function At(t: real): (r: Vec3)
      ensures r.Sub(origin) == dir.Scale(t)
      ensures t == 0.0 ==> r == origin
    {
      origin.Add(dir.Scale(t))
    }
  }

  /** `std::variant<Lambertian, DiffuseLight>`. */
  datatype Material = Lambertian(color: Vec3) | DiffuseLight(color: Vec3, intensity: real)

  /** The two alternatives of the renderer's `Integrator` variant. */
  datatype IntegratorKind = NormalIntegrator | PathIntegrator

  datatype Mesh = Mesh(positions: seq<Vec3>, indices: seq<U16>, material: Material)
  {
    /** Whole triangles whose every index names a position; `area` and the
        hit tests read out of bounds otherwise. */
    predicate WellFormed()
    {
      |indices| % 3 == 0 && forall i :: 0 <= i < |indices| ==> indices[i] < |positions|
    }

    function TriangleCount(): nat { |indices| / 3 }

    /** The three corners of triangle `k`. */
    function Corners(k: nat): (Vec3, Vec3, Vec3)
      requires WellFormed() && k < TriangleCount()
    {
      (positions[indices[3 * k]], positions[indices[3 * k + 1]], positions[indices[3 * k + 2]])
    }

    /** `glm::length(glm::cross(v1 - v0, v2 - v0))`: twice the area of
        triangle `k`. */
    function DoubleArea(k: nat, lib: Libm): real
      requires WellFormed() && k < TriangleCount()
    {
      var (v0, v1, v2) := Corners(k);
      v1.Sub(v0).Cross(v2.Sub(v0)).Length(lib)
    }

    /** The running sum of `area` after its first `k` triangles. */
    function AreaSum(k: nat, lib: Libm): (r: real)
      requires WellFormed() && k <= TriangleCount()
      ensures SqrtNonNegative(lib) ==> 0.0 <= r
      ensures k == 0 ==> r == 0.0
    {
      if k == 0 then 0.0
      else
        AreaSum(k - 1, lib) + DoubleArea(k - 1, lib)
    }

    /** `Mesh::area`: half the sum of the doubled triangle areas. It is not
        negative when `sqrt` is not, and it is zero for a mesh without
        triangles. */
    method Area(lib: Libm) returns (r: real)
      requires WellFormed()
      ensures r == AreaSum(TriangleCount(), lib) / 2.0
      ensures SqrtNonNegative(lib) ==> 0.0 <= r
      ensures |indices| == 0 ==> r == 0.0
    {
      var res := 0.0;
      var i := 0;
      ghost var k := 0;
      while i < |indices|
        invariant i == 3 * k && k <= TriangleCount()
        invariant res == AreaSum(k, lib)
        decreases |indices| - i
      {
        var v0 := positions[indices[i]];
        var v1 := positions[indices[i + 1]];
        var v2 := positions[indices[i + 2]];
        assert (v0, v1, v2) == Corners(k);
        res := res + v1.Sub(v0).Cross(v2.Sub(v0)).Length(lib);
        i, k := i + 3, k + 1;
      }
      r := res / 2.0;
    }
  }

  /** The image being rendered: a row-major buffer of `width * height`
      colours. */
  class Film {
    var buffer: seq<Vec3>
    var width: U16
    var height: U16

    constructor (width: U16, height: U16)
      ensures this.width == width && this.height == height && buffer == []
    {
      this.width := width;
      this.height := height;
      buffer := [];
    }

    /** `Film::set`: writes the colour of pixel `(x, y)` into its row-major
        slot and no other. */
    method Set(x: int, y: int, color: Vec3)
      requires 0 <= x < width && 0 <= y < height && width * height <= |buffer|
      modifies this
      ensures width == old(width) && height == old(height)
      ensures buffer == old(buffer)[PixelIndex(x, y, width, height) := color]
    {
      var i := PixelIndex(x, y, width, height);
      buffer := buffer[i := color];
    }
  }

  /** The row-major index `y * width + x`; inside a `width` by `height`
      grid it is below `width * height`. */
  function PixelIndex(x: nat, y: nat, width: nat, height: nat): (r: nat)
    requires x < width && y < height
    ensures r < width * height
  {
    RowsAreOrdered(y, height, width);
    y * width + x
  }

  /** `std::vector::resize(n)` of a colour buffer: the first entries are
      kept and new ones are black. */
  function Resize(buffer: seq<Vec3>, n: nat): (r: seq<Vec3>)
    ensures |r| == n
    ensures forall i :: 0 <= i < n && i < |buffer| ==> r[i] == buffer[i]
    ensures forall i :: |buffer| <= i < n ==> r[i] == Zero()
  {
    if n <= |buffer| then buffer[..n] else buffer + seq(n - |buffer|, _ => Zero())
  }

  /** Writing one pixel of a row-major buffer leaves every other pixel as
      it was. */
  lemma WriteKeepsOtherPixels(buffer: seq<Vec3>, width: nat, height: nat, x: nat, y: nat, c: Vec3)
    requires x < width && y < height && |buffer| == width * height
    ensures var b := buffer[PixelIndex(x, y, width, height) := c];
      forall px, py :: 0 <= px < width && 0 <= py < height && (px != x || py != y) ==>
        b[PixelIndex(px, py, width, height)] == buffer[PixelIndex(px, py, width, height)]
  {
    forall px, py | 0 <= px < width && 0 <= py < height && (px != x || py != y)
      ensures PixelIndex(px, py, width, height) != PixelIndex(x, y, width, height)
    {
      if PixelIndex(px, py, width, height) == PixelIndex(x, y, width, height) {
        PixelIndexInjective(px, py, x, y, width, height);
      }
    }
  }

  /** A later row starts at least one whole row after an earlier one. */
  lemma RowsAreOrdered(a: nat, b: nat, width: nat)
    requires a < b
    ensures a * width + width <= b * width
  {
    var c: nat := b - a - 1;
    assert b == a + 1 + c;
    assert (a + 1 + c) * width == a * width + width + c * width;
    assert 0 <= c * width;
  }

  /** Distinct pixels of a grid have distinct row-major indices. */
  lemma PixelIndexInjective(x: nat, y: nat, x': nat, y': nat, width: nat, height: nat)
    requires x < width && y < height && x' < width && y' < height
    requires PixelIndex(x, y, width, height) == PixelIndex(x', y', width, height)
    ensures x == x' && y == y'
  {
    if y' < y {
      RowsAreOrdered(y', y, width);
    } else if y < y' {
      RowsAreOrdered(y, y', width);
    }
  }

  /** The scene the renderer draws. The camera is not part of this model. */
  class Scene {
    var meshes: seq<Mesh>
    var integrator: IntegratorKind
    var width: U16
    var height: U16
    var bounces: I16
    var samples: I16

    /** A scene without meshes; a default-constructed `std::variant` holds
        its first alternative, the normal integrator. */
    constructor (width: U16, height: U16, bounces: I16, samples: I16)
      ensures meshes == [] && integrator == NormalIntegrator
      ensures this.width == width && this.height == height
      ensures this.bounces == bounces && this.samples == samples
    {
      meshes := [];
      integrator := NormalIntegrator;
      this.width := width;
      this.height := height;
      this.bounces := bounces;
      this.samples := samples;
    }

    /** `Scene::add`: appends the mesh and leaves the earlier ones alone. */
    method Add(mesh: Mesh)
      modifies this
      ensures meshes == old(meshes) + [mesh]
      ensures |meshes| == |old(meshes)| + 1 && meshes[..|old(meshes)|] == old(meshes)
      ensures integrator == old(integrator) && width == old(width) && height == old(height)
      ensures bounces == old(bounces) && samples == old(samples)
    {
      meshes := meshes + [mesh];
    }
  }
}
