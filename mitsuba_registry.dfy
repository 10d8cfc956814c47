/** The older Mitsuba reader (backup/scene_parser.cpp). Its static tables
    of integers, integrators and BSDFs are filled while the scene is read
    and consulted by later elements; they are the fields of `Registry`.
    `std::unordered_map::insert` keeps an existing entry, `at` throws on a
    missing key. When a parse fails the tables keep what was inserted
    before the failure, so every specification function below returns the
    tables alongside the result. */
module MitsubaRegistry {
  import opened Wrappers
  import opened Xml
  import opened Mitsuba

  datatype BsdfType = Diffuse
  datatype ShapeType = Cube | Rectangle
  datatype SamplerType = Independent
  datatype CameraType = Perspective

  datatype Bsdf = Bsdf(kind: Option<BsdfType>, twoSided: Option<bool>, reflect: Option<seq<real>>)
  datatype Shape = Shape(kind: Option<ShapeType>, transform: Option<seq<real>>, bsdf: Option<Bsdf>)
  datatype Sampler = Sampler(kind: Option<SamplerType>, spp: int)
  datatype Camera = Camera(
    kind: Option<CameraType>,
    fov: Option<real>,
    transform: Option<seq<real>>,
    sampler: Option<Sampler>,
    film: Option<Film>)

  /** The scene `load_scene` returns; the fields it never assigns stay
      indeterminate. */
  datatype SceneDescription = SceneDescription(integrator: Option<Integrator>, camera: Option<Camera>, shapes: seq<Shape>)

  const UnsetCamera: Camera := Camera(None, None, None, None, None)
  const EmptyScene: SceneDescription := SceneDescription(None, None, [])

  /** The three static tables as a value. */
  datatype Tables = Tables(integers: map<string, int>, integrators: map<string, Integrator>, bsdfs: map<string, Bsdf>)

  /** `parse_sampler`: the `sample_count` child must be an integer. */
  function ParseSampler(node: Node, integers: map<string, int>, conv: Conversions): (r: Result<Sampler, Failure>)
    ensures r.Ok? ==>
      node.name == "sampler"
      && ParseInteger(FindChildByAttribute(node, "name", "sample_count"), integers, conv) == Ok(r.value.spp)
      && (r.value.kind == Some(Independent) <==> Attr(node, "type") == "independent")
  {
    if node.name != "sampler" then Err(TagMismatch("sampler", node.name))
    else
      var kind := if Attr(node, "type") == "independent" then Some(Independent) else None;
      match ParseInteger(FindChildByAttribute(node, "name", "sample_count"), integers, conv)
      case Ok(spp) => Ok(Sampler(kind, spp))
      case Err(e) => Err(e)
  }

  /** One child of a perspective `<sensor>`. */
  function CameraStep(camera: Camera, child: Node, integers: map<string, int>, conv: Conversions): Result<Camera, Failure>
  {
    if Attr(child, "name") == "fov" then
      match ParseFloat(child, conv)
      case Ok(f) => Ok(camera.(fov := Some(f)))
      case Err(e) => Err(e)
    else if child.name == "transform" then
      if Attr(child, "name") == "to_world" then
        match TransformOf(child, conv)
        case Ok(m) => Ok(camera.(transform := Some(m)))
        case Err(e) => Err(e)
      else Ok(camera)
    else if child.name == "sampler" then
      match ParseSampler(child, integers, conv)
      case Ok(s) => Ok(camera.(sampler := Some(s)))
      case Err(e) => Err(e)
    else if child.name == "film" then
      match FilmOf(child, integers, conv)
      case Ok(f) => Ok(camera.(film := Some(f)))
      case Err(e) => Err(e)
    else Ok(camera)
  }

  function CameraFold(camera: Camera, children: seq<Node>, integers: map<string, int>, conv: Conversions): Result<Camera, Failure>
    decreases |children|
  {
    if |children| == 0 then Ok(camera)
    else match CameraStep(camera, children[0], integers, conv)
      case Ok(next) => CameraFold(next, children[1..], integers, conv)
      case Err(e) => Err(e)
  }

  /** What `parse_camera` returns: only a perspective sensor reads its
      children. */
  function CameraOf(node: Node, integers: map<string, int>, conv: Conversions): (r: Result<Camera, Failure>)
    ensures r.Ok? ==> node.name == "sensor"
    ensures node.name == "sensor" && Attr(node, "type") != "perspective" ==> r == Ok(UnsetCamera)
  {
    if node.name != "sensor" then Err(TagMismatch("sensor", node.name))
    else if Attr(node, "type") == "perspective" then
      CameraFold(UnsetCamera.(kind := Some(Perspective)), node.children, integers, conv)
    else Ok(UnsetCamera)
  }

  /** `parse_camera`. */
  method ParseCamera(node: Node, integers: map<string, int>, conv: Conversions) returns (r: Result<Camera, Failure>)
    ensures r == CameraOf(node, integers, conv)
  {
    if node.name != "sensor" {
      return Err(TagMismatch("sensor", node.name));
    }
    var camera := UnsetCamera;
    if Attr(node, "type") == "perspective" {
      camera := camera.(kind := Some(Perspective));
      var children := node.children;
      for i := 0 to |children|
        invariant CameraOf(node, integers, conv) == CameraFold(camera, children[i..], integers, conv)
      {
        var child := children[i];
        assert children[i..][1..] == children[i + 1..];
        if Attr(child, "name") == "fov" {
          var f := ParseFloat(child, conv);
          if f.Err? { return Err(f.error); }
          camera := camera.(fov := Some(f.value));
        } else if child.name == "transform" {
          if Attr(child, "name") == "to_world" {
            var m := ParseTransform(child, conv);
            if m.Err? { return Err(m.error); }
            camera := camera.(transform := Some(m.value));
          }
        } else if child.name == "sampler" {
          var s := ParseSampler(child, integers, conv);
          if s.Err? { return Err(s.error); }
          camera := camera.(sampler := Some(s.value));
        } else if child.name == "film" {
          var f := ParseFilm(child, integers, conv);
          if f.Err? { return Err(f.error); }
          camera := camera.(film := Some(f.value));
        }
      }
    }
    r := Ok(camera);
  }

  /** `parse_bsdf`: the BSDF described by a `<bsdf>` element, and the
      tables after registering it under its `id`. */
  function BsdfStep(t: Tables, node: Node, conv: Conversions): (Tables, Result<Bsdf, Failure>)
  {
    if node.name != "bsdf" then (t, Err(TagMismatch("bsdf", node.name)))
    else
      var id := Attr(node, "id");
      var twoSided := if Attr(node, "type") == "twosided" then Some(true) else None;
      var inner := FirstChild(node);
      var kind := if Attr(inner, "type") == "diffuse" then Some(Diffuse) else None;
      var rgbNode := FirstChild(inner);
      var reflect :=
        if Attr(rgbNode, "name") == "reflectance" then
          match RgbOf(rgbNode, conv)
          case Ok(rgb) => Ok(Some(rgb))
          case Err(e) => Err(e)
        else Ok(None);
      match reflect
      case Err(e) => (t, Err(e))
      case Ok(rgb) =>
        var bsdf := Bsdf(kind, twoSided, rgb);
        (if id in t.bsdfs then t else t.(bsdfs := t.bsdfs[id := bsdf]), Ok(bsdf))
  }

  /** One child of a `<shape>`: a transform, or a reference to a BSDF that
      must already be registered. */
  function ShapeStep(shape: Shape, child: Node, bsdfs: map<string, Bsdf>, conv: Conversions): Result<Shape, Failure>
  {
    if child.name == "transform" then
      match TransformOf(child, conv)
      case Ok(m) => Ok(shape.(transform := Some(m)))
      case Err(e) => Err(e)
    else if child.name == "ref" then
      var id := Attr(child, "id");
      if id in bsdfs then Ok(shape.(bsdf := Some(bsdfs[id]))) else Err(BsdfNotPresent(id))
    else Ok(shape)
  }

  function ShapeFold(shape: Shape, children: seq<Node>, bsdfs: map<string, Bsdf>, conv: Conversions): Result<Shape, Failure>
    decreases |children|
  {
    if |children| == 0 then Ok(shape)
    else match ShapeStep(shape, children[0], bsdfs, conv)
      case Ok(next) => ShapeFold(next, children[1..], bsdfs, conv)
      case Err(e) => Err(e)
  }

  /** What `parse_shape` returns. */
  function ShapeOf(node: Node, bsdfs: map<string, Bsdf>, conv: Conversions): Result<Shape, Failure>
  {
    if node.name != "shape" then Err(TagMismatch("shape", node.name))
    else
      var kind := if Attr(node, "type") == "cube" then Some(Cube)
        else if Attr(node, "type") == "rectangle" then Some(Rectangle)
        else None;
      ShapeFold(Shape(kind, None, None), node.children, bsdfs, conv)
  }

  /** `parse_integrator`: the `$key` of the `type` attribute names a
      registered integrator, whose stored entry gets the parsed
      `max_depth` and is returned. */
  function IntegratorStep(t: Tables, node: Node, conv: Conversions): (Tables, Result<Integrator, Failure>)
  {
    if node.name != "integrator" then (t, Err(TagMismatch("integrator", node.name)))
    else match ParseReferenceKey(node, "type")
      case None => (t, Err(UnsupportedIntegratorFormat))
      case Some(key) =>
        if key !in t.integrators then (t, Err(IntegratorNotPresent(key)))
        else match ParseInteger(FindChildByAttribute(node, "name", "max_depth"), t.integers, conv)
          case Err(e) => (t, Err(e))
          case Ok(depth) =>
            var entry := t.integrators[key].(maxDepth := depth);
            (t.(integrators := t.integrators[key := entry]), Ok(entry))
  }

  /** A `<default>` entry: `integrator="path"` registers a path integrator
      under `"integrator"`, another integrator value does nothing, and any
      other name registers an integer; an existing entry is kept. */
  function DefaultStep(t: Tables, child: Node, conv: Conversions): Tables
  {
    var name := Attr(child, "name");
    if name == "integrator" then
      if Attr(child, "value") == "path" && "integrator" !in t.integrators then
        t.(integrators := t.integrators["integrator" := Integrator(Path, 0)])
      else t
    else if name in t.integers then t
    else t.(integers := t.integers[name := conv.asInt(Attr(child, "value"))])
  }

  /** One child of `<scene>`. */
  function LoadStep(t: Tables, scene: SceneDescription, child: Node, conv: Conversions)
    : (Tables, Result<SceneDescription, Failure>)
  {
    if child.name == "default" then (DefaultStep(t, child, conv), Ok(scene))
    else if child.name == "integrator" then
      var (t', r) := IntegratorStep(t, child, conv);
      (t', match r case Ok(i) => Ok(scene.(integrator := Some(i))) case Err(e) => Err(e))
    else if child.name == "sensor" then
      (t, match CameraOf(child, t.integers, conv) case Ok(c) => Ok(scene.(camera := Some(c))) case Err(e) => Err(e))
    else if child.name == "bsdf" then
      var (t', r) := BsdfStep(t, child, conv);
      (t', match r case Ok(_) => Ok(scene) case Err(e) => Err(e))
    else if child.name == "shape" then
      (t, match ShapeOf(child, t.bsdfs, conv) case Ok(s) => Ok(scene.(shapes := scene.shapes + [s])) case Err(e) => Err(e))
    else (t, Ok(scene))
  }

  function LoadFold(t: Tables, scene: SceneDescription, children: seq<Node>, conv: Conversions)
    : (Tables, Result<SceneDescription, Failure>)
    decreases |children|
  {
    if |children| == 0 then (t, Ok(scene))
    else
      var (t', r) := LoadStep(t, scene, children[0], conv);
      match r
      case Ok(next) => LoadFold(t', next, children[1..], conv)
      case Err(e) => (t', Err(e))
  }

  /** What `load_scene` returns, and the tables afterwards: nothing when
      the file did not load, else the walk over the children of
      `<scene>`. */
  function LoadSceneOf(loaded: bool, doc: Node, t: Tables, conv: Conversions)
    : (Tables, Result<Option<SceneDescription>, Failure>)
  {
    if !loaded then (t, Ok(None))
    else
      var (t', r) := LoadFold(t, EmptyScene, Child(doc, "scene").children, conv);
      (t', match r case Ok(s) => Ok(Some(s)) case Err(e) => Err(e))
  }

  /** The static tables. */
  class Registry {
    var integers: map<string, int>
    var integrators: map<string, Integrator>
    var bsdfs: map<string, Bsdf>

    function Contents(): Tables
      reads this
    {
      Tables(integers, integrators, bsdfs)
    }

    constructor ()
      ensures Contents() == Tables(map[], map[], map[])
    {
      integers := map[];
      integrators := map[];
      bsdfs := map[];
    }

    /** `parse_integrator`: updates the stored entry in place through a
        reference and returns it. */
    method ParseIntegrator(node: Node, conv: Conversions) returns (r: Result<Integrator, Failure>)
      modifies this
      ensures (Contents(), r) == IntegratorStep(old(Contents()), node, conv)
    {
      if node.name != "integrator" {
        return Err(TagMismatch("integrator", node.name));
      }
      var res := ParseReferenceKey(node, "type");
      if res.None? {
        return Err(UnsupportedIntegratorFormat);
      }
      var key := res.value;
      if key !in integrators {
        return Err(IntegratorNotPresent(key));
      }
      var depthNode := FindChildByAttribute(node, "name", "max_depth");
      var depth := ParseInteger(depthNode, integers, conv);
      if depth.Err? {
        return Err(depth.error);
      }
      integrators := integrators[key := integrators[key].(maxDepth := depth.value)];
      r := Ok(integrators[key]);
    }

    /** `parse_bsdf`: registers the BSDF under its id unless the id is
        taken. */
    method ParseBsdf(node: Node, conv: Conversions) returns (r: Result<Bsdf, Failure>)
      modifies this
      ensures (Contents(), r) == BsdfStep(old(Contents()), node, conv)
    {
      if node.name != "bsdf" {
        return Err(TagMismatch("bsdf", node.name));
      }
      var id := Attr(node, "id");
      var twoSided := None;
      if Attr(node, "type") == "twosided" {
        twoSided := Some(true);
      }
      var inner := FirstChild(node);
      var kind := None;
      if Attr(inner, "type") == "diffuse" {
        kind := Some(Diffuse);
      }
      var rgbNode := FirstChild(inner);
      var reflect := None;
      if Attr(rgbNode, "name") == "reflectance" {
        var rgb := ParseRgb(rgbNode, conv);
        if rgb.Err? {
          return Err(rgb.error);
        }
        reflect := Some(rgb.value);
      }
      var bsdf := Bsdf(kind, twoSided, reflect);
      if id !in bsdfs {
        bsdfs := bsdfs[id := bsdf];
      }
      r := Ok(bsdf);
    }

    /** `parse_shape`: reads the registered BSDFs, changes nothing. */
    method ParseShape(node: Node, conv: Conversions) returns (r: Result<Shape, Failure>)
      ensures r == ShapeOf(node, bsdfs, conv)
    {
      if node.name != "shape" {
        return Err(TagMismatch("shape", node.name));
      }
      var shape := Shape(None, None, None);
      if Attr(node, "type") == "cube" {
        shape := shape.(kind := Some(Cube));
      } else if Attr(node, "type") == "rectangle" {
        shape := shape.(kind := Some(Rectangle));
      }
      var children := node.children;
      for i := 0 to |children|
        invariant ShapeOf(node, bsdfs, conv) == ShapeFold(shape, children[i..], bsdfs, conv)
      {
        var child := children[i];
        assert children[i..][1..] == children[i + 1..];
        if child.name == "transform" {
          var m := ParseTransform(child, conv);
          if m.Err? { return Err(m.error); }
          shape := shape.(transform := Some(m.value));
        } else if child.name == "ref" {
          var id := Attr(child, "id");
          if id !in bsdfs { return Err(BsdfNotPresent(id)); }
          shape := shape.(bsdf := Some(bsdfs[id]));
        }
      }
      r := Ok(shape);
    }

    /** `load_scene`. */
    method LoadScene(loaded: bool, doc: Node, conv: Conversions) returns (r: Result<Option<SceneDescription>, Failure>)
      modifies this
      ensures (Contents(), r) == LoadSceneOf(loaded, doc, old(Contents()), conv)
    {
      if !loaded {
        return Ok(None);
      }
      var scene := EmptyScene;
      var children := Child(doc, "scene").children;
      ghost var start := Contents();
      for i := 0 to |children|
        invariant LoadFold(start, EmptyScene, children, conv) == LoadFold(Contents(), scene, children[i..], conv)
      {
        var child := children[i];
        assert children[i..][1..] == children[i + 1..];
        var failure := LoadChild(child, scene, conv);
        if failure.Err? {
          return Err(failure.error);
        }
        scene := failure.value;
      }
      r := Ok(Some(scene));
    }

    /** The body of the `load_scene` loop for one child of `<scene>`. */
    method LoadChild(child: Node, scene: SceneDescription, conv: Conversions) returns (r: Result<SceneDescription, Failure>)
      modifies this
      ensures (Contents(), r) == LoadStep(old(Contents()), scene, child, conv)
    {
      r := Ok(scene);
      if child.name == "default" {
        var name := Attr(child, "name");
        if name == "integrator" {
          if Attr(child, "value") == "path" && "integrator" !in integrators {
            integrators := integrators["integrator" := Integrator(Path, 0)];
          }
        } else if name !in integers {
          integers := integers[name := conv.asInt(Attr(child, "value"))];
        }
      } else if child.name == "integrator" {
        var integrator := ParseIntegrator(child, conv);
        if integrator.Err? { return Err(integrator.error); }
        r := Ok(scene.(integrator := Some(integrator.value)));
      } else if child.name == "sensor" {
        var camera := ParseCamera(child, integers, conv);
        if camera.Err? { return Err(camera.error); }
        r := Ok(scene.(camera := Some(camera.value)));
      } else if child.name == "bsdf" {
        var bsdf := ParseBsdf(child, conv);
        if bsdf.Err? { return Err(bsdf.error); }
      } else if child.name == "shape" {
        var shape := ParseShape(child, conv);
        if shape.Err? { return Err(shape.error); }
        r := Ok(scene.(shapes := scene.shapes + [shape.value]));
      }
    }
  }
}
