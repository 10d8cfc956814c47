/** What the older Mitsuba reader promises about its tables and the scene it
    builds, and how its `parse_integrator` differs from the one in use. */
module MitsubaRegistryProperties {
  import opened Wrappers
  import opened Xml
  import opened Mitsuba
  import opened MitsubaRegistry
  import MitsubaLive

  /** Entries of `before` survive into `after` with the same value. */
  ghost predicate Keeps<V>(before: map<string, V>, after: map<string, V>)
  {
    forall k :: k in before ==> k in after && after[k] == before[k]
  }

  /** The tables only grow: integers and BSDFs, once registered, keep their
      first value, and no integrator disappears. */
  ghost predicate Extends(t: Tables, t': Tables)
  {
    Keeps(t.integers, t'.integers)
    && Keeps(t.bsdfs, t'.bsdfs)
    && t.integrators.Keys <= t'.integrators.Keys
  }

  /** The number of `<shape>` elements among `children`. */
  function ShapeCount(children: seq<Node>): nat
  {
    if |children| == 0 then 0
    else (if children[0].name == "shape" then 1 else 0) + ShapeCount(children[1..])
  }

  lemma StepExtends(t: Tables, scene: SceneDescription, child: Node, conv: Conversions)
    ensures Extends(t, LoadStep(t, scene, child, conv).0)
  {
    if child.name == "default" {
      DefaultStepExtends(t, child, conv);
    } else if child.name == "integrator" {
      IntegratorStepExtends(t, child, conv);
    } else if child.name == "bsdf" {
      BsdfStepExtends(t, child, conv);
    }
  }

  lemma DefaultStepExtends(t: Tables, child: Node, conv: Conversions)
    ensures Extends(t, DefaultStep(t, child, conv))
  {
  }

  lemma IntegratorStepExtends(t: Tables, node: Node, conv: Conversions)
    ensures Extends(t, IntegratorStep(t, node, conv).0)
  {
  }

  lemma BsdfStepExtends(t: Tables, node: Node, conv: Conversions)
    ensures Extends(t, BsdfStep(t, node, conv).0)
  {
  }

  /** While `load_scene` walks the document the tables only grow, so the
      first registration of an integer or a BSDF wins, whether or not the
      walk ends in a failure. */
  lemma {:induction false} LoadKeepsFirstRegistrations(t: Tables, scene: SceneDescription, children: seq<Node>, conv: Conversions)
    ensures Extends(t, LoadFold(t, scene, children, conv).0)
    decreases |children|
  {
    if |children| > 0 {
      StepExtends(t, scene, children[0], conv);
      var (t', r) := LoadStep(t, scene, children[0], conv);
      if r.Ok? {
        LoadKeepsFirstRegistrations(t', r.value, children[1..], conv);
      }
    }
  }

  /** Shapes are appended in document order: a successful walk ends with the
      shapes it started with, followed by one shape per `<shape>`
      element. */
  lemma {:induction false} ShapesAppendedInOrder(t: Tables, scene: SceneDescription, children: seq<Node>, conv: Conversions)
    requires LoadFold(t, scene, children, conv).1.Ok?
    ensures var shapes := LoadFold(t, scene, children, conv).1.value.shapes;
      |shapes| == |scene.shapes| + ShapeCount(children) && shapes[..|scene.shapes|] == scene.shapes
    decreases |children|
  {
    if |children| > 0 {
      var (t', r) := LoadStep(t, scene, children[0], conv);
      ShapesAppendedInOrder(t', r.value, children[1..], conv);
      var shapes := LoadFold(t, scene, children, conv).1.value.shapes;
      assert shapes[..|r.value.shapes|] == r.value.shapes;
      assert r.value.shapes[..|scene.shapes|] == scene.shapes;
    }
  }

  /** A file that did not load gives no scene and leaves the tables as they
      were; a loaded one registers a path integrator for
      `<default name="integrator" value="path"/>` unless one is there. */
  lemma LoadFailureAndPathDefault(doc: Node, t: Tables, child: Node, conv: Conversions)
    ensures LoadSceneOf(false, doc, t, conv) == (t, Ok(None))
    ensures Attr(child, "name") == "integrator" && Attr(child, "value") == "path" ==>
      var t' := DefaultStep(t, child, conv);
      "integrator" in t'.integrators
      && ("integrator" !in t.integrators ==> t'.integrators["integrator"] == Integrator(Path, 0))
    ensures Attr(child, "name") != "integrator" ==>
      var name := Attr(child, "name");
      var t' := DefaultStep(t, child, conv);
      name in t'.integers
      && t'.integers[name] == (if name in t.integers then t.integers[name] else conv.asInt(Attr(child, "value")))
  {
  }

  /** `parse_integrator` writes the parsed depth into the stored entry and
      returns that entry, so the table and the result agree; nothing else in
      the table changes. */
  lemma IntegratorUpdatedInPlace(t: Tables, node: Node, conv: Conversions)
    requires IntegratorStep(t, node, conv).1.Ok?
    ensures var (t', r) := IntegratorStep(t, node, conv);
      var key := ParseReferenceKey(node, "type").value;
      var depth := ParseInteger(FindChildByAttribute(node, "name", "max_depth"), t.integers, conv);
      key in t.integrators && key in t'.integrators
      && t'.integrators[key] == r.value
      && depth.Ok? && r.value == t.integrators[key].(maxDepth := depth.value)
      && t'.integrators.Keys == t.integrators.Keys
      && (forall k :: k in t.integrators && k != key ==> t'.integrators[k] == t.integrators[k])
      && t'.integers == t.integers && t'.bsdfs == t.bsdfs
  {
  }

  /** The two versions of `parse_integrator` part ways: where the older one
      returns the entry with the parsed depth, the one in use returns the
      entry as stored. */
  lemma IntegratorVersionsDiffer(t: Tables, node: Node, conv: Conversions)
    requires Attr(node, "value") == Attr(node, "type")
    requires IntegratorStep(t, node, conv).1.Ok?
    requires IntegratorStep(t, node, conv).1.value != t.integrators[ParseReferenceKey(node, "type").value]
    ensures MitsubaLive.ParseIntegrator(node, t.integers, t.integrators, conv).Ok?
    ensures MitsubaLive.ParseIntegrator(node, t.integers, t.integrators, conv).value
      == t.integrators[ParseReferenceKey(node, "type").value]
    ensures MitsubaLive.ParseIntegrator(node, t.integers, t.integrators, conv).value
      != IntegratorStep(t, node, conv).1.value
  {
    assert ParseReferenceKey(node, "value") == ParseReferenceKey(node, "type");
  }

  /** `parse_bsdf` registers the BSDF under its id unless the id is already
      taken, marks it two-sided only for type `"twosided"`, and takes the
      reflectance from the first grandchild when that one is named
      `reflectance`. */
  lemma BsdfRegistration(t: Tables, node: Node, conv: Conversions)
    requires BsdfStep(t, node, conv).1.Ok?
    ensures var (t', r) := BsdfStep(t, node, conv);
      var id := Attr(node, "id");
      var rgbNode := FirstChild(FirstChild(node));
      id in t'.bsdfs
      && t'.bsdfs[id] == (if id in t.bsdfs then t.bsdfs[id] else r.value)
      && (r.value.twoSided == Some(true) <==> Attr(node, "type") == "twosided")
      && (r.value.reflect.Some? <==> Attr(rgbNode, "name") == "reflectance")
      && (r.value.reflect.Some? ==> RgbOf(rgbNode, conv) == Ok(r.value.reflect.value))
      && t'.integers == t.integers && t'.integrators == t.integrators
  {
  }

  /** A `<ref>` to a BSDF id that is not registered makes `parse_shape`
      fail (`bsdfs.at` throws). */
  lemma {:induction false} UnregisteredBsdfFails(shape: Shape, children: seq<Node>, k: nat, bsdfs: map<string, Bsdf>, conv: Conversions)
    requires k < |children|
    requires children[k].name == "ref" && Attr(children[k], "id") !in bsdfs
    ensures ShapeFold(shape, children, bsdfs, conv).Err?
    decreases k
  {
    if k > 0 {
      match ShapeStep(shape, children[0], bsdfs, conv) {
        case Ok(next) =>
          assert children[1..][k - 1] == children[k];
          UnregisteredBsdfFails(next, children[1..], k - 1, bsdfs, conv);
        case Err(_) =>
      }
    }
  }
}
