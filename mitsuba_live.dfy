/** The Mitsuba reader in use (scene_parser.cpp): `parse_integrator` and the
    global `load_scene`, which fills the renderer's `Scene` from the
    `<default>` entries of the document. */
module MitsubaLive {
  import opened Wrappers
  import opened Xml
  import opened Mitsuba
  import opened SceneData

  /** `parse_integrator`: looks up the `$key` of the `value` attribute and
      parses the `max_depth` child; the depth is stored into a local copy
      of the entry and is lost, so the entry comes back as stored. A
      failing `max_depth` still fails the call. */
  function ParseIntegrator(node: Node, integers: map<string, int>, integrators: map<string, Integrator>, conv: Conversions)
    : (r: Result<Integrator, Failure>)
    ensures r.Ok? ==>
      node.name == "integrator"
      && ParseReferenceKey(node, "value").Some?
      && ParseReferenceKey(node, "value").value in integrators
      && r.value == integrators[ParseReferenceKey(node, "value").value]
    ensures node.name == "integrator" && ParseReferenceKey(node, "value").None? ==> r == Err(UnsupportedIntegratorFormat)
    ensures node.name == "integrator" && ParseReferenceKey(node, "value").Some? ==>
      var key := ParseReferenceKey(node, "value").value;
      (key !in integrators ==> r == Err(IntegratorNotPresent(key)))
      && (key in integrators ==>
        (r.Ok? <==> ParseInteger(FindChildByAttribute(node, "name", "max_depth"), integers, conv).Ok?))
  {
    if node.name != "integrator" then Err(TagMismatch("integrator", node.name))
    else match ParseReferenceKey(node, "value")
      case None => Err(UnsupportedIntegratorFormat)
      case Some(key) =>
        if key !in integrators then Err(IntegratorNotPresent(key))
        else
          match ParseInteger(FindChildByAttribute(node, "name", "max_depth"), integers, conv)
          case Err(e) => Err(e)
          case Ok(depth) =>
            Ok(integrators[key])
  }

  /** The fields of the renderer's `Scene` that `load_scene` assigns. */
  datatype Settings = Settings(integrator: IntegratorKind, width: U16, height: U16, bounces: I16, samples: I16)

  /** A `<default name=... value=...>` entry as written: the integrator
      entry switches to the path integrator when `strcmp` is non-zero, that
      is when its value is NOT `"path"`. */
  function DefaultStepAsWritten(st: Settings, child: Node, conv: Conversions): Settings
  {
    var name := Attr(child, "name");
    if name == "integrator" then
      (if Attr(child, "value") != "path" then st.(integrator := PathIntegrator) else st)
    else DefaultSettingStep(st, name, conv.asInt(Attr(child, "value")))
  }

  /** A `<default>` entry with the comparison the code evidently means:
      the integrator entry selects the path integrator when its value is
      `"path"`. */
  function DefaultStep(st: Settings, child: Node, conv: Conversions): Settings
  {
    var name := Attr(child, "name");
    if name == "integrator" then
      (if Attr(child, "value") == "path" then st.(integrator := PathIntegrator) else st)
    else DefaultSettingStep(st, name, conv.asInt(Attr(child, "value")))
  }

  /** The numeric defaults: `as_int` of the value stored into the
      `uint16_t`/`int16_t` field the name selects; other names are
      ignored. */
  function DefaultSettingStep(st: Settings, name: string, v: int): Settings
  {
    if name == "spp" then st.(samples := ToI16(v))
    else if name == "resx" then st.(width := ToU16(v))
    else if name == "resy" then st.(height := ToU16(v))
    else if name == "max_depth" then st.(bounces := ToI16(v))
    else st
  }

  /** One child of `<scene>`: only `<default>` entries change the modelled
      fields (a `<sensor>` goes to the camera, which is not modelled).
      `asWritten` picks the integrator test: the `strcmp` of the code
      (`true`) or the comparison it evidently means (`false`). */
  function SceneStep(st: Settings, child: Node, conv: Conversions, asWritten: bool): Settings
  {
    if child.name != "default" then st
    else if asWritten then DefaultStepAsWritten(st, child, conv)
    else DefaultStep(st, child, conv)
  }

  /** The children of `<scene>`, processed in document order. */
  function SceneFold(st: Settings, children: seq<Node>, conv: Conversions, asWritten: bool): Settings
    decreases |children|
  {
    if |children| == 0 then st else SceneFold(SceneStep(st, children[0], conv, asWritten), children[1..], conv, asWritten)
  }

  /** `doc.child("scene")` of whatever tree the loader produced (none at
      all, when the file could not be read). */
  function SceneNode(doc: Node): Node { Child(doc, "scene") }

  /** The settings of a scene object. */
  function SettingsOf(scene: Scene): Settings
    reads scene
  {
    Settings(scene.integrator, scene.width, scene.height, scene.bounces, scene.samples)
  }

  /** `load_scene` as written: a load failure is only reported, the (then
      empty) document is walked anyway and the call reports success; the
      integrator entry takes the `strcmp` result as its condition. */
  method LoadScene(doc: Node, scene: Scene, conv: Conversions) returns (ok: bool)
    modifies scene
    ensures ok
    ensures SettingsOf(scene) == SceneFold(old(SettingsOf(scene)), SceneNode(doc).children, conv, true)
    ensures scene.meshes == old(scene.meshes)
  {
    var children := SceneNode(doc).children;
    ghost var start := SettingsOf(scene);
    for i := 0 to |children|
      invariant SceneFold(start, children, conv, true) == SceneFold(SettingsOf(scene), children[i..], conv, true)
      invariant scene.meshes == old(scene.meshes)
    {
      var child := children[i];
      assert children[i..][1..] == children[i + 1..];
      if child.name == "default" {
        var name := Attr(child, "name");
        if name == "integrator" {
          if Attr(child, "value") != "path" {
            scene.integrator := PathIntegrator;
          }
        } else if name == "spp" {
          scene.samples := ToI16(conv.asInt(Attr(child, "value")));
        } else if name == "resx" {
          scene.width := ToU16(conv.asInt(Attr(child, "value")));
        } else if name == "resy" {
          scene.height := ToU16(conv.asInt(Attr(child, "value")));
        } else if name == "max_depth" {
          scene.bounces := ToI16(conv.asInt(Attr(child, "value")));
        }
      }
    }
    ok := true;
  }

  lemma {:induction false} SceneFoldAppend(st: Settings, a: seq<Node>, b: seq<Node>, conv: Conversions, asWritten: bool)
    ensures SceneFold(st, a + b, conv, asWritten) == SceneFold(SceneFold(st, a, conv, asWritten), b, conv, asWritten)
    decreases |a|
  {
    if |a| == 0 {
      assert a + b == b;
    } else {
      assert (a + b)[1..] == a[1..] + b;
      SceneFoldAppend(SceneStep(st, a[0], conv, asWritten), a[1..], b, conv, asWritten);
    }
  }

  /** A child that switches the scene to the path integrator: an
      integrator entry whose value is not `"path"` as written, and whose
      value is `"path"` as meant. */
  predicate SelectsPath(child: Node, asWritten: bool)
  {
    child.name == "default" && Attr(child, "name") == "integrator"
    && (if asWritten then Attr(child, "value") != "path" else Attr(child, "value") == "path")
  }

  /** The last `<default>` entry of a name decides its field: `spp` the
      sample count, `resx` the width, `resy` the height and `max_depth` the
      bounce budget, each the `as_int` of the value cut to the field's
      16-bit type; a last integrator entry ends on the path integrator
      exactly when it selects it or the integrator was already the path
      one. */
  lemma LastDefaultDecides(st: Settings, before: seq<Node>, last: Node, conv: Conversions, asWritten: bool)
    requires last.name == "default"
    ensures var r := SceneFold(st, before + [last], conv, asWritten);
      var v := conv.asInt(Attr(last, "value"));
      var name := Attr(last, "name");
      (name == "spp" ==> r.samples == ToI16(v))
      && (name == "resx" ==> r.width == ToU16(v))
      && (name == "resy" ==> r.height == ToU16(v))
      && (name == "max_depth" ==> r.bounces == ToI16(v))
      && (name == "integrator" ==>
        ((r.integrator == PathIntegrator) <==>
          (SelectsPath(last, asWritten) || SceneFold(st, before, conv, asWritten).integrator == PathIntegrator)))
  {
    SceneFoldAppend(st, before, [last], conv, asWritten);
    assert [last][1..] == [];
  }

  /** The scene ends on the path integrator exactly when some child selects
      it, or when it started there: no other entry touches the integrator. */
  lemma {:induction false} IntegratorOfFold(st: Settings, children: seq<Node>, conv: Conversions, asWritten: bool)
    ensures SceneFold(st, children, conv, asWritten).integrator ==
      if exists i :: 0 <= i < |children| && SelectsPath(children[i], asWritten) then PathIntegrator else st.integrator
    decreases |children|
  {
    if |children| > 0 {
      var c, rest := children[0], children[1..];
      var st' := SceneStep(st, c, conv, asWritten);
      IntegratorOfFold(st', rest, conv, asWritten);
      assert st'.integrator == if SelectsPath(c, asWritten) then PathIntegrator else st.integrator;
      assert (exists i :: 0 <= i < |children| && SelectsPath(children[i], asWritten))
        <==> SelectsPath(c, asWritten) || exists i :: 0 <= i < |rest| && SelectsPath(rest[i], asWritten)
      by {
        if exists i :: 0 <= i < |children| && SelectsPath(children[i], asWritten) {
          var i :| 0 <= i < |children| && SelectsPath(children[i], asWritten);
          if i > 0 {
            assert rest[i - 1] == children[i];
          }
        }
        if exists i :: 0 <= i < |rest| && SelectsPath(rest[i], asWritten) {
          var i :| 0 <= i < |rest| && SelectsPath(rest[i], asWritten);
          assert children[i + 1] == rest[i];
        }
      }
    }
  }

  /** Two settings that differ at most in their integrator. */
  predicate SameButIntegrator(a: Settings, b: Settings)
  {
    a.(integrator := b.integrator) == b
  }

  lemma {:induction false} FoldsAgreeFrom(a: Settings, b: Settings, children: seq<Node>, conv: Conversions)
    requires SameButIntegrator(a, b)
    ensures SameButIntegrator(SceneFold(a, children, conv, true), SceneFold(b, children, conv, false))
    decreases |children|
  {
    if |children| > 0 {
      var c := children[0];
      var a', b' := SceneStep(a, c, conv, true), SceneStep(b, c, conv, false);
      assert SameButIntegrator(a', b');
      FoldsAgreeFrom(a', b', children[1..], conv);
    }
  }

  /** The code as written and the corrected code load the same sample
      count, size and bounce budget; they differ only in the integrator. */
  lemma FoldsAgreeButIntegrator(st: Settings, children: seq<Node>, conv: Conversions)
    ensures var w, c := SceneFold(st, children, conv, true), SceneFold(st, children, conv, false);
      w.width == c.width && w.height == c.height && w.bounces == c.bounces && w.samples == c.samples
  {
    FoldsAgreeFrom(st, st, children, conv);
  }

  /** Every integrator entry as written does the opposite of the corrected
      one: a value other than `"path"` selects the path integrator and
      `"path"` itself changes nothing. So `<default name="integrator"
      value="path"/>` leaves a normal integrator in place. */
  lemma IntegratorDefaultIsInverted(st: Settings, child: Node, conv: Conversions)
    requires Attr(child, "name") == "integrator"
    ensures DefaultStepAsWritten(st, child, conv) ==
      if Attr(child, "value") != "path" then st.(integrator := PathIntegrator) else st
    ensures DefaultStep(st, child, conv) ==
      if Attr(child, "value") == "path" then st.(integrator := PathIntegrator) else st
    ensures st.integrator == NormalIntegrator && Attr(child, "value") == "path" ==>
      DefaultStepAsWritten(st, child, conv).integrator == NormalIntegrator
      && DefaultStep(st, child, conv).integrator == PathIntegrator
  {
  }

  /** The corrected integrator entry selects the path integrator exactly
      when its value is `"path"` and touches no other field. */
  lemma IntegratorDefaultSelectsPath(st: Settings, child: Node, conv: Conversions)
    requires Attr(child, "name") == "integrator"
    ensures DefaultStep(st, child, conv).integrator == PathIntegrator
      <==> (Attr(child, "value") == "path" || st.integrator == PathIntegrator)
    ensures DefaultStep(st, child, conv).(integrator := st.integrator) == st
  {
  }
}
