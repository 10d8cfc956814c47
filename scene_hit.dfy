/** The scene-wide queries of data.cpp: `Scene::hit` and `Scene::hit_p` scan
    the meshes in order, handing each one the closest distance found so far
    as the upper end of its window, so a later mesh wins only when it is
    strictly nearer. The scene is its sequence of meshes. */
module SceneHit {
  import opened Wrappers
  import opened Numerics
  import opened SceneData
  import opened MeshHit

  /** Every mesh has whole triangles with indices in range. */
  predicate AllWellFormed(meshes: seq<Mesh>)
  {
    forall i :: 0 <= i < |meshes| ==> meshes[i].WellFormed()
  }

  /** The distance of each mesh's nearest hit inside the window. */
  function Distances(meshes: seq<Mesh>, ray: Ray, test: Intersector, tmin: real, tmax: real): (ds: seq<Option<real>>)
    requires AllWellFormed(meshes)
    ensures |ds| == |meshes|
    ensures forall i :: 0 <= i < |meshes| ==> ds[i] == DistanceOf(meshes[i], ray, test, tmin, tmax)
  {
    seq(|meshes|, i requires 0 <= i < |meshes| => DistanceOf(meshes[i], ray, test, tmin, tmax))
  }

  /** Among the first `k` entries that hold a distance, the first whose
      distance is least. */
  function FirstLeast(ds: seq<Option<real>>, k: nat): (r: Option<nat>)
    requires k <= |ds|
    ensures r.Some? ==> r.value < k && ds[r.value].Some?
  {
    if k == 0 then None
    else
      var prev := FirstLeast(ds, k - 1);
      if ds[k - 1].Some? && (prev.None? || ds[k - 1].value < ds[prev.value].value)
      then Some(k - 1)
      else prev
  }

  /** `FirstLeast` picks an entry at most every other present entry and
      strictly below every earlier one, and nothing only when no entry is
      present. */
  lemma {:induction false} FirstLeastIsLeast(ds: seq<Option<real>>, k: nat)
    requires k <= |ds|
    ensures FirstLeast(ds, k).None? <==> forall j :: 0 <= j < k ==> ds[j].None?
    ensures FirstLeast(ds, k).Some? ==>
      (forall j :: 0 <= j < k && ds[j].Some? ==> ds[FirstLeast(ds, k).value].value <= ds[j].value)
      && (forall j :: 0 <= j < FirstLeast(ds, k).value && ds[j].Some? ==>
            ds[FirstLeast(ds, k).value].value < ds[j].value)
  {
    if k > 0 {
      FirstLeastIsLeast(ds, k - 1);
    }
  }

  /** The mesh the scene scan settles on. */
  function NearestMesh(meshes: seq<Mesh>, ray: Ray, test: Intersector, tmin: real, tmax: real): (r: Option<nat>)
    requires AllWellFormed(meshes)
    ensures r.Some? ==> r.value < |meshes| && DistanceOf(meshes[r.value], ray, test, tmin, tmax).Some?
  {
    FirstLeast(Distances(meshes, ray, test, tmin, tmax), |meshes|)
  }

  /** What `Scene::hit` returns: the record of the nearest mesh's hit. */
  function SceneHitOf(meshes: seq<Mesh>, ray: Ray, test: Intersector, tmin: real, tmax: real, lib: Libm): Option<HitRecord>
    requires AllWellFormed(meshes)
  {
    match NearestMesh(meshes, ray, test, tmin, tmax)
    case None => None
    case Some(m) => HitOf(meshes[m], ray, test, tmin, tmax, lib)
  }

  /** What `Scene::hit_p` returns: the nearest mesh's distance. */
  function SceneDistanceOf(meshes: seq<Mesh>, ray: Ray, test: Intersector, tmin: real, tmax: real): Option<real>
    requires AllWellFormed(meshes)
  {
    match NearestMesh(meshes, ray, test, tmin, tmax)
    case None => None
    case Some(m) => DistanceOf(meshes[m], ray, test, tmin, tmax)
  }

  /** `Scene::hit`: the record of the nearest hit over all meshes, taken
      from the first mesh that reaches the least distance. */
  method Hit(meshes: seq<Mesh>, ray: Ray, tmin: real, tmax: real, test: Intersector, lib: Libm) returns (rec: Option<HitRecord>)
    requires AllWellFormed(meshes)
    ensures rec == SceneHitOf(meshes, ray, test, tmin, tmax, lib)
  {
    rec := None;
    var closest := tmax;
    for i := 0 to |meshes|
      invariant closest <= tmax
      invariant HitScanned(meshes, ray, test, tmin, tmax, lib, i, closest, rec)
    {
      HitScanStep(meshes, ray, test, tmin, tmax, lib, i, closest, rec);
      var res := MeshHit.Hit(meshes[i], ray, tmin, closest, test, lib);
      if res.Some? {
        closest := res.value.t;
        rec := res;
      }
    }
  }

  /** The state of `Scene::hit` after the first `i` meshes: nothing and the
      full window before any hit, and otherwise the record of the mesh the
      scan has settled on, with its distance as the closest so far. */
  predicate HitScanned(meshes: seq<Mesh>, ray: Ray, test: Intersector, tmin: real, tmax: real, lib: Libm,
                       i: nat, closest: real, rec: Option<HitRecord>)
    requires AllWellFormed(meshes) && i <= |meshes|
  {
    var ds := Distances(meshes, ray, test, tmin, tmax);
    match FirstLeast(ds, i)
    case None => rec == None && closest == tmax
    case Some(m) => rec == HitOf(meshes[m], ray, test, tmin, tmax, lib) && ds[m] == Some(closest)
  }

  /** One turn of `Scene::hit`: asking mesh `i` for a hit below the closest
      distance so far and keeping it when there is one moves the scan state
      on by one mesh. */
  lemma HitScanStep(meshes: seq<Mesh>, ray: Ray, test: Intersector, tmin: real, tmax: real, lib: Libm,
                    i: nat, closest: real, rec: Option<HitRecord>)
    requires AllWellFormed(meshes) && i < |meshes| && closest <= tmax
    requires HitScanned(meshes, ray, test, tmin, tmax, lib, i, closest, rec)
    ensures var res := HitOf(meshes[i], ray, test, tmin, closest, lib);
      (res.Some? ==> res.value.t < closest)
      && HitScanned(meshes, ray, test, tmin, tmax, lib, i + 1,
                    if res.Some? then res.value.t else closest, if res.Some? then res else rec)
  {
    var ds := Distances(meshes, ray, test, tmin, tmax);
    HitAndDistanceAgree(meshes[i], ray, test, tmin, tmax, closest, lib);
    var h := HitOf(meshes[i], ray, test, tmin, tmax, lib);
    assert ds[i] == if h.Some? then Some(h.value.t) else None;
    var prev := FirstLeast(ds, i);
    assert FirstLeast(ds, i + 1) == if ds[i].Some? && (prev.None? || ds[i].value < ds[prev.value].value) then Some(i) else prev;
  }

  /** `Scene::hit_p`: the distance of the nearest hit over all meshes. */
  method HitDistance(meshes: seq<Mesh>, ray: Ray, tmin: real, tmax: real, test: Intersector) returns (r: Option<real>)
    requires AllWellFormed(meshes)
    ensures r == SceneDistanceOf(meshes, ray, test, tmin, tmax)
  {
    ghost var ds := Distances(meshes, ray, test, tmin, tmax);
    var isHit := false;
    var closest := tmax;
    for i := 0 to |meshes|
      invariant closest <= tmax
      invariant match FirstLeast(ds, i)
        case None => !isHit && closest == tmax
        case Some(m) => isHit && ds[m] == Some(closest)
    {
      DistanceNarrowed(meshes[i], ray, test, tmin, tmax, closest);
      var res := MeshHit.HitDistance(meshes[i], ray, tmin, closest, test);
      if res.Some? {
        closest := res.value;
        isHit := true;
      }
    }
    r := if isHit then Some(closest) else None;
  }

  /** `Scene::hit` finds the globally nearest hit: nothing exactly when no
      triangle of any mesh is hit inside the window, and otherwise a record
      whose distance is at most that of every triangle of every mesh hit
      inside the window. `Scene::hit_p` returns that record's distance. */
  lemma {:induction false} SceneHitIsGloballyNearest(meshes: seq<Mesh>, ray: Ray, test: Intersector, tmin: real, tmax: real, lib: Libm)
    requires AllWellFormed(meshes)
    ensures SceneHitOf(meshes, ray, test, tmin, tmax, lib).None? <==>
      forall j, k :: 0 <= j < |meshes| && 0 <= k < meshes[j].TriangleCount() ==>
        !InWindow(meshes[j], k, ray, test, tmin, tmax)
    ensures var h := SceneHitOf(meshes, ray, test, tmin, tmax, lib);
      h.Some? ==>
        forall j, k :: (0 <= j < |meshes| && 0 <= k < meshes[j].TriangleCount()
                        && InWindow(meshes[j], k, ray, test, tmin, tmax)) ==>
          h.value.t <= Dist(meshes[j], k, ray, test)
    ensures var h := SceneHitOf(meshes, ray, test, tmin, tmax, lib);
      SceneDistanceOf(meshes, ray, test, tmin, tmax) == if h.Some? then Some(h.value.t) else None
  {
    SceneMissesExactly(meshes, ray, test, tmin, tmax, lib);
    SceneHitIsLeast(meshes, ray, test, tmin, tmax, lib);
    SceneDistanceAgrees(meshes, ray, test, tmin, tmax, lib);
  }

  lemma SceneMissesExactly(meshes: seq<Mesh>, ray: Ray, test: Intersector, tmin: real, tmax: real, lib: Libm)
    requires AllWellFormed(meshes)
    ensures SceneHitOf(meshes, ray, test, tmin, tmax, lib).None? <==>
      forall j, k :: 0 <= j < |meshes| && 0 <= k < meshes[j].TriangleCount() ==>
        !InWindow(meshes[j], k, ray, test, tmin, tmax)
  {
    var ds := Distances(meshes, ray, test, tmin, tmax);
    FirstLeastIsLeast(ds, |meshes|);
    forall j | 0 <= j < |meshes|
      ensures ds[j].None? <==>
        forall k :: 0 <= k < meshes[j].TriangleCount() ==> !InWindow(meshes[j], k, ray, test, tmin, tmax)
      ensures var h := HitOf(meshes[j], ray, test, tmin, tmax, lib);
        ds[j] == if h.Some? then Some(h.value.t) else None
    {
      MeshDistanceMeaning(meshes[j], ray, test, tmin, tmax, lib);
    }
  }

  lemma SceneHitIsLeast(meshes: seq<Mesh>, ray: Ray, test: Intersector, tmin: real, tmax: real, lib: Libm)
    requires AllWellFormed(meshes)
    ensures var h := SceneHitOf(meshes, ray, test, tmin, tmax, lib);
      h.Some? ==>
        forall j, k :: (0 <= j < |meshes| && 0 <= k < meshes[j].TriangleCount()
                        && InWindow(meshes[j], k, ray, test, tmin, tmax)) ==>
          h.value.t <= Dist(meshes[j], k, ray, test)
  {
    var ds := Distances(meshes, ray, test, tmin, tmax);
    FirstLeastIsLeast(ds, |meshes|);
    forall j | 0 <= j < |meshes|
      ensures ds[j].Some? ==>
        forall k :: 0 <= k < meshes[j].TriangleCount() && InWindow(meshes[j], k, ray, test, tmin, tmax) ==>
          ds[j].value <= Dist(meshes[j], k, ray, test)
      ensures ds[j].None? ==>
        forall k :: 0 <= k < meshes[j].TriangleCount() ==> !InWindow(meshes[j], k, ray, test, tmin, tmax)
      ensures var h := HitOf(meshes[j], ray, test, tmin, tmax, lib);
        ds[j] == if h.Some? then Some(h.value.t) else None
    {
      MeshDistanceMeaning(meshes[j], ray, test, tmin, tmax, lib);
    }
  }

  lemma SceneDistanceAgrees(meshes: seq<Mesh>, ray: Ray, test: Intersector, tmin: real, tmax: real, lib: Libm)
    requires AllWellFormed(meshes)
    ensures var h := SceneHitOf(meshes, ray, test, tmin, tmax, lib);
      SceneDistanceOf(meshes, ray, test, tmin, tmax) == if h.Some? then Some(h.value.t) else None
  {
    match NearestMesh(meshes, ray, test, tmin, tmax) {
      case None =>
      case Some(m) => MeshDistanceMeaning(meshes[m], ray, test, tmin, tmax, lib);
    }
  }

  /** One mesh's distance: nothing exactly when no triangle is hit inside
      the window, otherwise at most every hit distance, and the distance of
      the mesh's hit record. */
  lemma MeshDistanceMeaning(mesh: Mesh, ray: Ray, test: Intersector, tmin: real, tmax: real, lib: Libm)
    requires mesh.WellFormed()
    ensures var d := DistanceOf(mesh, ray, test, tmin, tmax);
      (d.None? <==> forall k :: 0 <= k < mesh.TriangleCount() ==> !InWindow(mesh, k, ray, test, tmin, tmax))
      && (d.Some? ==>
        forall k :: 0 <= k < mesh.TriangleCount() && InWindow(mesh, k, ray, test, tmin, tmax) ==>
          d.value <= Dist(mesh, k, ray, test))
    ensures var h := HitOf(mesh, ray, test, tmin, tmax, lib);
      DistanceOf(mesh, ray, test, tmin, tmax) == if h.Some? then Some(h.value.t) else None
  {
    NearestIsLeast(mesh, ray, test, tmin, tmax, mesh.TriangleCount());
    HitAndDistanceAgree(mesh, ray, test, tmin, tmax, tmax, lib);
  }
}
