/** The cameras of concepts/CameraConcept.ts: a position, a target and a field of view per
    camera, attached to a scene. */
module Cameras {
  import opened Wrappers
  import opened Keyed
  import opened CelestialBodies

  datatype Camera = Camera(id: string, scene: string, position: Vector3, target: Vector3,
                           fov: real, near: real, far: real, kind: string)

  const MinFov := 10.0
  const MaxFov := 120.0

  /** `Math.max(10, Math.min(120, fov * factor))`. */
  function Zoomed(fov: real, factor: real): (r: real)
    ensures MinFov <= r <= MaxFov
    ensures MinFov <= fov * factor <= MaxFov ==> r == fov * factor
    ensures fov * factor < MinFov ==> r == MinFov
    ensures fov * factor > MaxFov ==> r == MaxFov
  {
    var narrowed := if fov * factor < MaxFov then fov * factor else MaxFov;
    if narrowed > MinFov then narrowed else MinFov
  }

  /** Zooming by a factor of 1 keeps an in-range field of view, and zooming again by the same
      factor once the view is pinned at a bound in that direction keeps it there. */
  lemma ZoomSettles(fov: real, factor: real)
    requires MinFov <= fov <= MaxFov
    ensures Zoomed(fov, 1.0) == fov
    ensures factor >= 1.0 && Zoomed(fov, factor) == MaxFov ==> Zoomed(MaxFov, factor) == MaxFov
    ensures 0.0 <= factor <= 1.0 && Zoomed(fov, factor) == MinFov ==> Zoomed(MinFov, factor) == MinFov
  {
  }

  function InScene(scene: string): Camera -> bool {
    (c: Camera) => c.scene == scene
  }

  class CameraConcept {
    var cameras: map<string, Camera>
    var order: seq<string>

    ghost predicate Valid()
      reads this
    {
      Ordered(order, cameras) && forall k :: k in cameras ==> cameras[k].id == k
    }

    constructor ()
      ensures Valid() && cameras == map[] && order == []
    {
      cameras := map[];
      order := [];
    }

    /** `create`: stores (or replaces) the camera `id`. */
    method Create(id: string, scene: string, position: Vector3, target: Vector3, fov: real, near: real,
                  far: real, kind: string) returns (r: Result<string>)
      requires Valid()
      modifies this
      ensures Valid() && r == Ok(id) && order == Put(old(order), id)
      ensures cameras == old(cameras)[id := Camera(id, scene, position, target, fov, near, far, kind)]
    {
      cameras := cameras[id := Camera(id, scene, position, target, fov, near, far, kind)];
      order := Put(order, id);
      r := Ok(id);
    }

    /** `setPosition`: only the position of a known camera changes. */
    method SetPosition(id: string, position: Vector3) returns (r: Result<string>)
      requires Valid()
      modifies this
      ensures Valid() && r == Ok(id) && order == old(order)
      ensures cameras == if id in old(cameras) then old(cameras)[id := old(cameras)[id].(position := position)]
                         else old(cameras)
    {
      if id in cameras {
        cameras := cameras[id := cameras[id].(position := position)];
      }
      r := Ok(id);
    }

    /** `setTarget`: only the target of a known camera changes. */
    method SetTarget(id: string, target: Vector3) returns (r: Result<string>)
      requires Valid()
      modifies this
      ensures Valid() && r == Ok(id) && order == old(order)
      ensures cameras == if id in old(cameras) then old(cameras)[id := old(cameras)[id].(target := target)]
                         else old(cameras)
    {
      if id in cameras {
        cameras := cameras[id := cameras[id].(target := target)];
      }
      r := Ok(id);
    }

    /** `follow`: the camera looks at the origin, whatever body and distance it is given. */
    method Follow(id: string, bodyId: string, distance: real) returns (r: Result<string>)
      requires Valid()
      modifies this
      ensures Valid() && r == Ok(id) && order == old(order)
      ensures cameras == if id in old(cameras) then old(cameras)[id := old(cameras)[id].(target := Origin)]
                         else old(cameras)
    {
      if id in cameras {
        cameras := cameras[id := cameras[id].(target := Origin)];
      }
      r := Ok(id);
    }

    /** `zoom`: the field of view is scaled and clamped to [10, 120]. */
    method Zoom(id: string, factor: real) returns (r: Result<string>)
      requires Valid()
      modifies this
      ensures Valid() && r == Ok(id) && order == old(order)
      ensures cameras == if id in old(cameras)
        then old(cameras)[id := old(cameras)[id].(fov := Zoomed(old(cameras)[id].fov, factor))]
        else old(cameras)
      ensures id in cameras ==> MinFov <= cameras[id].fov <= MaxFov
    {
      if id in cameras {
        var c := cameras[id];
        var narrowed := if c.fov * factor < MaxFov then c.fov * factor else MaxFov;
        cameras := cameras[id := c.(fov := if narrowed > MinFov then narrowed else MinFov)];
        assert cameras[id].fov == Zoomed(c.fov, factor);
      }
      r := Ok(id);
    }

    /** `_getById`. */
    function GetById(id: string): (r: seq<Camera>)
      reads this
      ensures |r| <= 1
      ensures r != [] <==> id in cameras
      ensures r != [] ==> r[0] == cameras[id]
    {
      if id in cameras then [cameras[id]] else []
    }

    /** `_getByScene`: exactly the cameras of `scene`, in insertion order. */
    function GetByScene(scene: string): (r: seq<Camera>)
      requires Valid()
      reads this
      ensures forall c :: c in r <==> c in cameras.Values && c.scene == scene
    {
      SelectExactly(order, cameras, InScene(scene));
      Select(order, cameras, InScene(scene))
    }
  }
}
