/** The scene bookkeeping of concepts/RendererConcept.ts: scenes by id, and render objects that
    tie a celestial body to a mesh in a scene, named `obj_1`, `obj_2`, ... from a counter. */
module Renderer {
  import opened Keyed
  import opened Numerals

  datatype Scene = Scene(id: string, canvas: string, width: real, height: real, backgroundColor: string)

  datatype RenderObject = RenderObject(id: string, scene: string, bodyId: string, mesh: string, visible: bool)

  // ---- object ids: `obj_${n}` ----

  const Prefix := "obj_"

  function ObjectId(n: nat): string {
    Prefix + Decimal(n)
  }

  /** Different counter values give different ids. */
  lemma ObjectIdInjective(a: nat, b: nat)
    ensures ObjectId(a) == ObjectId(b) <==> a == b
  {
    if ObjectId(a) == ObjectId(b) {
      assert Decimal(a) == ObjectId(a)[|Prefix|..];
      assert Decimal(b) == ObjectId(b)[|Prefix|..];
      DigitsValueOfDecimal(a);
      DigitsValueOfDecimal(b);
    }
  }

  /** `k` is one of the ids the counter handed out before reaching `next`. */
  ghost predicate Issued(k: string, next: nat) {
    exists n: nat :: 1 <= n < next && k == ObjectId(n)
  }

  /** The `find` test of `removeBody`, `updateBody` and `setVisible`. */
  function Showing(scene: string, bodyId: string): RenderObject -> bool {
    (o: RenderObject) => o.scene == scene && o.bodyId == bodyId
  }

  function InScene(scene: string): RenderObject -> bool {
    (o: RenderObject) => o.scene == scene
  }

  class RendererConcept {
    var scenes: map<string, Scene>
    var objects: map<string, RenderObject>
    var order: seq<string>
    var nextObjectId: nat

    ghost predicate Valid()
      reads this
    {
      && Ordered(order, objects)
      && (forall k :: k in objects ==> objects[k].id == k)
      && nextObjectId >= 1
      && (forall k :: k in objects ==> Issued(k, nextObjectId))
    }

    constructor ()
      ensures Valid() && scenes == map[] && objects == map[] && order == [] && nextObjectId == 1
    {
      scenes := map[];
      objects := map[];
      order := [];
      nextObjectId := 1;
    }

    /** `createScene`: stores (or replaces) the scene `id`. */
    method CreateScene(id: string, canvas: string, width: real, height: real, backgroundColor: string)
      returns (r: string)
      requires Valid()
      modifies this
      ensures Valid() && r == id
      ensures scenes == old(scenes)[id := Scene(id, canvas, width, height, backgroundColor)]
      ensures objects == old(objects) && order == old(order) && nextObjectId == old(nextObjectId)
    {
      scenes := scenes[id := Scene(id, canvas, width, height, backgroundColor)];
      r := id;
    }

    /** `addBody`: a visible object under the next counter id, which no stored object holds. */
    method AddBody(scene: string, bodyId: string, mesh: string) returns (r: string)
      requires Valid()
      modifies this
      ensures Valid() && scenes == old(scenes)
      ensures r == ObjectId(old(nextObjectId)) && r !in old(objects)
      ensures nextObjectId == old(nextObjectId) + 1
      ensures objects == old(objects)[r := RenderObject(r, scene, bodyId, mesh, true)]
      ensures order == old(order) + [r]
    {
      r := ObjectId(nextObjectId);
      forall k | k in objects ensures k != r && Issued(k, nextObjectId + 1) {
        var n: nat :| 1 <= n < nextObjectId && k == ObjectId(n);
        ObjectIdInjective(n, nextObjectId);
      }
      objects := objects[r := RenderObject(r, scene, bodyId, mesh, true)];
      order := Put(order, r);
      nextObjectId := nextObjectId + 1;
    }

    /** `removeBody`: deletes the first object showing `bodyId` in `scene` and answers its id, or
        answers "" and changes nothing. */
    method RemoveBody(scene: string, bodyId: string) returns (r: string)
      requires Valid()
      modifies this
      ensures Valid() && scenes == old(scenes) && nextObjectId == old(nextObjectId)
      ensures var i := FirstIndex(old(order), old(objects), Showing(scene, bodyId));
        && (i == |old(order)| ==> r == "" && objects == old(objects) && order == old(order))
        && (i < |old(order)| ==> r == old(order)[i] && objects == old(objects) - {r}
                                 && order == Without(old(order), {r}))
      ensures r == "" <==> forall k :: k in old(objects) ==> !Showing(scene, bodyId)(old(objects)[k])
    {
      var i := FirstIndex(order, objects, Showing(scene, bodyId));
      if i == |order| {
        NoneFound(order, objects, Showing(scene, bodyId));
        return "";
      }
      r := objects[order[i]].id;
      assert Issued(r, nextObjectId);
      DeletePreservesOrder(order, objects, {r});
      objects := objects - {r};
      order := Without(order, {r});
    }

    /** `updateBody`: the id of the first object showing `bodyId` in `scene`, or ""; the position
        and scale are not stored anywhere. */
    function UpdateBody(scene: string, bodyId: string, position: (real, real, real), scale: (real, real, real)): (r: string)
      requires Valid()
      reads this
      ensures var i := FirstIndex(order, objects, Showing(scene, bodyId));
        r == if i < |order| then order[i] else ""
      ensures r == "" <==> forall k :: k in objects ==> !Showing(scene, bodyId)(objects[k])
    {
      var i := FirstIndex(order, objects, Showing(scene, bodyId));
      if i < |order| then
        assert Issued(order[i], nextObjectId);
        objects[order[i]].id
      else
        NoneFound(order, objects, Showing(scene, bodyId));
        ""
    }

    /** `render`: answers the scene it was asked to draw and changes nothing. */
    function Render(scene: string): string {
      scene
    }

    /** `setVisible`: sets the flag of the first object showing `bodyId` in `scene` and answers its
        id, or answers "" and changes nothing. */
    method SetVisible(scene: string, bodyId: string, visible: bool) returns (r: string)
      requires Valid()
      modifies this
      ensures Valid() && scenes == old(scenes) && order == old(order) && nextObjectId == old(nextObjectId)
      ensures var i := FirstIndex(old(order), old(objects), Showing(scene, bodyId));
        && (i == |old(order)| ==> r == "" && objects == old(objects))
        && (i < |old(order)| ==> r == old(order)[i]
                                 && objects == old(objects)[r := old(objects)[r].(visible := visible)])
    {
      var i := FirstIndex(order, objects, Showing(scene, bodyId));
      if i == |order| {
        return "";
      }
      var o := objects[order[i]];
      objects := objects[o.id := o.(visible := visible)];
      r := o.id;
    }

    /** `_getScene`. */
    function GetScene(id: string): (r: seq<Scene>)
      reads this
      ensures |r| <= 1
      ensures r != [] <==> id in scenes
      ensures r != [] ==> r[0] == scenes[id]
    {
      if id in scenes then [scenes[id]] else []
    }

    /** `_getObjects`: exactly the objects of `scene`, in insertion order. */
    function GetObjects(scene: string): (r: seq<RenderObject>)
      requires Valid()
      reads this
      ensures forall o :: o in r <==> o in objects.Values && o.scene == scene
    {
      SelectExactly(order, objects, InScene(scene));
      Select(order, objects, InScene(scene))
    }

    /** `_getBodyObject`: exactly the objects showing `bodyId` in `scene`, in insertion order. */
    function GetBodyObject(scene: string, bodyId: string): (r: seq<RenderObject>)
      requires Valid()
      reads this
      ensures forall o :: o in r <==> o in objects.Values && o.scene == scene && o.bodyId == bodyId
    {
      SelectExactly(order, objects, Showing(scene, bodyId));
      Select(order, objects, Showing(scene, bodyId))
    }
  }
}
