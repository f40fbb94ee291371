/** The bodies of concepts/CelestialBodyConcept.ts: physical data, a parent body, and a position
    and velocity that start at the origin. */
module CelestialBodies {
  import opened Wrappers
  import opened Keyed

  datatype Vector3 = Vector3(x: real, y: real, z: real)

  const Origin := Vector3(0.0, 0.0, 0.0)

  datatype Body = Body(id: string, name: string, kind: string, mass: real, radius: real, distance: real,
                       orbitalPeriod: real, rotationPeriod: real, color: string, parent: string,
                       position: Vector3, velocity: Vector3)

  /** The in-plane result of the circular-orbit formula: `(x, z)` of the position and of the
      velocity. */
  datatype Planar = Planar(x: real, z: real, vx: real, vz: real)

  function OfKind(kind: string): Body -> bool {
    (b: Body) => b.kind == kind
  }

  function ChildOf(parent: string): Body -> bool {
    (b: Body) => b.parent == parent
  }

  /** `orbit` acts only on a stored body that has a parent. */
  predicate Orbits(bodies: map<string, Body>, id: string) {
    id in bodies && bodies[id].parent != ""
  }

  /** What `orbit` makes of a body: it moves in the y = 0 plane. */
  function Orbited(b: Body, p: Planar): (r: Body)
    ensures r.position.y == 0.0 && r.velocity.y == 0.0
    ensures r.(position := b.position, velocity := b.velocity) == b
  {
    b.(position := Vector3(p.x, 0.0, p.z), velocity := Vector3(p.vx, 0.0, p.vz))
  }

  class CelestialBodyConcept {
    var bodies: map<string, Body>
    var order: seq<string>

    ghost predicate Valid()
      reads this
    {
      Ordered(order, bodies) && forall k :: k in bodies ==> bodies[k].id == k
    }

    constructor ()
      ensures Valid() && bodies == map[] && order == []
    {
      bodies := map[];
      order := [];
    }

    /** `create`: stores (or replaces) a body at rest at the origin. */
    method Create(id: string, name: string, kind: string, mass: real, radius: real, distance: real,
                  orbitalPeriod: real, rotationPeriod: real, color: string, parent: string) returns (r: Result<string>)
      requires Valid()
      modifies this
      ensures Valid() && r == Ok(id) && order == Put(old(order), id)
      ensures bodies == old(bodies)[id := Body(id, name, kind, mass, radius, distance, orbitalPeriod,
                                               rotationPeriod, color, parent, Origin, Origin)]
    {
      bodies := bodies[id := Body(id, name, kind, mass, radius, distance, orbitalPeriod, rotationPeriod,
                                  color, parent, Origin, Origin)];
      order := Put(order, id);
      r := Ok(id);
    }

    /** `updatePosition`: only the position of a known body changes. */
    method UpdatePosition(id: string, position: Vector3) returns (r: Result<string>)
      requires Valid()
      modifies this
      ensures Valid() && r == Ok(id) && order == old(order)
      ensures bodies == if id in old(bodies) then old(bodies)[id := old(bodies)[id].(position := position)]
                        else old(bodies)
    {
      if id in bodies {
        bodies := bodies[id := bodies[id].(position := position)];
      }
      r := Ok(id);
    }

    /** `updateVelocity`: only the velocity of a known body changes. */
    method UpdateVelocity(id: string, velocity: Vector3) returns (r: Result<string>)
      requires Valid()
      modifies this
      ensures Valid() && r == Ok(id) && order == old(order)
      ensures bodies == if id in old(bodies) then old(bodies)[id := old(bodies)[id].(velocity := velocity)]
                        else old(bodies)
    {
      if id in bodies {
        bodies := bodies[id := bodies[id].(velocity := velocity)];
      }
      r := Ok(id);
    }

    /** `orbit(id, time)`: a body with a parent is placed on its orbit in the y = 0 plane; any
        other id changes nothing. `circular` stands for the trigonometric formula. */
    method Orbit(id: string, time: real, circular: (Body, real) -> Planar) returns (r: Result<string>)
      requires Valid()
      modifies this
      ensures Valid() && r == Ok(id) && order == old(order)
      ensures bodies == if Orbits(old(bodies), id)
        then old(bodies)[id := Orbited(old(bodies)[id], circular(old(bodies)[id], time))]
        else old(bodies)
    {
      if id in bodies && bodies[id].parent != "" {
        var b := bodies[id];
        var p := circular(b, time);
        bodies := bodies[id := b.(position := Vector3(p.x, 0.0, p.z), velocity := Vector3(p.vx, 0.0, p.vz))];
      }
      r := Ok(id);
    }

    /** `_getById`. */
    function GetById(id: string): (r: seq<Body>)
      reads this
      ensures |r| <= 1
      ensures r != [] <==> id in bodies
      ensures r != [] ==> r[0] == bodies[id]
    {
      if id in bodies then [bodies[id]] else []
    }

    /** `_getByType`: exactly the bodies of that type, in insertion order. */
    function GetByType(kind: string): (r: seq<Body>)
      requires Valid()
      reads this
      ensures forall b :: b in r <==> b in bodies.Values && b.kind == kind
    {
      SelectExactly(order, bodies, OfKind(kind));
      Select(order, bodies, OfKind(kind))
    }

    /** `_getChildren`: exactly the bodies whose parent is `parent`, in insertion order. */
    function GetChildren(parent: string): (r: seq<Body>)
      requires Valid()
      reads this
      ensures forall b :: b in r <==> b in bodies.Values && b.parent == parent
    {
      SelectExactly(order, bodies, ChildOf(parent));
      Select(order, bodies, ChildOf(parent))
    }
  }
}
