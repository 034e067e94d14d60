/**
  Axis-aligned cubes and the rigid-body component of the game world
  (src/components/physicsobject.rs). Vectors of `f32` are modelled with
  unbounded reals, so rounding is not part of the model.
 */
module PhysicsObjects {

  /** A 3-D vector (glam's `Vec3`). */
  datatype Vec3 = Vec3(x: real, y: real, z: real)

  const ZERO := Vec3(0.0, 0.0, 0.0)

  function Add(a: Vec3, b: Vec3): Vec3 {
    Vec3(a.x + b.x, a.y + b.y, a.z + b.z)
  }

  function Abs(r: real): (a: real)
    ensures a >= 0.0 && (a == r || a == -r)
  {
    if r < 0.0 then -r else r
  }

  function Max(a: real, b: real): (m: real)
    ensures m >= a && m >= b && (m == a || m == b)
  {
    if a < b then b else a
  }

  /**
    The square of the Euclidean distance. For a threshold t >= 0,
    `a.distance(b) < t` holds exactly when `DistanceSquared(a, b) < t * t`,
    which is how the model compares distances without a square root.
   */
  function DistanceSquared(a: Vec3, b: Vec3): (d: real)
    ensures d >= 0.0
    ensures a == b ==> d == 0.0
  {
    var dx, dy, dz := a.x - b.x, a.y - b.y, a.z - b.z;
    assert dx * dx >= 0.0 && dy * dy >= 0.0 && dz * dz >= 0.0;
    dx * dx + dy * dy + dz * dz
  }

  // ---------------------------------------------------------------------
  // Cube

  /** A box centred at `pos` whose full extent along each axis is `size`; `rot` is its facing. */
  datatype Cube = Cube(pos: Vec3, size: Vec3, rot: Vec3)

  /** The facing every new cube gets. */
  const DEFAULT_ROT := Vec3(-1.0, 0.0, 0.0)

  function NewCube(pos: Vec3, size: Vec3): (c: Cube)
    ensures c.pos == pos && c.size == size && c.rot == DEFAULT_ROT
  {
    Cube(pos, size, DEFAULT_ROT)
  }

  /** The corner with the smallest coordinates. */
  function Mins(c: Cube): Vec3 {
    Vec3(c.pos.x - c.size.x * 0.5, c.pos.y - c.size.y * 0.5, c.pos.z - c.size.z * 0.5)
  }

  /** The corner with the largest coordinates. */
  function Maxs(c: Cube): Vec3 {
    Vec3(c.pos.x + c.size.x * 0.5, c.pos.y + c.size.y * 0.5, c.pos.z + c.size.z * 0.5)
  }

  /** The cubes are not separated along any axis (faces that touch do not separate them). */
  predicate Intersects(a: Cube, b: Cube) {
    var aMin, aMax, bMin, bMax := Mins(a), Maxs(a), Mins(b), Maxs(b);
    !(aMax.x < bMin.x || aMin.x > bMax.x ||
      aMax.y < bMin.y || aMin.y > bMax.y ||
      aMax.z < bMin.z || aMin.z > bMax.z)
  }

  /** `a`'s bottom face lies within 0.5 of `b`'s top face, and the cubes intersect. */
  predicate StandingOn(a: Cube, b: Cube) {
    Abs((a.pos.y - a.size.y / 2.0) - (b.pos.y + b.size.y / 2.0)) < 0.5
    && Intersects(a, b)
  }

  // ---------------------------------------------------------------------
  // Reference geometry: a cube as the closed set of points it covers

  ghost predicate NonNegativeSize(c: Cube) {
    c.size.x >= 0.0 && c.size.y >= 0.0 && c.size.z >= 0.0
  }

  /** The point `p` lies in the closed box of `c`. */
  ghost predicate Contains(c: Cube, p: Vec3) {
    Mins(c).x <= p.x <= Maxs(c).x &&
    Mins(c).y <= p.y <= Maxs(c).y &&
    Mins(c).z <= p.z <= Maxs(c).z
  }

  /** With non-negative size the minimum corner is below the maximum one, and `pos` is the centre. */
  lemma MinsBelowMaxs(c: Cube)
    requires NonNegativeSize(c)
    ensures Mins(c).x <= Maxs(c).x && Mins(c).y <= Maxs(c).y && Mins(c).z <= Maxs(c).z
    ensures Contains(c, c.pos)
  {
  }

  /** Two boxes intersect exactly when they share a point of their closed extents. */
  lemma IntersectsIffCommonPoint(a: Cube, b: Cube)
    requires NonNegativeSize(a) && NonNegativeSize(b)
    ensures Intersects(a, b) <==> exists p :: Contains(a, p) && Contains(b, p)
  {
    if Intersects(a, b) {
      var p := Vec3(Max(Mins(a).x, Mins(b).x), Max(Mins(a).y, Mins(b).y), Max(Mins(a).z, Mins(b).z));
      assert Contains(a, p) && Contains(b, p);
    }
  }

  lemma IntersectsSymmetric(a: Cube, b: Cube)
    ensures Intersects(a, b) == Intersects(b, a)
  {
  }

  lemma IntersectsSelf(c: Cube)
    requires NonNegativeSize(c)
    ensures Intersects(c, c)
  {
  }

  /** Along x, faces that touch do not separate two cubes, and a gap does. */
  lemma TouchingFacesIntersect(a: Cube, b: Cube)
    requires NonNegativeSize(a) && NonNegativeSize(b)
    ensures Maxs(a).x == Mins(b).x ==>
      (Intersects(a, b) <==>
        Mins(a).y <= Maxs(b).y && Mins(b).y <= Maxs(a).y &&
        Mins(a).z <= Maxs(b).z && Mins(b).z <= Maxs(a).z)
    ensures Maxs(a).x < Mins(b).x ==> !Intersects(a, b) && !Intersects(b, a)
  {
  }

  /** Standing on is a contact between `a`'s bottom face and `b`'s top face of an intersecting pair. */
  lemma StandingOnIsContact(a: Cube, b: Cube)
    ensures StandingOn(a, b) <==> Intersects(a, b) && Abs(Mins(a).y - Maxs(b).y) < 0.5
    ensures StandingOn(a, b) ==> Intersects(b, a)
  {
  }

  /**
    A cube resting on another stands on it. The lower one stands on the
    upper one too exactly when their heights sum to less than 0.5, so
    standing is directed only for cubes at least that tall together.
   */
  lemma StandingOnIsDirected(a: Cube, b: Cube)
    requires NonNegativeSize(a) && NonNegativeSize(b)
    requires Mins(a).y == Maxs(b).y && Intersects(a, b)
    ensures StandingOn(a, b)
    ensures StandingOn(b, a) <==> a.size.y + b.size.y < 0.5
  {
    IntersectsSymmetric(a, b);
  }

  // ---------------------------------------------------------------------
  // PhysicsObject

  datatype PhysicsObject = PhysicsObject(cube: Cube, vel: Vec3, friction: real, fixed: bool, onGround: bool)

  /** The friction every new object gets; velocities are divided by it. */
  const DEFAULT_FRICTION: real := 1.02

  /** A free object at rest wrapping `cube`. */
  function NewObject(cube: Cube): (o: PhysicsObject)
    ensures o.cube == cube && o.vel == ZERO
    ensures o.friction == DEFAULT_FRICTION && !o.fixed && !o.onGround
  {
    PhysicsObject(cube, ZERO, DEFAULT_FRICTION, false, false)
  }

  /** The builder `fixed()`: the object no longer moves; nothing else changes. */
  function Fixed(o: PhysicsObject): (r: PhysicsObject)
    ensures r.fixed
    ensures r.cube == o.cube && r.vel == o.vel && r.friction == o.friction && r.onGround == o.onGround
  {
    o.(fixed := true)
  }

  /** The builder `vel(v)`: the object's velocity becomes `v`; nothing else changes. */
  function WithVel(o: PhysicsObject, v: Vec3): (r: PhysicsObject)
    ensures r.vel == v
    ensures r.cube == o.cube && r.friction == o.friction && r.fixed == o.fixed && r.onGround == o.onGround
  {
    o.(vel := v)
  }

  /** `pos()`: the centre of the object's cube. */
  function Pos(o: PhysicsObject): Vec3 {
    o.cube.pos
  }

  /** `set_pos(p)`: moves the cube's centre to `p`; size, facing and motion state are kept. */
  function SetPos(o: PhysicsObject, p: Vec3): (r: PhysicsObject)
    ensures Pos(r) == p
    ensures r.cube.size == o.cube.size && r.cube.rot == o.cube.rot
    ensures r.vel == o.vel && r.friction == o.friction && r.fixed == o.fixed && r.onGround == o.onGround
  {
    o.(cube := o.cube.(pos := p))
  }

  /** The two builders are independent of each other and `fixed()` is idempotent. */
  lemma BuildersCommute(o: PhysicsObject, v: Vec3)
    ensures Fixed(WithVel(o, v)) == WithVel(Fixed(o), v)
    ensures Fixed(Fixed(o)) == Fixed(o)
    ensures WithVel(WithVel(o, v), v) == WithVel(o, v)
  {
  }
}
