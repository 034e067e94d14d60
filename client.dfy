/**
  The client's side of replication (src/client.rs): applying the columns
  the server sends to the local world, with position smoothing, taking
  over the avatar id the server assigns, and the fixed-step physics drain
  of its frame loop. Rendering and input are not part of this model.
 */
module Client {
  import opened Wrappers
  import opened PhysicsObjects
  import opened Players
  import opened Shared
  import opened Ecs
  import opened Messages

  /** Below this distance a received position is approached gradually instead of jumped to. */
  const SNAP_DISTANCE: real := 0.5
  /** How far one update moves a position towards the received one. */
  const SMOOTHING_STEP: real := 0.005

  /** `a.distance(b) < SNAP_DISTANCE`, compared on squares. */
  predicate WithinSnap(a: Vec3, b: Vec3) {
    DistanceSquared(a, b) < SNAP_DISTANCE * SNAP_DISTANCE
  }

  /**
    A known object overwritten by the received one. Every field comes from
    `received`; the position is then smoothed from the old one when the two
    are close (`moveTowards` is glam's `move_towards`, a parameter here).
   */
  function Reconcile(current: PhysicsObject, received: PhysicsObject, moveTowards: (Vec3, Vec3, real) -> Vec3): (r: PhysicsObject)
    ensures r.vel == received.vel && r.friction == received.friction
    ensures r.fixed == received.fixed && r.onGround == received.onGround
    ensures r.cube.size == received.cube.size && r.cube.rot == received.cube.rot
    ensures WithinSnap(Pos(current), Pos(received)) ==> Pos(r) == moveTowards(Pos(current), Pos(received), SMOOTHING_STEP)
    ensures !WithinSnap(Pos(current), Pos(received)) ==> r == received
  {
    var oldPos := Pos(current);
    var near := WithinSnap(Pos(current), Pos(received));
    var obj := received;
    if near then SetPos(obj, moveTowards(oldPos, Pos(obj), SMOOTHING_STEP)) else obj
  }

  /** An object at least the snap distance away along one axis jumps straight to the received state. */
  lemma FarPositionsSnap(current: PhysicsObject, received: PhysicsObject, moveTowards: (Vec3, Vec3, real) -> Vec3)
    requires var a, b := Pos(current), Pos(received);
      Abs(a.x - b.x) >= SNAP_DISTANCE || Abs(a.y - b.y) >= SNAP_DISTANCE || Abs(a.z - b.z) >= SNAP_DISTANCE
    ensures Reconcile(current, received, moveTowards) == received
  {
    var a, b := Pos(current), Pos(received);
    var dx, dy, dz := a.x - b.x, a.y - b.y, a.z - b.z;
    assert dx * dx >= 0.0 && dy * dy >= 0.0 && dz * dz >= 0.0;
    if Abs(dx) >= SNAP_DISTANCE {
      SquareAtLeast(dx, SNAP_DISTANCE);
    } else if Abs(dy) >= SNAP_DISTANCE {
      SquareAtLeast(dy, SNAP_DISTANCE);
    } else {
      SquareAtLeast(dz, SNAP_DISTANCE);
    }
    assert DistanceSquared(a, b) == dx * dx + dy * dy + dz * dz;
    assert !WithinSnap(a, b);
  }

  lemma SquareAtLeast(d: real, m: real)
    requires m >= 0.0 && Abs(d) >= m
    ensures d * d >= m * m
  {
    var a := Abs(d);
    assert d * d == a * a;
    assert a * a >= m * a >= m * m;
  }

  // ---------------------------------------------------------------------
  // Applying an Ecs message to a world value

  /** One entry of the PhysicsObject column: spawn an unknown id, reconcile a known object. */
  function ApplyPhysicsEntry(w: map<Entity, Components>, id: Entity, received: PhysicsObject, moveTowards: (Vec3, Vec3, real) -> Vec3): (r: map<Entity, Components>)
    ensures r.Keys == w.Keys + {id}
    ensures forall e :: e in w && e != id ==> r[e] == w[e]
    ensures id !in w ==> r[id] == OnlyPhysics(received)
    ensures id in w && w[id].physics.Some? ==>
      r[id] == w[id].(physics := Some(Reconcile(w[id].physics.value, received, moveTowards)))
    ensures id in w && w[id].physics.None? ==> r == w
  {
    if id !in w then w[id := OnlyPhysics(received)]
    else if w[id].physics.Some? then w[id := w[id].(physics := Some(Reconcile(w[id].physics.value, received, moveTowards)))]
    else w
  }

  /** The PhysicsObject column applied entry by entry, in order. */
  function ApplyPhysicsColumn(w: map<Entity, Components>, col: seq<(Entity, PhysicsObject)>, moveTowards: (Vec3, Vec3, real) -> Vec3): map<Entity, Components>
    decreases |col|
  {
    if col == [] then w
    else
      var last := col[|col| - 1];
      ApplyPhysicsEntry(ApplyPhysicsColumn(w, col[..|col| - 1], moveTowards), last.0, last.1, moveTowards)
  }

  /**
    The Player column applied entry by entry: each entry sets the entity's
    player component. An entry for an entity that does not exist is
    skipped; in the source that `insert(..).unwrap()` panics, and
    `Client.HandleMsg`'s precondition rules the case out.
   */
  function ApplyPlayerColumn(w: map<Entity, Components>, col: seq<(Entity, PlayerState)>): map<Entity, Components>
    decreases |col|
  {
    if col == [] then w
    else
      var w', last := ApplyPlayerColumn(w, col[..|col| - 1]), col[|col| - 1];
      if last.0 in w' then w'[last.0 := w'[last.0].(player := Some(last.1))] else w'
  }

  /** An Ecs message: the PhysicsObject column first, then the Player column. */
  function ApplyColumns(w: map<Entity, Components>, cols: Columns, moveTowards: (Vec3, Vec3, real) -> Vec3): map<Entity, Components> {
    ApplyPlayerColumn(ApplyPhysicsColumn(w, cols.physicsObject, moveTowards), cols.player)
  }

  /** After the PhysicsObject column, the world holds the old entities and every entity the column mentions. */
  lemma {:induction false} PhysicsColumnKeys(w: map<Entity, Components>, col: seq<(Entity, PhysicsObject)>, moveTowards: (Vec3, Vec3, real) -> Vec3)
    ensures ApplyPhysicsColumn(w, col, moveTowards).Keys == w.Keys + ColumnIds(col)
    decreases |col|
  {
    if col != [] {
      var init := col[..|col| - 1];
      PhysicsColumnKeys(w, init, moveTowards);
      assert init + [col[|col| - 1]] == col;
      ColumnAppend(init, col[|col| - 1].0, col[|col| - 1].1);
    }
  }

  /** Entities the PhysicsObject column does not mention are untouched. */
  lemma {:induction false} PhysicsColumnFrame(w: map<Entity, Components>, col: seq<(Entity, PhysicsObject)>, moveTowards: (Vec3, Vec3, real) -> Vec3, e: Entity)
    requires e in w && e !in ColumnIds(col)
    ensures e in ApplyPhysicsColumn(w, col, moveTowards)
    ensures ApplyPhysicsColumn(w, col, moveTowards)[e] == w[e]
    decreases |col|
  {
    if col != [] {
      var init := col[..|col| - 1];
      assert init + [col[|col| - 1]] == col;
      ColumnAppend(init, col[|col| - 1].0, col[|col| - 1].1);
      PhysicsColumnFrame(w, init, moveTowards, e);
    }
  }

  /**
    Into a world that holds none of its entities, a column with distinct
    entities spawns each of them at its own id holding exactly the
    received object.
   */
  lemma {:induction false} PhysicsColumnSpawns(w: map<Entity, Components>, col: seq<(Entity, PhysicsObject)>, moveTowards: (Vec3, Vec3, real) -> Vec3, e: Entity)
    requires DistinctIds(col) && ColumnIds(col) !! w.Keys
    requires e in ColumnIds(col)
    ensures e in ColumnMap(col) && e in ApplyPhysicsColumn(w, col, moveTowards)
    ensures ApplyPhysicsColumn(w, col, moveTowards)[e] == OnlyPhysics(ColumnMap(col)[e])
    decreases |col|
  {
    var init, last := col[..|col| - 1], col[|col| - 1];
    assert init + [last] == col;
    ColumnAppend(init, last.0, last.1);
    ColumnMapKeys(col);
    PhysicsColumnKeys(w, init, moveTowards);
    assert last.0 !in ColumnIds(init) by {
      forall k | 0 <= k < |init| ensures init[k].0 != last.0 {
        assert init[k] == col[k];
      }
    }
    if e != last.0 {
      PhysicsColumnSpawns(w, init, moveTowards, e);
    }
  }

  /**
    A known entity with a rigid body that a column with distinct entities
    names is reconciled against the column's object for it; its other
    components are kept.
   */
  lemma {:induction false} PhysicsColumnReconciles(w: map<Entity, Components>, col: seq<(Entity, PhysicsObject)>, moveTowards: (Vec3, Vec3, real) -> Vec3, e: Entity)
    requires DistinctIds(col) && e in w && w[e].physics.Some?
    requires e in ColumnIds(col)
    ensures e in ColumnMap(col) && e in ApplyPhysicsColumn(w, col, moveTowards)
    ensures ApplyPhysicsColumn(w, col, moveTowards)[e] ==
      w[e].(physics := Some(Reconcile(w[e].physics.value, ColumnMap(col)[e], moveTowards)))
    decreases |col|
  {
    var init, last := col[..|col| - 1], col[|col| - 1];
    assert init + [last] == col;
    ColumnAppend(init, last.0, last.1);
    ColumnMapKeys(col);
    PhysicsColumnKeys(w, init, moveTowards);
    assert DistinctIds(init) by {
      forall i, j | 0 <= i < j < |init| ensures init[i].0 != init[j].0 {
        assert init[i] == col[i] && init[j] == col[j];
      }
    }
    if e == last.0 {
      assert e !in ColumnIds(init) by {
        forall k | 0 <= k < |init| ensures init[k].0 != last.0 {
          assert init[k] == col[k];
        }
      }
      PhysicsColumnFrame(w, init, moveTowards, e);
    } else {
      PhysicsColumnReconciles(w, init, moveTowards, e);
    }
  }

  /**
    Once the PhysicsObject column has made every id of the Player column
    exist, each mentioned entity gets the column's player component and
    every other entity is untouched.
   */
  lemma {:induction false} PlayerColumnSets(w: map<Entity, Components>, col: seq<(Entity, PlayerState)>, e: Entity)
    requires ColumnIds(col) <= w.Keys
    ensures ApplyPlayerColumn(w, col).Keys == w.Keys
    ensures e in ColumnIds(col) ==> e in ColumnMap(col) && ApplyPlayerColumn(w, col)[e] == w[e].(player := Some(ColumnMap(col)[e]))
    ensures e in w && e !in ColumnIds(col) ==> ApplyPlayerColumn(w, col)[e] == w[e]
    decreases |col|
  {
    ColumnMapKeys(col);
    if col != [] {
      var init, last := col[..|col| - 1], col[|col| - 1];
      assert init + [last] == col;
      ColumnAppend(init, last.0, last.1);
      PlayerColumnSets(w, init, e);
      PlayerColumnSets(w, init, last.0);
    }
  }

  /**
    A client that has just joined, holding nothing yet, mirrors the
    server's snapshot exactly: it holds an entity iff the server's does
    with a physics object, with that same object.
   */
  lemma JoinMirrorsSnapshot(server: map<Entity, Components>, cols: Columns, moveTowards: (Vec3, Vec3, real) -> Vec3, e: Entity)
    requires IsSnapshot(server, cols)
    ensures var local := ApplyColumns(map[], cols, moveTowards);
      (e in local <==> e in server && server[e].physics.Some?) &&
      (e in local ==> local[e] == OnlyPhysics(server[e].physics.value))
  {
    ColumnMapKeys(cols.physicsObject);
    PhysicsColumnKeys(map[], cols.physicsObject, moveTowards);
    if e in ColumnIds(cols.physicsObject) {
      PhysicsColumnSpawns(map[], cols.physicsObject, moveTowards, e);
    }
  }

  // ---------------------------------------------------------------------
  // The client

  class Client {
    const ecs: World
    /** The client's own avatar, once the server has assigned one. */
    var player: Entity

    constructor ()
      ensures ecs.Valid() && fresh(ecs) && ecs.entities == map[]
      ensures player == DANGLING
    {
      ecs := new World();
      player := DANGLING;
    }

    /**
      `handle_msg`. An Ecs message spawns or reconciles every entry of its
      PhysicsObject column, then inserts every entry of its Player column;
      the insert panics for an id that does not exist by then. AssignId
      takes over the avatar handle.
     */
    method HandleMsg(msg: ServerMessage, moveTowards: (Vec3, Vec3, real) -> Vec3)
      requires ecs.Valid()
      requires msg.Ecs? ==> forall k :: 0 <= k < |msg.columns.player| ==>
        msg.columns.player[k].0 in ecs.entities || msg.columns.player[k].0 in ColumnIds(msg.columns.physicsObject)
      modifies this, ecs
      ensures ecs.Valid()
      ensures msg.AssignId? ==> player == msg.id && ecs.entities == old(ecs.entities)
      ensures msg.Ecs? ==> player == old(player) && ecs.entities == ApplyColumns(old(ecs.entities), msg.columns, moveTowards)
    {
      match msg
      case Ecs(columns) =>
        var objects := columns.physicsObject;
        for i := 0 to |objects|
          invariant ecs.Valid() && player == old(player)
          invariant ecs.entities == ApplyPhysicsColumn(old(ecs.entities), objects[..i], moveTowards)
        {
          var id, newObj := objects[i].0, objects[i].1;
          assert objects[..i + 1][..i] == objects[..i];
          if id !in ecs.entities {
            ecs.SpawnAt(id, OnlyPhysics(newObj));
          } else if ecs.entities[id].physics.Some? {
            var c := ecs.entities[id];
            var obj := c.physics.value;
            ecs.Update(id, c.(physics := Some(Reconcile(obj, newObj, moveTowards))));
          }
        }
        assert objects[..|objects|] == objects;
        ghost var mid := ecs.entities;
        PhysicsColumnKeys(old(ecs.entities), objects, moveTowards);
        var players := columns.player;
        for j := 0 to |players|
          invariant ecs.Valid() && player == old(player)
          invariant ecs.entities == ApplyPlayerColumn(mid, players[..j])
          invariant ecs.entities.Keys == mid.Keys
        {
          var id, p := players[j].0, players[j].1;
          assert players[..j + 1][..j] == players[..j];
          assert id in ecs.entities;
          ecs.Update(id, ecs.entities[id].(player := Some(p)));
        }
        assert players[..|players|] == players;
      case AssignId(id) =>
        player := id;
    }

    /**
      The physics part of a frame: whole steps are drained from `acc` only
      once the avatar entity exists locally; before that nothing runs.
     */
    method RunPhysics(acc: real) returns (rest: real, steps: nat)
      ensures player !in ecs.entities ==> rest == acc && steps == 0
      ensures player in ecs.entities ==>
        rest == acc - steps as real * PHYSICS_STEP && rest < PHYSICS_STEP &&
        (acc >= 0.0 ==> 0.0 <= rest && steps == (acc / PHYSICS_STEP).Floor)
    {
      rest, steps := acc, 0;
      if player in ecs.entities {
        rest, steps := Drain(acc);
      }
    }
  }
}
