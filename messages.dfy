/** The messages client and server exchange, as client.rs and server.rs use them. */
module Messages {
  import opened Wrappers
  import opened PhysicsObjects
  import opened Players
  import opened Ecs

  /** renet's client identifier. */
  type ClientId = nat

  /** The component columns an `Ecs` message carries (the mesh column is not part of this model). */
  datatype Columns = Columns(physicsObject: seq<(Entity, PhysicsObject)>, player: seq<(Entity, PlayerState)>)

  datatype ServerMessage =
    | AssignId(id: Entity)
    | Ecs(columns: Columns)

  datatype ClientMessage =
    | SetMoveState(state: MoveState)
    | SetYaw(yaw: real)
    | Shot(target: Entity)

  // ---------------------------------------------------------------------
  // What the server replicates

  function PhysicsOf(c: Components): Option<PhysicsObject> {
    c.physics
  }

  function MovingPhysicsOf(c: Components): Option<PhysicsObject> {
    if c.physics.Some? && !c.physics.value.fixed then c.physics else None
  }

  function PlayerOf(c: Components): Option<PlayerState> {
    c.player
  }

  /** The snapshot a joining client receives: every physics object, once each. */
  ghost predicate IsSnapshot(w: map<Entity, Components>, cols: Columns) {
    DistinctIds(cols.physicsObject) && ColumnMap(cols.physicsObject) == Selected(w, PhysicsOf) && cols.player == []
  }

  /** The per-tick delta: the non-fixed physics objects and every player, once each. */
  ghost predicate IsDelta(w: map<Entity, Components>, cols: Columns) {
    && DistinctIds(cols.physicsObject) && ColumnMap(cols.physicsObject) == Selected(w, MovingPhysicsOf)
    && DistinctIds(cols.player) && ColumnMap(cols.player) == Selected(w, PlayerOf)
  }

  /** An entity is in the delta's physics column iff it has a non-fixed object, and in its player column iff it has a player. */
  lemma DeltaMembership(w: map<Entity, Components>, cols: Columns, e: Entity)
    requires IsDelta(w, cols)
    ensures e in ColumnIds(cols.physicsObject) <==> e in w && w[e].physics.Some? && !w[e].physics.value.fixed
    ensures e in ColumnIds(cols.physicsObject) ==> ColumnMap(cols.physicsObject)[e] == w[e].physics.value
    ensures e in ColumnIds(cols.player) <==> e in w && w[e].player.Some?
    ensures e in ColumnIds(cols.player) ==> ColumnMap(cols.player)[e] == w[e].player.value
  {
    ColumnMapKeys(cols.physicsObject);
    ColumnMapKeys(cols.player);
  }
}
