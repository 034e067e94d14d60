/**
  The entity/component world the game keeps in a hecs `World`: a finite
  map from entity handles to the components an entity holds.
 */
module Ecs {
  import opened Wrappers
  import opened PhysicsObjects
  import opened Players

  /** An entity handle. hecs's handles are opaque; the model needs only equality and freshness. */
  type Entity = nat

  /** The placeholder handle a client holds before the server has assigned it an avatar. */
  const DANGLING: Entity := 0xFFFF_FFFF

  /** The key/value extras a level node may carry. */
  datatype Properties = Properties(spawn: Option<bool>, launch: Option<Vec3>)

  /** The components one entity holds: a rigid body, a player, a point marker and level properties. */
  datatype Components = Components(
    physics: Option<PhysicsObject>,
    player: Option<PlayerState>,
    point: Option<Vec3>,
    properties: Option<Properties>)

  /** An entity holding only the physics object `o`. */
  function OnlyPhysics(o: PhysicsObject): (c: Components)
    ensures c.physics == Some(o) && c.player == None && c.point == None && c.properties == None
  {
    Components(Some(o), None, None, None)
  }

  /** The entities for which `select` picks a component, mapped to that component. */
  function Selected<C>(w: map<Entity, Components>, select: Components -> Option<C>): map<Entity, C> {
    map e | e in w && select(w[e]).Some? :: select(w[e]).value
  }

  // ---------------------------------------------------------------------
  // Columns: lists of (entity, component) pairs

  /** The entities a column mentions. */
  ghost function ColumnIds<C>(col: seq<(Entity, C)>): set<Entity> {
    set k | 0 <= k < |col| :: col[k].0
  }

  predicate DistinctIds<C>(col: seq<(Entity, C)>) {
    forall i, j :: 0 <= i < j < |col| ==> col[i].0 != col[j].0
  }

  /** A column read as a map; a later entry for the same entity replaces an earlier one. */
  function ColumnMap<C>(col: seq<(Entity, C)>): map<Entity, C> {
    if col == [] then map[]
    else ColumnMap(col[..|col| - 1])[col[|col| - 1].0 := col[|col| - 1].1]
  }

  lemma ColumnAppend<C>(col: seq<(Entity, C)>, e: Entity, v: C)
    ensures ColumnMap(col + [(e, v)]) == ColumnMap(col)[e := v]
    ensures ColumnIds(col + [(e, v)]) == ColumnIds(col) + {e}
  {
    var col' := col + [(e, v)];
    assert col'[..|col'| - 1] == col;
    assert forall k :: 0 <= k < |col| ==> col'[k] == col[k];
    assert col'[|col|].0 == e;
  }

  /** A column read as a map has exactly the column's entities as keys. */
  lemma {:induction false} ColumnMapKeys<C>(col: seq<(Entity, C)>)
    ensures ColumnMap(col).Keys == ColumnIds(col)
    decreases |col|
  {
    if col != [] {
      var init := col[..|col| - 1];
      ColumnMapKeys(init);
      assert init + [col[|col| - 1]] == col;
      ColumnAppend(init, col[|col| - 1].0, col[|col| - 1].1);
    }
  }

  // ---------------------------------------------------------------------
  // The world

  class World {
    var entities: map<Entity, Components>
    /** Every index at or above this one is free; stands for hecs's allocator. */
    var nextIndex: nat

    ghost predicate Valid()
      reads this
    {
      forall e :: e in entities ==> e < nextIndex
    }

    constructor ()
      ensures Valid() && entities == map[]
    {
      entities := map[];
      nextIndex := 0;
    }

    /** `spawn(bundle)`: a new entity with a handle no live entity has. */
    method Spawn(c: Components) returns (id: Entity)
      requires Valid()
      modifies this
      ensures Valid()
      ensures id !in old(entities)
      ensures entities == old(entities)[id := c]
    {
      id := nextIndex;
      entities := entities[id := c];
      nextIndex := nextIndex + 1;
    }

    /** `spawn_at(id, bundle)`: an entity with an externally chosen handle. */
    method SpawnAt(id: Entity, c: Components)
      requires Valid()
      modifies this
      ensures Valid()
      ensures entities == old(entities)[id := c]
    {
      entities := entities[id := c];
      if nextIndex <= id {
        nextIndex := id + 1;
      }
    }

    /** Replaces the components of an entity that exists (`insert` and `query_one_mut` writes). */
    method Update(id: Entity, c: Components)
      requires Valid() && id in entities
      modifies this
      ensures Valid()
      ensures entities == old(entities)[id := c]
    {
      entities := entities[id := c];
    }

    /**
      A query over every entity, collected into a column: `select` says
      which component, if any, an entity contributes. The iteration order
      of the query is not modelled; the column holds each selected entity
      once.
     */
    method Column<C>(select: Components -> Option<C>) returns (col: seq<(Entity, C)>)
      ensures DistinctIds(col)
      ensures ColumnMap(col) == Selected(entities, select)
    {
      var remaining := entities.Keys;
      col := [];
      while remaining != {}
        invariant remaining <= entities.Keys
        invariant DistinctIds(col)
        invariant ColumnIds(col) !! remaining
        invariant ColumnMap(col) == map e | e in entities && e !in remaining && select(entities[e]).Some? :: select(entities[e]).value
        decreases remaining
      {
        var e :| e in remaining;
        var picked := select(entities[e]);
        if picked.Some? {
          ColumnAppend(col, e, picked.value);
          col := col + [(e, picked.value)];
        }
        remaining := remaining - {e};
      }
    }
  }
}
