/**
  The authoritative server (src/server.rs): connection handling, the
  rules that apply client messages to the world, the per-tick delta it
  broadcasts, and one iteration of its fixed-step main loop. The transport
  is replaced by the connection events and messages a call is handed and
  the messages it returns.
 */
module Server {
  import opened Wrappers
  import opened PhysicsObjects
  import opened Players
  import opened Intervals
  import opened Shared
  import opened Ecs
  import opened Messages

  /** Where a killed player reappears. */
  const RESPAWN_POS := Vec3(0.0, 60.0, 0.0)
  /** Health one shot takes. */
  const SHOT_DAMAGE: U16 := 20
  const PLAYER_SIZE := Vec3(1.0, 2.0, 1.0)
  const GIB_SIZE := Vec3(0.5, 0.5, 0.5)
  /** Milliseconds between iterations of the main loop (`1000 / 30` in integer division). */
  const UPDATE_MILLIS: nat := 1000 / 30

  /** `physobj(pos, size)`. */
  function PhysObj(pos: Vec3, size: Vec3): PhysicsObject {
    NewObject(NewCube(pos, size))
  }

  // ---------------------------------------------------------------------
  // Gibs: the fragments a killed player bursts into

  /** A corner fragment for the signs `dx`, `dz`, as the nested loops of `spawn_gibs` build it. */
  function CornerGib(target: Vec3, dx: real, dz: real): PhysicsObject {
    WithVel(PhysObj(Add(target, Vec3(dx / 2.0, 0.0, dz / 2.0)), GIB_SIZE), Vec3(dx, 10.0, dz))
  }

  /** The `k`-th fragment in spawn order: four corners (x outer, z inner), then the centre one. */
  function Gib(target: Vec3, k: nat): PhysicsObject
    requires k < 5
  {
    if k == 0 then CornerGib(target, -1.0, -1.0)
    else if k == 1 then CornerGib(target, -1.0, 1.0)
    else if k == 2 then CornerGib(target, 1.0, -1.0)
    else if k == 3 then CornerGib(target, 1.0, 1.0)
    else WithVel(PhysObj(Add(target, Vec3(0.0, 1.0, 0.0)), GIB_SIZE), Vec3(0.0, 10.0, 0.0))
  }

  /**
    Every fragment is a small free cube launched upwards at 10, moving
    horizontally away from the death position, and no two share a position.
   */
  lemma GibsFlyOutward(target: Vec3, k: nat, m: nat)
    requires k < 5 && m < 5
    ensures var g := Gib(target, k);
      g.cube.size == GIB_SIZE && !g.fixed && g.vel.y == 10.0 &&
      g.vel.x == 2.0 * (g.cube.pos.x - target.x) &&
      g.vel.z == 2.0 * (g.cube.pos.z - target.z) &&
      g.cube.pos.y >= target.y
    ensures k != m ==> Pos(Gib(target, k)) != Pos(Gib(target, m))
  {
  }

  /** `after` is `before` plus the first |ids| fragments around `target`, each at a new handle. */
  ghost predicate GibsSoFar(before: map<Entity, Components>, after: map<Entity, Components>, ids: seq<Entity>, target: Vec3) {
    && |ids| <= 5
    && (forall i, j :: 0 <= i < j < |ids| ==> ids[i] != ids[j])
    && (forall k :: 0 <= k < |ids| ==> ids[k] !in before && ids[k] in after && after[ids[k]] == OnlyPhysics(Gib(target, k)))
    && (forall e :: e in after <==> e in before || e in ids)
    && (forall e :: e in before ==> after[e] == before[e])
  }

  ghost predicate GibsSpawned(before: map<Entity, Components>, after: map<Entity, Components>, ids: seq<Entity>, target: Vec3) {
    |ids| == 5 && GibsSoFar(before, after, ids, target)
  }

  // ---------------------------------------------------------------------
  // Rules for client messages, on one world value

  /** SetMoveState: the player's stored moves merge the received ones; an entity without a player is untouched. */
  function WithMoveState(w: map<Entity, Components>, id: Entity, received: MoveState): (r: map<Entity, Components>)
    ensures r.Keys == w.Keys
    ensures forall e :: e in w && e != id ==> r[e] == w[e]
    ensures !(id in w && w[id].player.Some?) ==> r == w
    ensures id in w && w[id].player.Some? ==>
      r[id] == w[id].(player := r[id].player) && r[id].player.Some? &&
      r[id].player.value.hp == w[id].player.value.hp &&
      r[id].player.value.moves == MergeMoves(w[id].player.value.moves, received)
  {
    if id in w && w[id].player.Some? then
      var p := w[id].player.value;
      w[id := w[id].(player := Some(p.(moves := MergeMoves(p.moves, received))))]
    else w
  }

  /** SetYaw: the object's facing becomes `rot`; an entity without a physics object is untouched. */
  function WithFacing(w: map<Entity, Components>, id: Entity, rot: Vec3): (r: map<Entity, Components>)
    ensures r.Keys == w.Keys
    ensures forall e :: e in w && e != id ==> r[e] == w[e]
    ensures !(id in w && w[id].physics.Some?) ==> r == w
    ensures id in w && w[id].physics.Some? ==>
      r[id] == w[id].(physics := r[id].physics) && r[id].physics.Some? &&
      r[id].physics.value == w[id].physics.value.(cube := r[id].physics.value.cube) &&
      r[id].physics.value.cube == w[id].physics.value.cube.(rot := rot)
  {
    if id in w && w[id].physics.Some? then
      var o := w[id].physics.value;
      w[id := w[id].(physics := Some(o.(cube := o.cube.(rot := rot))))]
    else w
  }

  /**
    A shot at an entity: its new components, and the position it died at
    when the shot killed it. Only an entity with both a physics object and
    a player is affected.
   */
  function ShotOutcome(c: Components): (r: (Components, Option<Vec3>))
    ensures !(c.physics.Some? && c.player.Some?) ==> r == (c, None)
    ensures c.physics.Some? && c.player.Some? && c.player.value.hp > SHOT_DAMAGE ==>
      r.1 == None && r.0 == c.(player := Some(c.player.value.(hp := c.player.value.hp - SHOT_DAMAGE)))
    ensures c.physics.Some? && c.player.Some? && c.player.value.hp <= SHOT_DAMAGE ==>
      r.1 == Some(Pos(c.physics.value)) &&
      r.0 == c.(physics := Some(SetPos(c.physics.value, RESPAWN_POS)), player := Some(c.player.value.(hp := MAX_HP)))
  {
    if c.physics.Some? && c.player.Some? then
      var obj, player := c.physics.value, c.player.value;
      var hurt := player.(hp := HurtHp(player.hp, SHOT_DAMAGE));
      if IsDead(hurt.hp) then
        var oldPos := Pos(obj);
        (c.(physics := Some(SetPos(obj, RESPAWN_POS)), player := Some(hurt.(hp := MAX_HP))), Some(oldPos))
      else
        (c.(player := Some(hurt)), None)
    else
      (c, None)
  }

  /** A full-health player survives four shots, and the fifth kills it. */
  lemma FifthShotKills()
    ensures HurtTimes(MAX_HP, SHOT_DAMAGE, 4) == 20
    ensures HurtTimes(MAX_HP, SHOT_DAMAGE, 5) == 0
  {
    HurtTimesSaturates(MAX_HP, SHOT_DAMAGE, 4);
    HurtTimesSaturates(MAX_HP, SHOT_DAMAGE, 5);
  }

  // ---------------------------------------------------------------------
  // Spawn points and replicated columns

  ghost predicate IsSpawnPoint(c: Components) {
    c.point.Some? && c.properties.Some? && c.properties.value.spawn == Some(true)
  }

  /** Some marked spawn point of `w` is at `pos`. */
  ghost predicate IsSpawnPosition(w: map<Entity, Components>, pos: Vec3) {
    exists e :: e in w && IsSpawnPoint(w[e]) && w[e].point.value == pos
  }

  /** `pos` is a marked spawn point of `w`, or the origin when `w` has none. */
  ghost predicate IsSpawnChoice(w: map<Entity, Components>, pos: Vec3) {
    IsSpawnPosition(w, pos) || ((forall e :: e in w ==> !IsSpawnPoint(w[e])) && pos == ZERO)
  }

  /** Components of the entity a newly connected client controls. */
  function NewPlayerEntity(pos: Vec3): Components {
    Components(Some(PhysObj(pos, PLAYER_SIZE)), Some(NEW_PLAYER), None, None)
  }

  /** Every player holds a rigid body that is not fixed, so the per-tick delta carries it. */
  ghost predicate PlayersMove(w: map<Entity, Components>) {
    forall e :: e in w && w[e].player.Some? ==> w[e].physics.Some? && !w[e].physics.value.fixed
  }

  /** A delta of a world whose players move names every player in its rigid-body column too. */
  lemma DeltaCoversPlayers(w: map<Entity, Components>, cols: Columns)
    requires PlayersMove(w) && IsDelta(w, cols)
    ensures forall k :: 0 <= k < |cols.player| ==> cols.player[k].0 in ColumnIds(cols.physicsObject)
  {
    forall k | 0 <= k < |cols.player|
      ensures cols.player[k].0 in ColumnIds(cols.physicsObject)
    {
      var e := cols.player[k].0;
      assert e in ColumnIds(cols.player);
      DeltaMembership(w, cols, e);
    }
  }

  /** A shot keeps every player moving: a respawn moves the body, and neither outcome fixes it. */
  lemma ShotKeepsPlayersMoving(w: map<Entity, Components>, t: Entity)
    requires PlayersMove(w) && t in w
    ensures PlayersMove(w[t := ShotOutcome(w[t]).0])
  {
  }

  /** Fragments hold no player, so spawning them keeps every player moving. */
  lemma GibsKeepPlayersMoving(before: map<Entity, Components>, after: map<Entity, Components>, ids: seq<Entity>, target: Vec3)
    requires PlayersMove(before) && GibsSoFar(before, after, ids, target)
    ensures PlayersMove(after)
  {
    forall e | e in after && after[e].player.Some?
      ensures after[e].physics.Some? && !after[e].physics.value.fixed
    {
      if e !in before {
        assert false;
      }
    }
  }

  /** What `handle_msg` does to the world `w` for a message from the client whose entity is `id`. */
  ghost predicate Handled(w: map<Entity, Components>, w': map<Entity, Components>, id: Entity, msg: ClientMessage, facing: real -> Vec3, gibIds: seq<Entity>) {
    match msg
    case SetMoveState(s) => w' == WithMoveState(w, id, s) && gibIds == []
    case SetYaw(yaw) => w' == WithFacing(w, id, facing(yaw)) && gibIds == []
    case Shot(t) =>
      if t in w then
        var r := ShotOutcome(w[t]);
        if r.1.Some? then GibsSpawned(w[t := r.0], w', gibIds, r.1.value)
        else w' == w[t := r.0] && gibIds == []
      else w' == w && gibIds == []
  }

  /** `client_ids` after the connections `connects`, whose players got the handles `handles`, in order. */
  function Register(ids: map<ClientId, Entity>, connects: seq<ClientId>, handles: seq<Entity>): (r: map<ClientId, Entity>)
    requires |handles| == |connects|
    ensures r.Keys == ids.Keys + set c | c in connects
    decreases |connects|
  {
    if connects == [] then ids
    else
      var n := |connects| - 1;
      var r := Register(ids, connects[..n], handles[..n])[connects[n] := handles[n]];
      assert forall c :: c in connects <==> c in connects[..n] || c == connects[n];
      r
  }

  /** A client is registered with the handle of its latest connection; clients that did not connect keep theirs. */
  lemma {:induction false} RegisterLatest(ids: map<ClientId, Entity>, connects: seq<ClientId>, handles: seq<Entity>, i: nat)
    requires |handles| == |connects| && i < |connects|
    requires forall k :: i < k < |connects| ==> connects[k] != connects[i]
    ensures Register(ids, connects, handles)[connects[i]] == handles[i]
    decreases |connects|
  {
    var n := |connects| - 1;
    if i < n {
      RegisterLatest(ids, connects[..n], handles[..n], i);
    }
  }

  lemma {:induction false} RegisterKeeps(ids: map<ClientId, Entity>, connects: seq<ClientId>, handles: seq<Entity>, c: ClientId)
    requires |handles| == |connects| && c in ids && c !in connects
    ensures Register(ids, connects, handles)[c] == ids[c]
    decreases |connects|
  {
    if connects != [] {
      var n := |connects| - 1;
      assert c !in connects[..n];
      RegisterKeeps(ids, connects[..n], handles[..n], c);
    }
  }

  /**
    The intermediate worlds of one `network_receive`: `joined[i]` is the
    world before the i-th connection, whose player got `handles[i]` at
    `spawns[i]`; `worlds[j]` is the world before the j-th queued message,
    which spawned the fragments `gibs[j]`.
   */
  datatype ReceiveTrace = ReceiveTrace(
    joined: seq<map<Entity, Components>>,
    spawns: seq<Vec3>,
    handles: seq<Entity>,
    worlds: seq<map<Entity, Components>>,
    gibs: seq<seq<Entity>>)

  /** One connection: `client`'s player is spawned at a spawn choice under the new `handle`, and `reply` carries that handle and a snapshot. */
  ghost predicate JoinStep(before: map<Entity, Components>, after: map<Entity, Components>, client: ClientId,
                           reply: (ClientId, seq<ServerMessage>), spawn: Vec3, handle: Entity) {
    && handle !in before
    && IsSpawnChoice(before, spawn)
    && after == before[handle := NewPlayerEntity(spawn)]
    && reply.0 == client && |reply.1| == 2
    && reply.1[0] == AssignId(handle)
    && reply.1[1].Ecs? && IsSnapshot(after, reply.1[1].columns)
  }

  /** The connection phase: each connection spawns its player at a spawn choice and is answered with its handle and a snapshot. */
  ghost predicate Joined(w0: map<Entity, Components>, ids0: map<ClientId, Entity>, connects: seq<ClientId>,
                         replies: seq<(ClientId, seq<ServerMessage>)>, ids: map<ClientId, Entity>,
                         joined: seq<map<Entity, Components>>, spawns: seq<Vec3>, handles: seq<Entity>) {
    && |joined| == |connects| + 1 && |spawns| == |connects| && |handles| == |connects| && |replies| == |connects|
    && joined[0] == w0
    && ids == Register(ids0, connects, handles)
    && forall i :: 0 <= i < |connects| ==> JoinStep(joined[i], joined[i + 1], connects[i], replies[i], spawns[i], handles[i])
  }

  /** The message phase: from `w0`, each queued message, from a registered sender, is handled in order. */
  ghost predicate Dispatched(w0: map<Entity, Components>, ids: map<ClientId, Entity>, inbox: seq<(ClientId, ClientMessage)>,
                             facing: real -> Vec3, w: map<Entity, Components>,
                             worlds: seq<map<Entity, Components>>, gibs: seq<seq<Entity>>) {
    && |worlds| == |inbox| + 1 && |gibs| == |inbox|
    && worlds[0] == w0 && worlds[|inbox|] == w
    && forall j :: 0 <= j < |inbox| ==>
      inbox[j].0 in ids && Handled(worlds[j], worlds[j + 1], ids[inbox[j].0], inbox[j].1, facing, gibs[j])
  }

  /** One `network_receive`: the connection phase, then the message phase from the world it left. */
  ghost predicate IsReceive(w0: map<Entity, Components>, ids0: map<ClientId, Entity>, connects: seq<ClientId>,
                            inbox: seq<(ClientId, ClientMessage)>, facing: real -> Vec3,
                            replies: seq<(ClientId, seq<ServerMessage>)>, w: map<Entity, Components>, ids: map<ClientId, Entity>,
                            t: ReceiveTrace) {
    && Joined(w0, ids0, connects, replies, ids, t.joined, t.spawns, t.handles)
    && Dispatched(t.joined[|connects|], ids, inbox, facing, w, t.worlds, t.gibs)
  }

  // ---------------------------------------------------------------------
  // The server

  class Server {
    const ecs: World
    const update: Interval
    var clientIds: map<ClientId, Entity>
    /** Simulated time not yet consumed by physics steps (a local of `start`). */
    var dtAccumulator: real

    ghost predicate Valid()
      reads this, ecs
    {
      ecs.Valid() && PlayersMove(ecs.entities) && dtAccumulator >= 0.0
    }

    /** `Server::create` and the set-up at the top of `start`, with an empty level. */
    constructor ()
      ensures Valid() && fresh(ecs) && fresh(update)
      ensures ecs.entities == map[] && clientIds == map[] && dtAccumulator == 0.0
      ensures update.interval == UPDATE_MILLIS && update.last == 0 && update.delta == 0
    {
      ecs := new World();
      update := new Interval(UPDATE_MILLIS);
      clientIds := map[];
      dtAccumulator := 0.0;
    }

    /** A random marked spawn point, or the origin if the level marks none. */
    method GetRandomSpawn() returns (pos: Vec3)
      ensures IsSpawnChoice(ecs.entities, pos)
    {
      var w := ecs.entities;
      var remaining := w.Keys;
      var spawnPoints: seq<Vec3> := [];
      while remaining != {}
        invariant remaining <= w.Keys
        invariant forall i :: 0 <= i < |spawnPoints| ==> IsSpawnPosition(w, spawnPoints[i])
        invariant forall e :: e in w && e !in remaining && IsSpawnPoint(w[e]) ==> w[e].point.value in spawnPoints
        decreases remaining
      {
        var e :| e in remaining;
        var c := w[e];
        if c.point.Some? && c.properties.Some? {
          if c.properties.value.spawn.Some? && c.properties.value.spawn.value {
            spawnPoints := spawnPoints + [c.point.value];
          }
        }
        remaining := remaining - {e};
      }
      if spawnPoints == [] {
        pos := ZERO;
      } else {
        var i :| 0 <= i < |spawnPoints|;
        pos := spawnPoints[i];
      }
    }

    /** Five fragments around `target`, each a new entity; existing entities are untouched. */
    method SpawnGibs(target: Vec3) returns (ghost ids: seq<Entity>)
      requires Valid()
      modifies ecs
      ensures Valid()
      ensures GibsSpawned(old(ecs.entities), ecs.entities, ids, target)
    {
      ids := [];
      for x := 0 to 2
        invariant ecs.Valid() && |ids| == 2 * x
        invariant GibsSoFar(old(ecs.entities), ecs.entities, ids, target)
      {
        for z := 0 to 2
          invariant ecs.Valid() && |ids| == 2 * x + z
          invariant GibsSoFar(old(ecs.entities), ecs.entities, ids, target)
        {
          var dx := (x * 2 - 1) as real;
          var dz := (z * 2 - 1) as real;
          assert OnlyPhysics(CornerGib(target, dx, dz)) == OnlyPhysics(Gib(target, |ids|));
          var id := ecs.Spawn(OnlyPhysics(CornerGib(target, dx, dz)));
          ids := ids + [id];
        }
      }
      var id := ecs.Spawn(OnlyPhysics(Gib(target, 4)));
      ids := ids + [id];
      GibsKeepPlayersMoving(old(ecs.entities), ecs.entities, ids, target);
    }

    /** `handle_msg`: applies one message from `client`, whose entity must be registered. */
    method HandleMsg(client: ClientId, msg: ClientMessage, facing: real -> Vec3) returns (ghost gibIds: seq<Entity>)
      requires Valid() && client in clientIds
      modifies ecs
      ensures Valid()
      ensures old(ecs.entities).Keys <= ecs.entities.Keys
      ensures Handled(old(ecs.entities), ecs.entities, clientIds[client], msg, facing, gibIds)
    {
      var id := clientIds[client];
      gibIds := [];
      match msg
      case SetMoveState(state) =>
        if id in ecs.entities && ecs.entities[id].player.Some? {
          var c := ecs.entities[id];
          var player := c.player.value;
          ecs.Update(id, c.(player := Some(player.(moves := MergeMoves(player.moves, state)))));
        }
      case SetYaw(yaw) =>
        if id in ecs.entities && ecs.entities[id].physics.Some? {
          var c := ecs.entities[id];
          var obj := c.physics.value;
          ecs.Update(id, c.(physics := Some(obj.(cube := obj.cube.(rot := facing(yaw))))));
        }
      case Shot(target) =>
        if target in ecs.entities {
          var r := ShotOutcome(ecs.entities[target]);
          ShotKeepsPlayersMoving(ecs.entities, target);
          ecs.Update(target, r.0);
          if r.1.Some? {
            gibIds := SpawnGibs(r.1.value);
          }
        }
    }

    /**
      The ClientConnected branch of `network_receive`: spawns the client's
      player at a spawn point, registers it, and returns the reply: the
      AssignId of the new entity, then a snapshot of every physics object.
     */
    method OnClientConnected(client: ClientId) returns (reply: seq<ServerMessage>, ghost spawn: Vec3)
      requires Valid()
      modifies this, ecs
      ensures Valid() && dtAccumulator == old(dtAccumulator)
      ensures |reply| == 2 && reply[0].AssignId? && reply[1].Ecs?
      ensures reply[0].id !in old(ecs.entities)
      ensures clientIds == old(clientIds)[client := reply[0].id]
      ensures IsSpawnChoice(old(ecs.entities), spawn)
      ensures ecs.entities == old(ecs.entities)[reply[0].id := NewPlayerEntity(spawn)]
      ensures IsSnapshot(ecs.entities, reply[1].columns)
    {
      var pos := GetRandomSpawn();
      spawn := pos;
      var id := ecs.Spawn(NewPlayerEntity(pos));
      clientIds := clientIds[client := id];
      var objects := ecs.Column(PhysicsOf);
      reply := [AssignId(id), Ecs(Columns(objects, []))];
    }

    /** The ClientConnected events of `network_receive`, in order. */
    method Connect(connects: seq<ClientId>)
      returns (replies: seq<(ClientId, seq<ServerMessage>)>, ghost joined: seq<map<Entity, Components>>, ghost spawns: seq<Vec3>, ghost handles: seq<Entity>)
      requires Valid()
      modifies this, ecs
      ensures Valid() && dtAccumulator == old(dtAccumulator)
      ensures old(ecs.entities).Keys <= ecs.entities.Keys
      ensures Joined(old(ecs.entities), old(clientIds), connects, replies, clientIds, joined, spawns, handles)
      ensures joined[|connects|] == ecs.entities
      ensures forall c :: c in old(clientIds) && c !in connects ==> clientIds[c] == old(clientIds)[c]
    {
      replies, joined, spawns, handles := [], [ecs.entities], [], [];
      for i := 0 to |connects|
        invariant Valid() && dtAccumulator == old(dtAccumulator)
        invariant old(ecs.entities).Keys <= ecs.entities.Keys
        invariant |joined| == i + 1 && |spawns| == i && |handles| == i && |replies| == i
        invariant joined[0] == old(ecs.entities) && joined[i] == ecs.entities
        invariant clientIds == Register(old(clientIds), connects[..i], handles)
        invariant forall k :: 0 <= k < i ==> JoinStep(joined[k], joined[k + 1], connects[k], replies[k], spawns[k], handles[k])
      {
        ghost var before := ecs.entities;
        var reply, spawn := OnClientConnected(connects[i]);
        assert JoinStep(before, ecs.entities, connects[i], (connects[i], reply), spawn, reply[0].id);
        replies := replies + [(connects[i], reply)];
        spawns := spawns + [spawn];
        handles := handles + [reply[0].id];
        joined := joined + [ecs.entities];
        assert connects[..i + 1][..i] == connects[..i] && handles[..i] == handles[..|handles| - 1];
      }
      assert connects[..|connects|] == connects;
      forall c | c in old(clientIds) && c !in connects
        ensures clientIds[c] == old(clientIds)[c]
      {
        RegisterKeeps(old(clientIds), connects, handles, c);
      }
    }

    /** The queued messages of `network_receive`, in order; each sender must be registered. */
    method Dispatch(inbox: seq<(ClientId, ClientMessage)>, facing: real -> Vec3)
      returns (ghost worlds: seq<map<Entity, Components>>, ghost gibs: seq<seq<Entity>>)
      requires Valid()
      requires forall i :: 0 <= i < |inbox| ==> inbox[i].0 in clientIds
      modifies ecs
      ensures Valid()
      ensures old(ecs.entities).Keys <= ecs.entities.Keys
      ensures Dispatched(old(ecs.entities), clientIds, inbox, facing, ecs.entities, worlds, gibs)
    {
      worlds, gibs := [ecs.entities], [];
      for j := 0 to |inbox|
        invariant Valid()
        invariant old(ecs.entities).Keys <= ecs.entities.Keys
        invariant |worlds| == j + 1 && |gibs| == j
        invariant worlds[0] == old(ecs.entities) && worlds[j] == ecs.entities
        invariant forall k :: 0 <= k < j ==>
          Handled(worlds[k], worlds[k + 1], clientIds[inbox[k].0], inbox[k].1, facing, gibs[k])
      {
        var g := HandleMsg(inbox[j].0, inbox[j].1, facing);
        gibs := gibs + [g];
        worlds := worlds + [ecs.entities];
      }
    }

    /**
      `network_receive` after the transport update: first the connection
      events, then every queued message in the order given. Each sender
      must be registered by then. `t` records the intermediate worlds.
     */
    method NetworkReceive(connects: seq<ClientId>, inbox: seq<(ClientId, ClientMessage)>, facing: real -> Vec3)
      returns (replies: seq<(ClientId, seq<ServerMessage>)>, ghost t: ReceiveTrace)
      requires Valid()
      requires forall i :: 0 <= i < |inbox| ==> inbox[i].0 in clientIds || inbox[i].0 in connects
      modifies this, ecs
      ensures Valid() && dtAccumulator == old(dtAccumulator)
      ensures old(ecs.entities).Keys <= ecs.entities.Keys
      ensures IsReceive(old(ecs.entities), old(clientIds), connects, inbox, facing, replies, ecs.entities, clientIds, t)
      ensures forall c :: c in old(clientIds) && c !in connects ==> clientIds[c] == old(clientIds)[c]
    {
      ghost var joined, spawns, handles;
      replies, joined, spawns, handles := Connect(connects);
      ghost var worlds, gibs := Dispatch(inbox, facing);
      t := ReceiveTrace(joined, spawns, handles, worlds, gibs);
    }

    /** `network_send`: the delta message every connected client receives. */
    method NetworkSend() returns (msg: ServerMessage)
      requires Valid()
      ensures msg.Ecs? && IsDelta(ecs.entities, msg.columns)
      ensures forall k :: 0 <= k < |msg.columns.player| ==> msg.columns.player[k].0 in ColumnIds(msg.columns.physicsObject)
    {
      var objects := ecs.Column(MovingPhysicsOf);
      var players := ecs.Column(PlayerOf);
      msg := Ecs(Columns(objects, players));
      DeltaCoversPlayers(ecs.entities, msg.columns);
    }

    /**
      One pass of the loop in `start` at clock reading `now`: when the
      update interval fires, the elapsed time is added to the accumulator,
      the network is received, whole physics steps are drained and the
      delta is built.
     */
    method Iteration(now: nat, connects: seq<ClientId>, inbox: seq<(ClientId, ClientMessage)>, facing: real -> Vec3)
      returns (fired: bool, replies: seq<(ClientId, seq<ServerMessage>)>, steps: nat, broadcast: seq<ServerMessage>, ghost t: ReceiveTrace)
      requires Valid()
      requires forall i :: 0 <= i < |inbox| ==> inbox[i].0 in clientIds || inbox[i].0 in connects
      modifies this, ecs, update
      ensures Valid()
      ensures fired == Fires(old(update.last), old(update.interval), now)
      ensures update.interval == old(update.interval)
      ensures update.last == NextLast(old(update.last), old(update.interval), now)
      ensures fired ==> update.delta == FiringDelta(old(update.last), now)
      ensures !fired ==> update.delta == old(update.delta)
      ensures !fired ==>
        ecs.entities == old(ecs.entities) && clientIds == old(clientIds) &&
        dtAccumulator == old(dtAccumulator) && replies == [] && steps == 0 && broadcast == []
      ensures fired ==>
        var total := old(dtAccumulator) + update.delta as real / 1000.0;
        && IsReceive(old(ecs.entities), old(clientIds), connects, inbox, facing, replies, ecs.entities, clientIds, t)
        && dtAccumulator == total - steps as real * PHYSICS_STEP
        && 0.0 <= dtAccumulator < PHYSICS_STEP
        && steps == (total / PHYSICS_STEP).Floor
        && |broadcast| == 1 && broadcast[0].Ecs? && IsDelta(ecs.entities, broadcast[0].columns)
        && forall k :: 0 <= k < |broadcast[0].columns.player| ==>
          broadcast[0].columns.player[k].0 in ColumnIds(broadcast[0].columns.physicsObject)
    {
      replies, steps, broadcast := [], 0, [];
      t := ReceiveTrace([], [], [], [], []);
      fired := update.Tick(now);
      if fired {
        var delta := update.Delta();
        dtAccumulator := dtAccumulator + delta as real / 1000.0;
        ghost var total := dtAccumulator;
        replies, t := NetworkReceive(connects, inbox, facing);
        assert total == dtAccumulator;
        dtAccumulator, steps := Drain(dtAccumulator);
        var msg := NetworkSend();
        broadcast := [msg];
      }
    }
  }
}
