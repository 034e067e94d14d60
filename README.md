# junglebeast game rules in Dafny

junglebeast is a small multiplayer first-person game written in Rust. An
authoritative server keeps the game world in an entity/component store.
Clients connect, send movement intents, facing changes and shots, and
receive snapshots and per-tick deltas of the replicated components. This
project models the game-rule layer that sits around the foreign libraries:

- `physicsobject.dfy` (module `PhysicsObjects`): axis-aligned cubes, their
  intersection and standing-on tests, and the rigid-body record with its
  builders.
- `player.dfy` (module `Players`): saturating `u16` health with death and
  reset, and the movement intent with the server's jump-keeping merge.
- `interval.dfy` (module `Intervals`): the ticker that fires at most once
  per interval. The clock reading is a parameter.
- `shared.dfy` (module `Shared`): the fixed physics step, the fixed-step
  accumulator drain that both main loops use, the vector conversions and
  `assume_one`.
- `ecs.dfy` (module `Ecs`): the world as a class holding a finite map from
  entity handles to optional components, with spawning, updates and
  column queries.
- `messages.dfy` (module `Messages`): the two message types, the replicated
  columns, and what a snapshot and a per-tick delta must contain.
- `server.dfy` (module `Server`): message handling (move state, yaw, shots,
  respawn and gibs), spawn-point choice, the connect branch, the per-tick
  delta and one iteration of the main loop.
- `client.dfy` (module `Client`): applying received columns with position
  smoothing, taking over the assigned avatar id, and the physics drain
  gated on the avatar's existence.
- `wrappers.dfy` (module `Wrappers`): `Option`.

`f32` values are modelled as `real`. A distance comparison `a.distance(b) < t`
is modelled as `DistanceSquared(a, b) < t * t`, which is equivalent for
`t >= 0`. hecs entity handles are opaque, so they are modelled as `nat`. The
world only promises that a freshly spawned handle is not live.

Stateful code is modelled as classes. `Player`, `Interval`, `World`,
`Server` and `Client` all update their fields in methods, and each method
is specified against the pure functions beside it:

- `HurtHp` and `NextLast` for the player and the interval;
- `WithMoveState`, `WithFacing`, `ShotOutcome` and `Gib` for the server's
  rules;
- `ApplyColumns` for the client's reconciliation;
- `ColumnMap` and `Selected` for column queries.

A few behaviours of the code are worth stating plainly, since a reader of
the game might expect otherwise:

- The standing test requires the full three-axis intersection
  (src/components/physicsobject.rs:47-50), not only overlap on the
  horizontal axes.
- A shot affects only an entity that has both a rigid body and a player
  (src/server.rs:113).
- The message types are the ones `client.rs` and `server.rs` use.
  `src/network/message.rs` is an older version that does not match them.
- Nothing clears the pending jump that `SetMoveState` keeps
  (src/server.rs:100-102). Consuming it would be part of the physics step,
  which `handle_physics` hands to the physics engine
  (src/shared.rs:189-191).

## Model

| member | source | states |
|---|---|---|
| PhysicsObjects.NewCube | src/components/physicsobject.rs:20-26 | a new cube keeps its position and size and faces (-1, 0, 0) |
| PhysicsObjects.Mins | src/components/physicsobject.rs:28-30 | the corner half the size below the centre on every axis |
| PhysicsObjects.Maxs | src/components/physicsobject.rs:32-34 | the corner half the size above the centre on every axis |
| PhysicsObjects.Intersects | src/components/physicsobject.rs:36-45 | the cubes are not separated along any axis; faces that touch do not separate them |
| PhysicsObjects.StandingOn | src/components/physicsobject.rs:47-50 | the bottom face of the first cube is within 0.5 of the top face of the second, and the cubes intersect |
| PhysicsObjects.MinsBelowMaxs | src/components/physicsobject.rs:28-34 | with non-negative size, the minimum corner is below the maximum corner on every axis, and the cube contains its centre |
| PhysicsObjects.IntersectsIffCommonPoint | src/components/physicsobject.rs:36-45 | two cubes of non-negative size intersect exactly when their closed boxes share a point |
| PhysicsObjects.IntersectsSymmetric | src/components/physicsobject.rs:36-45 | intersection does not depend on argument order |
| PhysicsObjects.IntersectsSelf | src/components/physicsobject.rs:36-45 | a cube of non-negative size intersects itself |
| PhysicsObjects.TouchingFacesIntersect | src/components/physicsobject.rs:42-44 | for any two cubes of non-negative size whose x faces touch, they intersect exactly when they overlap on y and z; a gap along x separates them in both orders |
| PhysicsObjects.StandingOnIsContact | src/components/physicsobject.rs:47-50 | a standing on b iff they intersect and a's bottom face is within 0.5 of b's top face; it implies intersection both ways |
| PhysicsObjects.StandingOnIsDirected | src/components/physicsobject.rs:47-50 | for any cube of non-negative size resting on an intersecting one, the upper stands on the lower; the lower also stands on the upper exactly when the two heights sum to less than 0.5 |
| PhysicsObjects.NewObject | src/components/physicsobject.rs:54-62 | a new object keeps its cube, is at rest, has friction 1.02, and is neither fixed nor on the ground |
| PhysicsObjects.Fixed | src/components/physicsobject.rs:64-67 | `fixed()` sets the fixed flag and changes nothing else |
| PhysicsObjects.WithVel | src/components/physicsobject.rs:69-72 | `vel(v)` sets the velocity to v and changes nothing else |
| PhysicsObjects.BuildersCommute | src/components/physicsobject.rs:64-72 | the two builders commute, and applying either one twice is the same as applying it once |
| PhysicsObjects.SetPos | src/server.rs:116-117 | stand-in for `set_pos(p)`, whose definition is not shown: the centre of the cube becomes p, and size, facing and motion state are kept (an assumption) |
| PhysicsObjects.Pos | src/server.rs:116 | stand-in for `pos()`, whose definition is not shown: the centre of the object's cube |
| PhysicsObjects.DistanceSquared | src/client.rs:189 | the squared distance is non-negative and zero between equal points |
| Players.HurtHp | src/components/player.rs:15-17 | saturating subtraction: never above the old health, zero exactly when the damage reaches the health, otherwise the health minus the damage |
| Players.HurtTimesSaturates | src/components/player.rs:15-17 | n hits of d leave max(hp - n*d, 0) |
| Players.HurtNeverHeals | src/components/player.rs:15-21 | a hit never raises health, a non-zero hit on a live player lowers it, and a hit at least as large as the health kills |
| Players.IsDead | src/components/player.rs:19-21 | dead exactly when the health is zero |
| Players.Player.Dead | src/components/player.rs:19-21 | the object is dead exactly when its hp is zero |
| Players.Player.constructor | src/components/player.rs:9-13 | a new player has 100 hp and is not dead |
| Players.Player.Hurt | src/components/player.rs:15-17 | hp becomes the saturating difference of the old hp and the damage |
| Players.Player.ResetHp | src/components/player.rs:23-25 | hp becomes 100 whatever it was, and the player is not dead |
| Players.MergeMoves | src/server.rs:98-103 | the received directional flags replace the stored ones, and jump is the OR of the pending and the received jump |
| Players.MergeKeepsPendingJump | src/server.rs:98-103 | a pending jump survives later merges; merging is associative and merging the same state twice is the same as merging it once |
| Intervals.NextLast | src/utils/interval.rs:22-31 | a firing tick sets last to now, and any other tick leaves it unchanged |
| Intervals.Fires | src/utils/interval.rs:22 | a tick fires exactly when more than the interval has passed since last |
| Intervals.FiringDelta | src/utils/interval.rs:23-26 | the delta a firing tick records: zero if last is zero, otherwise now - last |
| Intervals.FiringAdvances | src/utils/interval.rs:22-27 | a firing tick is strictly after last; a later firing records a delta larger than the interval, so the subtraction cannot underflow; the first firing records zero |
| Intervals.FiringsAreSpaced | src/utils/interval.rs:22-31 | across any run of ticks, the first firing is more than an interval after the start and consecutive firings are more than an interval apart |
| Intervals.FiringsMatchTicks | src/utils/interval.rs:22-31 | the firings of a run are the ticks that move last: repeated NextLast ends at the latest firing, or at the start if none fired |
| Intervals.Interval.Delta | src/utils/interval.rs:34-36 | reads the recorded delta |
| Intervals.Interval.constructor | src/utils/interval.rs:10-16 | the interval is the given number of milliseconds, and last and delta are zero |
| Intervals.Interval.Tick | src/utils/interval.rs:18-32 | fires exactly when last + interval < now; on firing, last becomes now and delta is zero the first time and otherwise now - last; otherwise nothing changes |
| Shared.PhysicsStepPositive | src/shared.rs:38 | the physics step lies strictly between 0 and 1 second |
| Shared.Drain | src/server.rs:49-52 | the remainder is the input minus steps * PHYSICS_STEP and is below one step; from a non-negative input the remainder is non-negative and steps = floor(acc / PHYSICS_STEP); nothing runs below one step |
| Shared.ConvVec1 | src/shared.rs:44-46 | the conversion to the physics library's vector keeps every component |
| Shared.ConvVec2 | src/shared.rs:48-50 | the conversion back keeps every component |
| Shared.ConvRoundTrip | src/shared.rs:44-50 | the two conversions are mutually inverse |
| Shared.AssumeOne | src/shared.rs:62-72 | on a non-empty sequence, returns the first item and reports whether a second one exists; an empty one fails |
| Ecs.OnlyPhysics | src/client.rs:185 | an entity spawned from a lone rigid body holds that body and no other component |
| Ecs.ColumnMapKeys | src/server.rs:184-188 | a column read as a map has exactly the column's entities as keys |
| Ecs.World.constructor | src/shared.rs:83-88 | a new world is empty |
| Ecs.World.Spawn | src/server.rs:141-147 | spawning adds the components under a handle no live entity has, and keeps every other entity |
| Ecs.World.SpawnAt | src/client.rs:184-185 | spawning at a chosen handle adds the components under that handle |
| Ecs.World.Update | src/client.rs:199-201 | an existing entity's components are replaced, and nothing else changes |
| Ecs.World.Column | src/server.rs:184-188 | a query collects each selected entity once, and read back as a map it is exactly the selected components |
| Messages.DeltaMembership | src/server.rs:183-190 | an entity is in the delta's rigid-body column iff it has a non-fixed one, and in its player column iff it has a player, each with its current value |
| Messages.MovingPhysicsOf | src/server.rs:184-187 | the rigid body of an entity, if it has one that is not fixed |
| Messages.IsSnapshot | src/server.rs:151-155 | the snapshot holds every rigid body, each once, and no players |
| Messages.IsDelta | src/server.rs:183-188 | the delta holds every non-fixed rigid body and every player, each once |
| Server.Gib | src/server.rs:73-93 | fragment k of the spawn order: four corners from x outer and z inner, then the centre one |
| Server.GibsFlyOutward | src/server.rs:73-93 | every fragment is a free 0.5-cube thrown up at 10 with horizontal velocity pointing away from the death position, and no two fragments share a position |
| Server.WithMoveState | src/server.rs:98-104 | a player's stored moves become the merge of the received state; its health, its other components and every other entity are unchanged; an entity without a player is untouched |
| Server.WithFacing | src/server.rs:105-109 | the sender's rigid body gets the new facing and nothing else changes; an entity without a rigid body is untouched |
| Server.ShotOutcome | src/server.rs:110-126 | only an entity with a rigid body and a player is affected; a survivor loses 20 hp and keeps its position; a killed one moves to (0, 60, 0) with 100 hp, and its old position is reported |
| Server.FifthShotKills | src/server.rs:114-115 | a full-health player survives four shots with 20 hp left and dies on the fifth |
| Server.PhysObj | src/server.rs:13-15 | a new free object at rest, of the given position and size; the oriented box `Shape::Obb` of the source is stood for by the `Cube` record |
| Server.NewPlayerEntity | src/server.rs:141-147 | the connecting client's entity: a full-health player and a free 1x2x1 object at the spawn position |
| Server.DeltaCoversPlayers | src/server.rs:183-188 | when every player has a non-fixed body, every player the delta names is also in its rigid-body column, so the client's player insert cannot fail |
| Server.ShotKeepsPlayersMoving | src/server.rs:110-121 | a shot keeps every player on a non-fixed body |
| Server.GibsKeepPlayersMoving | src/server.rs:73-93 | spawning fragments keeps every player on a non-fixed body |
| Server.Register | src/server.rs:148 | after a run of connections, the registered clients are the old ones plus every client that connected |
| Server.RegisterLatest | src/server.rs:148 | a client is registered with the handle of its latest connection |
| Server.RegisterKeeps | src/server.rs:148 | a registered client that did not connect keeps its handle |
| Server.Server.constructor | src/server.rs:25-40 | fresh world, no clients, empty accumulator, and an update interval of 1000/30 ms that has never fired |
| Server.Server.GetRandomSpawn | src/server.rs:59-71 | returns the position of some point marked as a spawn, or the origin when there is none |
| Server.Server.SpawnGibs | src/server.rs:73-93 | adds exactly the five fragments, each under a new handle, and leaves every existing entity untouched |
| Server.Server.HandleMsg | src/server.rs:95-128 | the sender must be registered; the world changes exactly as `Handled` says for the message (move-state rule, facing rule, or shot outcome plus the five fragments on a kill); entities are never removed; players keep moving bodies |
| Server.Server.OnClientConnected | src/server.rs:136-158 | spawns a full-health 1x2x1 player at a spawn choice under a new handle, registers it for the client, and replies with AssignId of that handle followed by a snapshot of every rigid body |
| Server.Server.Connect | src/server.rs:134-161 | each connection event in order is one JoinStep from the world the previous one left, and the client map is the registration of all of them |
| Server.Server.Dispatch | src/server.rs:163-176 | each queued message in order changes the world as `Handled` says, from the world the previous message left |
| Server.Server.NetworkReceive | src/server.rs:130-177 | the connection phase and then the message phase, with every intermediate world recorded: each reply carries the handle spawned for its client, and each queued message is handled from the world the previous one left |
| Server.Server.NetworkSend | src/server.rs:179-196 | the delta holds every non-fixed rigid body and every player, each exactly once with its current value, and every player it names is also in its rigid-body column |
| Server.Server.Iteration | src/server.rs:36-57 | when the update interval fires, the delta just recorded (`now - last`, or zero the first time) is added to the accumulator, the network is received as NetworkReceive states, whole physics steps are drained to a remainder in [0, step), and the delta is built; otherwise nothing changes |
| Client.Reconcile | src/client.rs:187-194 | every field comes from the received object; the position moves by the smoothing step when it is within 0.5 of the received one, and otherwise snaps exactly to it |
| Client.WithinSnap | src/client.rs:189-193 | the old position is closer than 0.5 to the received one |
| Client.FarPositionsSnap | src/client.rs:189-194 | an object that is at least 0.5 away along any one axis takes the received state unchanged |
| Client.ApplyPhysicsEntry | src/client.rs:183-196 | an unknown handle is spawned with exactly the received object; a known rigid body is reconciled in place with its other components kept; a known entity without a rigid body is left alone; other entities are unchanged |
| Client.ApplyPhysicsColumn | src/client.rs:183-197 | the rigid-body column applied entry by entry, in order |
| Client.ApplyPlayerColumn | src/client.rs:199-201 | the player column applied entry by entry, in order |
| Client.ApplyColumns | src/client.rs:182-201 | an Ecs message: the rigid-body column first, then the player column |
| Client.PhysicsColumnKeys | src/client.rs:183-197 | after the rigid-body column, the world holds the old entities plus every entity the column names |
| Client.PhysicsColumnFrame | src/client.rs:183-197 | entities the column does not name are untouched |
| Client.PhysicsColumnSpawns | src/client.rs:183-186 | into a world holding none of them, in a column with distinct entities, each named entity is spawned at its own handle with exactly the received object |
| Client.PhysicsColumnReconciles | src/client.rs:187-195 | in a column with distinct entities, every known rigid body it names is reconciled against the column's object for it, and its other components are kept |
| Client.PlayerColumnSets | src/client.rs:199-201 | every named entity gets the column's player, and the key set and every other entity stay the same |
| Client.JoinMirrorsSnapshot | src/client.rs:180-201 | an empty client that applies the server's snapshot holds exactly the server's rigid bodies under the same handles |
| Client.Client.constructor | src/client.rs:22-33 | an empty world and the dangling avatar handle |
| Client.Client.HandleMsg | src/client.rs:180-211 | Ecs applies the rigid-body column, then the player column, which needs every handle to exist by then; AssignId sets the avatar handle and changes nothing else |
| Client.Client.RunPhysics | src/client.rs:116-120 | no step runs until the avatar exists; after that the accumulator drains to below one step, with floor(acc / PHYSICS_STEP) steps from a non-negative input |

## Left out

- The physics engine (`handle_physics`, src/physics.rs, the rapier pipeline) is not part of this model. `Drain` counts the steps and does not run them.
- The commented-out movement and collision step in src/shared.rs is not part of this model, and neither is jump consumption.
- `load_map` and `handle_mesh` (glTF import, level extras, trimesh building): the server model starts from an empty world. Spawn points only appear when a caller puts them there.
- Transport, renet channels, serialization and `handle_network`: events and messages are passed in as sequences. Replies are returned as values and are not sent.
- Malformed incoming payloads are logged and dropped by the source. The model receives messages that are already decoded.
- Rendering, input, the camera and the yaw/pitch trigonometry in `Client::start` are not part of this model.
- `ray_intersection` is not part of this model: it is not defined in any file the model draws on. The Shot message the client builds from it is not modelled.
- The MeshWrapper column and `to_mesh`: meshes are rendering data.
- The client's `SetRotation` message is left out because the server's `handle_msg` does not handle it.
- `set_yaw` is left out. Its effect is modelled as the facing becoming `facing(yaw)` for a parameter `facing`.
- glam's `move_towards` is left out. It is the parameter `moveTowards` of `Client.Reconcile`.
- Rounding of `f32`: all vectors and times are reals. One consequence is that `Shared.Drain` is proved to terminate after floor(acc / PHYSICS_STEP) steps only for exact reals. In `f32`, once the accumulator exceeds about 2^19 seconds, subtracting `PHYSICS_STEP` rounds back to the same value and the loop at src/server.rs:49-52 would not end. That can happen after one tick that follows a suspension of about six days. Above 2^19 s, adjacent `f32` values are 2^-4 s apart, more than twice `PHYSICS_STEP`, so `acc - PHYSICS_STEP` rounds back to `acc`.
- `Shape::Obb`, `Obb::from_pos_size`, `pos()` and `set_pos`, which src/server.rs:14 and src/server.rs:116-117 call, are not defined in src/components/physicsobject.rs. The model uses that file's `Cube` record instead. `Server.PhysObj` builds `NewObject(NewCube(pos, size))`, so a new body faces (-1, 0, 0). `PhysicsObjects.Pos` and `PhysicsObjects.SetPos` read and write only `cube.pos`, which is an assumption about the undefined methods.
- `Intervals.Interval.Tick`: does not model `u64` overflow of `last + interval`, because millisecond clock readings are far below 2^64.
- The system clock: `Tick` takes the reading `now` as a parameter.
- hecs handle generations and query iteration order: handles are `nat`, and a query visits the entities in an unspecified order.
- `Server.Server.GetRandomSpawn`: the random `choose()` is modelled as a nondeterministic pick among the collected positions. No distribution is stated.
- `Server.Server.Iteration`: returns one delta message built once, where the source builds the same delta separately for each connected client.
- `Server.Server.Connect`: each reply's snapshot is stated against the world right after that client's own connection. A client's snapshot does not include players that connect after it in the same batch, as in the source; no contract relates the replies of different clients.
- `dt_accumulator` is a local of `start` in both programs. It is a field on the server (`dtAccumulator`) and a parameter on the client (`RunPhysics`).
- Async execution is not modelled: every step is sequential.
- `Players.Player` models player.rs's health operations on the object. The world stores the same state as the `PlayerState` value, which also holds the move state that server.rs reads and writes.
- `PhysicsObjects.DistanceSquared`: states only non-negativity and zero on equal points, which is all its callers need.
