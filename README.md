# Robbo: entity factory and per-tick movement systems

This project models the core of a Robbo puzzle game written on an
entity-component-system engine:

- The entity factory (`src/entities.rs`). It has one constructor per kind of
  game object, and each one builds a bundle of components.
- Four systems that run once per tick:
  - bullets advance or explode;
  - push boxes advance or stop;
  - blaster heads burn through what they may destroy and leave a beam trail;
  - inert capsules are repaired once the player has collected enough screws.

Modules:

- `Components` (`components.dfy`): the values of the game. This covers cells,
  directions, the 32 component kinds, bundles, and the records of the deferred
  command buffer.
- `Resources` (`resources.dfy`): the resources the systems share, as classes:
  - the per-tick occupancy index (`OccupiedMap`);
  - the damage ledger (`DamageMap`);
  - the command buffer (`Commands`);
  - the sound queue (`SoundEvents`).

  The module also defines the value `Tick` that one movement pass works on.
- `World` (`world.dfy`): what applying buffered commands does to the entities
  that already exist. An entity holds at most one component of each kind, so
  `insert` replaces components of the same kind and `remove_one` drops one
  kind.
- `Entities` (`entities.dfy`): the factory.
  - Constructors written as a single bundle expression are functions.
  - `create_bird`, `create_gun`, `repair_capsule` and `gun_set_shooting_dir`
    drive the command buffer step by step. They are methods, each proved to
    append what a bundle function describes.
- `Bullets`, `PushBoxes`, `Blasters`, `ActivateCapsule`: one module per system.
  - Each movement system is a method that updates the query rows (an
    `array<Mover>`) in place, along with the index, the ledger and the buffer.
  - Its loop is proved against a recursive specification function (`…Pass`)
    built from one loop iteration (`…Step`).
  - The properties are lemmas about those functions.

## Model

| member | source | states |
|---|---|---|
| Components.IsEmpty | src/systems/push_boxes.rs:22 | a direction is empty exactly when both of its deltas are zero |
| Components.Add | src/systems/bullets.rs:24 | stepping by a direction leaves the position unchanged exactly when the direction is empty |
| Resources.Rekey | src/systems/bullets.rs:30-31 | the index after `mv(from, to)`: if `from` was indexed, its entity is now at `to`, `from` is gone and every other entry is unchanged; if `from` was not indexed, nothing changes |
| Resources.Damaged | src/systems/bullets.rs:29 | the ledger after `do_damage(p, hard)`: `p` is damaged, hard exactly when this call or an earlier one was hard; other cells are untouched |
| Resources.OccupiedMap.constructor | src/systems/bullets.rs:22 | the per-tick index starts as what `get_occupied` built |
| Resources.OccupiedMap.IsOccupied | src/systems/bullets.rs:25 | a cell is occupied exactly when the entity lookup finds an entity there |
| Resources.OccupiedMap.GetEntity | src/systems/blasters.rs:29 | returns the entity at a cell exactly when the cell is indexed |
| Resources.OccupiedMap.Mv | src/systems/bullets.rs:31 | moves the index entry as `Rekey` says |
| Resources.OccupiedMap.Remove | src/systems/blasters.rs:33 | drops the entry of one cell and nothing else |
| Resources.DamageMap.constructor | src/systems/bullets.rs:13 | the ledger starts as given |
| Resources.DamageMap.IsDamaged | src/systems/push_boxes.rs:22 | a cell is damaged exactly when recording soft damage there again leaves the ledger unchanged |
| Resources.DamageMap.DoDamage | src/systems/push_boxes.rs:27 | records damage as `Damaged` says |
| Resources.Commands.constructor | src/systems/bullets.rs:10 | the buffer starts empty |
| Resources.Commands.Spawn | src/systems/bullets.rs:28 | appends one spawn record |
| Resources.Commands.WithBundle | src/entities.rs:225-229 | adds components to the entity spawned last and leaves earlier records alone |
| Resources.Commands.With | src/systems/bullets.rs:28 | adds one component to the entity spawned last |
| Resources.Commands.Despawn | src/systems/bullets.rs:27 | appends one despawn record |
| Resources.Commands.Insert | src/entities.rs:134 | appends one insert record |
| Resources.Commands.RemoveOne | src/entities.rs:133 | appends one remove record |
| Resources.SoundEvents.constructor | src/systems/activate_capsule.rs:14 | the queue starts empty |
| Resources.SoundEvents.Send | src/systems/activate_capsule.rs:20 | appends one sound |
| World.KindsOf | src/entities.rs:134 | every component of a bundle has its kind in the result |
| World.KindsOfPair | src/entities.rs:134 | a two-component bundle has exactly the two kinds of its components |
| World.StripKeepsOtherKinds | src/entities.rs:133 | removing kinds keeps exactly the components of the other kinds |
| World.Merge | src/entities.rs:134 | after an insert an entity holds the inserted components and exactly those held components whose kind was not inserted |
| World.Apply | src/entities.rs:132-135 | one command never adds an entity, and leaves every entity it does not name unchanged |
| World.ApplyAllAppend | src/entities.rs:132-135 | applying two buffers in turn is applying their concatenation |
| Entities.Param | src/entities.rs:217-218 | a missing parameter reads as 0; a present one reads as given |
| Entities.CreateRobbo | src/entities.rs:5-11 | Robbo is destroyable, carries a burst gun and starts with a zero direction |
| Entities.BirdBundle | src/entities.rs:13-29 | a bird is destroyable, deadly and moves by index `params[0]`; it has a gun, `ShootingDir(params[1])` and `ShootingProp` exactly when `params[2] > 0`, and any gun it has is a burst gun |
| Entities.CreateBird | src/entities.rs:13-29 | spawns exactly the bird bundle, with the conditional `with` calls included |
| Entities.CreateBear | src/entities.rs:31-33 | a bear is deadly and destroyable and not black |
| Entities.CreateBlackBear | src/entities.rs:35-37 | a black bear is deadly and destroyable and black |
| Entities.CreatePushBox | src/entities.rs:39-41 | a push box is moveable and starts with a zero direction and no other |
| Entities.CreateStaticBox | src/entities.rs:43-45 | a static box is moveable and not destroyable |
| Entities.CreateWall | src/entities.rs:47-50 | wall `k < 9` is an undestroyable `Wall` whose only tile is entry `k` of the 9-entry table |
| Entities.WallTileIdentifiesVariant | src/entities.rs:47-53 | two wall variants with the same bundle are the same variant |
| Entities.CreateBullet | src/entities.rs:52-66 | a bullet is undestroyable, moves by `(kx, ky)`, and shows the horizontal tiles exactly when `ky == 0` and the vertical ones otherwise |
| Entities.CreateLaserHead | src/entities.rs:68-80 | a laser head remembers the gun cell, is not moving back, moves by `(kx, ky)` and chooses its tiles by `ky == 0` as bullets do |
| Entities.CreateBlasterHead | src/entities.rs:82-90 | a blaster head is undestroyable and never destroyable, and moves by `(kx, ky)` |
| Entities.CreateLaserTail | src/entities.rs:92-102 | a laser tail shows the horizontal tiles exactly when the direction's vertical component is 0 |
| Entities.CreateBlasterTail | src/entities.rs:104-110 | the blaster trail is an undestroyable animation with no event |
| Entities.CreateScrew | src/entities.rs:112-114 | a screw is a collectable that is not destroyable |
| Entities.CreateAmmo | src/entities.rs:116-118 | ammo is a destroyable collectable |
| Entities.CreateKey | src/entities.rs:120-122 | a key is a collectable that is not destroyable |
| Entities.CreateGround | src/entities.rs:124-126 | ground is destroyable |
| Entities.CreateCapsule | src/entities.rs:128-130 | a capsule is created inert: moveable and without `Usable` |
| Entities.RepairCapsuleCommands | src/entities.rs:132-135 | a repair first removes `Moveable` from the entity, then inserts `Usable::Capsule` with tiles `[17,17,18,18]` only |
| Entities.RepairCapsule | src/entities.rs:132-135 | appends exactly the two repair commands |
| Entities.RepairedCapsule | src/entities.rs:128-135 | a freshly created capsule, once repaired, holds exactly `Capsule`, `Usable::Capsule` and the charged tiles |
| Entities.CreateBomb | src/entities.rs:137-139 | a bomb is unarmed, moveable and destroyable |
| Entities.CreateExplosion | src/entities.rs:141-147 | an explosion is an undestroyable animation with no event |
| Entities.SpawnRobboAnimation | src/entities.rs:149-157 | the animation sits at `pos` and its event spawns Robbo at that same `pos` |
| Entities.PreSpawnRobboAnimation | src/entities.rs:159-167 | the animation sits at `pos` and its event names that same `pos` |
| Entities.FlyAway | src/entities.rs:169-177 | the animation sits at `pos` and its event reloads level 1 |
| Entities.SpawnRandomAnimation | src/entities.rs:179-187 | the animation sits at `pos` and its event names that same `pos` |
| Entities.CreateSmallExplosion | src/entities.rs:189-191 | a small explosion is an undestroyable animation with no event and no position of its own |
| Entities.CreateQuestionmark | src/entities.rs:193-195 | a question mark is moveable and destroyable |
| Entities.CreateDoor | src/entities.rs:197-199 | a door is usable as a door and not destroyable |
| Entities.CreateTeleport | src/entities.rs:201-207 | a teleport keeps `params[0]` and `params[1]` in order and is usable as a teleport |
| Entities.CreateEyes | src/entities.rs:208-210 | eyes are deadly and destroyable |
| Entities.GunType | src/entities.rs:219-223 | code 1 is `Solid`, code 2 is `Blaster`, and every other code is `Burst` (both directions) |
| Entities.GunTraits | src/entities.rs:224-237 | the parts of a gun that do not depend on its facing carry no tile, no shooting direction and neither destroyability tag |
| Entities.GunBundle | src/entities.rs:214-239 | a gun is neither destroyable nor undestroyable |
| Entities.GunHeadDecoded | src/entities.rs:224-229 | the gun's only tile is `GUN_TILES[params[0]]`, it shoots toward `params[0]`, and its one gun component has the type decoded from `params[2]` |
| Entities.GunMovementDecoded | src/entities.rs:230-232 | `Moveable`, `MovingBetweenWalls` and the direction of index `params[1]` are present exactly when `params[3] > 0` |
| Entities.GunRotationDecoded | src/entities.rs:217-237 | random rotation is present exactly when `params[5] > 0`; regular rotation exactly when `params[5]` is 0 and `params[4] > 0`; no rotation exactly when both are 0; missing values count as 0 |
| Entities.CreateGun | src/entities.rs:214-239 | the step-by-step spawn and `with` calls build exactly the gun bundle |
| Entities.CreateQuestionmarkGun | src/entities.rs:241-243 | spawns the gun of parameters `[0,0,0,0,0,1]` |
| Entities.QuestionmarkGunIsRandomBurst | src/entities.rs:241-243 | that gun is a fixed burst gun that rotates randomly and shows tile 56 |
| Entities.ShootingDirBundle | src/entities.rs:245-255 | turning a gun installs the shooting direction `index` and the single tile `GUN_TILES[index]` |
| Entities.GunSetShootingDir | src/entities.rs:245-255 | appends one insert of that bundle for the entity |
| Entities.TurnedGunLooksCreated | src/entities.rs:245-255 | a gun turned to `index` holds the same components as a gun created facing `index` with the same other parameters |
| Entities.TurnedGunMember | src/entities.rs:245-255 | for each component, the turned gun holds it exactly when the gun created facing `index` does |
| Entities.TileAndDirectionReplaced | src/entities.rs:245-255 | inserting a tile sequence and a shooting direction into a bundle that holds one of each and other kinds besides replaces those two and keeps the rest |
| Entities.CreateHorizontalLaser | src/entities.rs:257-262 | the only tile sequence is `[53, 55]` |
| Entities.CreateVerticalLaser | src/entities.rs:263-268 | the only tile sequence is `[54, 56]` |
| Entities.CreateMagnet | src/entities.rs:270-278 | magnet `index < 4` is deadly, keeps its orientation and shows only entry `index` of the magnet table |
| Entities.CreateForcefield | src/entities.rs:280-287 | a force field is destroyable and moves by index `index` |
| Entities.NoConstructorIsBothDestroyableAndUndestroyable | src/entities.rs:5-287 | no constructor without parameters gives a bundle with both `Destroyable` and `Undestroyable` |
| Entities.NoParameterisedConstructorIsBothDestroyableAndUndestroyable | src/entities.rs:5-287 | no parameterised constructor, for any parameters, gives a bundle with both `Destroyable` and `Undestroyable` |
| Bullets.ExplosionAt | src/systems/bullets.rs:28 | the explosion command spawns an undestroyable entity whose only position is the given cell |
| Bullets.BulletStep | src/systems/bullets.rs:23-34 | one iteration touches only its own row, and keeps that row's entity |
| Bullets.BulletPass | src/systems/bullets.rs:23-34 | the loop keeps the number of rows and their entities; rows not yet reached are unchanged; commands are only appended |
| Bullets.MoveBullet | src/systems/bullets.rs:9-35 | off a keyframe, rows, ledger and buffer are unchanged; on a keyframe they become the full pass over the rows, in query order, with the index starting as `get_occupied` built it |
| Bullets.MoveOneBullet | src/systems/bullets.rs:24-33 | one iteration of the loop does what `BulletStep` says |
| Bullets.BulletStepOutcome | src/systems/bullets.rs:24-33 | if the target is indexed, the bullet stays in place with a zero direction, is despawned, one small explosion is spawned at its pre-move cell, and soft damage is recorded at the target only; otherwise it moves by exactly its direction, keeps the direction, and its index entry moves with it: the index is re-keyed from the pre-move cell to the target, so the pre-move cell is vacated and every other entry is kept |
| Bullets.BulletStepKeepsIndex | src/systems/bullets.rs:30-31 | one iteration keeps the index agreeing with the bullets' cells |
| Bullets.BulletPassKeepsIndex | src/systems/bullets.rs:22-34 | the whole pass keeps the index agreeing with the bullets' cells |
| Bullets.BulletPassOutcome | src/systems/bullets.rs:24-33 | after the pass, each processed bullet either advanced by exactly its direction, or stayed put with a zero direction, and then its despawn and an explosion at its pre-move cell were issued |
| Bullets.HitIsIssued | src/systems/bullets.rs:25-29 | a bullet that hits has its despawn and an explosion at its pre-move cell among the commands issued by the end of the pass |
| Bullets.RowSettles | src/systems/bullets.rs:23-34 | once its own iteration is over, a bullet's row does not change again in the pass |
| Bullets.LogGrows | src/systems/bullets.rs:27-28 | the command buffer only grows along the pass |
| Bullets.BulletPassDamagesSoftly | src/systems/bullets.rs:29 | a pass never records hard damage and never changes a flag already in the ledger |
| Bullets.MovedBulletKeepsCell | src/systems/bullets.rs:22-33 | a cell a bullet moved into stays indexed to that bullet for the rest of the pass |
| Bullets.CommittedMoveBlocksLaterBullet | src/systems/bullets.rs:22-33 | a later bullet aimed at a cell an earlier bullet moved into in the same pass collides |
| PushBoxes.PushStep | src/systems/push_boxes.rs:21-33 | one iteration touches only its own row, never issues a command, and never removes a damaged cell |
| PushBoxes.PushPass | src/systems/push_boxes.rs:21-33 | the loop keeps the rows' number and entities, leaves rows not yet reached unchanged, issues no command and only adds damaged cells |
| PushBoxes.MovePushBox | src/systems/push_boxes.rs:8-34 | off a keyframe nothing changes; on a keyframe the boxes and ledger become the full pass; the system has no command buffer |
| PushBoxes.MoveOneBox | src/systems/push_boxes.rs:22-32 | one iteration of the loop does what `PushStep` says |
| PushBoxes.PushStepOutcome | src/systems/push_boxes.rs:22-32 | a box on a damaged cell or with an empty direction changes nothing; a blocked box keeps its cell, gets a zero direction and records soft damage at the target only; a free box moves by exactly its direction, keeps it, and its index entry is re-keyed |
| PushBoxes.BlockedBoxIsFixedPoint | src/systems/push_boxes.rs:22-28 | after a box is blocked, running its iteration again changes nothing |
| PushBoxes.PushStepKeepsIndex | src/systems/push_boxes.rs:30-31 | one iteration keeps the index agreeing with the boxes' cells |
| PushBoxes.PushPassKeepsIndex | src/systems/push_boxes.rs:20-33 | the whole pass keeps the index agreeing with the boxes' cells |
| PushBoxes.PushPassOutcome | src/systems/push_boxes.rs:22-32 | after the pass, each processed box is unchanged, or stopped in place with a zero direction and a damaged target, or moved by exactly its direction |
| PushBoxes.BlockerIsFrozen | src/systems/push_boxes.rs:22-27 | a box that blocked an earlier box in the same pass stands on a damaged cell and so does not move in that pass |
| PushBoxes.PassDamageGrows | src/systems/push_boxes.rs:27 | the set of damaged cells only grows along the pass |
| Blasters.TailAt | src/systems/blasters.rs:44 | the tail command spawns an undestroyable blaster tail, recognised as a tail at exactly the given cell |
| Blasters.CanStep | src/systems/blasters.rs:29-37 | the lookup of the head's own cell can fail only on the blocked branch, and succeeds there when the cell is indexed |
| Blasters.PassCanStep | src/systems/blasters.rs:23-37 | the own-cell lookup succeeds in each of the first `n` iterations, each taken on the state the earlier ones left |
| Blasters.BlasterStep | src/systems/blasters.rs:23-45 | one iteration touches only its own row, leaves the ledger alone and only appends commands |
| Blasters.BlasterPass | src/systems/blasters.rs:23-45 | the loop keeps the rows' number and entities, leaves rows not yet reached unchanged, and only appends commands |
| Blasters.MoveBlasterHead | src/systems/blasters.rs:8-46 | off a keyframe nothing changes; on a keyframe, provided the head-cell lookup never fails, the heads and buffer become the full pass |
| Blasters.MoveOneHead | src/systems/blasters.rs:24-44 | one iteration of the loop does what `BlasterStep` says |
| Blasters.PassCanStepPrefix | src/systems/blasters.rs:37 | if the lookup never fails in a pass, it never fails in any prefix of it |
| Blasters.BlasterStepOutcome | src/systems/blasters.rs:24-44 | the wall check comes first and despawns the head even when the target is also indexed; a destroyable occupant is despawned, its entry removed, and the head's entry and position move to the target; any other occupant despawns the entity indexed at the head's cell; a free target lets the head and its entry advance; every branch spawns one tail at the pre-move cell |
| Blasters.BlockedHeadDespawnsItself | src/systems/blasters.rs:36-39 | when the index agrees with the heads, a blocked head despawns itself |
| Blasters.BlasterStepKeepsIndex | src/systems/blasters.rs:26-43 | with an agreeing index and no destroyable head, the lookup succeeds and the index still agrees afterwards |
| Blasters.BlasterPassUnderAgreement | src/systems/blasters.rs:21-45 | starting from an agreeing index with no destroyable head, the whole pass never fails its lookup and keeps the index agreeing |
| Blasters.Tails | src/systems/blasters.rs:44 | reads out the cells of the tail spawns in a buffer, never more than its commands |
| Blasters.TailsAppend | src/systems/blasters.rs:44 | the tails of a concatenated buffer are the tails of each part, in order |
| Blasters.Cells | src/systems/blasters.rs:25 | lists the rows' cells in order |
| Blasters.BlasterStepTails | src/systems/blasters.rs:25-44 | each iteration spawns exactly one tail, at the head's pre-move cell, whichever branch it takes |
| Blasters.BlasterPassTails | src/systems/blasters.rs:23-45 | the pass spawns exactly one tail per processed head, at its pre-move cell, in query order |
| ActivateCapsule.Repairs | src/systems/activate_capsule.rs:17-21 | repairing `n` capsules issues `2n` commands |
| ActivateCapsule.ActivateCapsules | src/systems/activate_capsule.rs:10-23 | with enough screws, every visited capsule gets its repair commands in query order, with one bomb sound each; with too few, no command and no sound |
| ActivateCapsule.RepairOne | src/entities.rs:132-135 | applying one repair changes only the repaired capsule |
| ActivateCapsule.RepairedMembers | src/entities.rs:132-135 | a repaired capsule holds `Usable::Capsule`, the charged tiles, and exactly those earlier components that are not `Moveable`, `Usable` or tiles |
| ActivateCapsule.RepairedCapsuleStaysCapsule | src/entities.rs:132-135 | a repaired capsule is usable, no longer moveable, and still a capsule |
| ActivateCapsule.RepairsActivate | src/systems/activate_capsule.rs:17-21 | applying an activation's commands fixes and enables every visited capsule and leaves every other entity as it was |
| ActivateCapsule.ActivationIsOneShot | src/systems/activate_capsule.rs:15-21 | once applied, no visited capsule matches the "capsule without `Usable`" query again, and no other entity changes whether it matches |

## Left out

- Engine wiring: the command-line options, window, plugins, stages, rendering and the frame limiter. The board-size constants are not used either, because no modelled operation checks bounds.
- Scheduling and queries: the systems run one at a time.
  - A query's rows are an array the method receives.
  - `Without<Wall>` is represented by the occupancy index the method is given.
  - `Without<Usable>` is represented by the capsule list the capsule system is given.
  - The keyframe gate is a boolean parameter.
- Tile animation playback and audio playback. Tiles stay as data in bundles, and a sound is only an appended event.
- Collaborators whose bodies are not part of this model: `FrameCnt`, `LevelInfo`, the occupancy map, `DamageMap` and `MovingDir`. They appear only with the behaviour the systems rely on.
  - `mv` re-keys an indexed cell and does nothing for an unindexed one.
  - `is_damaged` means the cell is in the ledger.
  - `do_damage` is assumed to keep a hard flag once recorded; its body is not part of this model, and the modelled systems only ever record soft damage.
  - `LevelInfo::is_occupied` is the set `walls` of cells the level geometry occupies.
  - "has `Destroyable`" is the set `destroyable` of entities.
- `MovingDir::by_index`: the direction ordering of the 4-way index is not part of this model, so such a direction stays the symbolic `ByIndex(i)`.
- `Magnet::by_index`: likewise, `CreateMagnet` keeps the raw index in `Magnet(index)` rather than decoding it to a direction.
- Integer widths: cells and directions are unbounded `int` and parameters unbounded `nat`, where the source uses `i32` and `usize`. No wrap-around is modelled; the moves are single steps between cells of a bounded board.
- `ShootingDir` is kept as its 4-way index, so `ShootingDir::by_index` and `to_index` are taken to be inverse to each other.
- The `ShootingProp(1.0)` float payload. `ShootingProp` carries no value here.
- The identities of spawned entities. `Spawned` records the bundle, and `World.Apply` leaves the existing entities alone for it. Lemmas about applying commands therefore speak only of entities that already exist.
- Gun firing, gun rotation, laser bounce-back and avatar movement. Their system bodies are not part of this model.
- Entities.CreateHorizontalLaser, Entities.CreateVerticalLaser: their unused parameters are dropped, because the source bundle does not read them.
- Entities.CreateBird, Entities.CreateGun, Entities.CreateTeleport, Entities.CreateWall, Entities.CreateMagnet: the source indexes its parameter slice or table directly and aborts when the index is out of range. These members require the index to be in range instead of modelling the abort.
- Blasters.MoveBlasterHead: the `unwrap` on the head's own cell aborts the system when that cell is not indexed. The model requires the lookup never to fail (`PassCanStep`) instead of modelling the abort. `BlasterPassUnderAgreement` shows this holds when the index agrees with the heads and no head is destroyable, as `create_blaster_head` makes them.
- PushBoxes.MovePushBox: the rows carry each box's entity even though the source query does not read it. It is used only to state the index lemmas.
