/** The entity factory: the component bundle of every entity kind, built from
    small tile tables and positional parameter arrays. Constructors that the
    source writes as one bundle expression are functions returning the bundle;
    the ones that drive the command buffer step by step (`create_bird`,
    `create_gun`, `repair_capsule`, `gun_set_shooting_dir`) are methods on
    `Commands`, each proved to append what a bundle function describes. */
module Entities {
  import opened Components
  import opened Resources
  import opened World

  const WallTiles: seq<nat> := [2, 29, 19, 3, 21, 68, 69, 10, 22]
  const BulletHTiles: seq<nat> := [36, 36, 36, 36, 37, 37, 37, 37]
  const BulletVTiles: seq<nat> := [38, 38, 38, 38, 39, 39, 39, 39]
  const GunTiles: seq<nat> := [56, 53, 54, 55]
  const MagnetTiles: seq<nat> := [73, 0, 72, 1]

  /** `*params.get(i).unwrap_or(&0)`: a missing parameter reads as 0. */
  function Param(params: seq<nat>, i: nat): (v: nat)
    ensures i >= |params| ==> v == 0
    ensures i < |params| ==> v == params[i]
  {
    if i < |params| then params[i] else 0
  }

  function CreateRobbo(): (r: Bundle)
    ensures Exclusive(r) && Destroyable in r && Gun(Burst) in r
    ensures MovingDir(Delta(Zero)) in r
  {
    [Robbo, MovingDir(Delta(Zero)), Tiles([60])] + [Destroyable] + [Gun(Burst)] + [ShootingProp]
  }

  /** The bundle `create_bird` spawns: a destroyable deadly bird that moves
      between walls, armed with a burst gun exactly when `params[2] > 0`. */
  function BirdBundle(params: seq<nat>): (r: Bundle)
    requires |params| >= 3
    ensures Exclusive(r) && Destroyable in r && Deadly in r
    ensures MovingDir(ByIndex(params[0])) in r
    ensures HasGun(r) <==> params[2] > 0
    ensures ShootingDir(params[1]) in r <==> params[2] > 0
    ensures ShootingProp in r <==> params[2] > 0
    ensures forall c | c in r && c.Gun? :: c.gun == Burst
  {
    var r := [Bird, MovingBetweenWalls, Deadly, Destroyable, MovingDir(ByIndex(params[0])), Tiles([15, 16])]
      + (if params[2] > 0 then [ShootingDir(params[1]), ShootingProp, Gun(Burst)] else []);
    assert params[2] > 0 ==> r[8] == Gun(Burst);
    r
  }

  method CreateBird(commands: Commands, params: seq<nat>)
    requires |params| >= 3
    modifies commands
    ensures commands.log == old(commands.log) + [Spawned(BirdBundle(params))]
  {
    ghost var start := commands.log;
    var base := [Bird, MovingBetweenWalls, Deadly, Destroyable, MovingDir(ByIndex(params[0])), Tiles([15, 16])];
    commands.Spawn(base);
    if params[2] > 0 {
      commands.With(ShootingDir(params[1]));
      assert commands.log == start + [Spawned(base + [ShootingDir(params[1])])];
      commands.With(ShootingProp);
      assert commands.log == start + [Spawned(base + [ShootingDir(params[1])] + [ShootingProp])];
      commands.With(Gun(Burst));
      assert commands.log == start + [Spawned(base + [ShootingDir(params[1])] + [ShootingProp] + [Gun(Burst)])];
      assert base + [ShootingDir(params[1])] + [ShootingProp] + [Gun(Burst)]
        == base + [ShootingDir(params[1]), ShootingProp, Gun(Burst)];
    } else {
      assert base + [] == base;
    }
  }

  function CreateBear(): (r: Bundle)
    ensures Exclusive(r) && Destroyable in r && Deadly in r && Bear(false) in r
  {
    [Bear(false), Deadly, Destroyable, Tiles([13, 14])]
  }

  function CreateBlackBear(): (r: Bundle)
    ensures Exclusive(r) && Destroyable in r && Deadly in r && Bear(true) in r
  {
    [Bear(true), Deadly, Destroyable, Tiles([30, 31])]
  }

  /** A push box starts at rest: only an outside pusher gives it a direction. */
  function CreatePushBox(): (r: Bundle)
    ensures Exclusive(r) && PushBox in r && Moveable in r
    ensures MovingDir(Delta(Zero)) in r && forall c | c in r && c.MovingDir? :: c.dir == Delta(Zero)
  {
    [PushBox, Moveable, MovingDir(Delta(Zero)), Tiles([6])]
  }

  function CreateStaticBox(): (r: Bundle)
    ensures Exclusive(r) && Moveable in r && Destroyable !in r
  {
    [Moveable, Tiles([20])]
  }

  /** Wall variant `k` of the nine: an undestroyable wall showing tile `k` of the table. */
  function CreateWall(k: nat): (r: Bundle)
    requires k < |WallTiles|
    ensures Wall in r && Undestroyable in r && Exclusive(r)
    ensures HasOnlyTiles(r, [WallTiles[k]])
  {
    [Undestroyable, Wall, Tiles([WallTiles[k]])]
  }

  /** Distinct wall variants look different: the tile identifies the variant. */
  lemma {:induction false} WallTileIdentifiesVariant(k1: nat, k2: nat)
    requires k1 < |WallTiles| && k2 < |WallTiles|
    ensures CreateWall(k1) == CreateWall(k2) ==> k1 == k2
  {
    if CreateWall(k1) == CreateWall(k2) {
      assert CreateWall(k1)[2] == Tiles([WallTiles[k1]]);
      assert WallTiles[k1] == WallTiles[k2];
    }
  }

  /** The horizontal tile sequence when the vertical component is 0, else the vertical one. */
  function BulletTiles(ky: int): seq<nat>
  {
    if ky == 0 then BulletHTiles else BulletVTiles
  }

  function CreateBullet(kx: int, ky: int): (r: Bundle)
    ensures Bullet in r && Undestroyable in r && Exclusive(r)
    ensures MovingDir(Delta(Dir(kx, ky))) in r
    ensures HasOnlyTiles(r, BulletHTiles) <==> ky == 0
    ensures HasOnlyTiles(r, BulletVTiles) <==> ky != 0
  {
    [Bullet, Undestroyable, MovingDir(Delta(Dir(kx, ky))), Tiles(BulletTiles(ky))]
  }

  function CreateLaserHead(pos: Pos, kx: int, ky: int): (r: Bundle)
    ensures LaserHead(pos, false) in r && Undestroyable in r && Exclusive(r)
    ensures MovingDir(Delta(Dir(kx, ky))) in r
    ensures HasOnlyTiles(r, BulletHTiles) <==> ky == 0
    ensures HasOnlyTiles(r, BulletVTiles) <==> ky != 0
  {
    [LaserHead(pos, false), RoughUpdate, Undestroyable, MovingDir(Delta(Dir(kx, ky))), Tiles(BulletTiles(ky))]
  }

  /** A blaster head cannot be consumed by another head: it is never `Destroyable`. */
  function CreateBlasterHead(kx: int, ky: int): (r: Bundle)
    ensures BlasterHead in r && Undestroyable in r && Destroyable !in r
    ensures MovingDir(Delta(Dir(kx, ky))) in r
  {
    [BlasterHead, Undestroyable, RoughUpdate, MovingDir(Delta(Dir(kx, ky))), Tiles([84])]
  }

  function CreateLaserTail(dir: Dir): (r: Bundle)
    ensures LaserTail in r && Undestroyable in r && Exclusive(r)
    ensures HasOnlyTiles(r, BulletHTiles) <==> dir.dy == 0
    ensures HasOnlyTiles(r, BulletVTiles) <==> dir.dy != 0
  {
    [LaserTail, Undestroyable, Tiles(BulletTiles(dir.dy))]
  }

  /** The beam trail a blaster head leaves: a one-shot animation with no event. */
  function CreateBlasterTail(): (r: Bundle)
    ensures Animation(None) in r && Undestroyable in r && Exclusive(r)
  {
    [Animation(None), Undestroyable, Tiles([85, 86, 86, 86, 85, 84])]
  }

  function CreateScrew(): (r: Bundle)
    ensures Collectable(Screw) in r && Exclusive(r) && Destroyable !in r
  {
    [Collectable(Screw), Tiles([4])]
  }

  function CreateAmmo(): (r: Bundle)
    ensures Collectable(Ammo) in r && Exclusive(r) && Destroyable in r
  {
    [Collectable(Ammo), Destroyable, Tiles([5])]
  }

  function CreateKey(): (r: Bundle)
    ensures Collectable(Key) in r && Exclusive(r) && Destroyable !in r
  {
    [Collectable(Key), Tiles([7])]
  }

  function CreateGround(): (r: Bundle)
    ensures Exclusive(r) && Destroyable in r
  {
    [Destroyable, Tiles([77])]
  }

  /** A capsule is created inert: movable and without `Usable`. */
  function CreateCapsule(): (r: Bundle)
    ensures Capsule in r && Moveable in r && !HasUsable(r) && Exclusive(r)
  {
    [Capsule, Moveable, Tiles([17])]
  }

  /** The two commands of `repair_capsule`: drop `Moveable`, then insert
      `Usable::Capsule` together with the charged tile sequence. */
  function RepairCapsuleCommands(e: EntityId): (r: seq<Command>)
    ensures |r| == 2 && r[0] == Removed(e, Moveable)
    ensures r[1].Inserted? && r[1].entity == e
    ensures Usable(UsableCapsule) in r[1].bundle && HasOnlyTiles(r[1].bundle, [17, 17, 18, 18])
  {
    [Removed(e, Moveable), Inserted(e, [Usable(UsableCapsule), Tiles([17, 17, 18, 18])])]
  }

  method RepairCapsule(commands: Commands, e: EntityId)
    modifies commands
    ensures commands.log == old(commands.log) + RepairCapsuleCommands(e)
  {
    commands.RemoveOne(e, Moveable);
    commands.Insert(e, [Usable(UsableCapsule), Tiles([17, 17, 18, 18])]);
  }

  /** Repairing a freshly created capsule leaves a fixed, usable capsule
      showing the charged animation. */
  lemma RepairedCapsule(e: EntityId)
    ensures var w := ApplyAll(map[e := CreateCapsule()], RepairCapsuleCommands(e));
      e in w && w[e] == [Capsule, Usable(UsableCapsule), Tiles([17, 17, 18, 18])]
  {
    var charged := [Usable(UsableCapsule), Tiles([17, 17, 18, 18])];
    var w0 := map[e := CreateCapsule()];
    var w1 := Apply(w0, Removed(e, Moveable));
    var w2 := Apply(w1, Inserted(e, charged));
    CapsuleLosesMoveable();
    assert w1[e] == [Capsule, Tiles([17])];
    ChargedReplacesTiles();
    assert w2[e] == [Capsule] + charged;
    var cs := RepairCapsuleCommands(e);
    assert cs[1..] == [Inserted(e, charged)] && cs[1..][1..] == [];
    assert ApplyAll(w0, cs) == ApplyAll(w1, cs[1..]);
    assert ApplyAll(w1, cs[1..]) == ApplyAll(w2, []);
  }

  /** Removing `Moveable` from a fresh capsule keeps its type and tile. */
  lemma CapsuleLosesMoveable()
    ensures Strip(CreateCapsule(), {Kind(Moveable)}) == [Capsule, Tiles([17])]
  {
    var moveable := {Kind(Moveable)};
    assert moveable == {24};
    assert Strip([Tiles([17])], {24}) == [Tiles([17])] by {
      assert [Tiles([17])][1..] == [];
    }
    assert Strip([Moveable, Tiles([17])], {24}) == [Tiles([17])] by {
      assert [Moveable, Tiles([17])][1..] == [Tiles([17])];
    }
    assert CreateCapsule()[1..] == [Moveable, Tiles([17])];
  }

  /** The charged bundle replaces the tile sequence of a fixed capsule. */
  lemma ChargedReplacesTiles()
    ensures Strip([Capsule, Tiles([17])], KindsOf([Usable(UsableCapsule), Tiles([17, 17, 18, 18])])) == [Capsule]
  {
    KindsOfPair(Usable(UsableCapsule), Tiles([17, 17, 18, 18]));
    assert KindsOf([Usable(UsableCapsule), Tiles([17, 17, 18, 18])]) == {16, 29};
    assert Strip([Tiles([17])], {16, 29}) == [] by {
      assert [Tiles([17])][1..] == [];
    }
    assert [Capsule, Tiles([17])][1..] == [Tiles([17])];
  }

  function CreateBomb(): (r: Bundle)
    ensures Bomb(false) in r && Moveable in r && Destroyable in r && Exclusive(r)
  {
    [Bomb(false), Moveable, Destroyable, Tiles([8])]
  }

  function CreateExplosion(): (r: Bundle)
    ensures Animation(None) in r && Undestroyable in r && Exclusive(r)
  {
    [Animation(None), Undestroyable, Tiles([84, 85, 86, 85, 84])]
  }

  /** An animation placed at `pos` that announces `event` when it completes. */
  predicate AnnouncesAt(b: Bundle, event: GameEvent, pos: Pos)
  {
    && Position(pos) in b && Animation(Some(event)) in b
    && (forall c | c in b && c.Position? :: c.pos == pos)
    && (forall c | c in b && c.Animation? :: c.event == Some(event))
  }

  /** `spawn_robbo`: the animation sits at the very cell its event will spawn Robbo at. */
  function SpawnRobboAnimation(pos: Pos): (r: Bundle)
    ensures AnnouncesAt(r, SpawnRobbo(pos), pos) && Exclusive(r)
  {
    [Animation(Some(SpawnRobbo(pos))), Undestroyable, Tiles([84, 85, 86])] + [Position(pos)]
  }

  function PreSpawnRobboAnimation(pos: Pos): (r: Bundle)
    ensures AnnouncesAt(r, PreSpawnRobbo(pos), pos) && Exclusive(r)
  {
    [Animation(Some(PreSpawnRobbo(pos))), Undestroyable, Tiles([17, 18, 17, 18, 17, 18])] + [Position(pos)]
  }

  /** `fly_away`: an animation at `pos` that announces `ReloadLevel(1)`. */
  function FlyAway(pos: Pos): (r: Bundle)
    ensures AnnouncesAt(r, ReloadLevel(1), pos) && Exclusive(r)
  {
    [Animation(Some(ReloadLevel(1))), Undestroyable, Tiles([17, 18, 17, 18, 17, 18, 17, 18])] + [Position(pos)]
  }

  function SpawnRandomAnimation(pos: Pos): (r: Bundle)
    ensures AnnouncesAt(r, SpawnRandom(pos), pos) && Exclusive(r)
  {
    [Animation(Some(SpawnRandom(pos))), Undestroyable, Tiles([84, 85, 86])] + [Position(pos)]
  }

  /** The explosion a bullet leaves behind: a short animation with no event. */
  function CreateSmallExplosion(): (r: Bundle)
    ensures Animation(None) in r && Undestroyable in r && Exclusive(r)
    ensures forall c | c in r :: !c.Position?
  {
    [Animation(None), Undestroyable, Tiles([85, 84])]
  }

  function CreateQuestionmark(): (r: Bundle)
    ensures QuestionMark in r && Moveable in r && Destroyable in r && Exclusive(r)
  {
    [Destroyable, QuestionMark, Moveable, Tiles([12])]
  }

  function CreateDoor(): (r: Bundle)
    ensures Usable(UsableDoor) in r && Exclusive(r) && Destroyable !in r
  {
    [Usable(UsableDoor), Tiles([9])]
  }

  /** A teleport keeps its two target parameters in order. */
  function CreateTeleport(params: seq<nat>): (r: Bundle)
    requires |params| >= 2
    ensures Teleport(params[0], params[1]) in r && Usable(UsableTeleport) in r && Exclusive(r)
  {
    [Teleport(params[0], params[1]), Usable(UsableTeleport), Tiles([48, 49])]
  }

  function CreateEyes(): (r: Bundle)
    ensures Eyes in r && Deadly in r && Destroyable in r && Exclusive(r)
  {
    [Eyes, Deadly, Destroyable, Tiles([32, 33])]
  }

  /** The gun-type code of `params[2]`: 1 is `Solid`, 2 is `Blaster`, anything else `Burst`. */
  function GunType(code: nat): (k: GunKind)
    ensures k == Solid <==> code == 1
    ensures k == Blaster <==> code == 2
    ensures k == Burst <==> code != 1 && code != 2
  {
    match code
    case 1 => Solid
    case 2 => Blaster
    case _ => Burst
  }

  /** The movement `create_gun` adds when `params[3] > 0`. */
  function GunMovement(params: seq<nat>): seq<Component>
    requires |params| >= 4
  {
    if params[3] > 0 then [Moveable, MovingBetweenWalls, MovingDir(ByIndex(params[1]))] else []
  }

  /** The rotation `create_gun` adds: random rotation wins over regular, and
      none is added when both flags are 0. */
  function GunRotation(params: seq<nat>): seq<Component>
  {
    if Param(params, 5) > 0 then [Rotatable(Random)]
    else if Param(params, 4) > 0 then [Rotatable(Regular)]
    else []
  }

  /** The components of a gun that do not depend on which way it faces. */
  function GunTraits(params: seq<nat>): (r: seq<Component>)
    requires |params| >= 4
    ensures forall c | c in r :: !c.Tiles? && !c.ShootingDir? && c != Destroyable && c != Undestroyable
  {
    [ShootingProp, Gun(GunType(params[2]))] + GunMovement(params) + GunRotation(params)
  }

  /** The bundle `create_gun` spawns from `[index, move dir, gun type, moveable, rotatable?, random?]`. */
  function GunBundle(params: seq<nat>): (r: Bundle)
    requires |params| >= 4 && params[0] < |GunTiles|
    ensures Exclusive(r) && Destroyable !in r && Undestroyable !in r
  {
    var index := params[0];
    [Tiles(GunTiles[index..index + 1]), ShootingDir(index)] + GunTraits(params)
  }

  /** The tile of a gun is entry `params[0]` of the gun table, its shooting
      direction is that index, and its type is decoded from `params[2]`. */
  lemma {:induction false} GunHeadDecoded(params: seq<nat>)
    requires |params| >= 4 && params[0] < |GunTiles|
    ensures var r := GunBundle(params);
      && HasOnlyTiles(r, [GunTiles[params[0]]])
      && ShootingDir(params[0]) in r && ShootingProp in r
      && Gun(GunType(params[2])) in r && (forall c | c in r && c.Gun? :: c.gun == GunType(params[2]))
  {
    var r := GunBundle(params);
    var index := params[0];
    assert GunTiles[index..index + 1] == [GunTiles[index]];
    var rest := GunMovement(params) + GunRotation(params);
    assert r == [Tiles([GunTiles[index]]), ShootingDir(index), ShootingProp, Gun(GunType(params[2]))] + rest;
    assert forall c | c in rest :: !c.Tiles? && !c.Gun?;
  }

  /** `Moveable`, `MovingBetweenWalls` and the `MovingDir` of index
      `params[1]` are added exactly when `params[3] > 0`. */
  lemma {:induction false} GunMovementDecoded(params: seq<nat>)
    requires |params| >= 4 && params[0] < |GunTiles|
    ensures var r := GunBundle(params);
      && (Moveable in r <==> params[3] > 0)
      && (MovingBetweenWalls in r <==> params[3] > 0)
      && (MovingDir(ByIndex(params[1])) in r <==> params[3] > 0)
  {
    var r := GunBundle(params);
    var index := params[0];
    var head := [Tiles(GunTiles[index..index + 1]), ShootingDir(index), ShootingProp, Gun(GunType(params[2]))];
    assert r == head + GunMovement(params) + GunRotation(params);
    assert forall c | c in GunRotation(params) :: c.Rotatable?;
  }

  /** Missing rotation flags read as 0; random rotation takes precedence over
      regular rotation, and no `Rotatable` is added when both flags are 0. */
  lemma {:induction false} GunRotationDecoded(params: seq<nat>)
    requires |params| >= 4 && params[0] < |GunTiles|
    ensures var r := GunBundle(params);
      && (Rotatable(Random) in r <==> Param(params, 5) > 0)
      && (Rotatable(Regular) in r <==> Param(params, 5) == 0 && Param(params, 4) > 0)
      && (!HasRotatable(r) <==> Param(params, 4) == 0 && Param(params, 5) == 0)
  {
    var r := GunBundle(params);
    var index := params[0];
    var front := [Tiles(GunTiles[index..index + 1]), ShootingDir(index), ShootingProp, Gun(GunType(params[2]))]
      + GunMovement(params);
    var rotation := GunRotation(params);
    assert r == front + rotation;
    assert forall c | c in front :: !c.Rotatable?;
    if rotation != [] {
      assert r[|r| - 1] == rotation[0];
    }
  }

  method CreateGun(commands: Commands, params: seq<nat>)
    requires |params| >= 4 && params[0] < |GunTiles|
    modifies commands
    ensures commands.log == old(commands.log) + [Spawned(GunBundle(params))]
  {
    ghost var start := commands.log;
    var index := params[0];
    var isMoveable := params[3] > 0;
    var isRotateable := Param(params, 4) > 0;
    var isRandomRotateable := Param(params, 5) > 0;
    var gunType := GunType(params[2]);
    commands.Spawn([Tiles(GunTiles[index..index + 1])]);
    commands.WithBundle([ShootingDir(index), ShootingProp, Gun(gunType)]);
    ghost var built := [Tiles(GunTiles[index..index + 1])] + [ShootingDir(index), ShootingProp, Gun(gunType)];
    assert commands.log == start + [Spawned(built)];
    if isMoveable {
      commands.WithBundle([Moveable, MovingBetweenWalls, MovingDir(ByIndex(params[1]))]);
      built := built + [Moveable, MovingBetweenWalls, MovingDir(ByIndex(params[1]))];
      assert commands.log == start + [Spawned(built)];
    }
    assert built == [Tiles(GunTiles[index..index + 1]), ShootingDir(index), ShootingProp, Gun(gunType)]
      + GunMovement(params);
    if isRandomRotateable {
      commands.With(Rotatable(Random));
      built := built + [Rotatable(Random)];
    } else if isRotateable {
      commands.With(Rotatable(Regular));
      built := built + [Rotatable(Regular)];
    }
    assert commands.log == start + [Spawned(built)];
    assert built == [Tiles(GunTiles[index..index + 1]), ShootingDir(index), ShootingProp, Gun(gunType)]
      + GunMovement(params) + GunRotation(params);
    assert built == [Tiles(GunTiles[index..index + 1]), ShootingDir(index)] + GunTraits(params);
  }

  method CreateQuestionmarkGun(commands: Commands)
    modifies commands
    ensures commands.log == old(commands.log) + [Spawned(GunBundle([0, 0, 0, 0, 0, 1]))]
  {
    CreateGun(commands, [0, 0, 0, 0, 0, 1]);
  }

  /** The gun a question mark turns into: a fixed, randomly rotating burst gun facing index 0. */
  lemma QuestionmarkGunIsRandomBurst()
    ensures var b := GunBundle([0, 0, 0, 0, 0, 1]);
      Gun(Burst) in b && Rotatable(Random) in b && Rotatable(Regular) !in b
      && Moveable !in b && HasOnlyTiles(b, [56])
  {
    GunHeadDecoded([0, 0, 0, 0, 0, 1]);
    GunMovementDecoded([0, 0, 0, 0, 0, 1]);
    GunRotationDecoded([0, 0, 0, 0, 0, 1]);
  }

  /** What `gun_set_shooting_dir` inserts for shooting-direction index `index`. */
  function ShootingDirBundle(index: nat): (r: Bundle)
    requires index < |GunTiles|
    ensures ShootingDir(index) in r && HasOnlyTiles(r, [GunTiles[index]])
  {
    assert GunTiles[index..index + 1] == [GunTiles[index]];
    [ShootingDir(index), Tiles(GunTiles[index..index + 1])]
  }

  method GunSetShootingDir(commands: Commands, e: EntityId, index: nat)
    requires index < |GunTiles|
    modifies commands
    ensures commands.log == old(commands.log) + [Inserted(e, ShootingDirBundle(index))]
  {
    commands.Insert(e, [ShootingDir(index), Tiles(GunTiles[index..index + 1])]);
  }

  /** Turning a gun to index `index` gives it the shooting direction and the
      tile that `create_gun` gives a gun created facing `index`, and keeps its
      type, movement and rotation. */
  lemma TurnedGunLooksCreated(params: seq<nat>, index: nat)
    requires |params| >= 4 && params[0] < |GunTiles| && index < |GunTiles|
    ensures var turned := Merge(GunBundle(params), ShootingDirBundle(index));
      var created := GunBundle(params[0 := index]);
      forall c :: c in turned <==> c in created
  {
    forall c
      ensures c in Merge(GunBundle(params), ShootingDirBundle(index)) <==> c in GunBundle(params[0 := index])
    {
      TurnedGunMember(params, index, c);
    }
  }

  /** One component at a time: turning a gun and creating it facing
      `index` agree on whether they hold `c`. */
  lemma TurnedGunMember(params: seq<nat>, index: nat, c: Component)
    requires |params| >= 4 && params[0] < |GunTiles| && index < |GunTiles|
    ensures c in Merge(GunBundle(params), ShootingDirBundle(index)) <==> c in GunBundle(params[0 := index])
  {
    var facing := params[0];
    var traits := GunTraits(params);
    RecreatedGun(params, index);
    assert GunBundle(params) == [Tiles(GunTiles[facing..facing + 1]), ShootingDir(facing)] + traits;
    TileAndDirectionReplaced(Tiles(GunTiles[facing..facing + 1]), ShootingDir(facing),
                             Tiles(GunTiles[index..index + 1]), ShootingDir(index), traits, c);
  }

  /** Inserting a new tile sequence and shooting direction into a bundle that
      holds a tile sequence, a shooting direction and components of other
      kinds replaces the first two and keeps the rest. */
  lemma TileAndDirectionReplaced(tile: Component, dir: Component, tile': Component, dir': Component,
                                 rest: Bundle, c: Component)
    requires tile.Tiles? && dir.ShootingDir? && tile'.Tiles? && dir'.ShootingDir?
    requires forall x | x in rest :: !x.Tiles? && !x.ShootingDir?
    ensures c in Merge([tile, dir] + rest, [dir', tile']) <==> c in [tile', dir'] + rest
  {
    KindsOfPair(dir', tile');
    assert KindsOf([dir', tile']) == {18, 29};
    TurningKinds(c);
    if c.Tiles? || c.ShootingDir? {
      assert c !in rest;
    } else {
      assert c in [tile, dir] + rest <==> c in rest;
      assert c in [tile', dir'] + rest <==> c in rest;
    }
  }

  /** A gun created facing `index` has the tile and direction of `index`
      and the traits of `params`. */
  lemma RecreatedGun(params: seq<nat>, index: nat)
    requires |params| >= 4 && params[0] < |GunTiles| && index < |GunTiles|
    ensures GunBundle(params[0 := index])
         == [Tiles(GunTiles[index..index + 1]), ShootingDir(index)] + GunTraits(params)
  {
    assert GunTraits(params[0 := index]) == GunTraits(params);
  }

  /** The kinds a turn replaces are exactly those of tile sequences and
      shooting directions. */
  lemma TurningKinds(c: Component)
    ensures Kind(c) in {18, 29} <==> c.Tiles? || c.ShootingDir?
  {
  }

  function CreateHorizontalLaser(): (r: Bundle)
    ensures HasOnlyTiles(r, [53, 55]) && Exclusive(r)
  {
    [Tiles([53, 55])]
  }

  function CreateVerticalLaser(): (r: Bundle)
    ensures HasOnlyTiles(r, [54, 56]) && Exclusive(r)
  {
    [Tiles([54, 56])]
  }

  /** A magnet of orientation `index` shows entry `index` of the magnet table. */
  function CreateMagnet(index: nat): (r: Bundle)
    requires index < |MagnetTiles|
    ensures Magnet(index) in r && Deadly in r && Exclusive(r)
    ensures HasOnlyTiles(r, [MagnetTiles[index]])
  {
    assert MagnetTiles[index..index + 1] == [MagnetTiles[index]];
    [Magnet(index), Deadly, Tiles(MagnetTiles[index..index + 1])]
  }

  function CreateForcefield(index: nat): (r: Bundle)
    ensures ForceField(ByIndex(index)) in r && Destroyable in r && Exclusive(r)
  {
    [Destroyable, RoughUpdate, ForceField(ByIndex(index)), Tiles([45, 45, 45, 45, 57, 57, 57, 57])]
  }

  /** No constructor gives an entity both `Destroyable` and `Undestroyable`. */
  lemma NoConstructorIsBothDestroyableAndUndestroyable()
    ensures Exclusive(CreateRobbo()) && Exclusive(CreateBear()) && Exclusive(CreateBlackBear())
    ensures Exclusive(CreatePushBox()) && Exclusive(CreateStaticBox()) && Exclusive(CreateBlasterTail())
    ensures Exclusive(CreateScrew()) && Exclusive(CreateAmmo()) && Exclusive(CreateKey())
    ensures Exclusive(CreateGround()) && Exclusive(CreateCapsule()) && Exclusive(CreateBomb())
    ensures Exclusive(CreateExplosion()) && Exclusive(CreateSmallExplosion()) && Exclusive(CreateQuestionmark())
    ensures Exclusive(CreateDoor()) && Exclusive(CreateEyes())
    ensures Exclusive(CreateHorizontalLaser()) && Exclusive(CreateVerticalLaser())
  {
  }

  /** No parameterised constructor gives an entity both `Destroyable` and
      `Undestroyable`, whatever its parameters. */
  lemma NoParameterisedConstructorIsBothDestroyableAndUndestroyable()
    ensures forall k: nat | k < |WallTiles| :: Exclusive(CreateWall(k))
    ensures forall kx, ky :: Exclusive(CreateBullet(kx, ky)) && Exclusive(CreateBlasterHead(kx, ky))
    ensures forall pos, kx, ky :: Exclusive(CreateLaserHead(pos, kx, ky))
    ensures forall d :: Exclusive(CreateLaserTail(d))
    ensures forall pos :: Exclusive(SpawnRobboAnimation(pos)) && Exclusive(PreSpawnRobboAnimation(pos))
    ensures forall pos :: Exclusive(FlyAway(pos)) && Exclusive(SpawnRandomAnimation(pos))
    ensures forall p: seq<nat> | |p| >= 3 :: Exclusive(BirdBundle(p))
    ensures forall p: seq<nat> | |p| >= 2 :: Exclusive(CreateTeleport(p))
    ensures forall p: seq<nat> | |p| >= 4 && p[0] < |GunTiles| :: Exclusive(GunBundle(p))
    ensures forall i: nat | i < |MagnetTiles| :: Exclusive(CreateMagnet(i))
    ensures forall i: nat :: Exclusive(CreateForcefield(i))
  {
  }
}
