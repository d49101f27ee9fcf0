/** Values of the Robbo grid world: cells, directions, components, bundles,
    deferred commands and game events. */
module Components {

  datatype Option<T> = None | Some(value: T)

  /** An entity identifier, opaque to the systems. */
  type EntityId = nat

  /** A board cell. */
  datatype Pos = Pos(x: int, y: int)

  /** A direction vector; in practice one of the four unit vectors or zero. */
  datatype Dir = Dir(dx: int, dy: int)

  /** `MovingDir::zero()`. */
  const Zero := Dir(0, 0)

  /** `MovingDir::is_empty`. */
  predicate IsEmpty(d: Dir): (b: bool)
    ensures b <==> d.dx == 0 && d.dy == 0
  {
    d == Zero
  }

  /** `Position::add(&MovingDir)`: the candidate next cell. Only the empty
      direction leaves a position where it is. */
  function Add(p: Pos, d: Dir): (r: Pos)
    ensures r == p <==> IsEmpty(d)
  {
    Pos(p.x + d.dx, p.y + d.dy)
  }

  /** How a factory builds a `MovingDir`: from raw deltas, or from a 4-way
      index whose direction ordering is not part of this model. */
  datatype DirSpec = Delta(d: Dir) | ByIndex(index: nat)

  datatype GunKind = Burst | Solid | Blaster
  datatype RotKind = Random | Regular
  datatype CollectableKind = Screw | Ammo | Key
  datatype UsableKind = UsableDoor | UsableCapsule | UsableTeleport

  /** The deferred lifecycle events an `Animation` may carry. */
  datatype GameEvent =
    | SpawnRobbo(at: Pos)
    | PreSpawnRobbo(at: Pos)
    | SpawnRandom(at: Pos)
    | ReloadLevel(level: nat)

  /** One component of an entity. Tags carry no payload. */
  datatype Component =
    | Robbo | Bird | Bear(black: bool) | Eyes | PushBox | Bullet | BlasterHead
    | LaserHead(gunPos: Pos, isMovingBack: bool) | LaserTail | Capsule
    | Bomb(armed: bool) | QuestionMark | Magnet(orientation: nat)
    | ForceField(field: DirSpec) | Teleport(a: nat, b: nat)
    | Collectable(collectable: CollectableKind) | Usable(usable: UsableKind)
    | Gun(gun: GunKind) | ShootingDir(shootIndex: nat) | ShootingProp
    | Rotatable(rot: RotKind)
    | Destroyable | Undestroyable | Deadly | Moveable | MovingBetweenWalls
    | RoughUpdate | Wall
    | MovingDir(dir: DirSpec)
    | Tiles(frames: seq<nat>)
    | Animation(event: Option<GameEvent>)
    | Position(pos: Pos)

  /** The components handed to one spawn or insert, in the order given. */
  type Bundle = seq<Component>

  /** The component type of `c`: an entity holds at most one component per
      type, so inserting a component replaces the one of the same kind. */
  function Kind(c: Component): nat
  {
    match c
    case Robbo => 0
    case Bird => 1
    case Bear(_) => 2
    case Eyes => 3
    case PushBox => 4
    case Bullet => 5
    case BlasterHead => 6
    case LaserHead(_, _) => 7
    case LaserTail => 8
    case Capsule => 9
    case Bomb(_) => 10
    case QuestionMark => 11
    case Magnet(_) => 12
    case ForceField(_) => 13
    case Teleport(_, _) => 14
    case Collectable(_) => 15
    case Usable(_) => 16
    case Gun(_) => 17
    case ShootingDir(_) => 18
    case ShootingProp => 19
    case Rotatable(_) => 20
    case Destroyable => 21
    case Undestroyable => 22
    case Deadly => 23
    case Moveable => 24
    case MovingBetweenWalls => 25
    case RoughUpdate => 26
    case Wall => 27
    case MovingDir(_) => 28
    case Tiles(_) => 29
    case Animation(_) => 30
    case Position(_) => 31
  }

  /** The invariant the factory keeps: never both `Destroyable` and `Undestroyable`. */
  predicate Exclusive(b: Bundle)
  {
    !(Destroyable in b && Undestroyable in b)
  }

  /** `b` carries exactly one tile sequence, and it is `frames`. */
  predicate HasOnlyTiles(b: Bundle, frames: seq<nat>)
  {
    Tiles(frames) in b && forall c | c in b && c.Tiles? :: c.frames == frames
  }

  predicate HasGun(b: Bundle) { exists c :: c in b && c.Gun? }
  predicate HasRotatable(b: Bundle) { exists c :: c in b && c.Rotatable? }
  predicate HasUsable(b: Bundle) { exists c :: c in b && c.Usable? }

  /** A record in the deferred command buffer. */
  datatype Command =
    | Spawned(bundle: Bundle)
    | Despawned(entity: EntityId)
    | Inserted(entity: EntityId, bundle: Bundle)
    | Removed(entity: EntityId, component: Component)

  /** An audio cue sent to the sound event queue. */
  datatype Sound = BombSound

  /** Concatenation is associative; stated once so that proofs over long
      buffers can use it without rediscovering it. */
  lemma AppendAssociates<T>(a: seq<T>, b: seq<T>, c: seq<T>)
    ensures (a + b) + c == a + (b + c)
  {
  }

  /** Being a prefix is transitive. */
  lemma PrefixTransitive<T>(a: seq<T>, b: seq<T>, c: seq<T>)
    requires a <= b <= c
    ensures a <= c
  {
    assert c[..|a|] == b[..|a|];
  }
}
