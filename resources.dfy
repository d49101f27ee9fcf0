/** The per-tick resources the movement systems share: the occupancy index,
    the damage ledger, the deferred command buffer and the sound queue. The
    occupancy map and the damage map are collaborators whose bodies are not
    part of this model; they are stated here as maps with the behaviour the
    systems rely on. */
module Resources {
  import opened Components

  /** One row of a movement query: the entity, its `Position` and its `MovingDir`. */
  datatype Mover = Mover(entity: EntityId, pos: Pos, dir: Dir)

  /** The state one movement pass works on, as a value: the query rows, the
      per-tick occupancy index, the damage ledger and the command buffer. */
  datatype Tick = Tick(rows: seq<Mover>, occ: map<Pos, EntityId>, damage: map<Pos, bool>, log: seq<Command>)

  /** The index after `mv(from, to)`: the entry at `from`, if any, is re-keyed to `to`. */
  function Rekey(m: map<Pos, EntityId>, from: Pos, to: Pos): (r: map<Pos, EntityId>)
    ensures from in m ==> r.Keys == m.Keys - {from} + {to} && r[to] == m[from]
    ensures from !in m ==> r == m
    ensures forall p | p in m && p != from && p != to :: p in r && r[p] == m[p]
  {
    if from in m then (m - {from})[to := m[from]] else m
  }

  /** The ledger after `do_damage(p, hard)`: `p` is damaged, and a hard flag
      already recorded at `p` is never downgraded; other cells are untouched. */
  function Damaged(m: map<Pos, bool>, p: Pos, hard: bool): (r: map<Pos, bool>)
    ensures p in r && (r[p] <==> hard || (p in m && m[p]))
    ensures forall q | q != p :: (q in r <==> q in m) && (q in m ==> r[q] == m[q])
  {
    m[p := hard || (p in m && m[p])]
  }

  /** The index agrees with the query rows: every row's cell is indexed to
      that row's entity, and no entity appears in two rows. This is how
      `get_occupied` builds the index from the positions of all non-wall
      entities when no two of them share a cell. */
  ghost predicate IndexAgrees(occ: map<Pos, EntityId>, rows: seq<Mover>)
  {
    && (forall j | 0 <= j < |rows| :: rows[j].pos in occ && occ[rows[j].pos] == rows[j].entity)
    && (forall j, k | 0 <= j < k < |rows| :: rows[j].entity != rows[k].entity)
  }

  /** The per-tick occupancy index built by `LevelInfo::get_occupied`. */
  class OccupiedMap {
    var cells: map<Pos, EntityId>

    constructor (index: map<Pos, EntityId>)
      ensures cells == index
    {
      cells := index;
    }

    /** Occupied exactly when the entity lookup finds something there. */
    function IsOccupied(p: Pos): (b: bool)
      reads this
      ensures b <==> GetEntity(p).Some?
    {
      p in cells
    }

    function GetEntity(p: Pos): (r: Option<EntityId>)
      reads this
      ensures r.Some? <==> p in cells
      ensures r.Some? ==> r.value == cells[p]
    {
      if p in cells then Some(cells[p]) else None
    }

    method Mv(from: Pos, to: Pos)
      modifies this
      ensures cells == Rekey(old(cells), from, to)
    {
      cells := Rekey(cells, from, to);
    }

    method Remove(p: Pos)
      modifies this
      ensures cells == old(cells) - {p}
    {
      cells := cells - {p};
    }
  }

  /** The damage ledger `DamageMap`: the cells damaged this tick, each with its
      hard flag. */
  class DamageMap {
    var cells: map<Pos, bool>

    constructor (initial: map<Pos, bool>)
      ensures cells == initial
    {
      cells := initial;
    }

    /** Damaged exactly when recording soft damage there again would leave
        the ledger as it is. */
    function IsDamaged(p: Pos): (b: bool)
      reads this
      ensures b <==> Damaged(cells, p, false) == cells
    {
      p in cells
    }

    method DoDamage(p: Pos, hard: bool)
      modifies this
      ensures cells == Damaged(old(cells), p, hard)
    {
      cells := Damaged(cells, p, hard);
    }
  }

  /** The deferred command buffer `Commands`: every request is appended to
      `log`, and `with` adds a component to the entity spawned last. */
  class Commands {
    var log: seq<Command>

    constructor ()
      ensures log == []
    {
      log := [];
    }

    method Spawn(b: Bundle)
      modifies this
      ensures log == old(log) + [Spawned(b)]
    {
      log := log + [Spawned(b)];
    }

    method WithBundle(b: Bundle)
      requires log != [] && log[|log| - 1].Spawned?
      modifies this
      ensures log == old(log)[..|old(log)| - 1] + [Spawned(old(log)[|old(log)| - 1].bundle + b)]
    {
      log := log[..|log| - 1] + [Spawned(log[|log| - 1].bundle + b)];
    }

    method With(c: Component)
      requires log != [] && log[|log| - 1].Spawned?
      modifies this
      ensures log == old(log)[..|old(log)| - 1] + [Spawned(old(log)[|old(log)| - 1].bundle + [c])]
    {
      WithBundle([c]);
    }

    method Despawn(e: EntityId)
      modifies this
      ensures log == old(log) + [Despawned(e)]
    {
      log := log + [Despawned(e)];
    }

    method Insert(e: EntityId, b: Bundle)
      modifies this
      ensures log == old(log) + [Inserted(e, b)]
    {
      log := log + [Inserted(e, b)];
    }

    method RemoveOne(e: EntityId, c: Component)
      modifies this
      ensures log == old(log) + [Removed(e, c)]
    {
      log := log + [Removed(e, c)];
    }
  }

  /** The `Events<Sound>` queue: sent cues are appended in order. */
  class SoundEvents {
    var sent: seq<Sound>

    constructor ()
      ensures sent == []
    {
      sent := [];
    }

    method Send(s: Sound)
      modifies this
      ensures sent == old(sent) + [s]
    {
      sent := sent + [s];
    }
  }
}
