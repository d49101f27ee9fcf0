/** `move_blaster_head`: on each keyframe every blaster head looks at the
    cell ahead. A level wall there despawns the head; a destroyable occupant
    is despawned and the head advances into its cell; any other occupant
    blocks the head, and the entity indexed at the head's cell is despawned;
    a free cell lets the head advance. In every case one blaster tail is
    spawned at the head's pre-move cell. */
module Blasters {
  import opened Components
  import opened Resources
  import opened Entities

  /** `create_blaster_tail(commands).with(pos)`. */
  function TailAt(pos: Pos): (r: Command)
    ensures TailSpawnedBy(r) == [pos]
    ensures r.Spawned? && Undestroyable in r.bundle
  {
    Spawned(CreateBlasterTail() + [Position(pos)])
  }

  /** The level geometry has a wall at the target of head `i`. */
  predicate HitsWall(t: Tick, i: nat, walls: set<Pos>)
    requires i < |t.rows|
  {
    Add(t.rows[i].pos, t.rows[i].dir) in walls
  }

  /** The target of head `i` holds an indexed entity that is `Destroyable`. */
  predicate Destroys(t: Tick, i: nat, walls: set<Pos>, destroyable: set<EntityId>)
    requires i < |t.rows|
  {
    var q := Add(t.rows[i].pos, t.rows[i].dir);
    !HitsWall(t, i, walls) && q in t.occ && t.occ[q] in destroyable
  }

  /** The target of head `i` holds an indexed entity that is not `Destroyable`. */
  predicate IsBlocked(t: Tick, i: nat, walls: set<Pos>, destroyable: set<EntityId>)
    requires i < |t.rows|
  {
    var q := Add(t.rows[i].pos, t.rows[i].dir);
    !HitsWall(t, i, walls) && q in t.occ && t.occ[q] !in destroyable
  }

  /** The lookup of the head's own cell succeeds whenever the blocked branch
      needs it (the `unwrap` would otherwise abort the system). */
  predicate CanStep(t: Tick, i: nat, walls: set<Pos>, destroyable: set<EntityId>)
    requires i < |t.rows|
  {
    IsBlocked(t, i, walls, destroyable) ==> t.rows[i].pos in t.occ
  }

  /** One iteration of the loop of `move_blaster_head`, on row `i`. */
  function BlasterStep(t: Tick, i: nat, walls: set<Pos>, destroyable: set<EntityId>): (r: Tick)
    requires i < |t.rows| && CanStep(t, i, walls, destroyable)
    ensures |r.rows| == |t.rows| && r.rows[i].entity == t.rows[i].entity
    ensures forall j {:trigger r.rows[j]} | 0 <= j < |t.rows| && j != i :: r.rows[j] == t.rows[j]
    ensures r.damage == t.damage && t.log <= r.log
  {
    var m := t.rows[i];
    var q := Add(m.pos, m.dir);
    var tail := TailAt(m.pos);
    if q in walls then
      t.(log := t.log + [Despawned(m.entity), tail])
    else if q in t.occ && t.occ[q] in destroyable then
      t.(rows := t.rows[i := m.(pos := q)], occ := Rekey(t.occ - {q}, m.pos, q),
         log := t.log + [Despawned(t.occ[q]), tail])
    else if q in t.occ then
      t.(log := t.log + [Despawned(t.occ[m.pos]), tail])
    else
      t.(rows := t.rows[i := m.(pos := q)], occ := Rekey(t.occ, m.pos, q),
         log := t.log + [tail])
  }

  /** Every one of the first `n` iterations can take its step. */
  predicate PassCanStep(t: Tick, n: nat, walls: set<Pos>, destroyable: set<EntityId>)
    requires n <= |t.rows|
    decreases n, 0
  {
    n == 0 ||
    (PassCanStep(t, n - 1, walls, destroyable)
     && CanStep(BlasterPass(t, n - 1, walls, destroyable), n - 1, walls, destroyable))
  }

  /** The first `n` iterations of the loop, in query order. */
  function BlasterPass(t: Tick, n: nat, walls: set<Pos>, destroyable: set<EntityId>): (r: Tick)
    requires n <= |t.rows| && PassCanStep(t, n, walls, destroyable)
    ensures |r.rows| == |t.rows|
    ensures forall j {:trigger r.rows[j]} | 0 <= j < |t.rows| :: r.rows[j].entity == t.rows[j].entity
    ensures forall j {:trigger r.rows[j]} | n <= j < |t.rows| :: r.rows[j] == t.rows[j]
    ensures r.damage == t.damage && t.log <= r.log
    decreases n, 1
  {
    if n == 0 then t
    else BlasterStep(BlasterPass(t, n - 1, walls, destroyable), n - 1, walls, destroyable)
  }

  /** `move_blaster_head` over the query rows `heads`, with `index` the
      occupancy index `get_occupied` builds from the non-wall entities,
      `walls` the cells the level geometry occupies and `destroyable` the
      entities that carry `Destroyable`. */
  method MoveBlasterHead(keyframe: bool, index: map<Pos, EntityId>, walls: set<Pos>,
                         destroyable: set<EntityId>, heads: array<Mover>, commands: Commands)
    requires keyframe ==> PassCanStep(Tick(heads[..], index, map[], commands.log), heads.Length, walls, destroyable)
    modifies heads, commands
    ensures var before := Tick(old(heads[..]), index, map[], old(commands.log));
      var after := if keyframe then BlasterPass(before, heads.Length, walls, destroyable) else before;
      heads[..] == after.rows && commands.log == after.log
  {
    if !keyframe {
      return;
    }
    var occupied := new OccupiedMap(index);
    ghost var start := Tick(heads[..], index, map[], commands.log);
    for i := 0 to heads.Length
      invariant PassCanStep(start, i, walls, destroyable)
      invariant Tick(heads[..], occupied.cells, map[], commands.log) == BlasterPass(start, i, walls, destroyable)
    {
      assert PassCanStep(start, i + 1, walls, destroyable) by {
        PassCanStepPrefix(start, i + 1, heads.Length, walls, destroyable);
      }
      MoveOneHead(i, walls, destroyable, heads, occupied, commands);
    }
  }

  /** The body of the loop of `move_blaster_head`, on row `i`. */
  method MoveOneHead(i: nat, walls: set<Pos>, destroyable: set<EntityId>, heads: array<Mover>,
                     occupied: OccupiedMap, commands: Commands)
    requires i < heads.Length
    requires CanStep(Tick(heads[..], occupied.cells, map[], commands.log), i, walls, destroyable)
    modifies heads, occupied, commands
    ensures Tick(heads[..], occupied.cells, map[], commands.log)
         == BlasterStep(Tick(old(heads[..]), old(occupied.cells), map[], old(commands.log)), i, walls, destroyable)
  {
    var m := heads[i];
    var newPos := Add(m.pos, m.dir);
    var oldPos := m.pos;
    if newPos in walls {
      commands.Despawn(m.entity);
    } else {
      var target := occupied.GetEntity(newPos);
      match target
      case Some(other) =>
        if other in destroyable {
          commands.Despawn(other);
          occupied.Remove(newPos);
          occupied.Mv(m.pos, newPos);
          heads[i] := m.(pos := newPos);
        } else {
          var own := occupied.GetEntity(m.pos);
          commands.Despawn(own.value);
        }
      case None =>
        occupied.Mv(m.pos, newPos);
        heads[i] := m.(pos := newPos);
    }
    commands.Spawn(CreateBlasterTail());
    commands.With(Position(oldPos));
  }

  /** A prefix of a pass that can step can step too. */
  lemma {:induction false} PassCanStepPrefix(t: Tick, m: nat, n: nat, walls: set<Pos>, destroyable: set<EntityId>)
    requires m <= n <= |t.rows| && PassCanStep(t, n, walls, destroyable)
    ensures PassCanStep(t, m, walls, destroyable)
    decreases n
  {
    if m < n {
      PassCanStepPrefix(t, m, n - 1, walls, destroyable);
    }
  }

  /** What one step does to head `i`. The level wall is looked at first: it
      despawns the head whatever the index holds at the target. A
      destroyable occupant is despawned, its index entry dropped and the
      head's entry and position move to the target. Any other occupant
      leaves the head in place and despawns the entity indexed at the
      head's cell. A free target lets the head and its index entry advance.
      Every branch ends with one tail at the pre-move cell. */
  lemma BlasterStepOutcome(t: Tick, i: nat, walls: set<Pos>, destroyable: set<EntityId>)
    requires i < |t.rows| && CanStep(t, i, walls, destroyable)
    ensures var r := BlasterStep(t, i, walls, destroyable); var m := t.rows[i];
      var q := Add(m.pos, m.dir); var tail := TailAt(m.pos);
      if HitsWall(t, i, walls) then
        r.rows == t.rows && r.occ == t.occ && r.log == t.log + [Despawned(m.entity), tail]
      else if Destroys(t, i, walls, destroyable) then
        && r.rows[i] == m.(pos := q)
        && r.occ == Rekey(t.occ - {q}, m.pos, q)
        && r.log == t.log + [Despawned(t.occ[q]), tail]
      else if IsBlocked(t, i, walls, destroyable) then
        r.rows == t.rows && r.occ == t.occ && r.log == t.log + [Despawned(t.occ[m.pos]), tail]
      else
        && r.rows[i] == m.(pos := q)
        && r.occ == Rekey(t.occ, m.pos, q)
        && r.log == t.log + [tail]
  {
  }

  /** When the index agrees with the heads, a blocked head despawns itself. */
  lemma BlockedHeadDespawnsItself(t: Tick, i: nat, walls: set<Pos>, destroyable: set<EntityId>)
    requires i < |t.rows| && IndexAgrees(t.occ, t.rows) && IsBlocked(t, i, walls, destroyable)
    ensures BlasterStep(t, i, walls, destroyable).log
         == t.log + [Despawned(t.rows[i].entity), TailAt(t.rows[i].pos)]
  {
    BlasterStepOutcome(t, i, walls, destroyable);
  }

  /** The heads' own entries in an agreeing index: no head is destroyable. */
  ghost predicate HeadsIndexed(t: Tick, destroyable: set<EntityId>)
  {
    && IndexAgrees(t.occ, t.rows)
    && (forall j | 0 <= j < |t.rows| :: t.rows[j].entity !in destroyable)
  }

  /** One step keeps an agreeing index agreeing, and can always be taken. */
  lemma BlasterStepKeepsIndex(t: Tick, i: nat, walls: set<Pos>, destroyable: set<EntityId>)
    requires i < |t.rows| && HeadsIndexed(t, destroyable)
    ensures CanStep(t, i, walls, destroyable)
    ensures HeadsIndexed(BlasterStep(t, i, walls, destroyable), destroyable)
  {
    var r := BlasterStep(t, i, walls, destroyable);
    var m := t.rows[i];
    var q := Add(m.pos, m.dir);
    BlasterStepOutcome(t, i, walls, destroyable);
    if Destroys(t, i, walls, destroyable) || (!HitsWall(t, i, walls) && !IsBlocked(t, i, walls, destroyable)) {
      var occ := if Destroys(t, i, walls, destroyable) then t.occ - {q} else t.occ;
      assert r.occ == Rekey(occ, m.pos, q);
      forall j | 0 <= j < |r.rows|
        ensures r.rows[j].pos in r.occ && r.occ[r.rows[j].pos] == r.rows[j].entity
      {
        if j != i {
          assert t.occ[t.rows[j].pos] != t.occ[m.pos];
          assert t.rows[j].pos != q;
        }
      }
    }
  }

  /** A pass that starts from an index agreeing with the heads, none of them
      destroyable (as `create_blaster_head` makes them), never hits the
      `unwrap` failure and keeps the index agreeing. */
  lemma {:induction false} BlasterPassUnderAgreement(t: Tick, n: nat, walls: set<Pos>, destroyable: set<EntityId>)
    requires n <= |t.rows| && HeadsIndexed(t, destroyable)
    ensures PassCanStep(t, n, walls, destroyable)
    ensures HeadsIndexed(BlasterPass(t, n, walls, destroyable), destroyable)
  {
    if n > 0 {
      BlasterPassUnderAgreement(t, n - 1, walls, destroyable);
      BlasterStepKeepsIndex(BlasterPass(t, n - 1, walls, destroyable), n - 1, walls, destroyable);
    }
  }

  /** The cells at which the commands in `log` spawn blaster tails, in order. */
  function Tails(log: seq<Command>): (ps: seq<Pos>)
    ensures |ps| <= |log|
  {
    if log == [] then [] else Tails(log[..|log| - 1]) + TailSpawnedBy(log[|log| - 1])
  }

  /** The cell at which `c` spawns a blaster tail, if it spawns one. */
  function TailSpawnedBy(c: Command): (ps: seq<Pos>)
    ensures |ps| <= 1
  {
    if c.Spawned? && |c.bundle| == 4 && c.bundle[..3] == CreateBlasterTail() && c.bundle[3].Position?
    then [c.bundle[3].pos] else []
  }

  /** Tails of a concatenation. */
  lemma {:induction false} TailsAppend(a: seq<Command>, b: seq<Command>)
    ensures Tails(a + b) == Tails(a) + Tails(b)
    decreases |b|
  {
    if b == [] {
      assert a + b == a;
    } else {
      var b' := b[..|b| - 1];
      assert (a + b)[..|a + b| - 1] == a + b' && (a + b)[|a + b| - 1] == b[|b| - 1];
      TailsAppend(a, b');
      AppendAssociates(Tails(a), Tails(b'), TailSpawnedBy(b[|b| - 1]));
    }
  }

  /** The pre-move cells of `rows`, in order. */
  function Cells(rows: seq<Mover>): (ps: seq<Pos>)
    ensures |ps| == |rows| && forall j | 0 <= j < |rows| :: ps[j] == rows[j].pos
  {
    if rows == [] then [] else Cells(rows[..|rows| - 1]) + [rows[|rows| - 1].pos]
  }

  /** One step spawns exactly one tail, at the head's pre-move cell; the
      despawn it may issue spawns none. */
  lemma BlasterStepTails(t: Tick, i: nat, walls: set<Pos>, destroyable: set<EntityId>)
    requires i < |t.rows| && CanStep(t, i, walls, destroyable)
    ensures Tails(BlasterStep(t, i, walls, destroyable).log) == Tails(t.log) + [t.rows[i].pos]
  {
    var r := BlasterStep(t, i, walls, destroyable);
    var p := t.rows[i].pos;
    var tail := TailAt(p);
    BlasterStepOutcome(t, i, walls, destroyable);
    assert tail.bundle[..3] == CreateBlasterTail();
    assert Tails([tail]) == [p] by {
      assert [tail][..0] == [];
    }
    if r.log == t.log + [tail] {
      TailsAppend(t.log, [tail]);
    } else {
      var e :| r.log == t.log + [Despawned(e), tail];
      assert Tails([Despawned(e)]) == [] by {
        assert [Despawned(e)][..0] == [];
      }
      TailsAppend([Despawned(e)], [tail]);
      assert [Despawned(e)] + [tail] == [Despawned(e), tail];
      TailsAppend(t.log, [Despawned(e), tail]);
    }
  }

  /** Every head the pass has processed spawned exactly one tail, at its
      pre-move cell, and the tails come in query order. */
  lemma {:induction false} BlasterPassTails(t: Tick, n: nat, walls: set<Pos>, destroyable: set<EntityId>)
    requires n <= |t.rows| && PassCanStep(t, n, walls, destroyable)
    ensures Tails(BlasterPass(t, n, walls, destroyable).log) == Tails(t.log) + Cells(t.rows[..n])
  {
    if n > 0 {
      BlasterPassTails(t, n - 1, walls, destroyable);
      BlasterPassLastTail(t, n, walls, destroyable);
      CellsSnoc(t.rows, n);
      AppendAssociates(Tails(t.log), Cells(t.rows[..n - 1]), [t.rows[n - 1].pos]);
    }
  }


  /** Iteration `n - 1` adds the tail of head `n - 1`. */
  lemma BlasterPassLastTail(t: Tick, n: nat, walls: set<Pos>, destroyable: set<EntityId>)
    requires 0 < n <= |t.rows| && PassCanStep(t, n, walls, destroyable)
    ensures Tails(BlasterPass(t, n, walls, destroyable).log)
         == Tails(BlasterPass(t, n - 1, walls, destroyable).log) + [t.rows[n - 1].pos]
  {
    var s := BlasterPass(t, n - 1, walls, destroyable);
    assert s.rows[n - 1] == t.rows[n - 1];
    BlasterStepTails(s, n - 1, walls, destroyable);
  }

  /** The cells of one more row. */
  lemma CellsSnoc(rows: seq<Mover>, n: nat)
    requires 0 < n <= |rows|
    ensures Cells(rows[..n]) == Cells(rows[..n - 1]) + [rows[n - 1].pos]
  {
    assert rows[..n][..n - 1] == rows[..n - 1];
  }
}
