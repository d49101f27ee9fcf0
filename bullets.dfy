/** `move_bullet`: on each keyframe every bullet either advances by its
    direction into a free cell, or, when the target cell is indexed, stops,
    is despawned, leaves a small explosion where it stood and records soft
    damage at the target. */
module Bullets {
  import opened Components
  import opened Resources
  import opened Entities

  /** `create_small_explosion(commands).with(pos)`. */
  function ExplosionAt(pos: Pos): (r: Command)
    ensures r.Spawned? && Undestroyable in r.bundle && Position(pos) in r.bundle
    ensures forall c | c in r.bundle && c.Position? :: c == Position(pos)
  {
    Spawned(CreateSmallExplosion() + [Position(pos)])
  }

  /** Bullet `i` hits something: its target cell is in the index. */
  predicate Hits(t: Tick, i: nat)
    requires i < |t.rows|
  {
    Add(t.rows[i].pos, t.rows[i].dir) in t.occ
  }

  /** The ledger `after` is `before` plus soft damage at `q`: no other cell
      changes, and no hard flag appears. */
  predicate SoftDamageAt(before: map<Pos, bool>, after: map<Pos, bool>, q: Pos)
  {
    && after.Keys == before.Keys + {q}
    && (forall p | p in before :: after[p] == before[p])
    && (q !in before ==> !after[q])
  }

  /** One iteration of the loop of `move_bullet`, on row `i`. */
  function BulletStep(t: Tick, i: nat): (r: Tick)
    requires i < |t.rows|
    ensures |r.rows| == |t.rows| && r.rows[i].entity == t.rows[i].entity
    ensures forall j {:trigger r.rows[j]} | 0 <= j < |t.rows| && j != i :: r.rows[j] == t.rows[j]
    ensures t.log <= r.log
  {
    var m := t.rows[i];
    var q := Add(m.pos, m.dir);
    if q in t.occ then
      t.(rows := t.rows[i := m.(dir := Zero)],
         damage := Damaged(t.damage, q, false),
         log := t.log + [Despawned(m.entity), ExplosionAt(m.pos)])
    else
      t.(rows := t.rows[i := m.(pos := q)], occ := Rekey(t.occ, m.pos, q))
  }

  /** The first `n` iterations of the loop, in query order. */
  function BulletPass(t: Tick, n: nat): (r: Tick)
    requires n <= |t.rows|
    ensures |r.rows| == |t.rows|
    ensures forall j {:trigger r.rows[j]} | 0 <= j < |t.rows| :: r.rows[j].entity == t.rows[j].entity
    ensures forall j {:trigger r.rows[j]} | n <= j < |t.rows| :: r.rows[j] == t.rows[j]
    ensures t.log <= r.log
  {
    if n == 0 then t else BulletStep(BulletPass(t, n - 1), n - 1)
  }

  /** `move_bullet` over the query rows `bullets`, with `index` the occupancy
      index `get_occupied` builds from the non-wall entities. */
  method MoveBullet(keyframe: bool, index: map<Pos, EntityId>, bullets: array<Mover>,
                    damage: DamageMap, commands: Commands)
    modifies bullets, damage, commands
    ensures var before := Tick(old(bullets[..]), index, old(damage.cells), old(commands.log));
      var after := if keyframe then BulletPass(before, bullets.Length) else before;
      bullets[..] == after.rows && damage.cells == after.damage && commands.log == after.log
  {
    if !keyframe {
      return;
    }
    var occupied := new OccupiedMap(index);
    ghost var start := Tick(bullets[..], index, damage.cells, commands.log);
    for i := 0 to bullets.Length
      invariant Tick(bullets[..], occupied.cells, damage.cells, commands.log) == BulletPass(start, i)
    {
      MoveOneBullet(i, bullets, occupied, damage, commands);
      assert BulletPass(start, i + 1) == BulletStep(BulletPass(start, i), i);
    }
  }

  /** The body of the loop of `move_bullet`, on row `i`. */
  method MoveOneBullet(i: nat, bullets: array<Mover>, occupied: OccupiedMap,
                       damage: DamageMap, commands: Commands)
    requires i < bullets.Length
    modifies bullets, occupied, damage, commands
    ensures Tick(bullets[..], occupied.cells, damage.cells, commands.log)
         == BulletStep(Tick(old(bullets[..]), old(occupied.cells), old(damage.cells), old(commands.log)), i)
  {
    var m := bullets[i];
    var newPos := Add(m.pos, m.dir);
    if occupied.IsOccupied(newPos) {
      bullets[i] := m.(dir := Zero);
      commands.Despawn(m.entity);
      commands.Spawn(CreateSmallExplosion());
      commands.With(Position(m.pos));
      assert commands.log == old(commands.log) + [Despawned(m.entity), ExplosionAt(m.pos)];
      damage.DoDamage(newPos, false);
    } else {
      occupied.Mv(m.pos, newPos);
      bullets[i] := m.(pos := newPos);
    }
  }

  /** What one step does to bullet `i`: on a hit it stays put with its
      direction zeroed, is despawned, an explosion is spawned at its cell and
      soft damage is recorded at the target; otherwise it moves to the target
      cell with the index entry, and nothing else changes. */
  lemma BulletStepOutcome(t: Tick, i: nat)
    requires i < |t.rows|
    ensures var r := BulletStep(t, i); var m := t.rows[i]; var q := Add(m.pos, m.dir);
      if Hits(t, i) then
        && r.rows[i].pos == m.pos && IsEmpty(r.rows[i].dir)
        && r.occ == t.occ
        && r.log == t.log + [Despawned(m.entity), ExplosionAt(m.pos)]
        && SoftDamageAt(t.damage, r.damage, q)
      else
        && r.rows[i].pos == q && r.rows[i].dir == m.dir
        && r.occ == Rekey(t.occ, m.pos, q)
        && (m.pos in t.occ ==> q in r.occ && r.occ[q] == t.occ[m.pos])
        && r.damage == t.damage && r.log == t.log
  {
  }

  /** One bullet step keeps the index in agreement with the rows. */
  lemma BulletStepKeepsIndex(t: Tick, i: nat)
    requires i < |t.rows| && IndexAgrees(t.occ, t.rows)
    ensures IndexAgrees(BulletStep(t, i).occ, BulletStep(t, i).rows)
  {
    var r := BulletStep(t, i);
    var m := t.rows[i];
    if !Hits(t, i) {
      var q := Add(m.pos, m.dir);
      forall j | 0 <= j < |r.rows|
        ensures r.rows[j].pos in r.occ && r.occ[r.rows[j].pos] == r.rows[j].entity
      {
        if j != i {
          assert t.occ[t.rows[j].pos] != t.occ[m.pos];
        }
      }
    }
  }

  /** The index stays in agreement with the bullets' positions through the
      whole pass: every bullet's current cell is indexed to that bullet. */
  lemma {:induction false} BulletPassKeepsIndex(t: Tick, n: nat)
    requires n <= |t.rows| && IndexAgrees(t.occ, t.rows)
    ensures IndexAgrees(BulletPass(t, n).occ, BulletPass(t, n).rows)
  {
    if n > 0 {
      BulletPassKeepsIndex(t, n - 1);
      BulletStepKeepsIndex(BulletPass(t, n - 1), n - 1);
    }
  }

  /** Each bullet the pass has processed either advanced by exactly its
      direction with the direction kept, or stayed where it was with its
      direction zeroed, and then its despawn and an explosion at its
      pre-move cell are among the commands the pass issued. */
  lemma BulletPassOutcome(t: Tick, n: nat, j: nat)
    requires j < n <= |t.rows|
    ensures var r := BulletPass(t, n); var m := t.rows[j]; var issued := r.log[|t.log|..];
      || (r.rows[j].pos == Add(m.pos, m.dir) && r.rows[j].dir == m.dir)
      || (r.rows[j].pos == m.pos && IsEmpty(r.rows[j].dir)
          && Despawned(m.entity) in issued && ExplosionAt(m.pos) in issued)
  {
    var s := BulletPass(t, j);
    assert s.rows[j] == t.rows[j];
    RowSettles(t, j, n);
    BulletStepRow(s, j);
    if Hits(s, j) {
      HitIsIssued(t, j, n);
    }
  }

  /** The row of bullet `i` after its own step. */
  lemma BulletStepRow(t: Tick, i: nat)
    requires i < |t.rows|
    ensures var m := t.rows[i];
      BulletStep(t, i).rows[i] == if Hits(t, i) then m.(dir := Zero) else m.(pos := Add(m.pos, m.dir))
  {
  }

  /** A bullet that hits has its despawn and its explosion among the
      commands issued by the end of the pass. */
  lemma HitIsIssued(t: Tick, j: nat, n: nat)
    requires j < n <= |t.rows| && Hits(BulletPass(t, j), j)
    ensures var issued := BulletPass(t, n).log[|t.log|..];
      Despawned(t.rows[j].entity) in issued && ExplosionAt(t.rows[j].pos) in issued
  {
    var hit := [Despawned(t.rows[j].entity), ExplosionAt(t.rows[j].pos)];
    PassHitLog(t, j);
    LogGrows(t, j + 1, n);
    var s, u, r := BulletPass(t, j).log, BulletPass(t, j + 1).log, BulletPass(t, n).log;
    IssuedLast(t.log, s, hit, hit[0]);
    IssuedLast(t.log, s, hit, hit[1]);
    IssuedEarlier(t.log, u, r, hit[0]);
    IssuedEarlier(t.log, u, r, hit[1]);
  }

  /** The commands the iteration of a bullet that hits appends. */
  lemma PassHitLog(t: Tick, j: nat)
    requires j < |t.rows| && Hits(BulletPass(t, j), j)
    ensures BulletPass(t, j + 1).log
         == BulletPass(t, j).log + [Despawned(t.rows[j].entity), ExplosionAt(t.rows[j].pos)]
  {
    var s := BulletPass(t, j);
    assert s.rows[j] == t.rows[j];
    assert BulletPass(t, j + 1) == BulletStep(s, j);
  }

  /** Once its own iteration is over, a bullet's row does not change again. */
  lemma {:induction false} RowSettles(t: Tick, j: nat, n: nat)
    requires j < n <= |t.rows|
    ensures BulletPass(t, n).rows[j] == BulletPass(t, j + 1).rows[j]
  {
    if n > j + 1 {
      RowSettles(t, j, n - 1);
      assert BulletPass(t, n) == BulletStep(BulletPass(t, n - 1), n - 1);
    }
  }

  /** The command buffer only grows along the pass. */
  lemma {:induction false} LogGrows(t: Tick, m: nat, n: nat)
    requires m <= n <= |t.rows|
    ensures BulletPass(t, m).log <= BulletPass(t, n).log
  {
    if m < n {
      LogGrows(t, m, n - 1);
      assert BulletPass(t, n) == BulletStep(BulletPass(t, n - 1), n - 1);
      PrefixTransitive(BulletPass(t, m).log, BulletPass(t, n - 1).log, BulletPass(t, n).log);
    }
  }


  /** What a later batch appends is among the commands issued since `a`. */
  lemma IssuedLast<T>(a: seq<T>, b: seq<T>, c: seq<T>, x: T)
    requires a <= b && x in c
    ensures x in (b + c)[|a|..]
  {
    assert (b + c)[|a|..] == b[|a|..] + c;
  }

  /** Commands issued since `a` stay issued as the buffer grows. */
  lemma IssuedEarlier<T>(a: seq<T>, b: seq<T>, c: seq<T>, x: T)
    requires a <= b <= c && x in b[|a|..]
    ensures x in c[|a|..]
  {
    assert c[|a|..] == b[|a|..] + c[|b|..];
  }

  /** A bullet pass records only soft damage: every cell it adds to the
      ledger is soft, and the cells already there keep their flags. */
  lemma {:induction false} BulletPassDamagesSoftly(t: Tick, n: nat)
    requires n <= |t.rows|
    ensures var r := BulletPass(t, n);
      && t.damage.Keys <= r.damage.Keys
      && (forall p | p in t.damage :: r.damage[p] == t.damage[p])
      && (forall p | p in r.damage && p !in t.damage :: !r.damage[p])
  {
    if n > 0 {
      var s := BulletPass(t, n - 1);
      var r := BulletPass(t, n);
      BulletPassDamagesSoftly(t, n - 1);
      assert r == BulletStep(s, n - 1);
      if Hits(s, n - 1) {
        var q := Add(s.rows[n - 1].pos, s.rows[n - 1].dir);
        assert r.damage == Damaged(s.damage, q, false);
        forall p | p in r.damage && p !in t.damage
          ensures !r.damage[p]
        {
          if p != q {
            assert p in s.damage && r.damage[p] == s.damage[p];
          }
        }
      } else {
        assert r.damage == s.damage;
      }
    }
  }

  /** Once a bullet has moved into a cell, that cell stays indexed to it for
      the rest of the pass. */
  lemma {:induction false} MovedBulletKeepsCell(t: Tick, i: nat, n: nat)
    requires IndexAgrees(t.occ, t.rows) && i < n <= |t.rows|
    requires !Hits(BulletPass(t, i), i)
    ensures var q := Add(t.rows[i].pos, t.rows[i].dir);
      q in BulletPass(t, n).occ && BulletPass(t, n).occ[q] == t.rows[i].entity
  {
    var q := Add(t.rows[i].pos, t.rows[i].dir);
    var k := n - 1;
    var s := BulletPass(t, k);
    var r := BulletPass(t, n);
    assert r == BulletStep(s, k);
    BulletPassKeepsIndex(t, k);
    BulletStepOutcome(s, k);
    if k == i {
      assert s.rows[i] == t.rows[i];
      assert s.occ[t.rows[i].pos] == t.rows[i].entity;
    } else {
      MovedBulletKeepsCell(t, i, k);
      assert q in s.occ && s.occ[q] == t.rows[i].entity;
      if Hits(s, k) {
        assert r.occ == s.occ;
      } else {
        var p := s.rows[k].pos;
        assert s.occ[p] == s.rows[k].entity == t.rows[k].entity != t.rows[i].entity;
        assert p != q && q != Add(p, s.rows[k].dir);
        assert r.occ == Rekey(s.occ, p, Add(p, s.rows[k].dir));
        assert r.occ[q] == s.occ[q];
      }
    }
  }

  /** The index is updated as each bullet commits its move, so a later bullet
      aimed at a cell an earlier bullet moved into in the same pass hits it. */
  lemma CommittedMoveBlocksLaterBullet(t: Tick, i: nat, j: nat)
    requires IndexAgrees(t.occ, t.rows) && i < j < |t.rows|
    requires !Hits(BulletPass(t, i), i)
    requires Add(t.rows[j].pos, t.rows[j].dir) == Add(t.rows[i].pos, t.rows[i].dir)
    ensures Hits(BulletPass(t, j), j)
  {
    MovedBulletKeepsCell(t, i, j);
  }
}
