/** `move_pushbox`: on each keyframe every push box that stands on an
    undamaged cell and has a direction either moves one cell, or, when the
    target cell is indexed, stops and records soft damage at the target. The
    system issues no commands. */
module PushBoxes {
  import opened Components
  import opened Resources

  /** Box `i` is passed over: its cell is damaged or its direction is empty. */
  predicate Skipped(t: Tick, i: nat)
    requires i < |t.rows|
  {
    t.rows[i].pos in t.damage || IsEmpty(t.rows[i].dir)
  }

  /** Box `i` is not passed over and its target cell is indexed. */
  predicate Blocked(t: Tick, i: nat)
    requires i < |t.rows|
  {
    !Skipped(t, i) && Add(t.rows[i].pos, t.rows[i].dir) in t.occ
  }

  /** One iteration of the loop of `move_pushbox`, on row `i`. */
  function PushStep(t: Tick, i: nat): (r: Tick)
    requires i < |t.rows|
    ensures |r.rows| == |t.rows| && r.rows[i].entity == t.rows[i].entity
    ensures forall j {:trigger r.rows[j]} | 0 <= j < |t.rows| && j != i :: r.rows[j] == t.rows[j]
    ensures r.log == t.log && t.damage.Keys <= r.damage.Keys
  {
    var m := t.rows[i];
    if m.pos in t.damage || IsEmpty(m.dir) then t
    else
      var q := Add(m.pos, m.dir);
      if q in t.occ then
        t.(rows := t.rows[i := m.(dir := Zero)], damage := Damaged(t.damage, q, false))
      else
        t.(rows := t.rows[i := m.(pos := q)], occ := Rekey(t.occ, m.pos, q))
  }

  /** The first `n` iterations of the loop, in query order. No command is
      ever issued and the damaged cells only grow. */
  function PushPass(t: Tick, n: nat): (r: Tick)
    requires n <= |t.rows|
    ensures |r.rows| == |t.rows|
    ensures forall j {:trigger r.rows[j]} | 0 <= j < |t.rows| :: r.rows[j].entity == t.rows[j].entity
    ensures forall j {:trigger r.rows[j]} | n <= j < |t.rows| :: r.rows[j] == t.rows[j]
    ensures r.log == t.log && t.damage.Keys <= r.damage.Keys
  {
    if n == 0 then t else PushStep(PushPass(t, n - 1), n - 1)
  }

  /** `move_pushbox` over the query rows `boxes`, with `index` the occupancy
      index `get_occupied` builds from the non-wall entities. */
  method MovePushBox(keyframe: bool, index: map<Pos, EntityId>, boxes: array<Mover>, damage: DamageMap)
    modifies boxes, damage
    ensures var before := Tick(old(boxes[..]), index, old(damage.cells), []);
      var after := if keyframe then PushPass(before, boxes.Length) else before;
      boxes[..] == after.rows && damage.cells == after.damage
  {
    if !keyframe {
      return;
    }
    var occupied := new OccupiedMap(index);
    ghost var start := Tick(boxes[..], index, damage.cells, []);
    for i := 0 to boxes.Length
      invariant Tick(boxes[..], occupied.cells, damage.cells, []) == PushPass(start, i)
    {
      MoveOneBox(i, boxes, occupied, damage);
    }
  }

  /** The body of the loop of `move_pushbox`, on row `i`. */
  method MoveOneBox(i: nat, boxes: array<Mover>, occupied: OccupiedMap, damage: DamageMap)
    requires i < boxes.Length
    modifies boxes, occupied, damage
    ensures Tick(boxes[..], occupied.cells, damage.cells, [])
         == PushStep(Tick(old(boxes[..]), old(occupied.cells), old(damage.cells), []), i)
  {
    var m := boxes[i];
    if damage.IsDamaged(m.pos) || IsEmpty(m.dir) {
      return;
    }
    var newPos := Add(m.pos, m.dir);
    if occupied.IsOccupied(newPos) {
      damage.DoDamage(newPos, false);
      boxes[i] := m.(dir := Zero);
    } else {
      occupied.Mv(m.pos, newPos);
      boxes[i] := m.(pos := newPos);
    }
  }

  /** What one step does to box `i`: a skipped box and everything else stay
      as they are; a blocked box keeps its cell, its direction becomes zero
      and soft damage is recorded at the target only; a free box moves by
      exactly its direction, keeps it, and its index entry moves with it. */
  lemma PushStepOutcome(t: Tick, i: nat)
    requires i < |t.rows|
    ensures var r := PushStep(t, i); var m := t.rows[i]; var q := Add(m.pos, m.dir);
      if Skipped(t, i) then r == t
      else if Blocked(t, i) then
        && r.rows[i].pos == m.pos && IsEmpty(r.rows[i].dir) && r.occ == t.occ
        && r.damage.Keys == t.damage.Keys + {q}
        && (forall p | p in t.damage :: r.damage[p] == t.damage[p])
        && (q !in t.damage ==> !r.damage[q])
      else
        && r.rows[i].pos == q && r.rows[i].dir == m.dir && r.damage == t.damage
        && (m.pos in t.occ ==> r.occ == Rekey(t.occ, m.pos, q) && r.occ[q] == t.occ[m.pos])
  {
  }

  /** A blocked box is a fixed point: with its direction now zero, the next
      keyframe passes over it and changes nothing. */
  lemma BlockedBoxIsFixedPoint(t: Tick, i: nat)
    requires i < |t.rows| && Blocked(t, i)
    ensures Skipped(PushStep(t, i), i)
    ensures PushStep(PushStep(t, i), i) == PushStep(t, i)
  {
    PushStepOutcome(t, i);
  }

  /** One push step keeps the index in agreement with the rows. */
  lemma PushStepKeepsIndex(t: Tick, i: nat)
    requires i < |t.rows| && IndexAgrees(t.occ, t.rows)
    ensures IndexAgrees(PushStep(t, i).occ, PushStep(t, i).rows)
  {
    var r := PushStep(t, i);
    var m := t.rows[i];
    if !Skipped(t, i) && !Blocked(t, i) {
      forall j | 0 <= j < |r.rows|
        ensures r.rows[j].pos in r.occ && r.occ[r.rows[j].pos] == r.rows[j].entity
      {
        if j != i {
          assert t.occ[t.rows[j].pos] != t.occ[m.pos];
        }
      }
    }
  }

  /** The index stays in agreement with the boxes' positions through the
      whole pass. */
  lemma {:induction false} PushPassKeepsIndex(t: Tick, n: nat)
    requires n <= |t.rows| && IndexAgrees(t.occ, t.rows)
    ensures IndexAgrees(PushPass(t, n).occ, PushPass(t, n).rows)
  {
    if n > 0 {
      PushPassKeepsIndex(t, n - 1);
      PushStepKeepsIndex(PushPass(t, n - 1), n - 1);
    }
  }

  /** Each box the pass has processed was passed over and is as it was, or
      was blocked and now stands in its old cell with a zero direction and a
      damaged target, or moved by exactly its direction. */
  lemma {:induction false} PushPassOutcome(t: Tick, n: nat, j: nat)
    requires j < n <= |t.rows|
    ensures var r := PushPass(t, n); var m := t.rows[j];
      || r.rows[j] == m
      || (r.rows[j].pos == m.pos && IsEmpty(r.rows[j].dir) && Add(m.pos, m.dir) in r.damage)
      || (r.rows[j].pos == Add(m.pos, m.dir) && r.rows[j].dir == m.dir)
  {
    var s := PushPass(t, n - 1);
    var r := PushPass(t, n);
    if j == n - 1 {
      assert s.rows[j] == t.rows[j];
      PushStepOutcome(s, j);
    } else {
      PushPassOutcome(t, n - 1, j);
      assert r.rows[j] == s.rows[j];
    }
  }

  /** A box that blocks an earlier box in the same pass is frozen for the
      rest of it: the blocked box damages the blocker's cell, and a box on a
      damaged cell is passed over. */
  lemma BlockerIsFrozen(t: Tick, i: nat, j: nat)
    requires i < j < |t.rows|
    requires Blocked(PushPass(t, i), i)
    requires t.rows[j].pos == Add(t.rows[i].pos, t.rows[i].dir)
    ensures PushPass(t, j + 1).rows[j] == t.rows[j]
  {
    var s := PushPass(t, i);
    assert s.rows[i] == t.rows[i];
    PushStepOutcome(s, i);
    var u := PushPass(t, j);
    assert PushPass(t, i + 1).damage.Keys <= u.damage.Keys by {
      PassDamageGrows(t, i + 1, j);
    }
    assert u.rows[j] == t.rows[j];
    PushStepOutcome(u, j);
  }

  /** The damaged cells only grow along the pass. */
  lemma {:induction false} PassDamageGrows(t: Tick, m: nat, n: nat)
    requires m <= n <= |t.rows|
    ensures PushPass(t, m).damage.Keys <= PushPass(t, n).damage.Keys
  {
    if m < n {
      PassDamageGrows(t, m, n - 1);
    }
  }
}
