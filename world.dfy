/** The effect of deferred commands on the entities that already exist when
    they are applied. An entity holds at most one component of each kind;
    `insert` replaces the components of the kinds it brings. Spawned entities
    receive fresh identifiers that this model does not track, so `Spawned`
    leaves the existing entities as they are. */
module World {
  import opened Components

  /** Existing entities and their components. */
  type Store = map<EntityId, Bundle>

  /** The kinds of the components in `b`. */
  function KindsOf(b: Bundle): (ks: set<nat>)
    ensures forall c | c in b :: Kind(c) in ks
  {
    if b == [] then {} else {Kind(b[0])} + KindsOf(b[1..])
  }

  lemma KindsOfPair(a: Component, b: Component)
    ensures KindsOf([a, b]) == {Kind(a), Kind(b)}
  {
    assert [a, b][1..] == [b] && [b][1..] == [];
    assert KindsOf([b]) == {Kind(b)} + KindsOf([]);
  }

  /** `b` without the components whose kind is in `kinds`, order kept. */
  function Strip(b: Bundle, kinds: set<nat>): Bundle
  {
    if b == [] then []
    else (if Kind(b[0]) in kinds then [] else [b[0]]) + Strip(b[1..], kinds)
  }

  /** Stripping keeps exactly the components of the other kinds. */
  lemma {:induction false} StripKeepsOtherKinds(b: Bundle, kinds: set<nat>)
    ensures forall c :: c in Strip(b, kinds) <==> c in b && Kind(c) !in kinds
  {
    if b != [] {
      StripKeepsOtherKinds(b[1..], kinds);
      assert b == [b[0]] + b[1..];
    }
  }

  /** The components of an entity after `insert(entity, added)`: those of
      `added`, and the held ones of every kind `added` does not bring. */
  function Merge(held: Bundle, added: Bundle): (r: Bundle)
    ensures forall c :: c in r <==> c in added || (c in held && Kind(c) !in KindsOf(added))
  {
    StripKeepsOtherKinds(held, KindsOf(added));
    Strip(held, KindsOf(added)) + added
  }

  /** The store after one command is applied. */
  function Apply(w: Store, c: Command): (r: Store)
    ensures r.Keys <= w.Keys
    ensures forall e | e in w && (c.Spawned? || e != c.entity) :: e in r && r[e] == w[e]
  {
    match c
    case Spawned(_) => w
    case Despawned(e) => w - {e}
    case Inserted(e, b) => if e in w then w[e := Merge(w[e], b)] else w
    case Removed(e, k) => if e in w then w[e := Strip(w[e], {Kind(k)})] else w
  }

  /** The store after a command buffer is applied in order. */
  function ApplyAll(w: Store, cs: seq<Command>): Store
  {
    if cs == [] then w else ApplyAll(Apply(w, cs[0]), cs[1..])
  }

  /** Applying two buffers one after the other is applying their concatenation. */
  lemma {:induction false} ApplyAllAppend(w: Store, a: seq<Command>, b: seq<Command>)
    ensures ApplyAll(w, a + b) == ApplyAll(ApplyAll(w, a), b)
  {
    if a != [] {
      assert (a + b)[1..] == a[1..] + b;
      ApplyAllAppend(Apply(w, a[0]), a[1..], b);
    } else {
      assert a + b == b;
    }
  }
}
