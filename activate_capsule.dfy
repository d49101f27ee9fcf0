/** `activate_capsule_system`: once the player holds at least as many screws
    as the level asks for, every capsule that is not yet usable is repaired
    and a bomb sound is sent for it. The system runs on every tick, not only
    on keyframes, and it only reads the two screw counts. */
module ActivateCapsule {
  import opened Components
  import opened Resources
  import opened World
  import opened Entities

  /** The commands issued by repairing each of `capsules`, in order. */
  function Repairs(capsules: seq<EntityId>): (cs: seq<Command>)
    ensures |cs| == 2 * |capsules|
  {
    if capsules == [] then []
    else Repairs(capsules[..|capsules| - 1]) + RepairCapsuleCommands(capsules[|capsules| - 1])
  }

  /** `n` bomb sounds. */
  function Bombs(n: nat): seq<Sound>
  {
    seq(n, _ => BombSound)
  }

  /** `activate_capsule_system` over the query rows `capsules`, the entities
      with `Capsule` and without `Usable`. */
  method ActivateCapsules(capsules: seq<EntityId>, inventoryScrews: nat, levelScrews: nat,
                          commands: Commands, sounds: SoundEvents)
    modifies commands, sounds
    ensures inventoryScrews >= levelScrews ==>
      commands.log == old(commands.log) + Repairs(capsules) && sounds.sent == old(sounds.sent) + Bombs(|capsules|)
    ensures inventoryScrews < levelScrews ==>
      commands.log == old(commands.log) && sounds.sent == old(sounds.sent)
  {
    var enough := inventoryScrews >= levelScrews;
    for i := 0 to |capsules|
      invariant commands.log == old(commands.log) + (if enough then Repairs(capsules[..i]) else [])
      invariant sounds.sent == old(sounds.sent) + (if enough then Bombs(i) else [])
    {
      if inventoryScrews >= levelScrews {
        RepairCapsule(commands, capsules[i]);
        sounds.Send(BombSound);
        assert capsules[..i + 1][..i] == capsules[..i];
        assert Repairs(capsules[..i + 1]) == Repairs(capsules[..i]) + RepairCapsuleCommands(capsules[i]);
        AppendAssociates(old(commands.log), Repairs(capsules[..i]), RepairCapsuleCommands(capsules[i]));
        assert Bombs(i + 1) == Bombs(i) + [BombSound];
        AppendAssociates(old(sounds.sent), Bombs(i), [BombSound]);
      }
    }
    assert capsules[..|capsules|] == capsules;
  }

  /** An entity the query of the system visits: a capsule without `Usable`. */
  ghost predicate Inert(w: Store, e: EntityId)
  {
    e in w && Capsule in w[e] && !HasUsable(w[e])
  }

  /** The components of a capsule holding `b` once its repair is applied. */
  function Repaired(b: Bundle): Bundle
  {
    Merge(Strip(b, {Kind(Moveable)}), [Usable(UsableCapsule), Tiles([17, 17, 18, 18])])
  }

  /** Applying the repair of one capsule changes that capsule only. */
  lemma RepairOne(w: Store, e: EntityId)
    ensures ApplyAll(w, RepairCapsuleCommands(e)) == if e in w then w[e := Repaired(w[e])] else w
  {
    var charged := [Usable(UsableCapsule), Tiles([17, 17, 18, 18])];
    var cs := RepairCapsuleCommands(e);
    var w1 := Apply(w, Removed(e, Moveable));
    var w2 := Apply(w1, Inserted(e, charged));
    assert cs[1..] == [Inserted(e, charged)] && cs[1..][1..] == [];
    assert ApplyAll(w, cs) == ApplyAll(w1, cs[1..]);
    assert ApplyAll(w1, cs[1..]) == ApplyAll(w2, []);
  }

  /** A repaired capsule has `Usable::Capsule` and the charged tiles, no
      `Moveable`, and keeps every other component it held except an older
      `Usable` or tile sequence. */
  lemma RepairedMembers(b: Bundle)
    ensures var charged := [Usable(UsableCapsule), Tiles([17, 17, 18, 18])];
      forall c :: c in Repaired(b) <==>
        c in charged || (c in b && Kind(c) != Kind(Moveable) && Kind(c) !in KindsOf(charged))
  {
    StripKeepsOtherKinds(b, {Kind(Moveable)});
  }

  /** A repaired capsule is usable, fixed in place and still a capsule. */
  lemma RepairedCapsuleStaysCapsule(b: Bundle)
    ensures Usable(UsableCapsule) in Repaired(b) && Moveable !in Repaired(b)
    ensures Capsule in b ==> Capsule in Repaired(b)
  {
    var charged := [Usable(UsableCapsule), Tiles([17, 17, 18, 18])];
    var kept := Strip(b, {Kind(Moveable)});
    StripKeepsOtherKinds(b, {Kind(Moveable)});
    assert Moveable !in kept;
    assert Usable(UsableCapsule) in charged && Moveable !in charged;
    if Capsule in b {
      KindsOfPair(Usable(UsableCapsule), Tiles([17, 17, 18, 18]));
      assert Kind(Capsule) !in KindsOf(charged);
      assert Capsule in kept;
    }
  }

  /** Applying the commands of a whole activation: every visited capsule
      that exists is fixed in place, usable, and still a capsule; every
      other entity is untouched. */
  lemma {:induction false} RepairsActivate(w: Store, capsules: seq<EntityId>)
    ensures var r := ApplyAll(w, Repairs(capsules));
      && r.Keys == w.Keys
      && (forall x | x in w && x !in capsules :: r[x] == w[x])
      && (forall x | x in w && x in capsules ::
            Usable(UsableCapsule) in r[x] && Moveable !in r[x] && (Capsule in w[x] ==> Capsule in r[x]))
  {
    if capsules != [] {
      var init := capsules[..|capsules| - 1];
      var last := capsules[|capsules| - 1];
      assert capsules == init + [last];
      RepairsActivate(w, init);
      var w1 := ApplyAll(w, Repairs(init));
      ApplyAllAppend(w, Repairs(init), RepairCapsuleCommands(last));
      RepairOne(w1, last);
      var r := ApplyAll(w, Repairs(capsules));
      assert r == if last in w1 then w1[last := Repaired(w1[last])] else w1;
      forall x | x in w && x in capsules
        ensures Usable(UsableCapsule) in r[x] && Moveable !in r[x] && (Capsule in w[x] ==> Capsule in r[x])
      {
        if x == last {
          assert last in init || w1[last] == w[last];
          RepairedCapsuleStaysCapsule(w1[last]);
        } else {
          assert x in init;
        }
      }
    }
  }

  /** The activation is one-shot: once its commands are applied, none of the
      capsules it visited is matched by the system's query again, and the
      capsules it did not visit are as they were. */
  lemma ActivationIsOneShot(w: Store, capsules: seq<EntityId>)
    ensures var r := ApplyAll(w, Repairs(capsules));
      && (forall x | x in capsules :: !Inert(r, x))
      && (forall x | x !in capsules :: Inert(r, x) <==> Inert(w, x))
  {
    RepairsActivate(w, capsules);
  }
}
