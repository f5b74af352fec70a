/** The entity registry (src/game/entities/EntityManager.js): four arrays of
    entities that the systems append to and filter.

    The registry holds the entities' values. A system that updates an entity
    in place (ticks it, kills it, hits it) replaces the value at that
    entity's index with the one the corresponding `Entity` method produces. */
module Registry {
  import opened Entities

  /** The values of the four collections at one moment. */
  datatype Collections = Collections(
    enemies: seq<EntityVal>,
    bullets: seq<EntityVal>,
    walls: seq<EntityVal>,
    doublewalls: seq<EntityVal>)

  /** `filter(e => e.alive)`. */
  function LiveVals(s: seq<EntityVal>): seq<EntityVal>
  {
    if s == [] then [] else (if s[0].alive then [s[0]] else []) + LiveVals(s[1..])
  }

  /** removeDeadBullets */
  function PurgeBullets(c: Collections): Collections
  {
    c.(bullets := LiveVals(c.bullets))
  }

  /** removeDeadEnemies */
  function PurgeEnemies(c: Collections): Collections
  {
    c.(enemies := LiveVals(c.enemies))
  }

  /** removeDeadEnemiesAndWalls */
  function PurgeObstacles(c: Collections): Collections
  {
    c.(enemies := LiveVals(c.enemies), walls := LiveVals(c.walls),
       doublewalls := LiveVals(c.doublewalls))
  }

  /** Filtering keeps exactly the live entries, in their original order:
      it distributes over concatenation and keeps a single entry exactly
      when that entry is alive. */
  lemma {:induction false} LiveValsKeepsOrder(s: seq<EntityVal>, t: seq<EntityVal>)
    ensures LiveVals(s + t) == LiveVals(s) + LiveVals(t)
  {
    if s == [] {
      assert s + t == t;
    } else {
      var st := s + t;
      var head := if s[0].alive then [s[0]] else [];
      assert st[0] == s[0] && st[1..] == s[1..] + t;
      assert LiveVals(st) == head + LiveVals(s[1..] + t);
      LiveValsKeepsOrder(s[1..], t);
      assert LiveVals(s) == head + LiveVals(s[1..]);
    }
  }

  /** A single entry is kept exactly when it is alive. */
  lemma LiveValsSingle(x: EntityVal)
    ensures LiveVals([x]) == if x.alive then [x] else []
  {
    assert [x][1..] == [];
  }

  /** An entry survives filtering exactly when it was present and alive. */
  lemma {:induction false} LiveValsMembers(s: seq<EntityVal>)
    ensures forall x :: x in LiveVals(s) <==> x in s && x.alive
    ensures |LiveVals(s)| <= |s|
  {
    if s != [] {
      LiveValsMembers(s[1..]);
      assert forall x :: x in s <==> x == s[0] || x in s[1..];
    }
  }

  /** Filtering twice is filtering once, and filtering a sequence of live
      entries changes nothing. */
  lemma {:induction false} LiveValsIdempotent(s: seq<EntityVal>)
    ensures LiveVals(LiveVals(s)) == LiveVals(s)
    ensures (forall i :: 0 <= i < |s| ==> s[i].alive) ==> LiveVals(s) == s
  {
    if s != [] {
      LiveValsIdempotent(s[1..]);
      LiveValsKeepsOrder(if s[0].alive then [s[0]] else [], LiveVals(s[1..]));
      LiveValsSingle(s[0]);
      if forall i :: 0 <= i < |s| ==> s[i].alive {
        assert forall i :: 0 <= i < |s[1..]| ==> s[1..][i].alive by {
          forall i | 0 <= i < |s[1..]| ensures s[1..][i].alive {
            assert s[1..][i] == s[i + 1];
          }
        }
        assert s == [s[0]] + s[1..];
      }
    }
  }

  /** Filtering a collection with no live entry leaves nothing. */
  lemma {:induction false} LiveValsNone(s: seq<EntityVal>)
    requires forall i :: 0 <= i < |s| ==> !s[i].alive
    ensures LiveVals(s) == []
  {
    if s != [] {
      LiveValsNone(s[1..]);
    }
  }

  class EntityManager {
    var enemies: seq<EntityVal>
    var bullets: seq<EntityVal>
    var walls: seq<EntityVal>
    var doublewalls: seq<EntityVal>

    /** The four collections as one value. */
    function Snap(): Collections
      reads this
    {
      Collections(enemies, bullets, walls, doublewalls)
    }

    constructor()
      ensures Snap() == Collections([], [], [], [])
    {
      enemies, bullets, walls, doublewalls := [], [], [], [];
    }

    method Reset()
      modifies this
      ensures Snap() == Collections([], [], [], [])
    {
      enemies := [];
      bullets := [];
      walls := [];
      doublewalls := [];
    }

    method AddEnemy(e: EntityVal)
      modifies this
      ensures Snap() == old(Snap()).(enemies := old(enemies) + [e])
    {
      enemies := enemies + [e];
    }

    method AddBullet(b: EntityVal)
      modifies this
      ensures Snap() == old(Snap()).(bullets := old(bullets) + [b])
    {
      bullets := bullets + [b];
    }

    method AddWall(w: EntityVal)
      modifies this
      ensures Snap() == old(Snap()).(walls := old(walls) + [w])
    {
      walls := walls + [w];
    }

    method AddDoubleWall(dw: EntityVal)
      modifies this
      ensures Snap() == old(Snap()).(doublewalls := old(doublewalls) + [dw])
    {
      doublewalls := doublewalls + [dw];
    }

    method RemoveDeadBullets()
      modifies this
      ensures Snap() == PurgeBullets(old(Snap()))
    {
      bullets := LiveVals(bullets);
    }

    method RemoveDeadEnemies()
      modifies this
      ensures Snap() == PurgeEnemies(old(Snap()))
    {
      enemies := LiveVals(enemies);
    }

    method RemoveDeadEnemiesAndWalls()
      modifies this
      ensures Snap() == PurgeObstacles(old(Snap()))
    {
      enemies := LiveVals(enemies);
      walls := LiveVals(walls);
      doublewalls := LiveVals(doublewalls);
    }
  }
}
