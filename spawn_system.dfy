/** The spawner (src/game/systems/SpawnSystem.js): a counter of world ticks
    that, once it reaches the ramp's spawn interval, starts again from zero
    and adds one entity at the spawn ring.

    The two `Math.random()` draws, the lane draw `r` and the type draw
    `roll`, are parameters, both in [0, 1). */
module Spawning {
  import opened Config
  import opened Entities
  import opened Registry
  import opened State

  /** Cumulative type thresholds: 65% enemy, 15% wall, 10% double wall,
      and the remaining 10% tank. */
  const ENEMY_THRESHOLD: real := 0.65
  const WALL_THRESHOLD: real := 0.80
  const DOUBLEWALL_THRESHOLD: real := 0.90

  /** A pair of draws for one spawn. */
  datatype Draw = Draw(r: real, roll: real)

  predicate ValidDraw(d: Draw)
  {
    0.0 <= d.r < 1.0
  }

  /** The lane `Math.floor(r * NUM_LANES)`. */
  function SpawnLane(r: real): (lane: int)
    requires 0.0 <= r < 1.0
    ensures 0 <= lane < NUM_LANES
  {
    (r * NUM_LANES as real).Floor
  }

  /** Adding the entity chosen by `roll` at the spawn ring of `lane`: tanks
      go into the enemies collection. */
  function Place(c: Collections, lane: int, roll: real): Collections
  {
    var depth := MAX_DEPTH as real;
    if roll < ENEMY_THRESHOLD then c.(enemies := c.enemies + [NewEnemy(lane, depth)])
    else if roll < WALL_THRESHOLD then c.(walls := c.walls + [NewWall(lane, depth)])
    else if roll < DOUBLEWALL_THRESHOLD then c.(doublewalls := c.doublewalls + [NewDoubleWall(lane, depth)])
    else c.(enemies := c.enemies + [NewTank(lane, depth)])
  }

  /** The spawn counter and the collections after one `maybeSpawn`. */
  datatype SpawnResult = SpawnResult(counter: int, c: Collections)

  /** One `maybeSpawn` with the given interval. */
  function SpawnStep(counter: int, interval: int, c: Collections, d: Draw): (r: SpawnResult)
    requires ValidDraw(d)
    ensures r.counter == 0 || r.counter == counter + 1
    ensures counter >= 0 ==> r.counter >= 0
    ensures interval >= 1 ==> r.counter < interval
    ensures r.c.bullets == c.bullets
  {
    if counter + 1 >= interval then SpawnResult(0, Place(c, SpawnLane(d.r), d.roll))
    else SpawnResult(counter + 1, c)
  }

  /** The number of obstacles (enemies, tanks, walls, double walls) held. */
  function Obstacles(c: Collections): nat
  {
    |c.enemies| + |c.walls| + |c.doublewalls|
  }

  /** `maybeSpawn` called once per draw, starting from a reset counter. */
  function Run(c: Collections, interval: int, draws: seq<Draw>): SpawnResult
    requires forall i :: 0 <= i < |draws| ==> ValidDraw(draws[i])
  {
    if draws == [] then SpawnResult(0, c)
    else
      var before := Run(c, interval, draws[..|draws| - 1]);
      SpawnStep(before.counter, interval, before.c, draws[|draws| - 1])
  }

  /** One call counts the tick first; it spawns exactly when the counted
      ticks reach the interval, and then restarts the count and adds
      exactly one entity, of the type the roll selects, alive on the spawn
      ring in a lane of the tunnel, to the one collection that type belongs
      in; the other collections keep their contents. Otherwise no collection
      changes. Bullets are never touched. */
  lemma SpawnStepAddsOne(counter: int, interval: int, c: Collections, d: Draw)
    requires ValidDraw(d)
    ensures var res := SpawnStep(counter, interval, c, d);
      res.c.bullets == c.bullets
      && (counter + 1 >= interval <==> res.counter == 0 && Obstacles(res.c) == Obstacles(c) + 1)
      && (counter + 1 < interval ==> res.counter == counter + 1 && res.c == c)
    ensures counter + 1 >= interval ==>
      var res := SpawnStep(counter, interval, c, d);
      var kind := if d.roll < ENEMY_THRESHOLD then Enemy
                  else if d.roll < WALL_THRESHOLD then Wall
                  else if d.roll < DOUBLEWALL_THRESHOLD then DoubleWall
                  else Tank;
      var added := if kind == Wall then res.c.walls
                   else if kind == DoubleWall then res.c.doublewalls
                   else res.c.enemies;
      var old_ := if kind == Wall then c.walls
                  else if kind == DoubleWall then c.doublewalls
                  else c.enemies;
      added == old_ + [added[|added| - 1]]
      && added[|added| - 1].kind == kind
      && added[|added| - 1].alive
      && added[|added| - 1].depth == MAX_DEPTH as real
      && added[|added| - 1].lane == SpawnLane(d.r)
      && 0 <= added[|added| - 1].lane < NUM_LANES
      && (kind != Wall ==> res.c.walls == c.walls)
      && (kind != DoubleWall ==> res.c.doublewalls == c.doublewalls)
      && (kind == Wall || kind == DoubleWall ==> res.c.enemies == c.enemies)
  {
  }

  /** The counting part of `SpawnStepAddsOne`. */
  lemma SpawnStepCounts(counter: int, interval: int, c: Collections, d: Draw)
    requires ValidDraw(d)
    ensures SpawnStep(counter, interval, c, d).counter == if counter + 1 >= interval then 0 else counter + 1
    ensures Obstacles(SpawnStep(counter, interval, c, d).c)
         == Obstacles(c) + if counter + 1 >= interval then 1 else 0
    ensures SpawnStep(counter, interval, c, d).c.bullets == c.bullets
  {
  }

  /** With a constant interval of at least one tick, n calls after a reset
      spawn exactly n / interval entities and leave the counter at
      n % interval. */
  lemma {:induction false} SpawnCadence(c: Collections, interval: int, draws: seq<Draw>)
    requires interval >= 1
    requires forall i :: 0 <= i < |draws| ==> ValidDraw(draws[i])
    ensures Run(c, interval, draws).counter == |draws| % interval
    ensures Obstacles(Run(c, interval, draws).c) == Obstacles(c) + |draws| / interval
    ensures Run(c, interval, draws).c.bullets == c.bullets
  {
    if draws != [] {
      var n := |draws|;
      var prefix := draws[..n - 1];
      SpawnCadence(c, interval, prefix);
      var before := Run(c, interval, prefix);
      var after := Run(c, interval, draws);
      assert after == SpawnStep(before.counter, interval, before.c, draws[n - 1]);
      var counter, spawns := before.counter, Obstacles(before.c) - Obstacles(c);
      SpawnStepCounts(counter, interval, before.c, draws[n - 1]);
      CadenceArithmetic(n, interval, counter, spawns);
      assert after.counter == if counter + 1 >= interval then 0 else counter + 1;
      assert Obstacles(after.c) == Obstacles(c) + spawns + if counter + 1 >= interval then 1 else 0;
    }
  }

  /** The counter and spawn count after n calls follow from those after
      n - 1. */
  lemma CadenceArithmetic(n: int, i: int, counter: int, spawns: int)
    requires n >= 1 && i >= 1
    requires counter == (n - 1) % i && spawns == (n - 1) / i
    ensures (if counter + 1 >= i then 0 else counter + 1) == n % i
    ensures spawns + (if counter + 1 >= i then 1 else 0) == n / i
  {
    DivModStep(n, i);
  }

  /** How n / i and n % i move from n - 1 to n. */
  lemma DivModStep(n: int, i: int)
    requires n >= 1 && i >= 1
    ensures (n - 1) % i + 1 >= i ==> n % i == 0 && n / i == (n - 1) / i + 1
    ensures (n - 1) % i + 1 < i ==> n % i == (n - 1) % i + 1 && n / i == (n - 1) / i
  {
    var q, r := (n - 1) / i, (n - 1) % i;
    assert n - 1 == q * i + r;
    if r + 1 >= i {
      assert n == (q + 1) * i;
      DivModUnique(n, i, q + 1, 0);
    } else {
      DivModUnique(n, i, q, r + 1);
    }
  }

  /** Quotient and remainder are determined by n == q * i + r, 0 <= r < i. */
  lemma DivModUnique(n: int, i: int, q: int, r: int)
    requires i >= 1 && 0 <= r < i && n == q * i + r
    ensures n / i == q && n % i == r
  {
    var q', r' := n / i, n % i;
    assert q' * i + r' == q * i + r;
    assert (q' - q) * i == r - r' by {
      assert (q' - q) * i == q' * i - q * i;
    }
    if q' - q >= 1 {
      MulAtLeast(q' - q, i);
    } else if q - q' >= 1 {
      MulAtLeast(q - q', i);
    }
  }

  lemma MulAtLeast(d: int, i: int)
    requires d >= 1 && i >= 1
    ensures d * i >= i
  {
  }

  class SpawnSystem {
    const entityManager: EntityManager
    const state: GameState
    var ticksSinceSpawn: int

    constructor(entityManager: EntityManager, state: GameState)
      ensures this.entityManager == entityManager && this.state == state
      ensures ticksSinceSpawn == 0
    {
      this.entityManager := entityManager;
      this.state := state;
      ticksSinceSpawn := 0;
    }

    method Reset()
      modifies this
      ensures ticksSinceSpawn == 0
    {
      ticksSinceSpawn := 0;
    }

    /** `maybeSpawn`, with the draws it would make given as `d`. */
    method MaybeSpawn(d: Draw)
      requires ValidDraw(d) && state.Valid()
      modifies this, entityManager
      ensures SpawnResult(ticksSinceSpawn, entityManager.Snap())
           == SpawnStep(old(ticksSinceSpawn), SpawnInterval(state.spawnRamp, state.elapsedMs),
                        old(entityManager.Snap()), d)
    {
      ticksSinceSpawn := ticksSinceSpawn + 1;
      var interval := state.GetSpawnInterval();
      if ticksSinceSpawn >= interval {
        ticksSinceSpawn := 0;
        var lane := SpawnLane(d.r);
        var depth := MAX_DEPTH as real;
        if d.roll < ENEMY_THRESHOLD {
          var e := new Entity.Enemy(lane, depth);
          entityManager.AddEnemy(e.Val());
        } else if d.roll < WALL_THRESHOLD {
          var w := new Entity.Wall(lane, depth);
          entityManager.AddWall(w.Val());
        } else if d.roll < DOUBLEWALL_THRESHOLD {
          var dw := new Entity.DoubleWall(lane, depth);
          entityManager.AddDoubleWall(dw.Val());
        } else {
          var t := new Entity.Tank(lane, depth);
          entityManager.AddEnemy(t.Val());
        }
      }
    }
  }
}
