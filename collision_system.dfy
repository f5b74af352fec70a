/** The bullet-versus-obstacle pass (src/game/systems/CollisionSystem.js).

    Every live bullet is checked, in collection order, against the live
    walls, then the live double walls, then the live enemies; the first
    obstacle it meets ends its check. A bullet matches an obstacle when the
    bullet's depth rounded down equals the obstacle's depth and their lanes
    agree (a double wall occupies two lanes). Every match kills the bullet;
    walls only flash, while enemies are struck by kind.

    The hit and wall-deflect callbacks are presentation and are left out. */
module Collision {
  import opened Config
  import opened Numerics
  import opened Entities
  import opened Registry
  import opened State

  /** The registry and the game state together. */
  datatype World = World(c: Collections, s: StateVal)

  /** The three obstacle collections, in the order a bullet meets them. */
  datatype Target = Walls | DoubleWalls | Enemies

  /** A live obstacle of collection `t` stands where a bullet in `lane`
      whose depth rounds down to `bulletDepth` is. */
  predicate Hits(t: Target, o: EntityVal, lane: int, bulletDepth: int)
  {
    o.alive && bulletDepth as real == o.depth
    && (o.lane == lane || (t == DoubleWalls && o.lane2 == lane))
  }

  /** The index of the first obstacle of `s` the bullet meets, if any. */
  function FirstHit(t: Target, s: seq<EntityVal>, lane: int, bulletDepth: int): (k: Option<nat>)
    ensures k.Some? ==> k.value < |s| && Hits(t, s[k.value], lane, bulletDepth)
    ensures k.Some? ==> forall j :: 0 <= j < k.value ==> !Hits(t, s[j], lane, bulletDepth)
    ensures k.None? <==> forall j :: 0 <= j < |s| ==> !Hits(t, s[j], lane, bulletDepth)
  {
    if s == [] then None
    else if Hits(t, s[0], lane, bulletDepth) then Some(0)
    else
      match FirstHit(t, s[1..], lane, bulletDepth)
      case None => None
      case Some(j) => Some(j + 1)
  }

  /** Kills far away (depth 4 or more) score half as much again. */
  function DistBonus(depth: real): real
  {
    if depth >= 4.0 then 1.5 else 1.0
  }

  /** A bomb's chain over the first `n` enemies: each one still alive,
      other than the bomb at `k`, dies and scores a flat 100. */
  function Detonated(w: World, k: int, n: nat): (r: World)
    requires n <= |w.c.enemies|
    ensures r.c == w.c.(enemies := r.c.enemies) && |r.c.enemies| == |w.c.enemies|
    ensures r.s == w.s.(calls := r.s.calls)
  {
    if n == 0 then w
    else
      var p := Detonated(w, k, n - 1);
      var e := p.c.enemies[n - 1];
      if !e.alive || n - 1 == k then p
      else World(p.c.(enemies := p.c.enemies[n - 1 := Killed(e)]),
                 p.s.(calls := p.s.calls + [Call.AddScore(100)]))
  }

  /** The outcome of a bullet striking the enemy at `k`, by its kind. A heart
      dies and restores health to 100. A bomb dies and scores 100 (with the
      distance bonus); then every other live enemy dies and scores a flat
      100, and the multiplier rises by 0.5, to at most 4. A tank takes a hit
      and scores 200 if it was lethal, 50 if not, with the distance bonus.
      Any other enemy dies, scores 100 with the distance bonus, and the
      multiplier rises by 0.1, to at most 4. */
  function StrikeEnemy(w: World, k: nat): (r: World)
    requires k < |w.c.enemies|
    ensures r.c.bullets == w.c.bullets && r.c.walls == w.c.walls
    ensures r.c.doublewalls == w.c.doublewalls
    ensures |r.c.enemies| == |w.c.enemies|
  {
    var e := w.c.enemies[k];
    var bonus := DistBonus(e.depth);
    var s := w.s;
    match e.kind
    case Heart =>
      World(w.c.(enemies := w.c.enemies[k := Killed(e)]), s.(health := 100))
    case Bomb =>
      var bombed := World(w.c.(enemies := w.c.enemies[k := Killed(e)]),
                          s.(calls := s.calls + [Call.AddScore(JsRound(100.0 * bonus))]));
      var chained := Detonated(bombed, k, |w.c.enemies|);
      chained.(s := chained.s.(scoreMultiplier := Min(s.scoreMultiplier + 0.5, 4.0)))
    case Tank =>
      var (hurt, lethal) := HitOutcome(e);
      var points := JsRound((if lethal then 200.0 else 50.0) * bonus);
      World(w.c.(enemies := w.c.enemies[k := hurt]), s.(calls := s.calls + [Call.AddScore(points)]))
    case _ =>
      World(w.c.(enemies := w.c.enemies[k := Killed(e)]),
            s.(calls := s.calls + [Call.AddScore(JsRound(100.0 * bonus))],
               scoreMultiplier := Min(s.scoreMultiplier + 0.1, 4.0)))
  }

  /** The check of the bullet at index `i`. */
  function ResolveBullet(w: World, i: nat): (r: World)
    requires i < |w.c.bullets|
    ensures |r.c.bullets| == |w.c.bullets| && |r.c.enemies| == |w.c.enemies|
    ensures |r.c.walls| == |w.c.walls| && |r.c.doublewalls| == |w.c.doublewalls|
  {
    var b := w.c.bullets[i];
    if !b.alive then w
    else
      var depth := b.depth.Floor;
      var c := w.c.(bullets := w.c.bullets[i := Killed(b)]);
      match FirstHit(Walls, w.c.walls, b.lane, depth)
      case Some(k) => World(c.(walls := c.walls[k := c.walls[k].(hitFlash := 1.0)]), w.s)
      case None =>
        match FirstHit(DoubleWalls, w.c.doublewalls, b.lane, depth)
        case Some(k) => World(c.(doublewalls := c.doublewalls[k := c.doublewalls[k].(hitFlash := 1.0)]), w.s)
        case None =>
          match FirstHit(Enemies, w.c.enemies, b.lane, depth)
          case Some(k) => StrikeEnemy(World(c, w.s), k)
          case None => w
  }

  /** The checks of the first `n` bullets, in order. */
  function ResolvePrefix(w: World, n: nat): (r: World)
    requires n <= |w.c.bullets|
    ensures |r.c.bullets| == |w.c.bullets| && |r.c.enemies| == |w.c.enemies|
    ensures |r.c.walls| == |w.c.walls| && |r.c.doublewalls| == |w.c.doublewalls|
  {
    if n == 0 then w else ResolveBullet(ResolvePrefix(w, n - 1), n - 1)
  }

  /** `resolve()`: every bullet checked once. */
  function Resolved(w: World): World
  {
    ResolvePrefix(w, |w.c.bullets|)
  }

  /** The inner scan of one collection, up to its first match. */
  method FindHit(t: Target, s: seq<EntityVal>, lane: int, bulletDepth: int) returns (k: Option<nat>)
    ensures k == FirstHit(t, s, lane, bulletDepth)
  {
    var j := 0;
    while j < |s|
      invariant 0 <= j <= |s|
      invariant forall x :: 0 <= x < j ==> !Hits(t, s[x], lane, bulletDepth)
    {
      if s[j].alive && bulletDepth as real == s[j].depth
         && (s[j].lane == lane || (t == DoubleWalls && s[j].lane2 == lane)) {
        return Some(j);
      }
      j := j + 1;
    }
    return None;
  }

  class CollisionSystem {
    const entityManager: EntityManager
    const state: GameState

    constructor(entityManager: EntityManager, state: GameState)
      ensures this.entityManager == entityManager && this.state == state
    {
      this.entityManager := entityManager;
      this.state := state;
    }

    /** The registry and the state as one value. */
    function Now(): World
      reads entityManager, state
    {
      World(entityManager.Snap(), state.Val())
    }

    /** `resolve()`. The progress arguments the tick handlers pass are not
        parameters of the source's `resolve` and play no part. */
    method Resolve()
      modifies entityManager, state
      ensures Now() == Resolved(old(Now()))
    {
      ghost var w0 := Now();
      var n := |entityManager.bullets|;
      for i := 0 to n
        invariant |entityManager.bullets| == n
        invariant Now() == ResolvePrefix(w0, i)
      {
        CheckBullet(i);
      }
    }

    /** The body of the loop over bullets, for the bullet at `i`. */
    method CheckBullet(i: nat)
      requires i < |entityManager.bullets|
      modifies entityManager, state
      ensures Now() == ResolveBullet(old(Now()), i)
    {
      var em := entityManager;
      var b := em.bullets[i];
      if !b.alive {
        return;
      }
      var depth := b.depth.Floor;
      var k := FindHit(Walls, em.walls, b.lane, depth);
      if k.Some? {
        em.bullets := em.bullets[i := Killed(b)];
        em.walls := em.walls[k.value := em.walls[k.value].(hitFlash := 1.0)];
        return;
      }
      k := FindHit(DoubleWalls, em.doublewalls, b.lane, depth);
      if k.Some? {
        em.bullets := em.bullets[i := Killed(b)];
        em.doublewalls := em.doublewalls[k.value := em.doublewalls[k.value].(hitFlash := 1.0)];
        return;
      }
      k := FindHit(Enemies, em.enemies, b.lane, depth);
      if k.Some? {
        em.bullets := em.bullets[i := Killed(b)];
        StrikeEnemyAt(k.value);
      }
    }

    /** The per-kind outcome of striking the enemy at `k`. */
    method StrikeEnemyAt(k: nat)
      requires k < |entityManager.enemies|
      modifies entityManager, state
      ensures Now() == StrikeEnemy(old(Now()), k)
    {
      var em := entityManager;
      var e := em.enemies[k];
      var bonus := DistBonus(e.depth);
      if e.kind == Heart {
        em.enemies := em.enemies[k := Killed(e)];
        state.health := 100;
      } else if e.kind == Bomb {
        Explode(k);
      } else if e.kind == Tank {
        var hurt, lethal := HitOutcome(e).0, HitOutcome(e).1;
        em.enemies := em.enemies[k := hurt];
        if lethal {
          state.AddScore(JsRound(200.0 * bonus));
        } else {
          state.AddScore(JsRound(50.0 * bonus));
        }
      } else {
        em.enemies := em.enemies[k := Killed(e)];
        state.AddScore(JsRound(100.0 * bonus));
        state.scoreMultiplier := Min(state.scoreMultiplier + 0.1, 4.0);
      }
    }

    /** A struck bomb: it dies and scores, its chain runs, and the
        multiplier rises. */
    method Explode(k: nat)
      requires k < |entityManager.enemies| && entityManager.enemies[k].kind == Bomb
      modifies entityManager, state
      ensures Now() == StrikeEnemy(old(Now()), k)
    {
      var em := entityManager;
      ghost var w0 := Now();
      var e := em.enemies[k];
      em.enemies := em.enemies[k := Killed(e)];
      state.AddScore(JsRound(100.0 * DistBonus(e.depth)));
      ghost var bombed := Now();
      assert bombed == World(w0.c.(enemies := w0.c.enemies[k := Killed(e)]),
        w0.s.(calls := w0.s.calls + [Call.AddScore(JsRound(100.0 * DistBonus(e.depth)))]));
      Detonate(k);
      ghost var chained := Now();
      assert chained == Detonated(bombed, k, |w0.c.enemies|);
      state.scoreMultiplier := Min(state.scoreMultiplier + 0.5, 4.0);
      assert Now() == chained.(s := chained.s.(scoreMultiplier := Min(w0.s.scoreMultiplier + 0.5, 4.0)));
    }

    /** A bomb's chain: the loop over all enemies after the bomb at `k`
        died, killing and scoring every other live one. */
    method Detonate(k: nat)
      requires k < |entityManager.enemies|
      modifies entityManager, state
      ensures Now() == Detonated(old(Now()), k, |old(entityManager.enemies)|)
    {
      var em := entityManager;
      ghost var w0 := Now();
      for j := 0 to |em.enemies|
        invariant Now() == Detonated(w0, k, j)
      {
        var e := em.enemies[j];
        if !e.alive || j == k {
          continue;
        }
        em.enemies := em.enemies[j := Killed(e)];
        state.AddScore(100);
      }
    }
  }
}
