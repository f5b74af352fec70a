/** The two clocks of the game (src/game/systems/TickSystem.js).

    The world tick clears the dead obstacles of the previous tick, spawns,
    moves every live obstacle one step, resolves collisions, drops the
    enemies killed, lets the enemies that passed the player damage it, lets
    the walls that passed it hit it if they face it, and finally counts the
    tick. A damaging call the game does not survive ends the tick at once.
    The bullet tick resolves collisions before and after moving the
    bullets, and runs down the fire cooldown.

    The Phaser timers that call the two handlers, the tick-rate update at
    the end of the world tick and all notification callbacks are left out;
    the period the world tick adds to `elapsedMs` stays TICK_MS. */
module Ticking {
  import opened Config
  import opened Entities
  import opened Registry
  import opened State
  import opened Spawning
  import opened Collision

  /** Whether a tick loop moves `e`: every live entry, except, in the enemy
      loop, one that is dying. */
  predicate Moves(e: EntityVal, skipDying: bool)
  {
    e.alive && !(skipDying && e.dying)
  }

  /** A collection after the loop that ticks each entry it moves. */
  function Advanced(s: seq<EntityVal>, skipDying: bool): (r: seq<EntityVal>)
  {
    seq(|s|, i requires 0 <= i < |s| => if Moves(s[i], skipDying) then Ticked(s[i]) else s[i])
  }

  /** One collection being scanned for entries that passed the player, the
      state, and whether a fatal call has ended the tick. */
  datatype Pass = Pass(es: seq<EntityVal>, s: StateVal, stopped: bool)

  /** An enemy that has passed the player and not been dealt with. */
  predicate Reached(e: EntityVal)
  {
    e.alive && !e.dying && !e.pendingKill && e.depth < 0.0
  }

  /** The damage an enemy that reaches the player deals. */
  function Damage(e: EntityVal): int
  {
    if e.kind == Tank then (if e.hp >= 2 then 20 else 10)
    else if e.kind == Bomb then 20
    else 10
  }

  /** The damage loop's body for the enemy at `i`: it dies and the
      multiplier drops to 1; unless it is a heart it damages the segment of
      its lane, which may end the tick; then the player takes its damage,
      which may end the tick. */
  function HarmStep(p: Pass, i: nat, fatal: Verdict): Pass
    requires i < |p.es|
  {
    var e := p.es[i];
    if p.stopped || !Reached(e) then p
    else
      var es := p.es[i := Killed(e)];
      var s1 := p.s.(scoreMultiplier := 1.0);
      if e.kind != Heart && fatal(s1.(calls := s1.calls + [Call.DamageSegment(e.lane)])) then
        Pass(es, s1.(calls := s1.calls + [Call.DamageSegment(e.lane)]), true)
      else
        var s2 := if e.kind != Heart then s1.(calls := s1.calls + [Call.DamageSegment(e.lane)]) else s1;
        var s3 := s2.(calls := s2.calls + [Call.TakeDamage(Damage(e))]);
        Pass(es, s3, fatal(s3))
  }

  /** The damage loop over the first `n` enemies. */
  function HarmPrefix(p: Pass, n: nat, fatal: Verdict): (r: Pass)
    requires n <= |p.es|
    ensures |r.es| == |p.es|
  {
    if n == 0 then p else HarmStep(HarmPrefix(p, n - 1, fatal), n - 1, fatal)
  }

  /** A wall, or with `double` a double wall, stands in front of the player
      once the world is turned by `worldRot`. */
  predicate Facing(x: EntityVal, worldRot: int, double: bool)
  {
    RenderLane(worldRot, x.lane) == 0 || (double && RenderLane(worldRot, x.lane2) == 0)
  }

  /** The wall loop's body for the wall at `i`: a live wall that passed the
      player dies, and if it faces the player it hits it, which may end
      the tick. */
  function WallStep(p: Pass, i: nat, double: bool, fatal: Verdict): Pass
    requires i < |p.es|
  {
    var x := p.es[i];
    if p.stopped || !(x.alive && x.depth < 0.0) then p
    else if Facing(x, p.s.worldRot, double) then
      var s := p.s.(calls := p.s.calls + [Call.TakeWallHit]);
      Pass(p.es[i := Killed(x)], s, fatal(s))
    else Pass(p.es[i := Killed(x)], p.s, false)
  }

  /** The wall loop over the first `n` walls. */
  function WallPrefix(p: Pass, n: nat, double: bool, fatal: Verdict): (r: Pass)
    requires n <= |p.es|
    ensures |r.es| == |p.es|
  {
    if n == 0 then p else WallStep(WallPrefix(p, n - 1, double, fatal), n - 1, double, fatal)
  }

  /** The world, with the spawn counter. */
  datatype Clock = Clock(w: World, counter: int)

  /** The world tick up to the collision pass and the removal of the
      enemies it killed. */
  function Prepared(w: World, counter: int, interval: int, d: Draw): Clock
    requires ValidDraw(d)
  {
    var spawned := SpawnStep(counter, interval, PurgeObstacles(w.c), d);
    var c := spawned.c;
    var moved := c.(enemies := Advanced(c.enemies, true), walls := Advanced(c.walls, false),
                    doublewalls := Advanced(c.doublewalls, false));
    var resolved := Resolved(World(moved, w.s));
    Clock(World(PurgeEnemies(resolved.c), resolved.s), spawned.counter)
  }

  /** The rest of the world tick: the damage loop, the two wall loops, each
      of which a fatal call ends, and the counters. */
  function Hazards(w: World, period: int, fatal: Verdict): World
  {
    var h := HarmPrefix(Pass(w.c.enemies, w.s, false), |w.c.enemies|, fatal);
    var c1 := w.c.(enemies := h.es);
    if h.stopped then World(c1, h.s)
    else
      var ws := WallPrefix(Pass(c1.walls, h.s, false), |c1.walls|, false, fatal);
      var c2 := c1.(walls := ws.es);
      if ws.stopped then World(c2, ws.s)
      else
        var ds := WallPrefix(Pass(c2.doublewalls, ws.s, false), |c2.doublewalls|, true, fatal);
        var c3 := c2.(doublewalls := ds.es);
        if ds.stopped then World(c3, ds.s)
        else World(c3, ds.s.(tickCount := ds.s.tickCount + 1, elapsedMs := ds.s.elapsedMs + period))
  }

  /** `_onEnemyTick`, with the ramp's spawn interval, the period and the
      spawn draws given. */
  function EnemyTick(k: Clock, ramp: seq<RampStep>, period: int, d: Draw, fatal: Verdict): (r: Clock)
    requires |ramp| > 0 && ValidDraw(d)
    ensures !k.w.s.gameOver ==> r.counter == 0 || r.counter == k.counter + 1
    ensures k.counter >= 0 ==> r.counter >= 0
  {
    if k.w.s.gameOver then k
    else
      var p := Prepared(k.w, k.counter, SpawnInterval(ramp, k.w.s.elapsedMs), d);
      Clock(Hazards(p.w, period, fatal), p.counter)
  }

  /** `_onBulletTick`. */
  function BulletTick(w: World): (r: World)
    ensures |r.c.walls| == |w.c.walls| && |r.c.doublewalls| == |w.c.doublewalls|
    ensures !w.s.gameOver ==> |r.c.bullets| == |LiveVals(w.c.bullets)|
  {
    if w.s.gameOver then w
    else
      var first := Resolved(World(PurgeBullets(w.c), w.s));
      var c := PurgeEnemies(first.c);
      var second := Resolved(World(c.(bullets := Advanced(c.bullets, false)), first.s));
      var s := second.s;
      World(PurgeEnemies(second.c),
            if s.fireCooldown > 0.0 then s.(fireCooldown := s.fireCooldown - 1.0) else s)
  }

  /** The tick loop over one collection. */
  method Advance(s: seq<EntityVal>, skipDying: bool) returns (r: seq<EntityVal>)
    ensures r == Advanced(s, skipDying)
  {
    r := s;
    for j := 0 to |s|
      invariant |r| == |s|
      invariant forall x :: 0 <= x < j ==> r[x] == Advanced(s, skipDying)[x]
      invariant forall x :: j <= x < |s| ==> r[x] == s[x]
    {
      if Moves(r[j], skipDying) {
        r := r[j := Ticked(r[j])];
      }
    }
  }

  class TickSystem {
    const state: GameState
    const entityManager: EntityManager
    const collision: CollisionSystem
    const spawn: SpawnSystem
    /** The period of the world tick; the source's later updates of it
        through `getTickMs` are not part of this model. */
    const currentTickMs: int

    /** The systems share one registry and one state. */
    predicate Valid()
      reads this, collision, spawn
    {
      && collision.entityManager == entityManager && collision.state == state
      && spawn.entityManager == entityManager && spawn.state == state
      && state.Valid()
    }

    /** The registry, the state and the spawn counter as one value. */
    function Now(): Clock
      reads entityManager, state, spawn
    {
      Clock(World(entityManager.Snap(), state.Val()), spawn.ticksSinceSpawn)
    }

    constructor(state: GameState, entityManager: EntityManager,
                collision: CollisionSystem, spawn: SpawnSystem)
      requires collision.entityManager == entityManager && collision.state == state
      requires spawn.entityManager == entityManager && spawn.state == state
      requires state.Valid()
      ensures this.state == state && this.entityManager == entityManager
      ensures this.collision == collision && this.spawn == spawn
      ensures currentTickMs == TICK_MS && Valid()
    {
      this.state := state;
      this.entityManager := entityManager;
      this.collision := collision;
      this.spawn := spawn;
      currentTickMs := TICK_MS;
    }

    /** `_onEnemyTick`, with the spawn draws and the verdict on damaging
        calls given. */
    method OnEnemyTick(d: Draw, fatal: Verdict)
      requires Valid() && ValidDraw(d)
      modifies entityManager, state, spawn
      ensures Now() == EnemyTick(old(Now()), state.spawnRamp, currentTickMs, d, fatal)
    {
      if state.gameOver {
        return;
      }
      Prepare(d);
      HazardChecks(fatal);
    }

    /** The world tick up to the removal of the enemies the collision pass
        killed. */
    method Prepare(d: Draw)
      requires Valid() && ValidDraw(d)
      modifies entityManager, state, spawn
      ensures Now() == Prepared(old(Now()).w, old(spawn.ticksSinceSpawn),
                                SpawnInterval(state.spawnRamp, old(state.elapsedMs)), d)
    {
      entityManager.RemoveDeadEnemiesAndWalls();
      spawn.MaybeSpawn(d);
      var em := entityManager;
      em.enemies := Advance(em.enemies, true);
      em.walls := Advance(em.walls, false);
      em.doublewalls := Advance(em.doublewalls, false);
      collision.Resolve();
      em.RemoveDeadEnemies();
    }

    /** The damage loop, the two wall loops and the counters. */
    method HazardChecks(fatal: Verdict)
      modifies entityManager, state
      ensures World(entityManager.Snap(), state.Val())
           == Hazards(old(World(entityManager.Snap(), state.Val())), currentTickMs, fatal)
    {
      var stopped := HarmEnemies(fatal);
      if stopped {
        return;
      }
      stopped := HitByWalls(fatal);
      if stopped {
        return;
      }
      stopped := HitByDoubleWalls(fatal);
      if stopped {
        return;
      }
      state.tickCount := state.tickCount + 1;
      state.elapsedMs := state.elapsedMs + currentTickMs;
    }

    /** The damage loop over the enemies. */
    method HarmEnemies(fatal: Verdict) returns (stopped: bool)
      modifies entityManager, state
      ensures var old0 := Pass(old(entityManager.enemies), old(state.Val()), false);
        Pass(entityManager.enemies, state.Val(), stopped) == HarmPrefix(old0, |old0.es|, fatal)
      ensures entityManager.Snap() == old(entityManager.Snap()).(enemies := entityManager.enemies)
    {
      var em := entityManager;
      ghost var p0 := Pass(em.enemies, state.Val(), false);
      var n := |em.enemies|;
      stopped := false;
      for i := 0 to n
        invariant |em.enemies| == n
        invariant Pass(em.enemies, state.Val(), false) == HarmPrefix(p0, i, fatal)
        invariant em.Snap() == old(em.Snap()).(enemies := em.enemies)
      {
        stopped := HarmOne(i, fatal);
        if stopped {
          HarmStaysStopped(p0, i + 1, n, fatal);
          return;
        }
      }
    }

    /** The damage loop's body for the enemy at `i`. */
    method HarmOne(i: nat, fatal: Verdict) returns (stopped: bool)
      requires i < |entityManager.enemies|
      modifies entityManager, state
      ensures Pass(entityManager.enemies, state.Val(), stopped)
           == HarmStep(Pass(old(entityManager.enemies), old(state.Val()), false), i, fatal)
      ensures entityManager.Snap() == old(entityManager.Snap()).(enemies := entityManager.enemies)
    {
      var em := entityManager;
      var e := em.enemies[i];
      stopped := false;
      if e.alive && !e.dying && !e.pendingKill && e.depth < 0.0 {
        var dmg := 10;
        if e.kind == Tank {
          dmg := if e.hp >= 2 then 20 else 10;
        } else if e.kind == Bomb {
          dmg := 20;
        }
        em.enemies := em.enemies[i := Killed(e)];
        state.scoreMultiplier := 1.0;
        if e.kind != Heart {
          stopped := state.DamageSegment(e.lane, fatal);
          if stopped {
            return;
          }
        }
        stopped := state.TakeDamage(dmg, fatal);
      }
    }

    /** The loop over the walls. */
    method HitByWalls(fatal: Verdict) returns (stopped: bool)
      modifies entityManager, state
      ensures var old0 := Pass(old(entityManager.walls), old(state.Val()), false);
        Pass(entityManager.walls, state.Val(), stopped) == WallPrefix(old0, |old0.es|, false, fatal)
      ensures entityManager.Snap() == old(entityManager.Snap()).(walls := entityManager.walls)
    {
      var em := entityManager;
      ghost var p0 := Pass(em.walls, state.Val(), false);
      var n := |em.walls|;
      stopped := false;
      for i := 0 to n
        invariant |em.walls| == n
        invariant Pass(em.walls, state.Val(), false) == WallPrefix(p0, i, false, fatal)
        invariant em.Snap() == old(em.Snap()).(walls := em.walls)
      {
        var x := em.walls[i];
        if x.alive && x.depth < 0.0 {
          em.walls := em.walls[i := Killed(x)];
          if RenderLane(state.worldRot, x.lane) == 0 {
            var dead := state.TakeWallHit(fatal);
            if dead {
              stopped := true;
              WallsStayStopped(p0, i + 1, n, false, fatal);
              return;
            }
          }
        }
      }
    }

    /** The loop over the double walls. */
    method HitByDoubleWalls(fatal: Verdict) returns (stopped: bool)
      modifies entityManager, state
      ensures var old0 := Pass(old(entityManager.doublewalls), old(state.Val()), false);
        Pass(entityManager.doublewalls, state.Val(), stopped) == WallPrefix(old0, |old0.es|, true, fatal)
      ensures entityManager.Snap() == old(entityManager.Snap()).(doublewalls := entityManager.doublewalls)
    {
      var em := entityManager;
      ghost var p0 := Pass(em.doublewalls, state.Val(), false);
      var n := |em.doublewalls|;
      stopped := false;
      for i := 0 to n
        invariant |em.doublewalls| == n
        invariant Pass(em.doublewalls, state.Val(), false) == WallPrefix(p0, i, true, fatal)
        invariant em.Snap() == old(em.Snap()).(doublewalls := em.doublewalls)
      {
        var x := em.doublewalls[i];
        if x.alive && x.depth < 0.0 {
          em.doublewalls := em.doublewalls[i := Killed(x)];
          if RenderLane(state.worldRot, x.lane) == 0 || RenderLane(state.worldRot, x.lane2) == 0 {
            var dead := state.TakeWallHit(fatal);
            if dead {
              stopped := true;
              WallsStayStopped(p0, i + 1, n, true, fatal);
              return;
            }
          }
        }
      }
    }

    /** `_onBulletTick`. */
    method OnBulletTick()
      requires Valid()
      modifies entityManager, state
      ensures World(entityManager.Snap(), state.Val())
           == BulletTick(old(World(entityManager.Snap(), state.Val())))
    {
      if state.gameOver {
        return;
      }
      var em := entityManager;
      em.RemoveDeadBullets();
      collision.Resolve();
      em.RemoveDeadEnemies();
      em.bullets := Advance(em.bullets, false);
      collision.Resolve();
      em.RemoveDeadEnemies();
      if state.fireCooldown > 0.0 {
        state.fireCooldown := state.fireCooldown - 1.0;
      }
    }
  }

  /** Once a fatal call has ended the damage loop, the remaining enemies are
      not looked at. */
  lemma {:induction false} HarmStaysStopped(p: Pass, m: nat, n: nat, fatal: Verdict)
    requires m <= n <= |p.es| && HarmPrefix(p, m, fatal).stopped
    ensures HarmPrefix(p, n, fatal) == HarmPrefix(p, m, fatal)
    decreases n
  {
    if n > m {
      HarmStaysStopped(p, m, n - 1, fatal);
    }
  }

  /** Once a fatal wall hit has ended a wall loop, the remaining walls are
      not looked at. */
  lemma {:induction false} WallsStayStopped(p: Pass, m: nat, n: nat, double: bool, fatal: Verdict)
    requires m <= n <= |p.es| && WallPrefix(p, m, double, fatal).stopped
    ensures WallPrefix(p, n, double, fatal) == WallPrefix(p, m, double, fatal)
    decreases n
  {
    if n > m {
      WallsStayStopped(p, m, n - 1, double, fatal);
    }
  }
}
