/** What the two tick handlers promise, stated over the functions of module
    Ticking. */
module TickProperties {
  import opened Config
  import opened Entities
  import opened Registry
  import opened State
  import opened Spawning
  import opened Collision
  import opened CollisionProperties
  import opened Input
  import opened Ticking

  /** Once the game is over, neither handler changes anything. */
  lemma GameOverIdle(k: Clock, ramp: seq<RampStep>, period: int, d: Draw, fatal: Verdict)
    requires |ramp| > 0 && ValidDraw(d) && k.w.s.gameOver
    ensures EnemyTick(k, ramp, period, d, fatal) == k
    ensures BulletTick(k.w) == k.w
  {
  }

  /** An enemy that reaches the player deals 20 if it is a bomb or a tank
      with two hit points or more, and 10 otherwise. */
  lemma DamageAmounts(e: EntityVal)
    ensures Damage(e) == 20 <==> (e.kind == Tank && e.hp >= 2) || e.kind == Bomb
    ensures Damage(e) == 10 || Damage(e) == 20
  {
  }

  /** One enemy that passed the player: it dies and the multiplier drops to
      1. A heart only deals its 10 damage. Any other enemy first damages the
      segment of its lane; if that is fatal the loop ends there, otherwise
      the player takes its damage, and the loop ends if that is fatal. */
  lemma HarmStepOutcome(p: Pass, i: nat, fatal: Verdict)
    requires i < |p.es| && !p.stopped && Reached(p.es[i])
    ensures var (e, r) := (p.es[i], HarmStep(p, i, fatal));
      var s1 := p.s.(scoreMultiplier := 1.0);
      && r.es == p.es[i := Killed(e)]
      && (e.kind == Heart ==>
            r.s == s1.(calls := s1.calls + [Call.TakeDamage(10)]) && r.stopped == fatal(r.s))
      && (e.kind != Heart ==>
            var s2 := s1.(calls := s1.calls + [Call.DamageSegment(e.lane)]);
            if fatal(s2) then r.s == s2 && r.stopped
            else r.s == s2.(calls := s2.calls + [Call.TakeDamage(Damage(e))]) && r.stopped == fatal(r.s))
  {
  }

  /** The damage loop over the first `n` enemies kills some of them and
      touches nothing else in the collection. If it runs to the end, none of
      them is left standing past the player. It records only segment damage
      and player damage, leaves every state field but the log and the
      multiplier alone, and it stops only on a fatal call. */
  lemma {:induction false} HarmPassClears(p: Pass, n: nat, fatal: Verdict)
    requires n <= |p.es| && !p.stopped
    ensures var r := HarmPrefix(p, n, fatal);
      && (forall j :: 0 <= j < |p.es| ==> r.es[j] == p.es[j] || r.es[j] == Killed(p.es[j]))
      && (forall j :: n <= j < |p.es| ==> r.es[j] == p.es[j])
      && (!r.stopped ==> forall j :: 0 <= j < n ==> !Reached(r.es[j]))
      && r.s == p.s.(calls := r.s.calls, scoreMultiplier := r.s.scoreMultiplier)
      && |p.s.calls| <= |r.s.calls| && r.s.calls[..|p.s.calls|] == p.s.calls
      && (forall x :: |p.s.calls| <= x < |r.s.calls| ==>
            r.s.calls[x].DamageSegment? || r.s.calls[x].TakeDamage?)
      && (r.stopped ==> fatal(r.s))
  {
    if n > 0 {
      var q := HarmPrefix(p, n - 1, fatal);
      var r := HarmPrefix(p, n, fatal);
      HarmPassClears(p, n - 1, fatal);
      HarmStepKeeps(q, n - 1, fatal, r);
      DamageLogExtends(p.s.calls, q.s.calls, r.s.calls);
    }
  }

  /** One step of the damage loop, whose result `r` names: it kills at most
      the enemy at `i`, which is then no longer past the player unless the
      loop has stopped; it extends the log by damage calls only, changes no
      state field but the log and the multiplier, and newly stops only on a
      fatal call. */
  lemma HarmStepKeeps(q: Pass, i: nat, fatal: Verdict, r: Pass)
    requires i < |q.es| && r == HarmStep(q, i, fatal)
    ensures |r.es| == |q.es| && r.es == q.es[i := r.es[i]]
    ensures r.es[i] == q.es[i] || r.es[i] == Killed(q.es[i])
    ensures !r.stopped ==> !q.stopped && !Reached(r.es[i])
    ensures r.s == q.s.(calls := r.s.calls, scoreMultiplier := r.s.scoreMultiplier)
    ensures |q.s.calls| <= |r.s.calls| && r.s.calls[..|q.s.calls|] == q.s.calls
    ensures forall x :: |q.s.calls| <= x < |r.s.calls| ==>
              r.s.calls[x].DamageSegment? || r.s.calls[x].TakeDamage?
    ensures r.stopped ==> q.stopped || fatal(r.s)
  {
    if !q.stopped && Reached(q.es[i]) {
      HarmStepOutcome(q, i, fatal);
    }
  }

  /** Two extensions of a log by damage calls make one. */
  lemma DamageLogExtends(a: seq<Call>, b: seq<Call>, c: seq<Call>)
    requires |a| <= |b| && b[..|a|] == a && |b| <= |c| && c[..|b|] == b
    requires forall x :: |a| <= x < |b| ==> b[x].DamageSegment? || b[x].TakeDamage?
    requires forall x :: |b| <= x < |c| ==> c[x].DamageSegment? || c[x].TakeDamage?
    ensures c[..|a|] == a
    ensures forall x :: |a| <= x < |c| ==> c[x].DamageSegment? || c[x].TakeDamage?
  {
    assert c[..|a|] == c[..|b|][..|a|];
    forall x | |a| <= x < |c|
      ensures c[x].DamageSegment? || c[x].TakeDamage?
    {
      if x < |b| {
        assert c[x] == c[..|b|][x];
      }
    }
  }

  /** One wall loop step on a live wall that passed the player: it dies,
      and it hits the player, which may end the loop, exactly when it faces
      the player. */
  lemma WallStepOutcome(p: Pass, i: nat, double: bool, fatal: Verdict)
    requires i < |p.es| && !p.stopped && p.es[i].alive && p.es[i].depth < 0.0
    ensures var (x, r) := (p.es[i], WallStep(p, i, double, fatal));
      && r.es == p.es[i := Killed(x)]
      && (Facing(x, p.s.worldRot, double) ==>
            r.s == p.s.(calls := p.s.calls + [Call.TakeWallHit]) && r.stopped == fatal(r.s))
      && (!Facing(x, p.s.worldRot, double) ==> r.s == p.s && !r.stopped)
  {
  }

  /** The wall loop over the first `n` walls kills some of them and touches
      nothing else. If it runs to the end, no live wall is left past the
      player. It records only wall hits, changes no other state field, and
      stops only on a fatal hit. */
  lemma {:induction false} WallPassClears(p: Pass, n: nat, double: bool, fatal: Verdict)
    requires n <= |p.es| && !p.stopped
    ensures var r := WallPrefix(p, n, double, fatal);
      && (forall j :: 0 <= j < |p.es| ==> r.es[j] == p.es[j] || r.es[j] == Killed(p.es[j]))
      && (forall j :: n <= j < |p.es| ==> r.es[j] == p.es[j])
      && (!r.stopped ==> forall j :: 0 <= j < n ==> !(r.es[j].alive && r.es[j].depth < 0.0))
      && r.s == p.s.(calls := r.s.calls)
      && |p.s.calls| <= |r.s.calls| && r.s.calls[..|p.s.calls|] == p.s.calls
      && (forall x :: |p.s.calls| <= x < |r.s.calls| ==> r.s.calls[x].TakeWallHit?)
      && (r.stopped ==> fatal(r.s))
  {
    if n > 0 {
      var q := WallPrefix(p, n - 1, double, fatal);
      var r := WallPrefix(p, n, double, fatal);
      WallPassClears(p, n - 1, double, fatal);
      WallStepKeeps(q, n - 1, double, fatal, r);
      WallLogExtends(p.s.calls, q.s.calls, r.s.calls);
    }
  }

  /** One step of a wall loop, whose result `r` names: it kills at most the
      wall at `i`, which is then no longer live past the player unless the
      loop has stopped; it extends the log by wall hits only, changes no
      other state field, and newly stops only on a fatal hit. */
  lemma WallStepKeeps(q: Pass, i: nat, double: bool, fatal: Verdict, r: Pass)
    requires i < |q.es| && r == WallStep(q, i, double, fatal)
    ensures |r.es| == |q.es| && r.es == q.es[i := r.es[i]]
    ensures r.es[i] == q.es[i] || r.es[i] == Killed(q.es[i])
    ensures !r.stopped ==> !q.stopped && !(r.es[i].alive && r.es[i].depth < 0.0)
    ensures r.s == q.s.(calls := r.s.calls)
    ensures |q.s.calls| <= |r.s.calls| && r.s.calls[..|q.s.calls|] == q.s.calls
    ensures forall x :: |q.s.calls| <= x < |r.s.calls| ==> r.s.calls[x].TakeWallHit?
    ensures r.stopped ==> q.stopped || fatal(r.s)
  {
    if !q.stopped && q.es[i].alive && q.es[i].depth < 0.0 {
      WallStepOutcome(q, i, double, fatal);
    }
  }

  /** Two extensions of a log by wall hits make one. */
  lemma WallLogExtends(a: seq<Call>, b: seq<Call>, c: seq<Call>)
    requires |a| <= |b| && b[..|a|] == a && |b| <= |c| && c[..|b|] == b
    requires forall x :: |a| <= x < |b| ==> b[x].TakeWallHit?
    requires forall x :: |b| <= x < |c| ==> c[x].TakeWallHit?
    ensures c[..|a|] == a
    ensures forall x :: |a| <= x < |c| ==> c[x].TakeWallHit?
  {
    assert c[..|a|] == c[..|b|][..|a|];
    forall x | |a| <= x < |c|
      ensures c[x].TakeWallHit?
    {
      if x < |b| {
        assert c[x] == c[..|b|][x];
      }
    }
  }

  /** No enemy left standing past the player, and no live wall or double
      wall past it. */
  ghost predicate AllClear(c: Collections)
  {
    && (forall j :: 0 <= j < |c.enemies| ==> !Reached(c.enemies[j]))
    && (forall j :: 0 <= j < |c.walls| ==> !(c.walls[j].alive && c.walls[j].depth < 0.0))
    && (forall j :: 0 <= j < |c.doublewalls| ==> !(c.doublewalls[j].alive && c.doublewalls[j].depth < 0.0))
  }

  /** The end of the world tick either completes, leaving nothing past the
      player and counting the tick and its period, or is cut short by a
      fatal call, with neither counter changed. Bullets and the world
      rotation are untouched either way. */
  lemma HazardsOutcome(w: World, period: int, fatal: Verdict)
    ensures var r := Hazards(w, period, fatal);
      && r.c.bullets == w.c.bullets
      && r.s == w.s.(calls := r.s.calls, scoreMultiplier := r.s.scoreMultiplier,
                     tickCount := r.s.tickCount, elapsedMs := r.s.elapsedMs)
      && ((r.s.tickCount == w.s.tickCount + 1 && r.s.elapsedMs == w.s.elapsedMs + period
           && AllClear(r.c))
          || (r.s.tickCount == w.s.tickCount && r.s.elapsedMs == w.s.elapsedMs && fatal(r.s)))
  {
    var h := HarmPrefix(Pass(w.c.enemies, w.s, false), |w.c.enemies|, fatal);
    HarmPassClears(Pass(w.c.enemies, w.s, false), |w.c.enemies|, fatal);
    if !h.stopped {
      var ws := WallPrefix(Pass(w.c.walls, h.s, false), |w.c.walls|, false, fatal);
      WallPassClears(Pass(w.c.walls, h.s, false), |w.c.walls|, false, fatal);
      if !ws.stopped {
        WallPassClears(Pass(w.c.doublewalls, ws.s, false), |w.c.doublewalls|, true, fatal);
      }
    }
  }

  /** The part of the world tick before the hazards changes neither the
      counters nor the rotation nor the game-over flag. */
  lemma PreparedKeepsCounters(w: World, counter: int, interval: int, d: Draw)
    requires ValidDraw(d)
    ensures var r := Prepared(w, counter, interval, d).w.s;
      r.tickCount == w.s.tickCount && r.elapsedMs == w.s.elapsedMs
      && r.worldRot == w.s.worldRot && r.gameOver == w.s.gameOver
  {
    var spawned := SpawnStep(counter, interval, PurgeObstacles(w.c), d);
    var c := spawned.c;
    var moved := c.(enemies := Advanced(c.enemies, true), walls := Advanced(c.walls, false),
                    doublewalls := Advanced(c.doublewalls, false));
    ResolveOnlyScores(World(moved, w.s), |moved.bullets|);
  }

  /** A world tick with the game running either completes, counting the
      tick and its period and leaving nothing past the player, or ends on a
      fatal call with neither counter changed. */
  lemma EnemyTickOutcome(k: Clock, ramp: seq<RampStep>, period: int, d: Draw, fatal: Verdict)
    requires |ramp| > 0 && ValidDraw(d) && !k.w.s.gameOver
    ensures var r := EnemyTick(k, ramp, period, d, fatal).w;
      (r.s.tickCount == k.w.s.tickCount + 1 && r.s.elapsedMs == k.w.s.elapsedMs + period
       && AllClear(r.c))
      || (r.s.tickCount == k.w.s.tickCount && r.s.elapsedMs == k.w.s.elapsedMs && fatal(r.s))
  {
    var p := Prepared(k.w, k.counter, SpawnInterval(ramp, k.w.s.elapsedMs), d);
    PreparedKeepsCounters(k.w, k.counter, SpawnInterval(ramp, k.w.s.elapsedMs), d);
    HazardsOutcome(p.w, period, fatal);
  }

  /** A wall spawned by a world tick moves in that same tick: it ends the
      collision pass one step in from the spawn ring, in its lane, alive. */
  lemma SpawnedWallMovesAtOnce(w: World, counter: int, interval: int, d: Draw)
    requires ValidDraw(d) && counter + 1 >= interval
    requires ENEMY_THRESHOLD <= d.roll < WALL_THRESHOLD
    ensures var ws := Prepared(w, counter, interval, d).w.c.walls;
      |ws| > 0 && ws[|ws| - 1].kind == Wall && ws[|ws| - 1].alive
      && ws[|ws| - 1].lane == SpawnLane(d.r) && ws[|ws| - 1].depth == (MAX_DEPTH - 1) as real
  {
    var spawned := SpawnStep(counter, interval, PurgeObstacles(w.c), d);
    var c := spawned.c;
    var moved := c.(enemies := Advanced(c.enemies, true), walls := Advanced(c.walls, false),
                    doublewalls := Advanced(c.doublewalls, false));
    var last := |moved.walls| - 1;
    assert c.walls[last] == NewWall(SpawnLane(d.r), MAX_DEPTH as real);
    assert moved.walls[last] == Ticked(c.walls[last]);
    ResolveSparesWalls(World(moved, w.s), |moved.bullets|);
  }

  /** With the game running, the bullet tick lowers a running cooldown by
      one and leaves an expired one alone; the rotation and the game-over
      flag are unchanged, and every enemy left is alive. */
  lemma BulletTickCooldown(w: World)
    requires !w.s.gameOver
    ensures var r := BulletTick(w);
      && r.s.fireCooldown == (if w.s.fireCooldown > 0.0 then w.s.fireCooldown - 1.0 else w.s.fireCooldown)
      && r.s.worldRot == w.s.worldRot && !r.s.gameOver
      && forall j :: 0 <= j < |r.c.enemies| ==> r.c.enemies[j].alive
  {
    var w0 := World(PurgeBullets(w.c), w.s);
    var first := Resolved(w0);
    ResolveOnlyScores(w0, |w0.c.bullets|);
    var c := PurgeEnemies(first.c);
    var w1 := World(c.(bullets := Advanced(c.bullets, false)), first.s);
    var second := Resolved(w1);
    ResolveOnlyScores(w1, |w1.c.bullets|);
    var r := BulletTick(w);
    LiveValsMembers(second.c.enemies);
    assert forall j :: 0 <= j < |r.c.enemies| ==> r.c.enemies[j] in LiveVals(second.c.enemies);
  }

  /** A shot blocks the next one through two bullet ticks: right after it
      and after one bullet tick firing does nothing; after the second the
      next shot adds a bullet again. */
  lemma ShotBlocksTwoBulletTicks(w: World)
    requires !w.s.gameOver && w.s.fireCooldown <= 0.0
    ensures |Fired(w).c.bullets| == |w.c.bullets| + 1
    ensures Fired(Fired(w)) == Fired(w)
    ensures var once := BulletTick(Fired(w));
      Fired(once) == once
    ensures var twice := BulletTick(BulletTick(Fired(w)));
      |Fired(twice).c.bullets| == |twice.c.bullets| + 1
  {
    var a := Fired(w);
    BulletTickCooldown(a);
    BulletTickCooldown(BulletTick(a));
  }
}
