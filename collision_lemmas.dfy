/** What the collision pass promises, stated over the functions of module
    Collision. */
module CollisionProperties {
  import opened Config
  import opened Numerics
  import opened Entities
  import opened Registry
  import opened State
  import opened Collision

  /** The distance bonus turns the three base scores into these points. */
  lemma DistBonusScores(depth: real)
    ensures JsRound(100.0 * DistBonus(depth)) == if depth >= 4.0 then 150 else 100
    ensures JsRound(200.0 * DistBonus(depth)) == if depth >= 4.0 then 300 else 200
    ensures JsRound(50.0 * DistBonus(depth)) == if depth >= 4.0 then 75 else 50
  {
  }

  /** No obstacle of collection `t` stands where bullet `b` is. */
  ghost predicate Clear(t: Target, s: seq<EntityVal>, b: EntityVal)
  {
    forall j :: 0 <= j < |s| ==> !Hits(t, s[j], b.lane, b.depth.Floor)
  }

  ghost predicate ClearOfAll(w: World, b: EntityVal)
  {
    Clear(Walls, w.c.walls, b) && Clear(DoubleWalls, w.c.doublewalls, b) && Clear(Enemies, w.c.enemies, b)
  }

  /** The check of one bullet: a dead bullet changes nothing; no other
      bullet changes; the bullet survives exactly when it was alive and no
      live wall, double wall or enemy stands in its cell, and then nothing
      changes at all. A wall in the cell takes the hit, so the double walls,
      the enemies and the game state are untouched; likewise a double wall
      shields the enemies. */
  lemma ResolveBulletOutcome(w: World, i: nat)
    requires i < |w.c.bullets|
    ensures var r := ResolveBullet(w, i);
      && (!w.c.bullets[i].alive ==> r == w)
      && r.c.bullets == w.c.bullets[i := r.c.bullets[i]]
      && r.c.bullets[i] == w.c.bullets[i].(alive := r.c.bullets[i].alive)
      && (r.c.bullets[i].alive <==> w.c.bullets[i].alive && ClearOfAll(w, w.c.bullets[i]))
      && (r.c.bullets[i].alive ==> r == w)
    ensures var r := ResolveBullet(w, i);
      w.c.bullets[i].alive && !Clear(Walls, w.c.walls, w.c.bullets[i]) ==>
        r.c.doublewalls == w.c.doublewalls && r.c.enemies == w.c.enemies && r.s == w.s
    ensures var r := ResolveBullet(w, i);
      w.c.bullets[i].alive && Clear(Walls, w.c.walls, w.c.bullets[i])
      && !Clear(DoubleWalls, w.c.doublewalls, w.c.bullets[i]) ==>
        r.c.walls == w.c.walls && r.c.enemies == w.c.enemies && r.s == w.s
  {
  }

  /** Which obstacle a live bullet's check acts on: the first live wall in
      the cell, and no other, lights up with a flash of 1.0; with no wall
      there, the first live double wall does; with both clear, the first
      live enemy in the cell is the one struck. */
  lemma ResolveBulletTarget(w: World, i: nat)
    requires i < |w.c.bullets|
    ensures var r := ResolveBullet(w, i); var b := w.c.bullets[i];
      var hit := FirstHit(Walls, w.c.walls, b.lane, b.depth.Floor);
      b.alive && hit.Some? ==>
        r.c.walls == w.c.walls[hit.value := w.c.walls[hit.value].(hitFlash := 1.0)]
    ensures var r := ResolveBullet(w, i); var b := w.c.bullets[i];
      var hit := FirstHit(DoubleWalls, w.c.doublewalls, b.lane, b.depth.Floor);
      b.alive && Clear(Walls, w.c.walls, b) && hit.Some? ==>
        r.c.doublewalls == w.c.doublewalls[hit.value := w.c.doublewalls[hit.value].(hitFlash := 1.0)]
    ensures var r := ResolveBullet(w, i); var b := w.c.bullets[i];
      var hit := FirstHit(Enemies, w.c.enemies, b.lane, b.depth.Floor);
      b.alive && Clear(Walls, w.c.walls, b) && Clear(DoubleWalls, w.c.doublewalls, b) && hit.Some? ==>
        r == StrikeEnemy(World(w.c.(bullets := w.c.bullets[i := Killed(b)]), w.s), hit.value)
  {
  }

  /** The three enemy outcomes that end in a plain kill or a hit. */
  lemma HeartHeals(w: World, k: nat)
    requires k < |w.c.enemies| && w.c.enemies[k].kind == Heart
    ensures var r := StrikeEnemy(w, k);
      r.c.enemies == w.c.enemies[k := Killed(w.c.enemies[k])]
      && r.s == w.s.(health := 100)
  {
  }

  /** A tank loses one hit point; a lethal hit scores 200 and a surviving
      one 50, half as much again from depth 4 on; the multiplier stays. */
  lemma TankStrike(w: World, k: nat)
    requires k < |w.c.enemies| && w.c.enemies[k].kind == Tank
    ensures var r := StrikeEnemy(w, k);
      var e := w.c.enemies[k];
      var far := e.depth >= 4.0;
      && r.c.enemies == w.c.enemies[k := r.c.enemies[k]]
      && r.c.enemies[k].hp == e.hp - 1
      && (r.c.enemies[k].alive <==> e.alive && e.hp > 1)
      && r.s == w.s.(calls := w.s.calls + [Call.AddScore(
           if e.hp <= 1 then (if far then 300 else 200) else (if far then 75 else 50))])
  {
    DistBonusScores(w.c.enemies[k].depth);
  }

  /** An enemy, phase or spiral enemy dies and scores 100, half as much
      again from depth 4 on, and the multiplier rises by 0.1 up to 4. */
  lemma PlainStrike(w: World, k: nat)
    requires k < |w.c.enemies|
    requires w.c.enemies[k].kind !in {Heart, Bomb, Tank}
    ensures var r := StrikeEnemy(w, k);
      var e := w.c.enemies[k];
      && r.c.enemies == w.c.enemies[k := Killed(e)]
      && r.s == w.s.(calls := w.s.calls + [Call.AddScore(if e.depth >= 4.0 then 150 else 100)],
                     scoreMultiplier := Min(w.s.scoreMultiplier + 0.1, 4.0))
  {
    DistBonusScores(w.c.enemies[k].depth);
  }

  /** The chain over the first `n` enemies kills each of them other than
      the bomb and changes nothing else about it; the bomb and the rest
      are untouched. */
  lemma {:induction false} DetonatedKills(w: World, k: nat, n: nat)
    requires n <= |w.c.enemies|
    ensures var r := Detonated(w, k, n).c.enemies;
      && (forall j :: 0 <= j < n && j != k ==> r[j] == Killed(w.c.enemies[j]))
      && (forall j :: 0 <= j < |w.c.enemies| && (n <= j || j == k) ==> r[j] == w.c.enemies[j])
  {
    if n > 0 {
      DetonatedKills(w, k, n - 1);
      assert Detonated(w, k, n - 1).c.enemies[n - 1] == w.c.enemies[n - 1];
    }
  }

  /** Once the bomb at `k` is dead, the chain over the first `n` enemies
      records one flat 100 per enemy among them that was alive, after the
      calls already made. */
  lemma {:induction false} DetonatedScores(w: World, k: nat, n: nat)
    requires k < |w.c.enemies| && !w.c.enemies[k].alive && n <= |w.c.enemies|
    ensures var r := Detonated(w, k, n).s.calls;
      && |r| == |w.s.calls| + |LiveVals(w.c.enemies[..n])|
      && r[..|w.s.calls|] == w.s.calls
      && (forall x :: |w.s.calls| <= x < |r| ==> r[x] == Call.AddScore(100))
  {
    if n > 0 {
      var es := w.c.enemies;
      var p := Detonated(w, k, n - 1);
      DetonatedScores(w, k, n - 1);
      DetonatedKills(w, k, n - 1);
      assert p.c.enemies[n - 1] == es[n - 1];
      LiveValsSnoc(es, n);
      ChainStep(w, k, n);
      FlatScoresAppend(w.s.calls, p.s.calls,
        if es[n - 1].alive && n - 1 != k then [Call.AddScore(100)] else []);
    }
  }

  /** Filtering one entry more adds one survivor exactly when it is alive. */
  lemma LiveValsSnoc(s: seq<EntityVal>, n: nat)
    requires 0 < n <= |s|
    ensures |LiveVals(s[..n])| == |LiveVals(s[..n - 1])| + if s[n - 1].alive then 1 else 0
  {
    assert s[..n] == s[..n - 1] + [s[n - 1]];
    LiveValsKeepsOrder(s[..n - 1], [s[n - 1]]);
    LiveValsSingle(s[n - 1]);
  }

  /** A log of flat scores after `base` stays one when more flat scores follow. */
  lemma FlatScoresAppend(base: seq<Call>, log: seq<Call>, extra: seq<Call>)
    requires |base| <= |log| && log[..|base|] == base
    requires forall x :: |base| <= x < |log| ==> log[x] == Call.AddScore(100)
    requires forall x :: 0 <= x < |extra| ==> extra[x] == Call.AddScore(100)
    ensures (log + extra)[..|base|] == base
    ensures forall x :: |base| <= x < |log + extra| ==> (log + extra)[x] == Call.AddScore(100)
  {
    assert (log + extra)[..|base|] == log[..|base|];
  }

  /** One more enemy of the chain adds a flat 100 exactly when it is alive
      and not the bomb. */
  lemma ChainStep(w: World, k: nat, n: nat)
    requires 0 < n <= |w.c.enemies|
    ensures var (p, r) := (Detonated(w, k, n - 1), Detonated(w, k, n));
      r.s.calls == p.s.calls + (if p.c.enemies[n - 1].alive && n - 1 != k then [Call.AddScore(100)] else [])
  {
  }

  /** Killing one live entry removes exactly one entry from the filtered
      collection. */
  lemma KillOneLive(s: seq<EntityVal>, k: nat)
    requires k < |s| && s[k].alive
    ensures |LiveVals(s[k := Killed(s[k])])| + 1 == |LiveVals(s)|
  {
    var t := s[k := Killed(s[k])];
    assert s == s[..k] + [s[k]] + s[k + 1..];
    assert t == s[..k] + [Killed(s[k])] + s[k + 1..];
    LiveValsKeepsOrder(s[..k] + [s[k]], s[k + 1..]);
    LiveValsKeepsOrder(s[..k], [s[k]]);
    LiveValsKeepsOrder(s[..k] + [Killed(s[k])], s[k + 1..]);
    LiveValsKeepsOrder(s[..k], [Killed(s[k])]);
    LiveValsSingle(s[k]);
    LiveValsSingle(Killed(s[k]));
  }

  /** The world a bomb's chain starts from: the bomb dead and its own
      score recorded. */
  function Bombed(w: World, k: nat): World
    requires k < |w.c.enemies|
  {
    var e := w.c.enemies[k];
    World(w.c.(enemies := w.c.enemies[k := Killed(e)]),
          w.s.(calls := w.s.calls + [Call.AddScore(JsRound(100.0 * DistBonus(e.depth)))]))
  }

  /** A bomb takes every enemy with it: afterwards none is alive, so the
      next removal of dead enemies empties the collection. */
  lemma BombClearsEnemies(w: World, k: nat)
    requires k < |w.c.enemies| && w.c.enemies[k].kind == Bomb
    ensures forall j :: 0 <= j < |StrikeEnemy(w, k).c.enemies| ==> !StrikeEnemy(w, k).c.enemies[j].alive
    ensures LiveVals(StrikeEnemy(w, k).c.enemies) == []
  {
    var b := Bombed(w, k);
    DetonatedKills(b, k, |w.c.enemies|);
    var r := StrikeEnemy(w, k).c.enemies;
    assert r == Detonated(b, k, |w.c.enemies|).c.enemies;
    LiveValsNone(r);
  }

  /** A live bomb records one score per enemy that was alive: its own 100
      with the distance bonus, then a flat 100 for each other; the
      multiplier rises by 0.5 up to 4, and nothing else in the state
      changes. */
  lemma BombScoresEveryEnemy(w: World, k: nat)
    requires k < |w.c.enemies| && w.c.enemies[k].kind == Bomb && w.c.enemies[k].alive
    ensures var r := StrikeEnemy(w, k);
      && |r.s.calls| == |w.s.calls| + |LiveVals(w.c.enemies)|
      && r.s.calls[..|w.s.calls|] == w.s.calls
      && |r.s.calls| > |w.s.calls|
      && r.s.calls[|w.s.calls|] == Call.AddScore(if w.c.enemies[k].depth >= 4.0 then 150 else 100)
      && (forall x :: |w.s.calls| < x < |r.s.calls| ==> r.s.calls[x] == Call.AddScore(100))
      && r.s == w.s.(calls := r.s.calls, scoreMultiplier := Min(w.s.scoreMultiplier + 0.5, 4.0))
  {
    var b := Bombed(w, k);
    var d := Detonated(b, k, |w.c.enemies|);
    ChainScores(w, k, b, d);
    assert StrikeEnemy(w, k).s == d.s.(scoreMultiplier := Min(w.s.scoreMultiplier + 0.5, 4.0));
  }

  /** The bomb's own part of its strike: it dies, so one live enemy fewer
      is left for the chain, and its score is recorded. */
  lemma BombedFacts(w: World, k: nat, b: World)
    requires k < |w.c.enemies| && w.c.enemies[k].alive && b == Bombed(w, k)
    ensures |b.c.enemies| == |w.c.enemies| && !b.c.enemies[k].alive
    ensures |LiveVals(b.c.enemies)| + 1 == |LiveVals(w.c.enemies)|
    ensures b.s == w.s.(calls := w.s.calls + [Call.AddScore(if w.c.enemies[k].depth >= 4.0 then 150 else 100)])
  {
    DistBonusScores(w.c.enemies[k].depth);
    KillOneLive(w.c.enemies, k);
  }

  /** The calls a live bomb's strike records before the multiplier rises;
      `b` and `d` name the bomb's own step and the chain after it. */
  lemma ChainScores(w: World, k: nat, b: World, d: World)
    requires k < |w.c.enemies| && w.c.enemies[k].kind == Bomb && w.c.enemies[k].alive
    requires b == Bombed(w, k) && d == Detonated(b, k, |w.c.enemies|)
    ensures && |d.s.calls| == |w.s.calls| + |LiveVals(w.c.enemies)|
      && d.s.calls[..|w.s.calls|] == w.s.calls
      && |d.s.calls| > |w.s.calls|
      && d.s.calls[|w.s.calls|] == Call.AddScore(if w.c.enemies[k].depth >= 4.0 then 150 else 100)
      && (forall x :: |w.s.calls| < x < |d.s.calls| ==> d.s.calls[x] == Call.AddScore(100))
      && d.s == w.s.(calls := d.s.calls)
  {
    BombedFacts(w, k, b);
    assert b.c.enemies[..|w.c.enemies|] == b.c.enemies;
    DetonatedScores(b, k, |w.c.enemies|);
    CallsExtend(w.s.calls, b.s.calls, d.s.calls);
  }

  /** A log that extends `mid`, itself `before` and one more call, starts
      with `before` and then that call. */
  lemma CallsExtend(before: seq<Call>, mid: seq<Call>, after: seq<Call>)
    requires |mid| == |before| + 1 && mid[..|before|] == before
    requires |mid| <= |after| && after[..|mid|] == mid
    ensures after[..|before|] == before && after[|before|] == mid[|before|]
  {
    assert after[..|before|] == after[..|mid|][..|before|];
  }

  /** Positions stay and nothing comes back to life: what one state of the
      registry keeps from an earlier one. */
  ghost predicate Stays(x: EntityVal, y: EntityVal)
  {
    y.lane == x.lane && y.lane2 == x.lane2 && y.depth == x.depth && y.kind == x.kind
    && (y.alive ==> x.alive)
  }

  ghost predicate AllStay(a: seq<EntityVal>, b: seq<EntityVal>)
  {
    |a| == |b| && forall j :: 0 <= j < |a| ==> Stays(a[j], b[j])
  }

  ghost predicate Shrinks(a: World, b: World)
  {
    AllStay(a.c.bullets, b.c.bullets) && AllStay(a.c.walls, b.c.walls)
    && AllStay(a.c.doublewalls, b.c.doublewalls) && AllStay(a.c.enemies, b.c.enemies)
  }

  lemma ShrinksTransitive(a: World, b: World, c: World)
    requires Shrinks(a, b) && Shrinks(b, c)
    ensures Shrinks(a, c)
  {
  }

  /** Walls and double walls only ever change their flash, and only by
      lighting it up to 1.0: they keep their place and are never killed by
      a bullet. */
  ghost predicate WallsOnlyFlash(a: World, b: World)
  {
    |a.c.walls| == |b.c.walls| && |a.c.doublewalls| == |b.c.doublewalls|
    && (forall j :: 0 <= j < |a.c.walls| ==> FlashedOrKept(a.c.walls[j], b.c.walls[j]))
    && (forall j :: 0 <= j < |a.c.doublewalls| ==> FlashedOrKept(a.c.doublewalls[j], b.c.doublewalls[j]))
  }

  /** `y` is `x`, possibly with its flash set to 1.0. */
  ghost predicate FlashedOrKept(x: EntityVal, y: EntityVal)
  {
    y == x || y == x.(hitFlash := 1.0)
  }

  /** The state fields a collision can change: the score log, health and
      the multiplier. Health can only become 100; every recorded call is a
      positive score. */
  ghost predicate OnlyScoresAndHealth(a: StateVal, b: StateVal)
  {
    b == a.(calls := b.calls, health := b.health, scoreMultiplier := b.scoreMultiplier)
    && (b.health == a.health || b.health == 100)
    && |a.calls| <= |b.calls| && b.calls[..|a.calls|] == a.calls
    && (forall x :: |a.calls| <= x < |b.calls| ==> b.calls[x].AddScore? && b.calls[x].points > 0)
    && (a.scoreMultiplier <= 4.0 ==> a.scoreMultiplier <= b.scoreMultiplier <= 4.0)
  }

  lemma StrikeEnemyShrinks(w: World, k: nat)
    requires k < |w.c.enemies|
    ensures Shrinks(w, StrikeEnemy(w, k))
  {
    if w.c.enemies[k].kind == Bomb {
      DetonatedKills(Bombed(w, k), k, |w.c.enemies|);
    }
  }

  lemma StrikeEnemyOnlyScores(w: World, k: nat)
    requires k < |w.c.enemies|
    ensures OnlyScoresAndHealth(w.s, StrikeEnemy(w, k).s)
  {
    var e := w.c.enemies[k];
    var r := StrikeEnemy(w, k).s;
    DistBonusScores(e.depth);
    if e.kind == Bomb {
      var b := Bombed(w, k);
      var d := Detonated(b, k, |w.c.enemies|);
      BombOnlyScores(w, k, b, d);
      assert r == d.s.(scoreMultiplier := Min(w.s.scoreMultiplier + 0.5, 4.0));
    } else if e.kind == Heart {
      AppendedScores(w.s, [], 100, w.s.scoreMultiplier);
      assert r.calls == w.s.calls + [];
    } else {
      AppendedScores(w.s, r.calls[|w.s.calls|..], r.health, r.scoreMultiplier);
      assert r.calls == w.s.calls + r.calls[|w.s.calls|..];
    }
  }

  /** A bomb's strike, before the multiplier rises, records only positive
      scores; `b` and `d` name the bomb's own step and the chain after it. */
  lemma BombOnlyScores(w: World, k: nat, b: World, d: World)
    requires k < |w.c.enemies| && b == Bombed(w, k) && d == Detonated(b, k, |w.c.enemies|)
    ensures OnlyScoresAndHealth(w.s, d.s.(scoreMultiplier := Min(w.s.scoreMultiplier + 0.5, 4.0)))
  {
    var r := d.s.(scoreMultiplier := Min(w.s.scoreMultiplier + 0.5, 4.0));
    DistBonusScores(w.c.enemies[k].depth);
    DetonatedScores(b, k, |w.c.enemies|);
    AppendedScores(w.s, r.calls[|w.s.calls|..], r.health, r.scoreMultiplier);
    assert r.calls[..|w.s.calls|] == r.calls[..|b.s.calls|][..|w.s.calls|];
    assert r.calls == w.s.calls + r.calls[|w.s.calls|..];
  }

  lemma AppendedScores(a: StateVal, extra: seq<Call>, health: int, multiplier: real)
    requires forall x :: 0 <= x < |extra| ==> extra[x].AddScore? && extra[x].points > 0
    requires health == a.health || health == 100
    requires a.scoreMultiplier <= 4.0 ==> a.scoreMultiplier <= multiplier <= 4.0
    ensures OnlyScoresAndHealth(a, a.(calls := a.calls + extra, health := health, scoreMultiplier := multiplier))
  {
    var b := a.(calls := a.calls + extra, health := health, scoreMultiplier := multiplier);
    assert b.calls[..|a.calls|] == a.calls;
    assert forall x :: |a.calls| <= x < |b.calls| ==> b.calls[x] == extra[x - |a.calls|];
  }

  /** The enemy a live bullet strikes, if it meets no wall or double wall first. */
  function StruckEnemy(w: World, i: nat): Option<nat>
    requires i < |w.c.bullets|
  {
    var b := w.c.bullets[i];
    var depth := b.depth.Floor;
    if b.alive && FirstHit(Walls, w.c.walls, b.lane, depth).None?
       && FirstHit(DoubleWalls, w.c.doublewalls, b.lane, depth).None?
    then FirstHit(Enemies, w.c.enemies, b.lane, depth)
    else None
  }

  /** `r` names the result of the check, so that callers holding it as a
      term of a pass need not unfold the check again. */
  lemma ResolveBulletShrinks(w: World, r: World, i: nat)
    requires i < |w.c.bullets| && r == ResolveBullet(w, i)
    ensures Shrinks(w, r)
  {
    var k := StruckEnemy(w, i);
    if k.Some? {
      StrikeEnemyShrinks(World(w.c.(bullets := w.c.bullets[i := Killed(w.c.bullets[i])]), w.s), k.value);
    }
  }

  lemma ResolveBulletSparesWalls(w: World, r: World, i: nat)
    requires i < |w.c.bullets| && r == ResolveBullet(w, i)
    ensures WallsOnlyFlash(w, r)
  {
  }

  lemma ResolveBulletOnlyScores(w: World, r: World, i: nat)
    requires i < |w.c.bullets| && r == ResolveBullet(w, i)
    ensures OnlyScoresAndHealth(w.s, r.s)
  {
    var k := StruckEnemy(w, i);
    if k.Some? {
      StrikeEnemyOnlyScores(World(w.c.(bullets := w.c.bullets[i := Killed(w.c.bullets[i])]), w.s), k.value);
    }
  }

  lemma OnlyScoresTransitive(a: StateVal, b: StateVal, c: StateVal)
    requires OnlyScoresAndHealth(a, b) && OnlyScoresAndHealth(b, c)
    ensures OnlyScoresAndHealth(a, c)
  {
    assert c.calls[..|a.calls|] == b.calls[..|b.calls|][..|a.calls|];
  }

  lemma WallsOnlyFlashTransitive(a: World, b: World, c: World)
    requires WallsOnlyFlash(a, b) && WallsOnlyFlash(b, c)
    ensures WallsOnlyFlash(a, c)
  {
  }

  /** One more bullet checked: the step every induction over a pass takes. */
  lemma PrefixStep(w: World, n: nat)
    requires 0 < n <= |w.c.bullets|
    ensures ResolvePrefix(w, n) == ResolveBullet(ResolvePrefix(w, n - 1), n - 1)
  {
  }

  lemma StepShrinks(w: World, n: nat)
    requires 0 < n <= |w.c.bullets|
    ensures Shrinks(ResolvePrefix(w, n - 1), ResolvePrefix(w, n))
  {
    ResolveBulletShrinks(ResolvePrefix(w, n - 1), ResolvePrefix(w, n), n - 1);
  }

  lemma StepSparesWalls(w: World, n: nat)
    requires 0 < n <= |w.c.bullets|
    ensures WallsOnlyFlash(ResolvePrefix(w, n - 1), ResolvePrefix(w, n))
  {
    ResolveBulletSparesWalls(ResolvePrefix(w, n - 1), ResolvePrefix(w, n), n - 1);
  }

  lemma StepOnlyScores(w: World, n: nat)
    requires 0 < n <= |w.c.bullets|
    ensures OnlyScoresAndHealth(ResolvePrefix(w, n - 1).s, ResolvePrefix(w, n).s)
  {
    ResolveBulletOnlyScores(ResolvePrefix(w, n - 1), ResolvePrefix(w, n), n - 1);
  }

  /** Over a whole pass, positions stay and nothing revives. */
  lemma {:induction false} ResolveShrinks(w: World, n: nat)
    requires n <= |w.c.bullets|
    ensures Shrinks(w, ResolvePrefix(w, n))
  {
    if n > 0 {
      var p := ResolvePrefix(w, n - 1);
      var r := ResolvePrefix(w, n);
      ResolveShrinks(w, n - 1);
      StepShrinks(w, n);
      ShrinksTransitive(w, p, r);
    }
  }

  /** Over a whole pass, walls and double walls only flash: no bullet ever
      kills or moves one. */
  lemma {:induction false} ResolveSparesWalls(w: World, n: nat)
    requires n <= |w.c.bullets|
    ensures WallsOnlyFlash(w, ResolvePrefix(w, n))
  {
    if n > 0 {
      var p := ResolvePrefix(w, n - 1);
      var r := ResolvePrefix(w, n);
      ResolveSparesWalls(w, n - 1);
      StepSparesWalls(w, n);
      WallsOnlyFlashTransitive(w, p, r);
    }
  }

  /** Over a whole pass, the game state changes only by positive score
      calls, health restored to 100 and a multiplier that never falls and
      never passes 4. */
  lemma {:induction false} ResolveOnlyScores(w: World, n: nat)
    requires n <= |w.c.bullets|
    ensures OnlyScoresAndHealth(w.s, ResolvePrefix(w, n).s)
  {
    if n > 0 {
      var p := ResolvePrefix(w, n - 1);
      var r := ResolvePrefix(w, n);
      ResolveOnlyScores(w, n - 1);
      StepOnlyScores(w, n);
      OnlyScoresTransitive(w.s, p.s, r.s);
    }
  }

  /** Bullet `j` is dead or stands where nothing can be hit. */
  ghost predicate Settled(w: World, j: nat)
    requires j < |w.c.bullets|
  {
    w.c.bullets[j].alive ==> ClearOfAll(w, w.c.bullets[j])
  }

  /** A settled bullet stays settled while the registry only shrinks. */
  lemma SettledStays(a: World, b: World, j: nat)
    requires Shrinks(a, b) && j < |a.c.bullets| && Settled(a, j)
    requires b.c.bullets[j].depth == a.c.bullets[j].depth
    ensures Settled(b, j)
  {
    var x := a.c.bullets[j];
    var y := b.c.bullets[j];
    if y.alive {
      assert forall m :: 0 <= m < |b.c.walls| && Hits(Walls, b.c.walls[m], y.lane, y.depth.Floor)
               ==> Hits(Walls, a.c.walls[m], x.lane, x.depth.Floor);
      assert forall m :: 0 <= m < |b.c.doublewalls| && Hits(DoubleWalls, b.c.doublewalls[m], y.lane, y.depth.Floor)
               ==> Hits(DoubleWalls, a.c.doublewalls[m], x.lane, x.depth.Floor);
      assert forall m :: 0 <= m < |b.c.enemies| && Hits(Enemies, b.c.enemies[m], y.lane, y.depth.Floor)
               ==> Hits(Enemies, a.c.enemies[m], x.lane, x.depth.Floor);
    }
  }

  /** The bullet just checked is settled, and no other bullet changed. */
  lemma StepSettles(w: World, r: World, i: nat)
    requires i < |w.c.bullets| && r == ResolveBullet(w, i)
    ensures Settled(r, i)
    ensures forall j :: 0 <= j < |w.c.bullets| && j != i ==> r.c.bullets[j] == w.c.bullets[j]
  {
    ResolveBulletOutcome(w, i);
  }

  /** After the first `n` checks, each of those bullets is settled. */
  lemma {:induction false} ResolvePrefixSettles(w: World, n: nat)
    requires n <= |w.c.bullets|
    ensures forall j :: 0 <= j < n ==> Settled(ResolvePrefix(w, n), j)
  {
    if n > 0 {
      var p := ResolvePrefix(w, n - 1);
      var r := ResolvePrefix(w, n);
      ResolvePrefixSettles(w, n - 1);
      StepShrinks(w, n);
      StepSettles(p, r, n - 1);
      forall j | 0 <= j < n
        ensures Settled(r, j)
      {
        if j < n - 1 {
          SettledStays(p, r, j);
        }
      }
    }
  }

  /** Checking settled bullets changes nothing. */
  lemma {:induction false} SettledPassIsIdle(w: World, n: nat)
    requires n <= |w.c.bullets|
    requires forall j :: 0 <= j < |w.c.bullets| ==> Settled(w, j)
    ensures ResolvePrefix(w, n) == w
  {
    if n > 0 {
      SettledPassIsIdle(w, n - 1);
      assert Settled(w, n - 1);
      ResolveBulletOutcome(w, n - 1);
      assert ResolvePrefix(w, n) == ResolveBullet(w, n - 1);
    }
  }

  /** A second `resolve()` right after one changes nothing: every bullet
      that survived the first found its cell empty, and the first pass only
      killed. */
  lemma ResolveIsIdempotent(w: World)
    ensures Resolved(Resolved(w)) == Resolved(w)
  {
    var r := Resolved(w);
    ResolvePrefixSettles(w, |w.c.bullets|);
    SettledPassIsIdle(r, |r.c.bullets|);
  }
}
