/** What the entity rules promise, stated over the snapshot functions of
    module Entities. */
module EntityProperties {
  import opened Config
  import opened Numerics
  import opened Entities

  /** `n` consecutive ticks of one entity. */
  function Iterate(v: EntityVal, n: nat): EntityVal
  {
    if n == 0 then v else Ticked(Iterate(v, n - 1))
  }

  /** Every constructor keeps lane and depth as given, starts alive, and
      (except the bullet) records prevDepth equal to depth; each sets its
      own type and type-specific fields. */
  lemma Constructors(lane: int, depth: real, spinDir: int)
    ensures var e := NewEnemy(lane, depth);
      e.kind == Enemy && e.lane == lane && e.depth == depth && e.prevDepth == depth && e.alive
    ensures var t := NewTank(lane, depth);
      t.kind == Tank && t.hp == 2 && t.lane == lane && t.depth == depth && t.prevDepth == depth && t.alive
    ensures var w := NewWall(lane, depth);
      w.kind == Wall && w.hitFlash == 0.0 && w.lane == lane && w.depth == depth && w.prevDepth == depth && w.alive
    ensures var d := NewDoubleWall(lane, depth);
      d.kind == DoubleWall && d.hitFlash == 0.0 && d.lane == lane && d.depth == depth && d.prevDepth == depth && d.alive
    ensures var b := NewBullet(lane, depth);
      b.kind == Bullet && b.lane == lane && b.depth == depth && b.prevDepth == depth - 0.5 && b.alive
    ensures var p := NewPhase(lane, depth);
      p.kind == Phase && p.phase == Shielded && p.hitFlash == 0.0 && p.transitionFlash == 0.0
      && p.lane == lane && p.depth == depth && p.prevDepth == depth && p.alive
    ensures var s := NewSpiral(lane, depth, spinDir);
      s.kind == Spiral && s.spinDir == spinDir && s.prevLane == lane && s.spinTick == 0
      && s.lane == lane && s.depth == depth && s.prevDepth == depth && s.alive
    ensures var h := NewHeart(lane, depth);
      h.kind == Heart && h.lane == lane && h.depth == depth && h.prevDepth == depth && h.alive
    ensures var m := NewBomb(lane, depth);
      m.kind == Bomb && m.lane == lane && m.depth == depth && m.prevDepth == depth && m.alive
  {
  }

  /** A double wall spans its lane and the next one around the tunnel. */
  lemma DoubleWallSpansNextLane(lane: int, depth: real)
    requires 0 <= lane < NUM_LANES
    ensures var d := NewDoubleWall(lane, depth);
      0 <= d.lane2 < NUM_LANES && d.lane2 != d.lane && d.lane2 == (lane + 1) % NUM_LANES
  {
  }

  /** `kill()` clears `alive`, changes nothing else, and is idempotent. */
  lemma KillIsIdempotent(v: EntityVal)
    ensures !Killed(v).alive
    ensures Killed(Killed(v)) == Killed(v)
    ensures Killed(v).(alive := v.alive) == v
  {
  }

  /** One tick moves an entity exactly one step: bullets outwards, every
      other kind towards the player. A plain enemy leaves prevDepth as it
      was; every other kind records the old depth there. Only the spiral
      enemy changes lane and only the bullet can die. */
  lemma TickMovesOneStep(v: EntityVal)
    ensures Ticked(v).kind == v.kind
    ensures v.kind == Bullet ==> Ticked(v).depth == v.depth + 1.0
    ensures v.kind != Bullet ==> Ticked(v).depth == v.depth - 1.0
    ensures v.kind == Enemy ==> Ticked(v).prevDepth == v.prevDepth
    ensures v.kind != Enemy ==> Ticked(v).prevDepth == v.depth
    ensures v.kind != Spiral ==> Ticked(v).lane == v.lane
    ensures v.kind != Bullet ==> Ticked(v).alive == v.alive
    ensures Ticked(v).lane2 == v.lane2 && Ticked(v).hitFlash == v.hitFlash && Ticked(v).hp == v.hp
  {
  }

  /** A ticked bullet dies exactly when it moves past the spawn ring. */
  lemma BulletDiesPastSpawnRing(v: EntityVal)
    requires v.kind == Bullet && v.alive
    ensures !Ticked(v).alive <==> Ticked(v).depth > MAX_DEPTH as real
  {
  }

  /** A bullet fired at depth 0.2 is at depth 0.2 + n after n ticks and is
      alive for exactly five ticks: the sixth takes it to 6.2 and kills it. */
  lemma {:induction false} BulletLifetime(lane: int, n: nat)
    ensures Iterate(NewBullet(lane, 0.2), n).kind == Bullet
    ensures Iterate(NewBullet(lane, 0.2), n).depth == 0.2 + n as real
    ensures Iterate(NewBullet(lane, 0.2), n).alive <==> n <= 5
  {
    if n > 0 {
      BulletLifetime(lane, n - 1);
    }
  }

  /** The first hit on a fresh tank leaves it alive with one hit point;
      the second is lethal and kills it. */
  lemma TankTakesTwoHits(lane: int, depth: real)
    ensures var (once, lethal1) := HitOutcome(NewTank(lane, depth));
      !lethal1 && once.alive && once.hp == 1
    ensures var (twice, lethal2) := HitOutcome(HitOutcome(NewTank(lane, depth)).0);
      lethal2 && !twice.alive && twice.hp == 0
  {
  }

  /** `hit()` takes exactly one hit point, and reports lethal exactly when
      none is left, in which case the tank is dead. */
  lemma HitTakesOnePoint(v: EntityVal)
    ensures HitOutcome(v).0.hp == v.hp - 1
    ensures HitOutcome(v).1 <==> HitOutcome(v).0.hp <= 0
    ensures HitOutcome(v).1 ==> !HitOutcome(v).0.alive
    ensures !HitOutcome(v).1 ==> HitOutcome(v).0 == v.(hp := v.hp - 1)
  {
  }

  /** After a tick, a phase enemy at or inside the phase depth is
      vulnerable; the transition flash is raised only by the tick that
      drops the shield. */
  lemma PhaseDropsShieldNearPlayer(v: EntityVal)
    requires v.kind == Phase
    ensures Ticked(v).depth <= PHASE_DEPTH as real ==> Ticked(v).phase == Vulnerable
    ensures Ticked(v).transitionFlash ==
      (if v.phase == Shielded && Ticked(v).phase == Vulnerable then 1.0 else v.transitionFlash)
  {
  }

  /** Once vulnerable, a phase enemy never becomes shielded again. */
  lemma {:induction false} PhaseStaysVulnerable(v: EntityVal, n: nat)
    requires v.kind == Phase && v.phase == Vulnerable
    ensures Iterate(v, n).kind == Phase && Iterate(v, n).phase == Vulnerable
  {
    if n > 0 {
      PhaseStaysVulnerable(v, n - 1);
    }
  }

  /** A spiral enemy's state as its constructor leaves it and every tick keeps it. */
  ghost predicate SpiralShape(v: EntityVal)
  {
    v.kind == Spiral && 0 <= v.lane < NUM_LANES && (v.spinDir == 1 || v.spinDir == -1)
    && v.spinTick >= 0
  }

  /** One spiral tick records the old lane and depth, counts the tick, and
      changes lane, by one step in the spin direction, exactly when the new
      tick count is even. The lane stays on the tunnel. */
  lemma SpiralTick(v: EntityVal)
    requires SpiralShape(v)
    ensures SpiralShape(Ticked(v)) && Ticked(v).spinDir == v.spinDir
    ensures Ticked(v).prevLane == v.lane && Ticked(v).prevDepth == v.depth
    ensures Ticked(v).depth == v.depth - 1.0 && Ticked(v).spinTick == v.spinTick + 1
    ensures Ticked(v).lane ==
      (if (v.spinTick + 1) % 2 == 0 then (v.lane + v.spinDir + NUM_LANES) % NUM_LANES else v.lane)
  {
  }

  /** Two consecutive ticks move a spiral enemy exactly one lane. */
  lemma SpiralTwoTicks(v: EntityVal)
    requires SpiralShape(v)
    ensures SpiralShape(Iterate(v, 2)) && Iterate(v, 2).spinDir == v.spinDir
    ensures Iterate(v, 2).lane == (v.lane + v.spinDir) % NUM_LANES
    ensures Iterate(v, 2).depth == v.depth - 2.0
  {
    var once := Ticked(v);
    var twice := Ticked(once);
    SpiralTick(v);
    SpiralTick(once);
    IterateTwice(v);
    Alternates(v.spinTick);
    var moved := (v.lane + v.spinDir) % NUM_LANES;
    WrapShift(v.lane, v.spinDir);
    if (v.spinTick + 1) % 2 == 0 {
      assert once.lane == moved;
      assert twice.lane == once.lane;
    } else {
      assert once.lane == v.lane;
      assert twice.lane == moved;
    }
  }

  /** A step round the tunnel, written as the source writes it. */
  lemma WrapShift(lane: int, dir: int)
    ensures (lane + dir + NUM_LANES) % NUM_LANES == (lane + dir) % NUM_LANES
  {
  }

  lemma IterateTwice(v: EntityVal)
    ensures Iterate(v, 2) == Ticked(Ticked(v))
  {
    assert Iterate(v, 1) == Ticked(v);
  }

  /** Of two consecutive tick counts, exactly one is even. */
  lemma Alternates(t: int)
    requires t >= 0
    ensures (t + 1) % 2 == 0 <==> (t + 2) % 2 != 0
  {
  }

  /** Over 2n ticks a spiral enemy drifts n lanes in its spin direction,
      wrapping around the tunnel. */
  lemma {:induction false} SpiralDrift(v: EntityVal, n: nat)
    requires SpiralShape(v)
    ensures SpiralShape(Iterate(v, 2 * n)) && Iterate(v, 2 * n).spinDir == v.spinDir
    ensures Iterate(v, 2 * n).lane == (v.lane + Steps(v.spinDir, n)) % NUM_LANES
  {
    if n > 0 {
      SpiralDrift(v, n - 1);
      var before := v.lane + Steps(v.spinDir, n - 1);
      DriftStep(v, n, before);
      assert before + v.spinDir == v.lane + Steps(v.spinDir, n);
    }
  }

  /** Ticks 2n - 1 and 2n of a spiral enemy move it one lane on from
      wherever `lane` (taken round the tunnel) put it. */
  lemma DriftStep(v: EntityVal, n: nat, lane: int)
    requires n > 0 && SpiralShape(Iterate(v, 2 * n - 2))
    requires Iterate(v, 2 * n - 2).lane == lane % NUM_LANES
    ensures var (w, r) := (Iterate(v, 2 * n - 2), Iterate(v, 2 * n));
      SpiralShape(r) && r.spinDir == w.spinDir && r.lane == (lane + w.spinDir) % NUM_LANES
  {
    var w := Iterate(v, 2 * n - 2);
    SpiralTwoTicks(w);
    assert Iterate(w, 1) == Ticked(w);
    assert Iterate(v, 2 * n - 1) == Ticked(w);
    assert Iterate(v, 2 * n) == Iterate(w, 2);
    LaneArithmetic(lane, w.spinDir);
  }

  /** n lane steps in direction dir (+1 or -1). */
  function Steps(dir: int, n: nat): int
  {
    if dir == 1 then n else -(n as int)
  }

  lemma LaneArithmetic(a: int, d: int)
    ensures (a % NUM_LANES + d) % NUM_LANES == (a + d) % NUM_LANES
  {
  }
}
