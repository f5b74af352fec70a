/** The game state (src/game/state/GameState.js): world rotation, score,
    counters and the difficulty ramp.

    The systems also call `addScore`, `takeDamage`, `damageSegment` and
    `takeWallHit` and read and write `health` and `scoreMultiplier`, none
    of which GameState.js defines. Here `health` and `scoreMultiplier` are
    plain fields. Each call to one of the four operations is appended to
    `calls`, and whether a damaging call is fatal is decided by a `Verdict`
    the caller supplies, applied to the state after the call is recorded. */
module State {
  import opened Config
  import opened Numerics

  /** A call to one of the operations GameState.js does not define. */
  datatype Call = AddScore(points: int) | TakeDamage(amount: int) | DamageSegment(lane: int) | TakeWallHit

  /** The values of the game state's fields at one moment. */
  datatype StateVal = StateVal(
    worldRot: int,
    score: int,
    gameOver: bool,
    fireCooldown: real,
    tickCount: int,
    elapsedMs: int,
    health: int,
    scoreMultiplier: real,
    calls: seq<Call>)

  /** Whether a damaging call ends the game, given the state it leaves. */
  type Verdict = StateVal -> bool

  /** One entry of the spawn ramp: from `threshold` elapsed milliseconds on,
      spawn every `ticks` world ticks. */
  datatype RampStep = RampStep(threshold: int, ticks: int)

  datatype Option<T> = None | Some(value: T)

  /** `rotateRight` turns the world five lanes, which is one lane the other way. */
  function RotatedRight(worldRot: int): int { JsRem(worldRot + 5, NUM_LANES) }

  /** `rotateLeft` turns the world one lane. */
  function RotatedLeft(worldRot: int): int { JsRem(worldRot + 1, NUM_LANES) }

  /** `getRenderLane`: where a logical lane is drawn, relative to the player. */
  function RenderLane(worldRot: int, logicalLane: int): (r: int)
    ensures 0 <= worldRot < NUM_LANES && 0 <= logicalLane < NUM_LANES ==>
      0 <= r < NUM_LANES && (r + worldRot) % NUM_LANES == logicalLane
  {
    JsRem(logicalLane - worldRot + NUM_LANES, NUM_LANES)
  }

  /** The logical lane drawn at render lane `r`: the inverse of `RenderLane`. */
  function LogicalLane(worldRot: int, r: int): int
  {
    JsRem(r + worldRot, NUM_LANES)
  }

  /** The index of the last ramp entry whose threshold has been reached. */
  function LastReached(ramp: seq<RampStep>, elapsedMs: int): (k: Option<nat>)
    ensures k.Some? ==> k.value < |ramp| && ramp[k.value].threshold <= elapsedMs
    ensures k.Some? ==> forall j :: k.value < j < |ramp| ==> ramp[j].threshold > elapsedMs
    ensures k.None? ==> forall j :: 0 <= j < |ramp| ==> ramp[j].threshold > elapsedMs
  {
    if ramp == [] then None
    else if ramp[|ramp| - 1].threshold <= elapsedMs then Some(|ramp| - 1)
    else LastReached(ramp[..|ramp| - 1], elapsedMs)
  }

  /** The spawn interval the ramp gives after `elapsedMs`: the ticks of the
      last entry reached, or the first entry's ticks before any is reached. */
  function SpawnInterval(ramp: seq<RampStep>, elapsedMs: int): int
    requires |ramp| > 0
  {
    match LastReached(ramp, elapsedMs)
    case None => ramp[0].ticks
    case Some(k) => ramp[k].ticks
  }

  /** `n` calls of `rotateLeft`, with the game running. */
  function TurnsLeft(worldRot: int, n: nat): int
  {
    if n == 0 then worldRot else RotatedLeft(TurnsLeft(worldRot, n - 1))
  }

  /** Both rotations keep the rotation on the tunnel's lanes. */
  lemma RotationsStayOnTunnel(worldRot: int)
    requires 0 <= worldRot < NUM_LANES
    ensures 0 <= RotatedRight(worldRot) < NUM_LANES
    ensures 0 <= RotatedLeft(worldRot) < NUM_LANES
  {
  }

  /** The two rotations undo each other. */
  lemma RotationsAreInverse(worldRot: int)
    requires 0 <= worldRot < NUM_LANES
    ensures RotatedLeft(RotatedRight(worldRot)) == worldRot
    ensures RotatedRight(RotatedLeft(worldRot)) == worldRot
  {
  }

  /** n left turns advance the rotation by n lanes. */
  lemma {:induction false} LeftTurnsAdd(worldRot: int, n: nat)
    requires 0 <= worldRot < NUM_LANES
    ensures TurnsLeft(worldRot, n) == (worldRot + n) % NUM_LANES
  {
    if n > 0 {
      var before := TurnsLeft(worldRot, n - 1);
      LeftTurnsAdd(worldRot, n - 1);
      assert TurnsLeft(worldRot, n) == (before + 1) % NUM_LANES;
      StepModLanes(worldRot + n - 1);
    }
  }

  /** Six left turns are the identity. */
  lemma SixLeftTurns(worldRot: int)
    requires 0 <= worldRot < NUM_LANES
    ensures TurnsLeft(worldRot, NUM_LANES) == worldRot
  {
    LeftTurnsAdd(worldRot, NUM_LANES);
    assert (worldRot + NUM_LANES) % NUM_LANES == worldRot;
  }

  lemma StepModLanes(a: int)
    requires a >= 0
    ensures (a % NUM_LANES + 1) % NUM_LANES == (a + 1) % NUM_LANES
  {
  }

  /** On the tunnel, both lane maps are a shift by the rotation that wraps
      once at most. */
  lemma LaneMapsShift(worldRot: int, l: int)
    requires 0 <= worldRot < NUM_LANES && 0 <= l < NUM_LANES
    ensures RenderLane(worldRot, l) == if l >= worldRot then l - worldRot else l - worldRot + NUM_LANES
    ensures LogicalLane(worldRot, l) == if l + worldRot < NUM_LANES then l + worldRot else l + worldRot - NUM_LANES
  {
    WrapOnce(l - worldRot + NUM_LANES);
    WrapOnce(l + worldRot);
  }

  lemma WrapOnce(x: int)
    requires 0 <= x < 2 * NUM_LANES
    ensures x % NUM_LANES == if x < NUM_LANES then x else x - NUM_LANES
  {
  }

  /** For a rotation on the tunnel, the render lane is a bijection of the
      lanes onto themselves, with `LogicalLane` as its inverse, that takes
      the player's lane (the rotation) to 0. */
  lemma RenderLaneIsBijection(worldRot: int)
    requires 0 <= worldRot < NUM_LANES
    ensures RenderLane(worldRot, worldRot) == 0
    ensures forall l :: 0 <= l < NUM_LANES ==> 0 <= RenderLane(worldRot, l) < NUM_LANES
    ensures forall l1, l2 :: 0 <= l1 < NUM_LANES && 0 <= l2 < NUM_LANES && l1 != l2 ==>
              RenderLane(worldRot, l1) != RenderLane(worldRot, l2)
    ensures forall r :: 0 <= r < NUM_LANES ==>
              0 <= LogicalLane(worldRot, r) < NUM_LANES
              && RenderLane(worldRot, LogicalLane(worldRot, r)) == r
              && LogicalLane(worldRot, RenderLane(worldRot, r)) == r
  {
    forall l | 0 <= l < NUM_LANES
      ensures RenderLane(worldRot, l) == if l >= worldRot then l - worldRot else l - worldRot + NUM_LANES
      ensures LogicalLane(worldRot, l) == if l + worldRot < NUM_LANES then l + worldRot else l + worldRot - NUM_LANES
    {
      LaneMapsShift(worldRot, l);
    }
    forall r | 0 <= r < NUM_LANES
      ensures RenderLane(worldRot, LogicalLane(worldRot, r)) == r
    {
      LaneMapsShift(worldRot, LogicalLane(worldRot, r));
    }
  }

  /** The spawn interval is the ticks of some ramp entry: the first one
      while no threshold has been reached, afterwards the last one reached,
      so it is the same as a later entry's only when that entry has not yet
      been reached. */
  lemma SpawnIntervalFromRamp(ramp: seq<RampStep>, elapsedMs: int)
    requires |ramp| > 0
    ensures (forall j :: 0 <= j < |ramp| ==> ramp[j].threshold > elapsedMs)
      ==> SpawnInterval(ramp, elapsedMs) == ramp[0].ticks
    ensures forall k :: (0 <= k < |ramp| && ramp[k].threshold <= elapsedMs
                         && (forall j :: k < j < |ramp| ==> ramp[j].threshold > elapsedMs)) ==>
              SpawnInterval(ramp, elapsedMs) == ramp[k].ticks
  {
  }

  class GameState {
    var worldRot: int
    var score: int
    var gameOver: bool
    var fireCooldown: real
    var tickCount: int
    var elapsedMs: int
    var health: int
    var scoreMultiplier: real
    var calls: seq<Call>
    /** The spawn ramp, a configuration entry config.js does not define. */
    const spawnRamp: seq<RampStep>

    function Val(): StateVal
      reads this
    {
      StateVal(worldRot, score, gameOver, fireCooldown, tickCount, elapsedMs, health,
               scoreMultiplier, calls)
    }

    /** `getSpawnInterval` reads the ramp's first entry, so the ramp must have one. */
    predicate Valid()
    {
      |spawnRamp| > 0
    }

    /** `health` and `scoreMultiplier` are not initialised by the source;
        their first values are given here. */
    constructor(ramp: seq<RampStep>, health: int, scoreMultiplier: real)
      requires |ramp| > 0
      ensures spawnRamp == ramp && Valid()
      ensures Val() == StateVal(0, 0, false, 0.0, 0, 0, health, scoreMultiplier, [])
    {
      spawnRamp := ramp;
      this.health, this.scoreMultiplier, calls := health, scoreMultiplier, [];
      worldRot, score, gameOver, fireCooldown, tickCount, elapsedMs := 0, 0, false, 0.0, 0, 0;
    }

    method Reset()
      modifies this
      ensures Val() == old(Val()).(worldRot := 0, score := 0, gameOver := false,
                                   fireCooldown := 0.0, tickCount := 0, elapsedMs := 0)
    {
      worldRot := 0;
      score := 0;
      gameOver := false;
      fireCooldown := 0.0;
      tickCount := 0;
      elapsedMs := 0;
    }

    method RotateRight()
      modifies this
      ensures old(gameOver) ==> Val() == old(Val())
      ensures !old(gameOver) ==> Val() == old(Val()).(worldRot := RotatedRight(old(worldRot)))
    {
      if gameOver {
        return;
      }
      worldRot := JsRem(worldRot + 5, NUM_LANES);
    }

    method RotateLeft()
      modifies this
      ensures old(gameOver) ==> Val() == old(Val())
      ensures !old(gameOver) ==> Val() == old(Val()).(worldRot := RotatedLeft(old(worldRot)))
    {
      if gameOver {
        return;
      }
      worldRot := JsRem(worldRot + 1, NUM_LANES);
    }

    /** `getSpawnInterval`: scans the whole ramp, keeping the ticks of each
        entry whose threshold has been reached. */
    method GetSpawnInterval() returns (interval: int)
      requires Valid()
      ensures interval == SpawnInterval(spawnRamp, elapsedMs)
    {
      var ramp := spawnRamp;
      interval := ramp[0].ticks;
      for i := 0 to |ramp|
        invariant interval == match LastReached(ramp[..i], elapsedMs)
                               case None => ramp[0].ticks
                               case Some(k) => ramp[k].ticks
      {
        assert ramp[..i + 1][..i] == ramp[..i];
        if elapsedMs >= ramp[i].threshold {
          interval := ramp[i].ticks;
        }
      }
      assert ramp[..|ramp|] == ramp;
    }

    /** `addScore(points)`, recorded. */
    method AddScore(points: int)
      modifies this
      ensures Val() == old(Val()).(calls := old(calls) + [Call.AddScore(points)])
    {
      calls := calls + [Call.AddScore(points)];
    }

    /** `takeDamage(amount)`, recorded; returns whether it is fatal. */
    method TakeDamage(amount: int, fatal: Verdict) returns (dead: bool)
      modifies this
      ensures Val() == old(Val()).(calls := old(calls) + [Call.TakeDamage(amount)])
      ensures dead == fatal(Val())
    {
      calls := calls + [Call.TakeDamage(amount)];
      dead := fatal(Val());
    }

    /** `damageSegment(lane)`, recorded; returns whether it is fatal. */
    method DamageSegment(lane: int, fatal: Verdict) returns (dead: bool)
      modifies this
      ensures Val() == old(Val()).(calls := old(calls) + [Call.DamageSegment(lane)])
      ensures dead == fatal(Val())
    {
      calls := calls + [Call.DamageSegment(lane)];
      dead := fatal(Val());
    }

    /** `takeWallHit()`, recorded; returns whether it is fatal. */
    method TakeWallHit(fatal: Verdict) returns (dead: bool)
      modifies this
      ensures Val() == old(Val()).(calls := old(calls) + [Call.TakeWallHit])
      ensures dead == fatal(Val())
    {
      calls := calls + [Call.TakeWallHit];
      dead := fatal(Val());
    }
  }
}
