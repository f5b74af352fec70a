/** Entities moving along the tunnel (src/game/entities/).

    The source has a base class `Entity` and one subclass per entity type.
    Here one class `Entity` carries a `kind` tag and the union of the
    subclass fields; `Tick` dispatches on the tag the way each subclass's
    `tick` override does. A field that a kind does not have keeps the
    default its constructor gives it, and no rule of that kind reads it.

    Every method is specified by a pure function on `EntityVal`, a snapshot
    of all fields, so that properties spanning several calls are lemmas
    about those functions (see entity_lemmas.dfy). */
module Entities {
  import opened Config
  import opened Numerics

  /** The `type` string of each entity class. */
  datatype Kind = Enemy | Tank | Wall | DoubleWall | Bullet | Phase | Spiral | Heart | Bomb

  /** Shield state of a phase enemy: 'shielded' or 'vulnerable'. */
  datatype ShieldPhase = Shielded | Vulnerable

  /** The values of all fields of an entity object at one moment. */
  datatype EntityVal = EntityVal(
    kind: Kind,
    lane: int,
    depth: real,
    prevDepth: real,
    alive: bool,
    hp: int,                 // Tank
    hitFlash: real,          // Wall, DoubleWall, PhaseEnemy
    lane2: int,              // DoubleWall
    phase: ShieldPhase,      // PhaseEnemy
    transitionFlash: real,   // PhaseEnemy
    spinDir: int,            // SpiralEnemy
    prevLane: int,           // SpiralEnemy
    spinTick: int,           // SpiralEnemy
    dying: bool,             // read by the world tick, set nowhere
    pendingKill: bool)       // read by the world tick, set nowhere

  /** The base constructor: lane, depth and type as given, prevDepth equal to
      depth, alive. */
  function Base(kind: Kind, lane: int, depth: real): (v: EntityVal)
    ensures v.kind == kind && v.lane == lane && v.depth == depth
    ensures v.prevDepth == depth && v.alive
    ensures !v.dying && !v.pendingKill
  {
    EntityVal(kind, lane, depth, depth, true, 0, 0.0, 0, Shielded, 0.0, 0, 0, 0, false, false)
  }

  function NewEnemy(lane: int, depth: real): EntityVal { Base(Enemy, lane, depth) }

  function NewTank(lane: int, depth: real): EntityVal { Base(Tank, lane, depth).(hp := 2) }

  function NewWall(lane: int, depth: real): EntityVal { Base(Wall, lane, depth).(hitFlash := 0.0) }

  function NewDoubleWall(lane: int, depth: real): EntityVal
  {
    Base(DoubleWall, lane, depth).(lane2 := JsRem(lane + 1, NUM_LANES), hitFlash := 0.0)
  }

  /** A bullet starts half a step behind its spawn depth, so that it is drawn
      moving at once. */
  function NewBullet(lane: int, depth: real): EntityVal
  {
    Base(Bullet, lane, depth).(prevDepth := depth - 0.5)
  }

  function NewPhase(lane: int, depth: real): EntityVal
  {
    Base(Phase, lane, depth).(phase := Shielded, hitFlash := 0.0, transitionFlash := 0.0)
  }

  /** The spin direction is drawn at random by the source; here it is given. */
  function NewSpiral(lane: int, depth: real, spinDir: int): EntityVal
  {
    Base(Spiral, lane, depth).(spinDir := spinDir, prevLane := lane, spinTick := 0)
  }

  function NewHeart(lane: int, depth: real): EntityVal { Base(Heart, lane, depth) }

  function NewBomb(lane: int, depth: real): EntityVal { Base(Bomb, lane, depth) }

  /** `kill()`: only `alive` changes. */
  function Killed(v: EntityVal): EntityVal { v.(alive := false) }

  /** One `tick()` of each kind. A plain enemy does not record prevDepth;
      a bullet moves outwards and dies once past the spawn ring; a phase
      enemy drops its shield near the player; a spiral enemy changes lane
      on every second tick. */
  function Ticked(v: EntityVal): EntityVal
  {
    match v.kind
    case Enemy => v.(depth := v.depth - 1.0)
    case Tank | Wall | DoubleWall | Heart | Bomb => v.(prevDepth := v.depth, depth := v.depth - 1.0)
    case Bullet =>
      var moved := v.(prevDepth := v.depth, depth := v.depth + 1.0);
      if moved.depth > MAX_DEPTH as real then Killed(moved) else moved
    case Phase =>
      var moved := v.(prevDepth := v.depth, depth := v.depth - 1.0);
      if moved.phase == Shielded && moved.depth <= PHASE_DEPTH as real
      then moved.(phase := Vulnerable, transitionFlash := 1.0)
      else moved
    case Spiral =>
      var moved := v.(prevDepth := v.depth, prevLane := v.lane, depth := v.depth - 1.0,
                      spinTick := v.spinTick + 1);
      if JsRem(moved.spinTick, 2) == 0
      then moved.(lane := JsRem(moved.lane + moved.spinDir + NUM_LANES, NUM_LANES))
      else moved
  }

  /** Tank `hit()`: one hit point less; the tank dies, and the hit is
      reported lethal, once no hit point is left. */
  function HitOutcome(v: EntityVal): (EntityVal, bool)
  {
    var hurt := v.(hp := v.hp - 1);
    if hurt.hp <= 0 then (Killed(hurt), true) else (hurt, false)
  }

  class Entity {
    const kind: Kind
    var lane: int
    var depth: real
    var prevDepth: real
    var alive: bool
    var hp: int
    var hitFlash: real
    const lane2: int
    var phase: ShieldPhase
    var transitionFlash: real
    const spinDir: int
    var prevLane: int
    var spinTick: int
    var dying: bool
    var pendingKill: bool

    /** The current values of all fields. */
    function Val(): EntityVal
      reads this
    {
      EntityVal(kind, lane, depth, prevDepth, alive, hp, hitFlash, lane2, phase,
                transitionFlash, spinDir, prevLane, spinTick, dying, pendingKill)
    }

    constructor Enemy(lane: int, depth: real)
      ensures Val() == NewEnemy(lane, depth)
    {
      kind, this.lane, this.depth, prevDepth, alive := Kind.Enemy, lane, depth, depth, true;
      hp, hitFlash, lane2, phase, transitionFlash := 0, 0.0, 0, Shielded, 0.0;
      spinDir, prevLane, spinTick, dying, pendingKill := 0, 0, 0, false, false;
    }

    constructor Tank(lane: int, depth: real)
      ensures Val() == NewTank(lane, depth)
    {
      kind, this.lane, this.depth, prevDepth, alive := Kind.Tank, lane, depth, depth, true;
      hp, hitFlash, lane2, phase, transitionFlash := 2, 0.0, 0, Shielded, 0.0;
      spinDir, prevLane, spinTick, dying, pendingKill := 0, 0, 0, false, false;
    }

    constructor Wall(lane: int, depth: real)
      ensures Val() == NewWall(lane, depth)
    {
      kind, this.lane, this.depth, prevDepth, alive := Kind.Wall, lane, depth, depth, true;
      hp, hitFlash, lane2, phase, transitionFlash := 0, 0.0, 0, Shielded, 0.0;
      spinDir, prevLane, spinTick, dying, pendingKill := 0, 0, 0, false, false;
    }

    constructor DoubleWall(lane: int, depth: real)
      ensures Val() == NewDoubleWall(lane, depth)
    {
      kind, this.lane, this.depth, prevDepth, alive := Kind.DoubleWall, lane, depth, depth, true;
      hp, hitFlash, phase, transitionFlash := 0, 0.0, Shielded, 0.0;
      lane2 := JsRem(lane + 1, NUM_LANES);
      spinDir, prevLane, spinTick, dying, pendingKill := 0, 0, 0, false, false;
    }

    constructor Bullet(lane: int, depth: real)
      ensures Val() == NewBullet(lane, depth)
    {
      kind, this.lane, this.depth, alive := Kind.Bullet, lane, depth, true;
      prevDepth := depth - 0.5;
      hp, hitFlash, lane2, phase, transitionFlash := 0, 0.0, 0, Shielded, 0.0;
      spinDir, prevLane, spinTick, dying, pendingKill := 0, 0, 0, false, false;
    }

    constructor Phase(lane: int, depth: real)
      ensures Val() == NewPhase(lane, depth)
    {
      kind, this.lane, this.depth, prevDepth, alive := Kind.Phase, lane, depth, depth, true;
      hp, hitFlash, lane2, phase, transitionFlash := 0, 0.0, 0, Shielded, 0.0;
      spinDir, prevLane, spinTick, dying, pendingKill := 0, 0, 0, false, false;
    }

    constructor Spiral(lane: int, depth: real, spinDir: int)
      requires spinDir == 1 || spinDir == -1
      ensures Val() == NewSpiral(lane, depth, spinDir)
    {
      kind, this.lane, this.depth, prevDepth, alive := Kind.Spiral, lane, depth, depth, true;
      hp, hitFlash, lane2, phase, transitionFlash := 0, 0.0, 0, Shielded, 0.0;
      this.spinDir, prevLane, spinTick, dying, pendingKill := spinDir, lane, 0, false, false;
    }

    constructor Heart(lane: int, depth: real)
      ensures Val() == NewHeart(lane, depth)
    {
      kind, this.lane, this.depth, prevDepth, alive := Kind.Heart, lane, depth, depth, true;
      hp, hitFlash, lane2, phase, transitionFlash := 0, 0.0, 0, Shielded, 0.0;
      spinDir, prevLane, spinTick, dying, pendingKill := 0, 0, 0, false, false;
    }

    constructor Bomb(lane: int, depth: real)
      ensures Val() == NewBomb(lane, depth)
    {
      kind, this.lane, this.depth, prevDepth, alive := Kind.Bomb, lane, depth, depth, true;
      hp, hitFlash, lane2, phase, transitionFlash := 0, 0.0, 0, Shielded, 0.0;
      spinDir, prevLane, spinTick, dying, pendingKill := 0, 0, 0, false, false;
    }

    method Kill()
      modifies this
      ensures Val() == Killed(old(Val()))
    {
      alive := false;
    }

    method Tick()
      modifies this
      ensures Val() == Ticked(old(Val()))
    {
      match kind
      case Enemy =>
        depth := depth - 1.0;
      case Tank | Wall | DoubleWall | Heart | Bomb =>
        prevDepth := depth;
        depth := depth - 1.0;
      case Bullet =>
        TickBullet();
      case Phase =>
        TickPhase();
      case Spiral =>
        TickSpiral();
    }

    /** `Bullet.tick`. */
    method TickBullet()
      requires kind == Kind.Bullet
      modifies this
      ensures Val() == Ticked(old(Val()))
    {
      prevDepth := depth;
      depth := depth + 1.0;
      if depth > MAX_DEPTH as real {
        Kill();
      }
    }

    /** `PhaseEnemy.tick`. */
    method TickPhase()
      requires kind == Kind.Phase
      modifies this
      ensures Val() == Ticked(old(Val()))
    {
      prevDepth := depth;
      depth := depth - 1.0;
      if phase == Shielded && depth <= PHASE_DEPTH as real {
        phase := Vulnerable;
        transitionFlash := 1.0;
      }
    }

    /** `SpiralEnemy.tick`. */
    method TickSpiral()
      requires kind == Kind.Spiral
      modifies this
      ensures Val() == Ticked(old(Val()))
    {
      prevDepth := depth;
      prevLane := lane;
      depth := depth - 1.0;
      spinTick := spinTick + 1;
      if JsRem(spinTick, 2) == 0 {
        lane := JsRem(lane + spinDir + NUM_LANES, NUM_LANES);
      }
    }

    /** Only tanks have `hit()`. */
    method Hit() returns (dead: bool)
      requires kind == Kind.Tank
      modifies this
      ensures (Val(), dead) == HitOutcome(old(Val()))
    {
      hp := hp - 1;
      if hp <= 0 {
        Kill();
      }
      dead := hp <= 0;
    }
  }
}
