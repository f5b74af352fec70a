/** The player's input queue (src/game/systems/InputSystem.js).

    Key presses are queued, at most four at a time, and `update` drains the
    queue once per frame: fire actions are handled at once, a rotation is
    handed to the scene and ends the drain, and nothing is drained while the
    scene is still rotating. Once the game is over the queue is dropped and
    a requested restart is handed to the scene.

    The keyboard wiring becomes the methods Enqueue, KeySpace and KeyR. The
    scene's `isRotating` flag is a parameter of Update, and its two requests
    (`startRotAnim(dir)` and `scene.restart()`) are Update's results. The
    fire callback is presentation and is left out. */
module Input {
  import opened Config
  import opened Entities
  import opened Registry
  import opened State
  import opened Collision

  datatype Action = Left | Right | Fire

  /** The cap on queued actions; presses beyond it are dropped. */
  const MAX_QUEUE: nat := 4

  /** The queue after a key press that queues `a`. */
  function Enqueued(q: seq<Action>, a: Action): (r: seq<Action>)
  {
    if |q| < MAX_QUEUE then q + [a] else q
  }

  /** `_fire`: nothing while the cooldown runs; otherwise one bullet at depth
      0.2 in the lane facing the player (the world rotation), and the
      cooldown starts. */
  function Fired(w: World): (r: World)
    ensures r.s.fireCooldown > 0.0
    ensures r.c == w.c.(bullets := r.c.bullets) && w.c.bullets <= r.c.bullets
    ensures |r.c.bullets| <= |w.c.bullets| + 1
  {
    if w.s.fireCooldown > 0.0 then w
    else World(w.c.(bullets := w.c.bullets + [NewBullet(w.s.worldRot, 0.2)]),
               w.s.(fireCooldown := FIRE_COOLDOWN_BULLET_TICKS))
  }

  /** What a drain of the queue leaves: the queue, the world, and the
      rotation requested of the scene (-1 left, +1 right, 0 none). */
  datatype Drain = Drain(queue: seq<Action>, w: World, rotation: int)

  /** The loop of `update` when the game is not over. */
  function Drained(q: seq<Action>, w: World, isRotating: bool): (d: Drain)
    ensures |d.queue| <= |q| && d.queue == q[|q| - |d.queue|..]
  {
    if q == [] || isRotating then Drain(q, w, 0)
    else
      match q[0]
      case Left => Drain(q[1..], w, -1)
      case Right => Drain(q[1..], w, 1)
      case Fire => Drained(q[1..], Fired(w), isRotating)
  }

  /** The index of the first rotation in the queue, if any. */
  function FirstRotation(q: seq<Action>): (k: Option<nat>)
    ensures k.Some? ==> k.value < |q| && q[k.value] != Fire
    ensures k.Some? ==> forall j :: 0 <= j < k.value ==> q[j] == Fire
    ensures k.None? <==> forall j :: 0 <= j < |q| ==> q[j] == Fire
  {
    if q == [] then None
    else if q[0] != Fire then Some(0)
    else
      match FirstRotation(q[1..])
      case None => None
      case Some(j) => Some(j + 1)
  }

  class InputSystem {
    const state: GameState
    const entityManager: EntityManager
    var queue: seq<Action>
    var pendingRestart: bool

    /** The queue never holds more than MAX_QUEUE actions. */
    predicate Valid()
      reads this
    {
      |queue| <= MAX_QUEUE
    }

    /** The registry and the state as one value. */
    function Now(): World
      reads entityManager, state
    {
      World(entityManager.Snap(), state.Val())
    }

    constructor(state: GameState, entityManager: EntityManager)
      ensures this.state == state && this.entityManager == entityManager
      ensures queue == [] && !pendingRestart && Valid()
    {
      this.state := state;
      this.entityManager := entityManager;
      queue := [];
      pendingRestart := false;
    }

    /** A left, right or space key press queues its action if there is room. */
    method Enqueue(a: Action)
      requires Valid()
      modifies this
      ensures queue == Enqueued(old(queue), a) && pendingRestart == old(pendingRestart)
      ensures Valid()
    {
      if |queue| < MAX_QUEUE {
        queue := queue + [a];
      }
    }

    /** Space both queues a shot and, once the game is over, asks for a restart. */
    method KeySpace()
      requires Valid()
      modifies this
      ensures queue == Enqueued(old(queue), Fire)
      ensures pendingRestart == (old(pendingRestart) || state.gameOver)
      ensures Valid()
    {
      Enqueue(Fire);
      if state.gameOver {
        pendingRestart := true;
      }
    }

    /** R asks for a restart. */
    method KeyR()
      modifies this
      ensures queue == old(queue) && pendingRestart
    {
      pendingRestart := true;
    }

    /** `_fire`. */
    method FireShot()
      modifies entityManager, state
      ensures Now() == Fired(old(Now()))
    {
      if state.fireCooldown > 0.0 {
        return;
      }
      var b := new Entity.Bullet(state.worldRot, 0.2);
      entityManager.AddBullet(b.Val());
      state.fireCooldown := FIRE_COOLDOWN_BULLET_TICKS;
    }

    /** `update`. Returns the rotation to start (0 for none) and whether the
        scene is to restart. */
    method Update(isRotating: bool) returns (rotation: int, restart: bool)
      requires Valid()
      modifies this, entityManager, state
      ensures Valid()
      ensures old(state.gameOver) ==>
        && queue == [] && restart == old(pendingRestart) && !pendingRestart
        && rotation == 0 && Now() == old(Now())
      ensures !old(state.gameOver) ==>
        && Drain(queue, Now(), rotation) == Drained(old(queue), old(Now()), isRotating)
        && !restart && pendingRestart == old(pendingRestart)
    {
      rotation, restart := 0, false;
      if state.gameOver {
        if pendingRestart {
          pendingRestart := false;
          restart := true;
        }
        queue := [];
        return;
      }
      ghost var target := Drained(queue, Now(), isRotating);
      while |queue| > 0
        invariant Valid() && pendingRestart == old(pendingRestart)
        invariant Drained(queue, Now(), isRotating) == target
        decreases |queue|
      {
        if isRotating {
          return;
        }
        var action := queue[0];
        if action == Left {
          queue := queue[1..];
          rotation := -1;
          return;
        } else if action == Right {
          queue := queue[1..];
          rotation := 1;
          return;
        } else {
          queue := queue[1..];
          FireShot();
        }
      }
    }
  }
}
