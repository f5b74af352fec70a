/** What the input queue promises, stated over the functions of module Input. */
module InputProperties {
  import opened Config
  import opened Entities
  import opened State
  import opened Collision
  import opened Input

  /** A press queues its action exactly when fewer than MAX_QUEUE are
      waiting and is dropped otherwise, so the bound is kept. */
  lemma EnqueueKeepsBound(q: seq<Action>, a: Action)
    requires |q| <= MAX_QUEUE
    ensures |Enqueued(q, a)| <= MAX_QUEUE
    ensures |q| < MAX_QUEUE ==> Enqueued(q, a) == q + [a]
    ensures |q| == MAX_QUEUE ==> Enqueued(q, a) == q
  {
  }

  /** A shot while the cooldown runs changes nothing. Otherwise it appends
      exactly one live bullet, at depth 0.2 in the lane of the world
      rotation, and sets the cooldown to 1.5; nothing else changes. */
  lemma FiredEffect(w: World)
    ensures w.s.fireCooldown > 0.0 ==> Fired(w) == w
    ensures w.s.fireCooldown <= 0.0 ==>
      var b := Fired(w).c.bullets[|w.c.bullets|];
      && Fired(w).c == w.c.(bullets := w.c.bullets + [b])
      && b.kind == Bullet && b.alive && b.lane == w.s.worldRot && b.depth == 0.2
      && Fired(w).s == w.s.(fireCooldown := 1.5)
  {
  }

  /** A second shot right after a first is blocked by the cooldown. */
  lemma FiredTwice(w: World)
    ensures Fired(Fired(w)) == Fired(w)
  {
  }

  /** While the scene rotates, a drain takes nothing from the queue. */
  lemma DrainWhileRotating(q: seq<Action>, w: World)
    ensures Drained(q, w, true) == Drain(q, w, 0)
  {
  }

  /** With the scene idle, a drain consumes the queue up to and including
      its first rotation (all of it if there is none), requests exactly that
      rotation, and handles the shots ahead of it, in order: the first one
      fires if the cooldown allows, and it blocks the rest. */
  lemma {:induction false} DrainOutcome(q: seq<Action>, w: World)
    ensures var d := Drained(q, w, false);
      match FirstRotation(q)
      case None =>
        d.queue == [] && d.rotation == 0 && d.w == (if q != [] then Fired(w) else w)
      case Some(k) =>
        && d.queue == q[k + 1..]
        && d.rotation == (if q[k] == Left then -1 else 1)
        && d.w == (if k > 0 then Fired(w) else w)
  {
    if q != [] && q[0] == Fire {
      DrainOutcome(q[1..], Fired(w));
      FiredTwice(w);
    }
  }

  /** One update fires at most one bullet, and none while the cooldown runs;
      the other collections are untouched. */
  lemma DrainFiresAtMostOnce(q: seq<Action>, w: World, isRotating: bool)
    ensures var d := Drained(q, w, isRotating);
      && |d.w.c.bullets| <= |w.c.bullets| + 1
      && (w.s.fireCooldown > 0.0 ==> d.w == w)
      && d.w.c.enemies == w.c.enemies && d.w.c.walls == w.c.walls
      && d.w.c.doublewalls == w.c.doublewalls
  {
    if isRotating {
      DrainWhileRotating(q, w);
    } else {
      DrainOutcome(q, w);
      FiredEffect(w);
    }
  }

  /** A drain requests at most one rotation, and requests one exactly when
      the scene is idle and the queue holds a rotation. */
  lemma DrainRotatesAtMostOnce(q: seq<Action>, w: World, isRotating: bool)
    ensures var d := Drained(q, w, isRotating);
      && (d.rotation == -1 || d.rotation == 0 || d.rotation == 1)
      && (d.rotation != 0 <==> !isRotating && FirstRotation(q).Some?)
  {
    if isRotating {
      DrainWhileRotating(q, w);
    } else {
      DrainOutcome(q, w);
    }
  }
}
