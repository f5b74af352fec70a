# Hexagonal tunnel shooter: the turn-based simulation core in Dafny

The game is played in a tunnel with six lanes. Enemies, tanks, walls, double
walls, phase enemies, spiral enemies, hearts and bombs come from the spawn ring
(depth 6) towards the player (depth 0). The player turns the world one lane
left or right and fires bullets outwards.

Two clocks drive everything:

- The **world tick** (`TickSystem._onEnemyTick`) runs these steps in order:
  1. remove the dead obstacles;
  2. spawn;
  3. move the obstacles one step in;
  4. resolve collisions;
  5. remove dead enemies;
  6. deal damage for enemies that passed the player;
  7. deal damage for walls that passed the player;
  8. deal damage for double walls that passed the player;
  9. count the tick.
- The **bullet tick** (`TickSystem._onBulletTick`) runs these steps in order:
  1. remove dead bullets;
  2. resolve collisions;
  3. remove dead enemies;
  4. move bullets one step out;
  5. resolve collisions again;
  6. remove dead enemies;
  7. lower the fire cooldown.

Player input goes through a queue. It holds at most four actions and is
drained once per frame.

## Modules

The project has one module per source file, plus one module of properties
beside each system.

- **`Numerics`** models JavaScript's truncating `%` (`JsRem`), `Math.round`
  (`JsRound`) and `Math.min` (`Min`).
- **`Config`** holds the constants of `src/game/config.js`.
- **`Entities`** (entity.dfy) has one class `Entity` with a `kind` tag. It
  stands for `Entity.js` and its nine subclasses:
  - each subclass constructor is a named constructor;
  - `Kill`, `Tick` and `Hit` update the fields in place;
  - each of these methods is proved against a pure function on an `EntityVal`
    snapshot (`Killed`, `Ticked`, `HitOutcome`).

  **`EntityProperties`** states the rules over several ticks: bullet lifetime,
  the phase enemy's shield, and spiral drift.
- **`Registry`** (entity_manager.dfy) holds `EntityManager`, a class whose
  four collections are `seq<EntityVal>` fields. Its filters are specified by
  `LiveVals`, with lemmas on order, membership and idempotence.
- **`State`** (game_state.dfy) holds the `GameState` class and the rotation,
  render-lane and spawn-interval arithmetic.
- **`Spawning`** holds the `SpawnSystem` class, proved against `SpawnStep`,
  and the spawn cadence over many calls.
- **`Collision`** holds the `CollisionSystem` class, proved against
  `Resolved`. **`CollisionProperties`** proves these things about it:
  - first hit wins;
  - the outcome for each enemy kind;
  - the bomb chain;
  - walls only flash;
  - scores only grow;
  - the pass is idempotent.
- **`Input`** holds the `InputSystem` class, proved against `Drained` and
  `Fired`. **`InputProperties`** proves the queue bound, what a drain
  consumes, and at most one shot and one rotation per update.
- **`Ticking`** holds the `TickSystem` class, proved against `EnemyTick` and
  `BulletTick`. **`TickProperties`** proves these things about it:
  - a finished game stays idle;
  - the damage amounts;
  - a completed tick leaves nothing past the player and counts the tick, and
    a fatal call stops the tick before the counters;
  - the fire cooldown blocks a second shot for two bullet ticks.

## How the game state is modelled

`GameState.js` does not define several things the systems use:

- `addScore`, `takeDamage`, `damageSegment` and `takeWallHit`;
- `health` and `scoreMultiplier`;
- the spawn ramp.

The model handles these as follows:

- **Logged calls.** Each of the four undefined operations is appended to a log
  (`calls`) as a `Call` value.
- **Fatal results.** Whether a result is fatal comes from a verdict function
  `fatal: StateVal -> bool` supplied by the caller. It is applied to the state
  just after the call is logged.
- **Health and multiplier.** These are plain fields. The constructor takes
  their first values.
- **Spawn ramp.** The ramp is a constructor parameter. It must be non-empty,
  because `getSpawnInterval` reads its first entry.

## Where the code and the game's design description differ

The model follows the code in each of these cases.

- **Phase enemies and collisions.** `resolve` (src/game/systems/CollisionSystem.js:44-88)
  never looks at a phase enemy's shield. A shielded phase enemy is struck like
  a plain enemy. It is not treated as a wall.
- **Deferred kills.** Nothing in the code sets `pendingKill` or
  `dying`. Every kill is immediate, and a lethal hit on a tank kills it. The
  two flags are fields that stay false. The world tick still reads them
  (src/game/systems/TickSystem.js:46,81).
- **Bomb chain.** The chain checks only `alive`
  (src/game/systems/CollisionSystem.js:63). It awards a flat 100 to each enemy
  it kills.
- **Score multiplier.** Scores are recorded as the base points passed to
  `addScore`. Whether the multiplier applies is up to the undefined `addScore`.
- **Wall hits.** The three tiers of wall hits are not in the code. The
  model keeps them abstract behind the logged `TakeWallHit` call and the
  verdict.

## Model

| member | source | states |
|---|---|---|
| Numerics.JsRem | src/game/state/GameState.js:19 | JavaScript's `%`: for a non-negative dividend the result lies in [0, n) and agrees with the mathematical remainder. For a negative dividend it lies in (-n, 0]. |
| Numerics.JsRound | src/game/systems/CollisionSystem.js:59 | `Math.round` gives an integer within half a unit of its argument, and halves round up. |
| Numerics.Min | src/game/systems/CollisionSystem.js:70 | `Math.min` is one of its arguments and no greater than either. |
| Entities.Base | src/game/entities/Entity.js:2-8 | A new entity has exactly the lane, depth and type it is given, records prevDepth equal to depth, and is alive. |
| Entities.Entity.Kill | src/game/entities/Entity.js:14-16 | Kill clears `alive` in place and changes no other field (its new value is `Killed` of the old one). |
| Entities.Entity.Tick | src/game/entities/Enemy.js:8-10 | Tick updates the object in place exactly as the subclass rule for its kind does (the value becomes `Ticked` of the old one). The other tick rules are in Tank.js, Wall.js, DoubleWall.js, Bullet.js, PhaseEnemy.js, SpiralEnemy.js, Heart.js and Bomb.js. |
| Entities.Entity.TickBullet | src/game/entities/Bullet.js:13-19 | A bullet's tick records the old depth, moves it one step outwards, and kills it once past MAX_DEPTH, in place (`Ticked`). |
| Entities.Entity.TickPhase | src/game/entities/PhaseEnemy.js:12-19 | A phase enemy's tick records the old depth, moves it one step in, and drops a shield once at or inside PHASE_DEPTH, raising the transition flash, in place (`Ticked`). |
| Entities.Entity.TickSpiral | src/game/entities/SpiralEnemy.js:12-20 | A spiral enemy's tick records the old lane and depth, moves it in, counts the tick, and on every even count steps it one lane in its spin direction, in place (`Ticked`). |
| Entities.Entity.Hit | src/game/entities/Tank.js:14-18 | A tank's `hit()` takes one hit point, kills the tank once none is left, and returns whether it was lethal. |
| Entities.Entity.Tank | src/game/entities/Tank.js:4-7 | A new tank is alive at its lane and depth with two hit points. |
| Entities.Entity.Enemy | src/game/entities/Enemy.js:4-6 | A new plain enemy is alive at its lane and depth, with prevDepth equal to depth. |
| Entities.Entity.Wall | src/game/entities/Wall.js:4-7 | A new wall is alive at its lane and depth and has no flash. |
| Entities.Entity.Heart | src/game/entities/Heart.js:4-6 | A new heart is alive at its lane and depth, with prevDepth equal to depth. |
| Entities.Entity.Bomb | src/game/entities/Bomb.js:4-6 | A new bomb is alive at its lane and depth, with prevDepth equal to depth. |
| Entities.Entity.DoubleWall | src/game/entities/DoubleWall.js:5-9 | A new double wall also spans the next lane round the tunnel and has no flash. |
| Entities.Entity.Bullet | src/game/entities/Bullet.js:5-11 | A new bullet records prevDepth half a step behind its depth. |
| Entities.Entity.Phase | src/game/entities/PhaseEnemy.js:5-10 | A new phase enemy is shielded, with both flashes at 0. |
| Entities.Entity.Spiral | src/game/entities/SpiralEnemy.js:5-10 | A new spiral enemy takes a spin direction of +1 or -1 as a parameter, records prevLane equal to its lane, and has made no spin ticks. |
| EntityProperties.Constructors | src/game/entities/Entity.js:2-8 | Each of the nine constructors keeps lane and depth, starts alive, sets its type, and sets its type-specific fields. Every kind except the bullet records prevDepth equal to depth. |
| EntityProperties.DoubleWallSpansNextLane | src/game/entities/DoubleWall.js:7 | For a lane on the tunnel, lane2 is `(lane + 1) mod 6`. It is on the tunnel and differs from lane. |
| EntityProperties.KillIsIdempotent | src/game/entities/Entity.js:14-16 | After `kill()` the entity is dead. Killing twice is killing once, and no other field changes. |
| EntityProperties.TickMovesOneStep | src/game/entities/Wall.js:9-12 | A tick keeps the kind. Depth moves by exactly one: outwards for a bullet, inwards for everything else. Only a plain enemy leaves prevDepth alone; the others record the old depth. Only a spiral changes lane, and only a bullet can die. Flash, hp and lane2 are kept. |
| EntityProperties.BulletDiesPastSpawnRing | src/game/entities/Bullet.js:13-19 | A ticked live bullet is dead exactly when its new depth is beyond MAX_DEPTH. |
| EntityProperties.BulletLifetime | src/game/entities/Bullet.js:13-19 | A bullet fired at 0.2 is at 0.2 + n after n ticks. It is alive exactly for n ≤ 5, so the sixth tick (6.2) kills it. |
| EntityProperties.TankTakesTwoHits | src/game/entities/Tank.js:6 | The first hit on a fresh tank is not lethal and leaves it alive with hp 1. The second hit is lethal and leaves it dead. |
| EntityProperties.HitTakesOnePoint | src/game/entities/Tank.js:14-18 | A hit takes exactly one hp. It reports lethal iff hp ≤ 0 afterwards, kills the tank in that case, and otherwise changes nothing else. |
| EntityProperties.PhaseDropsShieldNearPlayer | src/game/entities/PhaseEnemy.js:12-19 | After a tick at or inside PHASE_DEPTH, the enemy is vulnerable. The transition flash is raised only by the tick that drops the shield. |
| EntityProperties.PhaseStaysVulnerable | src/game/entities/PhaseEnemy.js:15 | Once vulnerable, a phase enemy stays vulnerable over any number of ticks. |
| EntityProperties.SpiralTick | src/game/entities/SpiralEnemy.js:12-20 | A spiral tick records the old lane and depth and counts the tick. It changes lane by one step in the spin direction exactly when the new count is even, and the lane stays in [0, 6). |
| EntityProperties.SpiralTwoTicks | src/game/entities/SpiralEnemy.js:16-19 | Two consecutive ticks move a spiral enemy exactly one lane, modulo 6, and two steps in. |
| EntityProperties.SpiralDrift | src/game/entities/SpiralEnemy.js:12-20 | Over 2n ticks, a spiral enemy drifts n lanes in its spin direction, wrapping round the tunnel. |
| Registry.EntityManager.Reset | src/game/entities/EntityManager.js:6-11 | All four collections are empty. |
| Registry.EntityManager.AddEnemy | src/game/entities/EntityManager.js:13-15 | Appends exactly one entry to the enemies. The other three collections are unchanged. |
| Registry.EntityManager.AddBullet | src/game/entities/EntityManager.js:17-19 | Appends exactly one entry to the bullets. The other three collections are unchanged. |
| Registry.EntityManager.AddWall | src/game/entities/EntityManager.js:21-23 | Appends exactly one entry to the walls. The other three collections are unchanged. |
| Registry.EntityManager.AddDoubleWall | src/game/entities/EntityManager.js:25-27 | Appends exactly one entry to the double walls. The other three collections are unchanged. |
| Registry.EntityManager.RemoveDeadBullets | src/game/entities/EntityManager.js:29-31 | The bullets become their live entries in order (`LiveVals`). The other collections are unchanged. |
| Registry.EntityManager.RemoveDeadEnemies | src/game/entities/EntityManager.js:33-35 | Only the enemies are filtered. |
| Registry.EntityManager.RemoveDeadEnemiesAndWalls | src/game/entities/EntityManager.js:37-41 | Enemies, walls and double walls are filtered. The bullets are unchanged. |
| Registry.LiveValsKeepsOrder | src/game/entities/EntityManager.js:29-31 | Filtering distributes over concatenation, so the survivors keep their original order. |
| Registry.LiveValsSingle | src/game/entities/EntityManager.js:29-31 | A single entry is kept exactly when it is alive. |
| Registry.LiveValsMembers | src/game/entities/EntityManager.js:29-41 | An entry survives iff it was present and alive, and filtering never grows a collection. |
| Registry.LiveValsIdempotent | src/game/entities/EntityManager.js:29-41 | Filtering twice is filtering once, and a collection of live entries is left as it is. |
| Registry.LiveValsNone | src/game/entities/EntityManager.js:29-41 | A collection with no live entry filters to empty. |
| State.GameState.Reset | src/game/state/GameState.js:8-15 | Rotation, score, cooldown, tick count and elapsed time are 0 and gameOver is false. Health, the multiplier and the call log are not touched. |
| State.GameState.RotateRight | src/game/state/GameState.js:17-20 | Turns the world by +5 mod 6 while the game runs. Does nothing once it is over. |
| State.GameState.RotateLeft | src/game/state/GameState.js:22-25 | Turns the world by +1 mod 6 while the game runs. Does nothing once it is over. |
| State.GameState.GetSpawnInterval | src/game/state/GameState.js:31-40 | The scan of the whole ramp returns `SpawnInterval`: the ticks of the last entry reached, or the first entry's ticks when none is reached. |
| State.LastReached | src/game/state/GameState.js:34-38 | The index found is that of a reached entry after which no entry is reached, and there is none iff no entry is reached. |
| State.RotationsStayOnTunnel | src/game/state/GameState.js:17-25 | Both rotations keep worldRot in [0, 6). |
| State.RotationsAreInverse | src/game/state/GameState.js:17-25 | A right turn then a left turn restores worldRot, and so does the reverse. |
| State.LeftTurnsAdd | src/game/state/GameState.js:22-25 | n left turns add n modulo 6. |
| State.SixLeftTurns | src/game/state/GameState.js:22-25 | Six left turns are the identity. |
| State.LaneMapsShift | src/game/state/GameState.js:27-29 | On the tunnel, the render lane is the logical lane shifted by the rotation, wrapping at most once. |
| State.RenderLane | src/game/state/GameState.js:27-29 | For a rotation and a logical lane on the tunnel, the render lane is on the tunnel and rotating it back by the rotation gives the logical lane. |
| State.RenderLaneIsBijection | src/game/state/GameState.js:27-29 | For a rotation on the tunnel, `getRenderLane` maps [0, 6) one-to-one onto [0, 6) and takes the player's lane to 0. `LogicalLane` is its inverse. |
| State.SpawnIntervalFromRamp | src/game/state/GameState.js:31-40 | The interval is the first entry's ticks while no threshold is reached. Otherwise it is the ticks of the last entry in list order whose threshold is reached. |
| Spawning.SpawnLane | src/game/systems/SpawnSystem.js:32 | `floor(r * 6)` for r in [0, 1) is a lane of the tunnel. |
| Spawning.SpawnSystem.Reset | src/game/systems/SpawnSystem.js:22-24 | The spawn counter is 0. |
| Spawning.SpawnSystem.MaybeSpawn | src/game/systems/SpawnSystem.js:26-46 | The counter and the registry move exactly as `SpawnStep` says for the ramp's current interval. |
| Spawning.SpawnStep | src/game/systems/SpawnSystem.js:26-46 | The counter either restarts at 0 or grows by one. It stays non-negative and, with an interval of at least one, stays below the interval. Bullets are never touched. |
| Spawning.SpawnStepAddsOne | src/game/systems/SpawnSystem.js:26-46 | The counter is incremented before the comparison. When it reaches the interval it restarts at 0 and exactly one entity is appended: alive, at depth MAX_DEPTH, in lane `floor(r * 6)`, with its type chosen by the roll thresholds 0.65/0.80/0.90, and a tank goes into the enemies. The collections of the other types keep their contents. Otherwise nothing changes. Bullets are never touched. |
| Spawning.SpawnStepCounts | src/game/systems/SpawnSystem.js:28-31 | One call leaves the counter at 0 or counter + 1, and adds one obstacle exactly when the interval is reached. |
| Spawning.SpawnCadence | src/game/systems/SpawnSystem.js:22-31 | With a constant interval I ≥ 1, N calls after a reset spawn exactly N / I entities and leave the counter at N mod I. |
| Collision.FirstHit | src/game/systems/CollisionSystem.js:20-30 | The obstacle found is a live one in the bullet's cell (floored depth and lane; either lane of a double wall) with none before it. There is none iff no obstacle is in that cell. |
| Collision.Detonated | src/game/systems/CollisionSystem.js:62-68 | The chain changes only the enemies (and none of their number) and only the call log of the state. |
| Collision.StrikeEnemy | src/game/systems/CollisionSystem.js:50-86 | Striking an enemy leaves bullets, walls and double walls alone and keeps the number of enemies. |
| Collision.ResolveBullet | src/game/systems/CollisionSystem.js:14-88 | Checking one bullet adds and removes no entity in any collection. |
| Collision.ResolvePrefix | src/game/systems/CollisionSystem.js:14-89 | Checking the first n bullets adds and removes no entity in any collection. |
| Collision.FindHit | src/game/systems/CollisionSystem.js:32-42 | The scan loop returns the first obstacle in the bullet's cell, as `FirstHit` specifies. |
| Collision.CollisionSystem.Resolve | src/game/systems/CollisionSystem.js:11-91 | The registry and state after `resolve()` are `Resolved` of those before: each bullet is checked once, in order. |
| Collision.CollisionSystem.CheckBullet | src/game/systems/CollisionSystem.js:14-88 | One bullet's check: walls, then double walls, then enemies, and the first match wins (`ResolveBullet`). |
| Collision.CollisionSystem.StrikeEnemyAt | src/game/systems/CollisionSystem.js:50-86 | A struck enemy is handled by kind, as `StrikeEnemy` says. |
| Collision.CollisionSystem.Explode | src/game/systems/CollisionSystem.js:56-70 | A struck bomb dies and scores, its chain runs, and the multiplier rises, as `StrikeEnemy` says for a bomb. |
| Collision.CollisionSystem.Detonate | src/game/systems/CollisionSystem.js:62-68 | The bomb's chain loop kills every other live enemy with a flat 100 each (`Detonated`). |
| CollisionProperties.DistBonusScores | src/game/systems/CollisionSystem.js:50 | With the bonus of 1.5 from depth 4 on, the scores are 100 to 150, 200 to 300, and 50 to 75. |
| CollisionProperties.ResolveBulletOutcome | src/game/systems/CollisionSystem.js:14-88 | A dead bullet changes nothing, and no other bullet changes. The bullet survives iff it was alive and no live obstacle is in its cell, and then nothing changes. A wall hit leaves double walls, enemies and state alone. A double-wall hit leaves enemies and state alone. |
| CollisionProperties.ResolveBulletTarget | src/game/systems/CollisionSystem.js:20-47 | A live bullet's check sets the flash of the first live wall in its cell to 1.0 and leaves every other wall as it was. With no wall in the cell, the same holds of the first live double wall. With both clear, the world becomes the strike of the first live enemy in the cell, with the bullet killed. |
| CollisionProperties.HeartHeals | src/game/systems/CollisionSystem.js:52-55 | A struck heart dies and health becomes 100. There is no score and no multiplier change. |
| CollisionProperties.TankStrike | src/game/systems/CollisionSystem.js:71-79 | A struck tank loses one hp and survives iff it had more than one. It scores 200 (300 far away) if the hit was lethal and 50 (75) if not. The multiplier is unchanged. |
| CollisionProperties.PlainStrike | src/game/systems/CollisionSystem.js:80-86 | Any other enemy dies and scores 100 (150 far away), and the multiplier becomes `min(m + 0.1, 4)`. |
| CollisionProperties.DetonatedKills | src/game/systems/CollisionSystem.js:62-68 | The chain kills each enemy other than the bomb and changes nothing else about it. The bomb and the enemies not yet reached are untouched. |
| CollisionProperties.DetonatedScores | src/game/systems/CollisionSystem.js:62-68 | The chain appends one flat 100 per enemy that was alive, after the calls already made. |
| CollisionProperties.BombedFacts | src/game/systems/CollisionSystem.js:58-59 | The bomb itself dies, leaving one live enemy fewer, and its score of 100 (150 far away) is appended to the log. |
| CollisionProperties.ChainScores | src/game/systems/CollisionSystem.js:56-68 | Before the multiplier rises, the log is the old one, then the bomb's own score, then a flat 100 per other live enemy; no other state field has changed. |
| CollisionProperties.BombOnlyScores | src/game/systems/CollisionSystem.js:56-70 | A bomb's strike changes the state only by positive scores and a multiplier that rises but never passes 4. |
| CollisionProperties.BombClearsEnemies | src/game/systems/CollisionSystem.js:56-70 | After a bomb is struck no enemy is alive, so the next removal of dead enemies empties the collection. |
| CollisionProperties.BombScoresEveryEnemy | src/game/systems/CollisionSystem.js:56-70 | A live bomb records one score per live enemy: its own 100 (150 far away) first, then a flat 100 for each other. The multiplier becomes `min(m + 0.5, 4)`, and nothing else in the state changes. |
| CollisionProperties.StrikeEnemyShrinks | src/game/systems/CollisionSystem.js:50-86 | A strike moves nothing and revives nothing. |
| CollisionProperties.StrikeEnemyOnlyScores | src/game/systems/CollisionSystem.js:50-86 | A strike changes the state only by positive scores, health set to 100, and a multiplier that rises but never passes 4. |
| CollisionProperties.ResolveShrinks | src/game/systems/CollisionSystem.js:11-91 | Over a whole pass, positions stay and nothing comes back to life. |
| CollisionProperties.ResolveSparesWalls | src/game/systems/CollisionSystem.js:20-42 | Over a whole pass, walls and double walls only flash: no bullet kills or moves one, and a changed wall differs only in a flash of 1.0. |
| CollisionProperties.ResolveOnlyScores | src/game/systems/CollisionSystem.js:11-91 | Over a whole pass, the state changes only by positive scores, health set to 100, and a multiplier rising up to 4. |
| CollisionProperties.ResolvePrefixSettles | src/game/systems/CollisionSystem.js:14-16 | After the first n checks, each of those bullets is dead or stands where nothing can be hit. |
| CollisionProperties.SettledPassIsIdle | src/game/systems/CollisionSystem.js:14-16 | A pass over bullets that are all settled changes nothing. |
| CollisionProperties.ResolveIsIdempotent | src/game/systems/CollisionSystem.js:11-91 | A second `resolve()` right after one changes nothing. |
| Input.Drained | src/game/systems/InputSystem.js:43-62 | A drain leaves a suffix of the queue. |
| Input.FirstRotation | src/game/systems/InputSystem.js:47-56 | The index found is that of a rotation with only shots before it. There is none iff the queue holds only shots. |
| Input.InputSystem.Enqueue | src/game/systems/InputSystem.js:17-25 | A left, right or space press queues its action only while fewer than four wait. The bound is kept. |
| Input.InputSystem.KeySpace | src/game/systems/InputSystem.js:23-29 | Space queues a shot and, once the game is over, also requests a restart. |
| Input.InputSystem.KeyR | src/game/systems/InputSystem.js:26 | R requests a restart. |
| Input.InputSystem.FireShot | src/game/systems/InputSystem.js:65-71 | The world becomes `Fired` of the old one. |
| Input.Fired | src/game/systems/InputSystem.js:65-71 | After a shot attempt the weapon is always cooling down. Only the bullets can change, and they gain at most one entry at the end. |
| Input.InputSystem.Update | src/game/systems/InputSystem.js:32-63 | When the game is over, the queue is emptied, a pending restart is returned and cleared, and the world is unchanged. Otherwise the queue, the world and the rotation requested are what `Drained` gives. |
| InputProperties.EnqueueKeepsBound | src/game/systems/InputSystem.js:5 | A press appends iff fewer than MAX_QUEUE = 4 wait, and is dropped otherwise. |
| InputProperties.FiredEffect | src/game/systems/InputSystem.js:65-71 | While the cooldown runs, a shot changes nothing. Otherwise it appends one live bullet at depth 0.2 in the lane of the rotation and sets the cooldown to 1.5. Nothing else changes. |
| InputProperties.FiredTwice | src/game/systems/InputSystem.js:66-69 | A second shot right after a first does nothing. |
| InputProperties.DrainWhileRotating | src/game/systems/InputSystem.js:45 | While the scene rotates, nothing is dequeued and nothing changes. |
| InputProperties.DrainOutcome | src/game/systems/InputSystem.js:43-62 | An idle drain consumes the queue through its first rotation, or all of it if there is none. It requests exactly that rotation (-1 for left, +1 for right). The shots ahead of it are handled in order, and only the first can fire. |
| InputProperties.DrainFiresAtMostOnce | src/game/systems/InputSystem.js:57-61 | One update adds at most one bullet and none while the cooldown runs. The obstacles are untouched. |
| InputProperties.DrainRotatesAtMostOnce | src/game/systems/InputSystem.js:49-56 | One update requests at most one rotation. It requests one iff the scene is idle and the queue holds a rotation. |
| Ticking.Advance | src/game/systems/TickSystem.js:45-53 | The movement loop ticks each live entry (skipping dying enemies) and leaves the rest, as `Advanced` says. |
| Ticking.TickSystem.OnEnemyTick | src/game/systems/TickSystem.js:35-158 | The world, the state and the spawn counter become `EnemyTick` of the old ones for the current period. |
| Ticking.EnemyTick | src/game/systems/TickSystem.js:35-158 | While the game runs, the spawn counter either restarts at 0 or grows by one; it never goes negative. |
| Ticking.TickSystem.HarmEnemies | src/game/systems/TickSystem.js:79-107 | The damage loop ends in the state `HarmPrefix` gives over all enemies. |
| Ticking.TickSystem.HitByWalls | src/game/systems/TickSystem.js:111-127 | The wall loop ends in the state `WallPrefix` gives over all walls. |
| Ticking.TickSystem.HitByDoubleWalls | src/game/systems/TickSystem.js:129-146 | The double-wall loop ends in the state `WallPrefix` gives, with either lane facing the player. |
| Ticking.TickSystem.OnBulletTick | src/game/systems/TickSystem.js:160-190 | The world becomes `BulletTick` of the old one. |
| Ticking.BulletTick | src/game/systems/TickSystem.js:160-190 | A bullet tick never adds or removes a wall or a double wall. While the game runs, it ends with as many bullets as were alive when it began: the dead ones are removed first, and bullets killed during the tick keep their slots. |
| Ticking.HarmStaysStopped | src/game/systems/TickSystem.js:97-106 | Once a fatal call has ended the damage loop, the remaining enemies change nothing. |
| Ticking.WallsStayStopped | src/game/systems/TickSystem.js:119-141 | Once a fatal wall hit has ended a wall loop, the remaining walls change nothing. |
| TickProperties.GameOverIdle | src/game/systems/TickSystem.js:36 | Once the game is over, neither handler changes anything (see also line 161). |
| TickProperties.DamageAmounts | src/game/systems/TickSystem.js:81-84 | The damage is 20 iff the enemy is a bomb or a tank with hp ≥ 2, and 10 otherwise. |
| TickProperties.HarmStepOutcome | src/game/systems/TickSystem.js:80-106 | An enemy past the player dies and the multiplier resets to 1. A heart only deals its damage. Any other kind first damages its lane's segment, stopping if that is fatal, then deals its damage, stopping if that is fatal. |
| TickProperties.HarmStepKeeps | src/game/systems/TickSystem.js:80-106 | One step of the damage loop kills at most its own enemy, which is not left past the player unless the loop stopped. It extends the log by damage calls only, changes no other state field than the multiplier, and stops only on a fatal call. |
| TickProperties.HarmPassClears | src/game/systems/TickSystem.js:79-107 | The damage loop only kills. Unless stopped, it leaves no enemy past the player. It changes only the log and the multiplier, logs only segment and player damage, and stops only on a fatal call. |
| TickProperties.WallStepOutcome | src/game/systems/TickSystem.js:111-127 | A wall past the player dies. It hits the player, which may end the tick, exactly when its render lane is 0. |
| TickProperties.WallStepKeeps | src/game/systems/TickSystem.js:111-127 | One step of a wall loop kills at most its own wall, which is not left live past the player unless the loop stopped. It extends the log by wall hits only, changes no other state field, and stops only on a fatal hit. |
| TickProperties.WallPassClears | src/game/systems/TickSystem.js:111-146 | A wall loop only kills. Unless stopped, it leaves no live wall past the player. It logs only wall hits and stops only on a fatal one. |
| TickProperties.HazardsOutcome | src/game/systems/TickSystem.js:79-150 | Either the tick completes, leaving nothing past the player, adding 1 to tickCount and the period to elapsedMs; or a fatal call ends it with both counters unchanged. Bullets are untouched either way. |
| TickProperties.PreparedKeepsCounters | src/game/systems/TickSystem.js:39-77 | Purge, spawn, move, resolve and purge leave the counters, the rotation and gameOver alone. |
| TickProperties.EnemyTickOutcome | src/game/systems/TickSystem.js:35-150 | A world tick with the game running either completes, counting itself and leaving nothing past the player, or ends on a fatal call with the counters unchanged. |
| TickProperties.SpawnedWallMovesAtOnce | src/game/systems/TickSystem.js:42-53 | A wall spawned by a world tick is moved in that same tick: it ends one step in from the spawn ring, alive, in its lane. |
| TickProperties.BulletTickCooldown | src/game/systems/TickSystem.js:160-190 | The bullet tick lowers the cooldown by 1 only when it is positive. It keeps the rotation and gameOver, and leaves only live enemies. |
| TickProperties.ShotBlocksTwoBulletTicks | src/game/systems/TickSystem.js:187-189 | After a shot (cooldown 1.5), firing does nothing immediately and after one bullet tick. After the second bullet tick a shot adds a bullet again. |

## Left out

- Rendering, scenes, the HUD, audio, high scores and bootstrapping. These
  have no discrete rules of the simulation.
- The `on*` callbacks (hit, deflect, player hit, segment damage, wall hit,
  game over, fire). They are presentation only and are not modelled.
- The timers:
  - the Phaser timers in the `TickSystem` constructor
    (src/game/systems/TickSystem.js:18-32);
  - `getProgress`;
  - the update of the world tick's period through `getTickMs`
    (src/game/systems/TickSystem.js:153-157), which `GameState.js`
    does not define.

  The period stays at TICK_MS = 800 ms.
- `Math.random()`. The lane and type draws of a spawn (`Spawning.Draw`) and a
  spiral enemy's spin direction are parameters.
- The keyboard wiring in the `InputSystem` constructor. It becomes the methods
  `Enqueue`, `KeySpace` and `KeyR`.
- The scene. Its `isRotating` flag is a parameter of `Update`. `startRotAnim`
  and `scene.restart()` become `Update`'s results.
- The base `Entity.tick()` (src/game/entities/Entity.js:10-12), which does
  nothing. Every concrete entity type overrides it, so no modelled kind uses
  it.
- Object identity. The registry holds entity values, and an update in place
  through a shared reference is modelled as replacing the value at that
  entity's index. The bomb chain's `e === enemy` test becomes an index test.
  `Entity` objects and the registry's values are not linked by aliasing.
- The behaviour of `addScore`, `takeDamage`, `damageSegment` and
  `takeWallHit`. These are not defined in `GameState.js`, so each
  call is only logged and its fatality comes from a verdict parameter.
- The first values of `health` and `scoreMultiplier`, which the code never
  initialises. They are constructor parameters.
- Floating point. Depths, the cooldown and the multiplier are exact reals, so
  the accumulation error of `scoreMultiplier += 0.1` is not modelled.
