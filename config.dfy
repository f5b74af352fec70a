/** The game constants the simulation core reads (src/game/config.js). */
module Config {
  /** Lanes around the hexagonal tunnel. */
  const NUM_LANES: int := 6
  /** Depth of the spawn ring; depth 0 is the player ring. */
  const MAX_DEPTH: int := 6
  /** Initial world-tick period in milliseconds. */
  const TICK_MS: int := 800
  /** Bullet ticks a shot blocks the next one for (decremented once per bullet tick). */
  const FIRE_COOLDOWN_BULLET_TICKS: real := 1.5
  /** Depth at or below which a phase enemy drops its shield. */
  const PHASE_DEPTH: int := 2
}
