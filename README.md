# Space-shoot session engine

A Dafny model of the session-state engine of `game.js`, a single-file canvas
arcade game. The player flies a ship on the left of the screen. Asteroids
drift in from the right. Bullets destroy them for two points each. Every
asteroid that escapes off the left edge is worth one point. Support planets
either heal the ship ("life") or refill its ammunition ("weapon"). The
session ends when life reaches zero or the ship is hit three times in a row.

The model has five modules:

- `Entities` (entities.dfy) holds the configuration constants and the
  records for the ship, asteroids, bullets and planets. It also holds
  `splice(i, 1)` as `RemoveAt`, the per-entity motion, and the overlap tests.
  Each `Math.hypot(dx, dy) < R` test is written as `0 < R && dx² + dy² < R²`,
  and each `<= R` test as `0 <= R && dx² + dy² <= R²`. Lemma `HypotTests`
  shows that both agree with comparing any non-negative root.
- `Session` (session.dfy) holds the session record `gameState` as a value
  (`State`) and its invariant `Inv`. It also gives, as functions, what each
  session operation does: `resetGame`, `shoot`, `damageShip`, `healShip`,
  `refillAmmo`, the state part of `gameOver`, `spawnAsteroid`, `spawnPlanet`.
  Lemmas give their effects.
- `Passes` (passes.dfy) holds the three reverse-index splice passes of
  `update`. Each is a step function for one index and a sweep over the
  indices from the top down. It also has reference definitions: the
  asteroids that survive, the escapes, the planets that remain, the pickups
  collected, and the asteroid a bullet hits. Lemmas connect each pass to
  them.
- `Frame` (frame.dfy) holds the frame delta of `loop` and the whole of
  `update` as a function, with lemmas about one frame.
- `Game` (game.dfy) holds the class `GameState`. Its fields mirror
  `gameState`, and its methods change them in place. Every method is proved
  against the specification functions above: its new `View()` is the
  function applied to the old one. The three passes are `while` loops from
  the last index down. The loop invariant says that sweeping the rest, from
  the current state, gives the same result as sweeping everything from the
  initial state. The bullet pass's inner search is the method `LastHit`, a
  loop that breaks on the first hit.

Source behaviours that the model keeps as written:

- `gameOver` does not abort the frame it happens in. After the asteroid pass
  ends the session, the planet pass can still heal or refill, and the bullet
  pass can still score. `Passes.LaterPassesIgnoreOver` states this.
- An asteroid that escapes resets the hit streak even after the session
  has ended in the same frame.
- `update` does not guard against a negative `dt`, so the model allows one.

## Model

| member | source | states |
|---|---|---|
| Entities.RemoveAt | game.js:272 | `splice(i, 1)` removes exactly element i: one shorter, the prefix before i and the suffix after it kept in order, and the multiset loses only that element |
| Entities.HypotTests | game.js:280 | for any non-negative h with h² = dx² + dy² (what `Math.hypot` returns), the square-free tests hold iff h < r and iff h <= r respectively; the same shape is used at lines 297 and 324 |
| Entities.Clamp | game.js:243-244 | the clamp result is never below the lower bound, never above the upper bound when the bounds are ordered, and equals the input when it is already in range |
| Session.InitialIsFresh | game.js:32-55 | a reset session has score and destroyed at 0, life 3, ammo 40, no streak, is not over, has age 0, no asteroids, bullets or planets, timers at 0 and 4, a ship with no cooldown or invulnerability, and satisfies the invariant, whatever the canvas |
| Session.ShootEffect | game.js:135-150 | a shot changes nothing iff the session is over, the gun is cooling down or ammo is out; otherwise exactly one bullet with life 1.2 is appended, the cooldown becomes 0.12, ammo drops by one, and nothing else changes |
| Session.DamageEffect | game.js:169-181 | damage changes nothing iff the ship is invulnerable or the session is over; otherwise life becomes max(0, life-1), the streak grows by one, invulnerability becomes 1.2, `over` is set exactly when life <= 0 or the streak reaches 3, and nothing else changes |
| Session.DamageAbsorbedWhileInvulnerable | game.js:171-175 | a second damage right after a first changes nothing more |
| Session.PickupEffects | game.js:183-192 | healing raises life by one, up to 3, and clears the streak; refilling sets ammo to exactly 40; neither touches score, destroyed or `over` |
| Session.EventsKeepInv | game.js:135-195 | shoot, damage, heal, refill and game over each keep life in [0, 3], ammo in [0, 40], the streak in [0, 3] and "three hits or no life means over"; damage keeps the score |
| Session.AsteroidDelayBounds | game.js:91-92 | for a draw in [0, 1) and a non-negative age, the next asteroid delay lies in [0.35, 2.3) and never grows as the session ages |
| Session.SpawnAsteroidEffect | game.js:74-93 | a spawn appends one asteroid after the existing ones: radius in [22, 52), past the right edge, drift in [-40, 40); it rearms the timer into [0.35, 2.3) and changes nothing else |
| Session.SpawnPlanetEffect | game.js:123-133 | a spawn appends one planet of the requested kind past the right edge, with radius 24 (life) or 20 (weapon), and nothing else changes; the delay drawn with it lies in [8, 14) |
| Passes.AsteroidStepEffect | game.js:262-284 | one asteroid step leaves lower indices untouched; it keeps the moved asteroid at i exactly when it neither escaped nor struck the ship; it adds one point exactly when it escaped; an escape clears the streak and leaves life, `over` and the ship alone; a strike is exactly `damageShip` applied after the removal; an asteroid that stays changes its own entry and nothing else |
| Passes.AsteroidSweepQuiet | game.js:261-285 | an asteroid pass in which no asteroid escapes and none strikes the ship changes only the asteroid list: score, streak, life, `over` and the ship keep their values |
| Passes.AsteroidSweepEffect | game.js:261-285 | after the asteroid pass, the asteroids are exactly the moved ones that neither escaped nor struck the ship, in their original order, and the score rose by the number that escaped |
| Passes.AsteroidSweepFrame | game.js:261-285 | the asteroid pass never changes destroyed, ammo, bullets, planets, timers, or the ship's position, velocity or cooldown |
| Passes.AsteroidSweepDamage | game.js:278-283 | the asteroid pass damages the ship exactly when some moved asteroid stays on screen and strikes it while it is damageable, and then once: life becomes max(0, life-1), invulnerability 1.2, and the session is over if that was the last life; otherwise life, invulnerability and `over` keep their values |
| Passes.AsteroidSweepKeepsInv | game.js:261-285 | the asteroid pass keeps the session invariant |
| Passes.PlanetStepEffect | game.js:288-301 | one planet step leaves lower indices untouched and keeps the moved planet exactly when it was neither lost nor collected; a collected life planet heals and clears the streak, a collected weapon planet refills; nothing else changes |
| Passes.PlanetSweepEffect | game.js:287-302 | after the planet pass, the planets are exactly the moved ones that neither left the screen nor touched the ship, in their original order |
| Passes.PlanetSweepPickups | game.js:287-302 | after the planet pass, ammo is 40 if a weapon planet was collected and unchanged otherwise; the streak is 0 if a life planet was collected and unchanged otherwise |
| Passes.PlanetSweepHeals | game.js:287-302 | after the planet pass, life is min(3, life + number of life planets collected) |
| Passes.PlanetSweepFrame | game.js:287-302 | the planet pass never changes score, destroyed, `over`, the ship, asteroids, bullets or timers |
| Passes.PlanetSweepKeepsInv | game.js:287-302 | the planet pass keeps the session invariant |
| Passes.HitIndex | game.js:321-333 | the asteroid a bullet destroys is the highest-index one within its radius + 4, or none when no asteroid is in reach |
| Passes.LastHitUnique | game.js:321-333 | any result satisfying the scan's specification is the one `HitIndex` gives |
| Passes.BulletStepEffect | game.js:305-335 | an expired or stray bullet is dropped without touching anything else; a bullet that destroys something destroys the scan's hit, is spent, and adds 1 to destroyed, 2 to the score and clears the streak; a bullet that hits nothing finds no asteroid in reach and is the only thing that changes: it stays, moved |
| Passes.BulletSweepEffect | game.js:304-336 | after the bullet pass, the destroyed asteroids are ones the session had; there are no more of them than bullets spent; destroyed rose by their number and the score by twice it; the streak is 0 if something was destroyed and unchanged otherwise; life, ammo, `over`, ship, planets and timers are untouched |
| Passes.BulletSweepKeepsInv | game.js:304-336 | the bullet pass keeps the session invariant |
| Passes.LaterPassesIgnoreOver | game.js:287-336 | neither the planet pass nor the bullet pass depends on `over`: running them on a session that has just ended gives the same result as on a live one, apart from the flag |
| Passes.PlanetSweepIgnoresOver | game.js:287-302 | the planet pass commutes with setting `over` |
| Passes.BulletSweepIgnoresOver | game.js:304-336 | the bullet pass commutes with setting `over` |
| Frame.FrameDelta | game.js:549 | the frame delta is at most 0.033 s; it is the elapsed milliseconds in seconds when those are below the cap, and exactly the cap otherwise |
| Frame.UpdateWhenOver | game.js:223 | updating a session that is over changes nothing |
| Frame.UpdateKeepsInv | game.js:222-336 | every update keeps the session invariant, and score and destroyed never decrease |
| Frame.UpdateInTwoParts | game.js:222-336 | decomposition helper, no property of its own: a live update equals the steps up to the spawn timers followed by the three passes, so the timer lemmas can treat the two parts apart |
| Frame.BeforePassesEffect | game.js:226-259 | before the passes the session has aged by dt and kept its life; the cooldown is 0.12 exactly when fire is held and the shot goes through, else max(0, cooldown - dt); invulnerability is max(0, inv - dt); each spawn timer has run down by dt, or ran out and was rearmed to its next delay |
| Frame.AfterPassesEffect | game.js:261-336 | the passes keep the age, the spawn timers and the ship apart from invulnerability, which becomes 1.2 exactly when an asteroid strikes the damageable ship and is kept otherwise |
| Frame.UpdateTimers | game.js:226-248 | a live update ages the session by dt; the cooldown is 0.12 exactly when fire is held and the shot goes through, else max(0, cooldown - dt); invulnerability is 1.2 exactly when an asteroid strikes the damageable ship during the asteroid pass, else max(0, inv - dt) |
| Frame.UpdateKeepsShipInArena | game.js:243-244 | after a live update the ship is at least 60 from the left and top edges, and also from the right and bottom edges when the canvas leaves room for that |
| Frame.UpdateLosesAtMostOneLife | game.js:222-302 | one update costs at most one life |
| Frame.PassesLoseAtMostOneLife | game.js:261-302 | the three passes together cost at most one life: the asteroid pass damages at most once, the planet pass only heals, the bullet pass leaves life alone |
| Frame.UpdateRearmsTimers | game.js:252-259 | after a live update with valid draws and a non-negative age, a spawn timer that ran out this frame (at or below zero after subtracting dt) was rearmed, the asteroid timer to the next asteroid delay in [0.35, 2.3) and the planet timer to the next planet delay in [8, 14); any other timer has run down by exactly dt |
| Game.LastHit | game.js:321-333 | the reverse scan that breaks on the first asteroid in reach finds the highest-index one, or reports none exactly when no asteroid is in reach |
| Game.GameState.constructor | game.js:32-55 | the first session is the reset session, and it is valid |
| Game.GameState.ResetGame | game.js:32-55 | after a reset the session is the reset session, whatever it was before, and it is valid |
| Game.GameState.GameOver | game.js:194-195 | sets `over` and nothing else, and keeps a valid session valid |
| Game.GameState.Shoot | game.js:135-150 | performs the shot in place as `Session.AfterShoot` describes, and keeps validity |
| Game.GameState.DamageShip | game.js:169-181 | performs the damage in place as `Session.AfterDamage` describes, and keeps validity |
| Game.GameState.HealShip | game.js:183-187 | performs the heal in place as `Session.AfterHeal` describes, and keeps validity |
| Game.GameState.RefillAmmo | game.js:189-192 | performs the refill in place as `Session.AfterRefill` describes, and keeps validity |
| Game.GameState.SpawnAsteroid | game.js:74-93 | pushes the asteroid and rearms the timer as `Session.AfterSpawnAsteroid` describes |
| Game.GameState.SpawnPlanet | game.js:123-133 | pushes the planet as `Session.AfterSpawnPlanet` describes |
| Game.GameState.StepAsteroid | game.js:262-284 | the loop body of the asteroid pass at one index, in place, as `Passes.AsteroidStep` describes |
| Game.GameState.AsteroidPass | game.js:261-285 | the reverse splice loop leaves the session the asteroid sweep gives, whose effect `Passes.AsteroidSweepEffect` states |
| Game.GameState.StepPlanet | game.js:288-301 | the loop body of the planet pass at one index, in place, as `Passes.PlanetStep` describes |
| Game.GameState.PlanetPass | game.js:287-302 | the reverse splice loop leaves the session the planet sweep gives |
| Game.GameState.StepBullet | game.js:305-335 | the loop body of the bullet pass at one index, with the inner scan, in place, as `Passes.BulletStep` describes |
| Game.GameState.BulletPass | game.js:304-336 | the reverse splice loop leaves the session the bullet sweep gives |
| Game.GameState.AdvanceShip | game.js:225-248 | ages the session and moves the ship as `Frame.Advance` describes |
| Game.GameState.TickAsteroidTimer | game.js:252-253 | runs the asteroid timer down and spawns at zero or below |
| Game.GameState.TickPlanetTimer | game.js:255-259 | runs the planet timer down, and at zero or below spawns a planet of the drawn kind and rearms the timer |
| Game.GameState.Update | game.js:222-336 | one update in place equals `Frame.AfterUpdate` of the old session, and a valid session stays valid |
| Game.Loop | game.js:548-552 | one animation frame updates the session with the clamped delta, which is at most 0.033 s, and the frame time becomes the previous one; a valid session stays valid |

## Left out

- Rendering (`drawStars`, `drawShip`, `drawEntities`, every use of the 2D context): this is pure output with no effect on the session.
- The HUD and the overlay (`updateHud`, the game-over overlay, the final-score text, the restart button): these are DOM side effects.
- Event listeners, `requestAnimationFrame`, `performance.now` and `resize`: they are I/O. The held keys and the mouse button become the `Frame.Input` record, the frame times become parameters of `Game.Loop`, and the canvas size becomes a `Canvas` parameter.
- The trigonometry (`Math.atan2`, `cos`, `sin`): the unit direction from the ship to the mouse is the input pair (aimX, aimY). The ship's facing angle only feeds drawing and is not kept.
- `Math.random`: every draw that affects the session is a parameter (`AsteroidDraws`, `PlanetDraws`). Where a bound depends on a draw, the lemmas require it in [0, 1).
- Cosmetic state is not kept, because none of it feeds back into the session: asteroid outlines (`createAsteroidProfile`), rotation and spin, the planet pulse, explosions and particles (`createExplosion`), engine sparks, and the star field.
- Floating point: positions, speeds, timers and `dt` are exact reals, so rounding is not modelled. The integer counters are unbounded integers; in the source they stay far below 2^53.
- Game.GameState.AdvanceShip: the ship's velocity, drag and position updates are assigned as one record (`Frame.MoveShip`) rather than field by field, because the kinematics is a single expression with no intermediate state that matters.
- Passes.AsteroidSweepDamage: over the whole pass it states that losing the last life ends the session, but not the three-hits-in-a-row route. Escapes of higher-index asteroids reset the streak before the strike, so that route is stated per step instead: `Passes.AsteroidStepEffect` makes a strike exactly `Session.AfterDamage`, whose `over` condition `Session.DamageEffect` gives.
- Frame.UpdateRearmsTimers: the [0.35, 2.3) bound needs a non-negative session age after the frame, because `update` accepts a negative `dt`.
- Session.SpawnAsteroidEffect: the bound on the rearmed timer requires a non-negative session age, because `update` accepts a negative `dt` and the age can then go below zero.

