/** One animation frame: the clamped frame delta of `loop` and the per-frame
    `update`, which ages the session, moves the ship, cools the gun and the
    invulnerability down, fires, runs the spawn timers and then the asteroid,
    planet and bullet passes, in that order. */
module Frame {
  import opened Entities
  import opened Session
  import opened Passes

  /** The normalised input of one frame: the four movement directions
      (WASD or the arrow keys), whether fire is held (mouse button or Space),
      and the unit direction (cosine, sine) from the ship to the mouse. */
  datatype Input = Input(up: bool, down: bool, left: bool, right: bool,
                         fire: bool, aimX: real, aimY: real)

  /** The random draws one frame may consume. */
  datatype Draws = Draws(asteroid: AsteroidDraws, planet: PlanetDraws)

  predicate DrawsValid(d: Draws)
  {
    AsteroidDrawsValid(d.asteroid) && PlanetDrawsValid(d.planet)
  }

  /** The frame delta of `loop`: the elapsed milliseconds in seconds, capped
      at 33 ms. */
  function FrameDelta(now: real, last: real): (dt: real)
    ensures dt <= MaxFrameDelta
    ensures (now - last) / 1000.0 <= MaxFrameDelta ==> dt == (now - last) / 1000.0
    ensures (now - last) / 1000.0 > MaxFrameDelta ==> dt == MaxFrameDelta
  {
    Min(MaxFrameDelta, (now - last) / 1000.0)
  }

  /** +1, -1 or 0 along one axis for a pair of opposite keys. */
  function Axis(negative: bool, positive: bool): real
  {
    (if positive then 1.0 else 0.0) - (if negative then 1.0 else 0.0)
  }

  /** The ship after one frame: accelerate along the held keys, apply drag,
      move, clamp into the arena 60 units from each edge, and let the gun
      cooldown and invulnerability run down without going below zero. */
  function MoveShip(ship: Ship, dt: real, input: Input, c: Canvas): Ship
  {
    var vx := (ship.vx + Axis(input.left, input.right) * ShipAccel * dt) * ShipDrag;
    var vy := (ship.vy + Axis(input.up, input.down) * ShipAccel * dt) * ShipDrag;
    Ship(Clamp(ship.x + vx * dt, ShipMargin, c.width - ShipMargin),
         Clamp(ship.y + vy * dt, ShipMargin, c.height - ShipMargin),
         vx, vy,
         Max(0.0, ship.fireCooldown - dt),
         Max(0.0, ship.invulnerableFor - dt))
  }

  /** The first part of `update`: the session ages by dt and the ship moves. */
  function Advance(s: State, dt: real, input: Input, c: Canvas): State
  {
    s.(elapsed := s.elapsed + dt, ship := MoveShip(s.ship, dt, input, c))
  }

  /** The asteroid timer runs down by dt; at zero or below an asteroid
      spawns, which rearms the timer. */
  function AsteroidTimer(s: State, dt: real, d: AsteroidDraws, c: Canvas): State
  {
    var t := s.(asteroidSpawnTimer := s.asteroidSpawnTimer - dt);
    if t.asteroidSpawnTimer <= 0.0 then AfterSpawnAsteroid(t, d, c) else t
  }

  /** A draw above one half picks a life planet, any other a weapon planet. */
  function PlanetKindOf(r: real): PlanetKind
  {
    if r > 0.5 then LifePlanet else WeaponPlanet
  }

  /** The support-planet timer runs down by dt; at zero or below a planet
      spawns and the timer is rearmed to 8 to 14 seconds. */
  function PlanetTimer(s: State, dt: real, d: PlanetDraws, c: Canvas): State
  {
    var t := s.(supportPlanetTimer := s.supportPlanetTimer - dt);
    if t.supportPlanetTimer <= 0.0 then
      AfterSpawnPlanet(t, PlanetKindOf(d.kind), d, c).(supportPlanetTimer := NextPlanetDelay(d.delay))
    else t
  }

  /** `update(dt)`: nothing at all once the session is over; otherwise the
      steps above, then the asteroid, planet and bullet passes. */
  function AfterUpdate(s: State, dt: real, input: Input, draws: Draws, c: Canvas): State
  {
    if s.over then s
    else
      var s1 := Advance(s, dt, input, c);
      var s2 := if input.fire && s1.ammo > 0 then AfterShoot(s1, input.aimX, input.aimY) else s1;
      var s3 := AsteroidTimer(s2, dt, draws.asteroid, c);
      var s4 := PlanetTimer(s3, dt, draws.planet, c);
      var s5 := AsteroidSweep(s4, |s4.asteroids|, dt, c);
      var s6 := PlanetSweep(s5, |s5.planets|, dt);
      BulletSweep(s6, |s6.bullets|, dt, c)
  }

  /** An update of a session that is over changes nothing. */
  lemma UpdateWhenOver(s: State, dt: real, input: Input, draws: Draws, c: Canvas)
    requires s.over
    ensures AfterUpdate(s, dt, input, draws, c) == s
  {
  }

  /** Every update keeps the session invariant (life in [0, 3], ammo in
      [0, 40], at most three hits in a row, ...) and never lowers the score
      or the destroyed count. */
  lemma UpdateKeepsInv(s: State, dt: real, input: Input, draws: Draws, c: Canvas)
    requires Inv(s)
    ensures var r := AfterUpdate(s, dt, input, draws, c);
      Inv(r) && r.score >= s.score && r.destroyed >= s.destroyed
  {
    if !s.over {
      var s1 := Advance(s, dt, input, c);
      var s2 := if input.fire && s1.ammo > 0 then AfterShoot(s1, input.aimX, input.aimY) else s1;
      EventsKeepInv(s1, input.aimX, input.aimY);
      var s3 := AsteroidTimer(s2, dt, draws.asteroid, c);
      var s4 := PlanetTimer(s3, dt, draws.planet, c);
      var s5 := AsteroidSweep(s4, |s4.asteroids|, dt, c);
      AsteroidSweepKeepsInv(s4, |s4.asteroids|, dt, c);
      AsteroidSweepEffect(s4, |s4.asteroids|, dt, c);
      AsteroidSweepFrame(s4, |s4.asteroids|, dt, c);
      var s6 := PlanetSweep(s5, |s5.planets|, dt);
      PlanetSweepKeepsInv(s5, |s5.planets|, dt);
      PlanetSweepFrame(s5, |s5.planets|, dt);
      BulletSweepKeepsInv(s6, |s6.bullets|, dt, c);
      BulletSweepEffect(s6, |s6.bullets|, dt, c);
    }
  }

  /** The session a live update has reached when the asteroid pass starts:
      aged, ship moved, shot fired if asked for, spawn timers run. */
  function BeforePasses(s: State, dt: real, input: Input, draws: Draws, c: Canvas): State
  {
    var s1 := Advance(s, dt, input, c);
    var s2 := if input.fire && s1.ammo > 0 then AfterShoot(s1, input.aimX, input.aimY) else s1;
    PlanetTimer(AsteroidTimer(s2, dt, draws.asteroid, c), dt, draws.planet, c)
  }

  /** The asteroid, planet and bullet passes, in that order. */
  function AfterPasses(s: State, dt: real, c: Canvas): State
  {
    var s5 := AsteroidSweep(s, |s.asteroids|, dt, c);
    var s6 := PlanetSweep(s5, |s5.planets|, dt);
    BulletSweep(s6, |s6.bullets|, dt, c)
  }

  /** A live update is the steps before the passes followed by the passes. */
  lemma UpdateInTwoParts(s: State, dt: real, input: Input, draws: Draws, c: Canvas)
    requires !s.over
    ensures AfterUpdate(s, dt, input, draws, c) == AfterPasses(BeforePasses(s, dt, input, draws, c), dt, c)
  {
  }

  /** Before the passes the session has aged by dt and kept its life; the cooldown restarts
      at 0.12 exactly when fire is held and the shot goes through, and has
      otherwise run down; invulnerability has run down; each spawn timer has
      run down by dt, or ran out and was rearmed. */
  lemma BeforePassesEffect(s: State, dt: real, input: Input, draws: Draws, c: Canvas)
    ensures var s1 := Advance(s, dt, input, c);
      var s4 := BeforePasses(s, dt, input, draws, c);
      && s4.elapsed == s.elapsed + dt
      && s4.life == s.life
      && s4.ship == s1.ship.(fireCooldown := s4.ship.fireCooldown)
      && s4.ship.fireCooldown
           == (if input.fire && s1.ammo > 0 && !ShotBlocked(s1) then FireCooldown
               else Max(0.0, s.ship.fireCooldown - dt))
      && s4.ship.invulnerableFor == Max(0.0, s.ship.invulnerableFor - dt)
      && s4.over == s.over
      && s4.asteroidSpawnTimer
           == (if s.asteroidSpawnTimer - dt <= 0.0
               then NextAsteroidDelay(s.elapsed + dt, draws.asteroid.delay)
               else s.asteroidSpawnTimer - dt)
      && s4.supportPlanetTimer
           == (if s.supportPlanetTimer - dt <= 0.0 then NextPlanetDelay(draws.planet.delay)
               else s.supportPlanetTimer - dt)
  {
  }

  /** The passes keep the session age, the spawn timers and the ship apart
      from its invulnerability, which restarts at 1.2 exactly when some
      asteroid strikes the ship while it is damageable. */
  lemma AfterPassesEffect(s: State, dt: real, c: Canvas)
    ensures var r := AfterPasses(s, dt, c);
      var hit := AnyStrike(s.asteroids, s.ship.x, s.ship.y, dt, c.height) && !DamageBlocked(s);
      && r.elapsed == s.elapsed
      && r.asteroidSpawnTimer == s.asteroidSpawnTimer
      && r.supportPlanetTimer == s.supportPlanetTimer
      && r.ship == s.ship.(invulnerableFor := r.ship.invulnerableFor)
      && r.ship.invulnerableFor == (if hit then InvulnerableTime else s.ship.invulnerableFor)
  {
    var s5 := AsteroidSweep(s, |s.asteroids|, dt, c);
    AsteroidSweepFrame(s, |s.asteroids|, dt, c);
    AsteroidSweepDamage(s, |s.asteroids|, dt, c);
    assert s.asteroids[..|s.asteroids|] == s.asteroids;
    var s6 := PlanetSweep(s5, |s5.planets|, dt);
    PlanetSweepFrame(s5, |s5.planets|, dt);
    BulletSweepEffect(s6, |s6.bullets|, dt, c);
  }

  /** In an update of a live session the session ages by dt. The gun
      cooldown restarts at 0.12 exactly when fire is held and the shot goes
      through, and otherwise runs down by dt, not below zero. Invulnerability
      restarts at 1.2 exactly when an asteroid strikes the ship while it is
      damageable, and otherwise runs down by dt, not below zero. */
  lemma UpdateTimers(s: State, dt: real, input: Input, draws: Draws, c: Canvas)
    requires !s.over
    ensures var r := AfterUpdate(s, dt, input, draws, c);
      var s1 := Advance(s, dt, input, c);
      var s4 := BeforePasses(s, dt, input, draws, c);
      var hit := AnyStrike(s4.asteroids, s4.ship.x, s4.ship.y, dt, c.height) && !DamageBlocked(s4);
      && r.elapsed == s.elapsed + dt
      && r.ship.fireCooldown
           == (if input.fire && s1.ammo > 0 && !ShotBlocked(s1) then FireCooldown
               else Max(0.0, s.ship.fireCooldown - dt))
      && r.ship.invulnerableFor
           == (if hit then InvulnerableTime else Max(0.0, s.ship.invulnerableFor - dt))
  {
    UpdateInTwoParts(s, dt, input, draws, c);
    BeforePassesEffect(s, dt, input, draws, c);
    AfterPassesEffect(BeforePasses(s, dt, input, draws, c), dt, c);
  }

  /** After an update the ship lies inside the arena margins: at least 60
      units from the top and left edges, and from the bottom and right edges
      too when the canvas is large enough to leave room. */
  lemma UpdateKeepsShipInArena(s: State, dt: real, input: Input, draws: Draws, c: Canvas)
    requires !s.over
    ensures var r := AfterUpdate(s, dt, input, draws, c);
      && ShipMargin <= r.ship.x && (2.0 * ShipMargin <= c.width ==> r.ship.x <= c.width - ShipMargin)
      && ShipMargin <= r.ship.y && (2.0 * ShipMargin <= c.height ==> r.ship.y <= c.height - ShipMargin)
  {
    var s1 := Advance(s, dt, input, c);
    var s2 := if input.fire && s1.ammo > 0 then AfterShoot(s1, input.aimX, input.aimY) else s1;
    var s3 := AsteroidTimer(s2, dt, draws.asteroid, c);
    var s4 := PlanetTimer(s3, dt, draws.planet, c);
    var s5 := AsteroidSweep(s4, |s4.asteroids|, dt, c);
    AsteroidSweepFrame(s4, |s4.asteroids|, dt, c);
    var s6 := PlanetSweep(s5, |s5.planets|, dt);
    PlanetSweepFrame(s5, |s5.planets|, dt);
    BulletSweepEffect(s6, |s6.bullets|, dt, c);
  }

  /** An update costs at most one life: a frame can damage the ship at most
      once, and pickups only heal. */
  lemma UpdateLosesAtMostOneLife(s: State, dt: real, input: Input, draws: Draws, c: Canvas)
    requires Inv(s)
    ensures AfterUpdate(s, dt, input, draws, c).life >= s.life - 1
  {
    if !s.over {
      UpdateInTwoParts(s, dt, input, draws, c);
      BeforePassesEffect(s, dt, input, draws, c);
      PassesLoseAtMostOneLife(BeforePasses(s, dt, input, draws, c), dt, c);
    }
  }

  /** The passes cost at most one life: the asteroid pass damages the ship
      at most once, the planet pass only heals and the bullet pass leaves
      life alone. */
  lemma PassesLoseAtMostOneLife(s: State, dt: real, c: Canvas)
    requires s.life <= MaxLife
    ensures AfterPasses(s, dt, c).life >= s.life - 1
  {
    var s5 := AsteroidSweep(s, |s.asteroids|, dt, c);
    AsteroidSweepDamage(s, |s.asteroids|, dt, c);
    assert s.life - 1 <= s5.life <= MaxLife;
    var s6 := PlanetSweep(s5, |s5.planets|, dt);
    PlanetSweepHeals(s5, |s5.planets|, dt);
    assert s6.life >= s5.life;
    BulletSweepEffect(s6, |s6.bullets|, dt, c);
    assert AfterPasses(s, dt, c).life == s6.life;
  }

  /** After an update of a live session with valid draws and a non-negative
      age, each spawn timer has either run down by dt and is still positive,
      or ran out this frame and was rearmed: the asteroid timer to the next
      asteroid delay for the new age, in [0.35, 2.3), the planet timer to
      the next planet delay, in [8, 14). */
  lemma UpdateRearmsTimers(s: State, dt: real, input: Input, draws: Draws, c: Canvas)
    requires !s.over && DrawsValid(draws) && 0.0 <= s.elapsed + dt
    ensures var r := AfterUpdate(s, dt, input, draws, c);
      && (if s.asteroidSpawnTimer - dt <= 0.0
          then r.asteroidSpawnTimer == NextAsteroidDelay(s.elapsed + dt, draws.asteroid.delay)
               && 0.35 <= r.asteroidSpawnTimer < 2.3
          else r.asteroidSpawnTimer == s.asteroidSpawnTimer - dt)
      && (if s.supportPlanetTimer - dt <= 0.0
          then r.supportPlanetTimer == NextPlanetDelay(draws.planet.delay)
               && 8.0 <= r.supportPlanetTimer < 14.0
          else r.supportPlanetTimer == s.supportPlanetTimer - dt)
  {
    UpdateInTwoParts(s, dt, input, draws, c);
    BeforePassesEffect(s, dt, input, draws, c);
    AfterPassesEffect(BeforePasses(s, dt, input, draws, c), dt, c);
    AsteroidDelayBounds(s.elapsed + dt, draws.asteroid.delay, s.elapsed + dt);
  }
}
