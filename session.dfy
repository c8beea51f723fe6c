/** The session record `gameState` as a value, its invariant, and what each
    session operation (reset, shoot, damage, heal, refill, game over, the two
    spawns) does to it. The class in module Game performs these operations in
    place; the functions here are their specifications. */
module Session {
  import opened Entities

  datatype State = State(
    score: int,
    destroyed: int,
    life: int,
    ammo: int,
    consecutiveHits: int,
    over: bool,
    elapsed: real,
    ship: Ship,
    asteroids: seq<Asteroid>,
    bullets: seq<Bullet>,
    planets: seq<Planet>,
    asteroidSpawnTimer: real,
    supportPlanetTimer: real)

  /** The bounds every session keeps: life and ammo within their maxima,
      at most three hits in a row, and a session with no life left or three
      hits in a row is over. */
  predicate Inv(s: State)
  {
    && 0 <= s.life <= MaxLife
    && 0 <= s.ammo <= MaxAmmo
    && 0 <= s.consecutiveHits <= MaxHitsInARow
    && (s.consecutiveHits == MaxHitsInARow ==> s.over)
    && (s.life == 0 ==> s.over)
    && 0 <= s.score
    && 0 <= s.destroyed
    && 0.0 <= s.ship.fireCooldown
    && 0.0 <= s.ship.invulnerableFor
  }

  /** The random draws spawnAsteroid consumes, each in [0, 1). */
  datatype AsteroidDraws = AsteroidDraws(radius: real, y: real, speed: real, drift: real, delay: real)

  /** The random draws the support-planet timer consumes, each in [0, 1). */
  datatype PlanetDraws = PlanetDraws(kind: real, y: real, speed: real, delay: real)

  /** A value Math.random can return. */
  predicate IsDraw(r: real)
  {
    0.0 <= r < 1.0
  }

  predicate AsteroidDrawsValid(d: AsteroidDraws)
  {
    IsDraw(d.radius) && IsDraw(d.y) && IsDraw(d.speed) && IsDraw(d.drift) && IsDraw(d.delay)
  }

  predicate PlanetDrawsValid(d: PlanetDraws)
  {
    IsDraw(d.kind) && IsDraw(d.y) && IsDraw(d.speed) && IsDraw(d.delay)
  }

  /** resetGame: a fresh session on a canvas of the given size. */
  function Initial(c: Canvas): State
  {
    State(
      score := 0, destroyed := 0, life := MaxLife, ammo := MaxAmmo,
      consecutiveHits := 0, over := false, elapsed := 0.0,
      ship := Ship(c.width * 0.25, c.height * 0.5, 0.0, 0.0, 0.0, 0.0),
      asteroids := [], bullets := [], planets := [],
      asteroidSpawnTimer := 0.0, supportPlanetTimer := 4.0)
  }

  /** A fresh session satisfies the invariant, starts with full life and
      ammo, no score, no entities and primed timers, whatever the canvas. */
  lemma InitialIsFresh(c: Canvas)
    ensures var s := Initial(c);
      && Inv(s) && !s.over
      && s.score == 0 && s.destroyed == 0 && s.consecutiveHits == 0
      && s.life == MaxLife && s.ammo == MaxAmmo && s.elapsed == 0.0
      && s.asteroids == [] && s.bullets == [] && s.planets == []
      && s.asteroidSpawnTimer == 0.0 && s.supportPlanetTimer == 4.0
      && s.ship.fireCooldown == 0.0 && s.ship.invulnerableFor == 0.0
  {
  }

  /** gameOver, its state part: the session is over. */
  function AfterGameOver(s: State): State
  {
    s.(over := true)
  }

  /** shoot is refused when the session is over, the gun is cooling down or
      there is no ammo. */
  predicate ShotBlocked(s: State)
  {
    s.over || s.ship.fireCooldown > 0.0 || s.ammo <= 0
  }

  /** The bullet fired along the unit direction (aimX, aimY): 30 units ahead
      of the ship, at bullet speed, with its full life. */
  function NewBullet(ship: Ship, aimX: real, aimY: real): Bullet
  {
    Bullet(ship.x + aimX * 30.0, ship.y + aimY * 30.0,
           aimX * BulletSpeed, aimY * BulletSpeed, BulletLife)
  }

  /** shoot; (aimX, aimY) stands for the cosine and sine of the angle from
      the ship to the mouse. */
  function AfterShoot(s: State, aimX: real, aimY: real): State
  {
    if ShotBlocked(s) then s
    else s.(bullets := s.bullets + [NewBullet(s.ship, aimX, aimY)],
            ship := s.ship.(fireCooldown := FireCooldown),
            ammo := MaxInt(0, s.ammo - 1))
  }

  /** A blocked shot changes nothing; any other appends exactly one bullet,
      starts the cooldown and spends one round, and nothing else changes. */
  lemma ShootEffect(s: State, aimX: real, aimY: real)
    ensures var r := AfterShoot(s, aimX, aimY);
      && (ShotBlocked(s) <==> r == s)
      && (!ShotBlocked(s) ==>
            && r.bullets == s.bullets + [NewBullet(s.ship, aimX, aimY)]
            && r.bullets[|s.bullets|].life == BulletLife
            && r.ship == s.ship.(fireCooldown := FireCooldown)
            && r.ammo == s.ammo - 1
            && r == s.(bullets := r.bullets, ship := r.ship, ammo := r.ammo))
  {
    var r := AfterShoot(s, aimX, aimY);
    if !ShotBlocked(s) {
      assert |r.bullets| == |s.bullets| + 1;
    }
  }

  /** damageShip refuses while the ship is invulnerable or the session is over. */
  predicate DamageBlocked(s: State)
  {
    s.ship.invulnerableFor > 0.0 || s.over
  }

  /** damageShip: lose a life (not below zero), count one more hit in a row,
      become invulnerable, and end the session on no life or three hits. */
  function AfterDamage(s: State): State
  {
    if DamageBlocked(s) then s
    else
      var t := s.(life := MaxInt(0, s.life - 1),
                  consecutiveHits := s.consecutiveHits + 1,
                  ship := s.ship.(invulnerableFor := InvulnerableTime));
      if t.life <= 0 || t.consecutiveHits >= MaxHitsInARow then AfterGameOver(t) else t
  }

  /** A blocked damage changes nothing. Any other takes one life, adds one hit
      in a row, grants invulnerability, and sets `over` exactly when no life
      is left or the third hit in a row landed; score, destroyed and ammo keep
      their values. */
  lemma DamageEffect(s: State)
    ensures var r := AfterDamage(s);
      && (DamageBlocked(s) <==> r == s)
      && (!DamageBlocked(s) ==>
            && r.life == MaxInt(0, s.life - 1)
            && r.consecutiveHits == s.consecutiveHits + 1
            && r.ship == s.ship.(invulnerableFor := InvulnerableTime)
            && (r.over <==> r.life <= 0 || r.consecutiveHits >= MaxHitsInARow)
            && r == s.(life := r.life, consecutiveHits := r.consecutiveHits,
                       ship := r.ship, over := r.over))
  {
  }

  /** Damage cannot land twice before invulnerability wears off: a second
      damage in the same state is absorbed. */
  lemma DamageAbsorbedWhileInvulnerable(s: State)
    ensures AfterDamage(AfterDamage(s)) == AfterDamage(s)
  {
  }

  /** healShip: one life back (up to the maximum), and the streak of hits
      in a row is broken. */
  function AfterHeal(s: State): State
  {
    s.(life := MinInt(MaxLife, s.life + 1), consecutiveHits := 0)
  }

  /** refillAmmo: ammo back to the maximum. */
  function AfterRefill(s: State): State
  {
    s.(ammo := MaxAmmo)
  }

  /** Healing raises life by one up to the maximum and clears the streak;
      refilling raises ammo to the maximum; neither touches score, destroyed
      or the `over` flag. */
  lemma PickupEffects(s: State)
    requires s.life <= MaxLife
    ensures var h := AfterHeal(s);
      && h.life == (if s.life < MaxLife then s.life + 1 else MaxLife)
      && h.life >= s.life && h.consecutiveHits == 0
      && h == s.(life := h.life, consecutiveHits := 0)
    ensures var f := AfterRefill(s);
      f.ammo == MaxAmmo && f == s.(ammo := MaxAmmo)
  {
  }

  /** Every session operation keeps the invariant and never lowers score or
      destroyed. */
  lemma EventsKeepInv(s: State, aimX: real, aimY: real)
    requires Inv(s)
    ensures Inv(AfterShoot(s, aimX, aimY))
    ensures Inv(AfterDamage(s)) && AfterDamage(s).score == s.score
    ensures Inv(AfterHeal(s)) && Inv(AfterRefill(s)) && Inv(AfterGameOver(s))
  {
  }

  /** The delay before the next asteroid: shrinking from 1.6 by 0.025 per
      second survived down to 0.35, plus a random share of 0.7. */
  function NextAsteroidDelay(elapsed: real, r: real): real
  {
    Max(0.35, 1.6 - elapsed * 0.025) + r * 0.7
  }

  /** For a draw in [0, 1) and a non-negative session age, the next asteroid
      arrives after a delay in [0.35, 2.3), and the delay never grows with age. */
  lemma AsteroidDelayBounds(elapsed: real, r: real, later: real)
    requires IsDraw(r) && 0.0 <= elapsed <= later
    ensures 0.35 <= NextAsteroidDelay(elapsed, r) < 2.3
    ensures NextAsteroidDelay(later, r) <= NextAsteroidDelay(elapsed, r)
  {
  }

  /** The delay before the next support planet: 8 to 14 seconds. */
  function NextPlanetDelay(r: real): real
  {
    8.0 + r * 6.0
  }

  /** An asteroid entering from the right edge, built from the draws: radius
      in [22, 52), speed growing with the session age. */
  function NewAsteroid(elapsed: real, d: AsteroidDraws, c: Canvas): Asteroid
  {
    var difficulty := 1.0 + elapsed * 0.03;
    var radius := AsteroidMinRadius + d.radius * (AsteroidMaxRadius - AsteroidMinRadius);
    Asteroid(c.width + radius + 40.0,
             radius + d.y * (c.height - radius * 2.0),
             radius,
             130.0 + d.speed * 70.0 + difficulty * 18.0,
             (d.drift - 0.5) * 80.0)
  }

  /** spawnAsteroid: push a new asteroid and rearm the asteroid timer. */
  function AfterSpawnAsteroid(s: State, d: AsteroidDraws, c: Canvas): State
  {
    s.(asteroids := s.asteroids + [NewAsteroid(s.elapsed, d, c)],
       asteroidSpawnTimer := NextAsteroidDelay(s.elapsed, d.delay))
  }

  /** A spawned asteroid is appended after the existing ones, enters past
      the right edge, has a radius in [22, 52) and drift in [-40, 40); the
      timer is rearmed and no counter changes. */
  lemma SpawnAsteroidEffect(s: State, d: AsteroidDraws, c: Canvas)
    requires AsteroidDrawsValid(d)
    ensures var r := AfterSpawnAsteroid(s, d, c);
      var a := r.asteroids[|s.asteroids|];
      && |r.asteroids| == |s.asteroids| + 1
      && r.asteroids[..|s.asteroids|] == s.asteroids
      && AsteroidMinRadius <= a.radius < AsteroidMaxRadius
      && a.x > c.width && -40.0 <= a.drift < 40.0
      && r == s.(asteroids := r.asteroids, asteroidSpawnTimer := r.asteroidSpawnTimer)
      && (0.0 <= s.elapsed ==> 0.35 <= r.asteroidSpawnTimer < 2.3)
  {
    var r := AfterSpawnAsteroid(s, d, c);
    assert r.asteroids[..|s.asteroids|] == s.asteroids;
    if 0.0 <= s.elapsed {
      AsteroidDelayBounds(s.elapsed, d.delay, s.elapsed);
    }
  }

  /** A support planet entering from the right edge: "life" planets have
      radius 24, "weapon" planets 20. */
  function NewPlanet(kind: PlanetKind, d: PlanetDraws, c: Canvas): Planet
  {
    Planet(kind, c.width + 80.0, 80.0 + d.y * (c.height - 160.0),
           if kind == LifePlanet then 24.0 else 20.0,
           90.0 + d.speed * 30.0)
  }

  /** spawnPlanet: push a new support planet of the given kind. */
  function AfterSpawnPlanet(s: State, kind: PlanetKind, d: PlanetDraws, c: Canvas): State
  {
    s.(planets := s.planets + [NewPlanet(kind, d, c)])
  }

  /** A spawned planet is appended after the existing ones, has the kind
      asked for, enters past the right edge with the radius of its kind, and
      nothing else changes; the rearm delay drawn beside it lies in [8, 14). */
  lemma SpawnPlanetEffect(s: State, kind: PlanetKind, d: PlanetDraws, c: Canvas)
    requires PlanetDrawsValid(d)
    ensures var r := AfterSpawnPlanet(s, kind, d, c);
      var p := r.planets[|s.planets|];
      && |r.planets| == |s.planets| + 1
      && r.planets[..|s.planets|] == s.planets
      && p.kind == kind && p.x > c.width
      && p.radius == (if kind == LifePlanet then 24.0 else 20.0)
      && r == s.(planets := r.planets)
      && 8.0 <= NextPlanetDelay(d.delay) < 14.0
  {
    var r := AfterSpawnPlanet(s, kind, d, c);
    assert r.planets[..|s.planets|] == s.planets;
  }
}
