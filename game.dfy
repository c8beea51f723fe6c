/** The session object `gameState` and the operations that change it in
    place. Every method is proved against the specification functions of
    modules Session, Passes and Frame: its new state, read through View(),
    is the specification applied to the old one. */
module Game {
  import opened Entities
  import opened Session
  import opened Passes
  import opened Frame

  /** The inner loop of the bullet pass: scan the asteroids from the last
      index down and stop at the first one bullet b reaches. */
  method LastHit(asteroids: seq<Asteroid>, b: Bullet) returns (hit: Option<nat>)
    ensures IsLastHit(asteroids, b, hit)
  {
    hit := None;
    var j := |asteroids|;
    while j > 0
      invariant 0 <= j <= |asteroids|
      invariant hit.None?
      invariant forall k :: j <= k < |asteroids| ==> !BulletHits(asteroids[k], b)
      decreases j
    {
      j := j - 1;
      if BulletHits(asteroids[j], b) {
        hit := Some(j);
        break;
      }
    }
  }

  class GameState {
    var score: int
    var destroyed: int
    var life: int
    var ammo: int
    var consecutiveHits: int
    var over: bool
    var elapsed: real
    var ship: Ship
    var asteroids: seq<Asteroid>
    var bullets: seq<Bullet>
    var planets: seq<Planet>
    var asteroidSpawnTimer: real
    var supportPlanetTimer: real

    /** The session as a value. */
    function View(): State
      reads this
    {
      State(score, destroyed, life, ammo, consecutiveHits, over, elapsed, ship,
            asteroids, bullets, planets, asteroidSpawnTimer, supportPlanetTimer)
    }

    ghost predicate Valid()
      reads this
    {
      Inv(View())
    }

    /** The session the page starts with (its first resetGame). */
    constructor (c: Canvas)
      ensures View() == Initial(c) && Valid()
    {
      score, destroyed, life, ammo, consecutiveHits := 0, 0, MaxLife, MaxAmmo, 0;
      over, elapsed := false, 0.0;
      ship := Ship(c.width * 0.25, c.height * 0.5, 0.0, 0.0, 0.0, 0.0);
      asteroids, bullets, planets := [], [], [];
      asteroidSpawnTimer, supportPlanetTimer := 0.0, 4.0;
      InitialIsFresh(c);
    }

    /** resetGame: replace the whole session with a fresh one; nothing of
        the previous session survives. */
    method ResetGame(c: Canvas)
      modifies this
      ensures View() == Initial(c) && Valid()
    {
      score, destroyed, life, ammo, consecutiveHits := 0, 0, MaxLife, MaxAmmo, 0;
      over, elapsed := false, 0.0;
      ship := Ship(c.width * 0.25, c.height * 0.5, 0.0, 0.0, 0.0, 0.0);
      asteroids, bullets, planets := [], [], [];
      asteroidSpawnTimer, supportPlanetTimer := 0.0, 4.0;
      InitialIsFresh(c);
    }

    /** gameOver, its state part. */
    method GameOver()
      modifies this
      ensures View() == AfterGameOver(old(View()))
      ensures old(Valid()) ==> Valid()
    {
      if old(Valid()) {
        EventsKeepInv(View(), 0.0, 0.0);
      }
      over := true;
    }

    /** shoot, with (aimX, aimY) the direction from the ship to the mouse. */
    method Shoot(aimX: real, aimY: real)
      modifies this
      ensures View() == AfterShoot(old(View()), aimX, aimY)
      ensures old(Valid()) ==> Valid()
    {
      if old(Valid()) {
        EventsKeepInv(View(), aimX, aimY);
      }
      if over || ship.fireCooldown > 0.0 || ammo <= 0 {
        return;
      }
      bullets := bullets + [NewBullet(ship, aimX, aimY)];
      ship := ship.(fireCooldown := FireCooldown);
      ammo := MaxInt(0, ammo - 1);
    }

    /** damageShip. */
    method DamageShip()
      modifies this
      ensures View() == AfterDamage(old(View()))
      ensures old(Valid()) ==> Valid()
    {
      if old(Valid()) {
        EventsKeepInv(View(), 0.0, 0.0);
      }
      if ship.invulnerableFor > 0.0 || over {
        return;
      }
      life := MaxInt(0, life - 1);
      consecutiveHits := consecutiveHits + 1;
      ship := ship.(invulnerableFor := InvulnerableTime);
      if life <= 0 || consecutiveHits >= MaxHitsInARow {
        GameOver();
      }
    }

    /** healShip. */
    method HealShip()
      modifies this
      ensures View() == AfterHeal(old(View()))
      ensures old(Valid()) ==> Valid()
    {
      if old(Valid()) {
        EventsKeepInv(View(), 0.0, 0.0);
      }
      life := MinInt(MaxLife, life + 1);
      consecutiveHits := 0;
    }

    /** refillAmmo. */
    method RefillAmmo()
      modifies this
      ensures View() == AfterRefill(old(View()))
      ensures old(Valid()) ==> Valid()
    {
      if old(Valid()) {
        EventsKeepInv(View(), 0.0, 0.0);
      }
      ammo := MaxAmmo;
    }

    /** spawnAsteroid: push an asteroid built from the draws and rearm the
        asteroid timer. */
    method SpawnAsteroid(d: AsteroidDraws, c: Canvas)
      modifies this
      ensures View() == AfterSpawnAsteroid(old(View()), d, c)
    {
      asteroids := asteroids + [NewAsteroid(elapsed, d, c)];
      asteroidSpawnTimer := NextAsteroidDelay(elapsed, d.delay);
    }

    /** spawnPlanet: push a support planet of the given kind. */
    method SpawnPlanet(kind: PlanetKind, d: PlanetDraws, c: Canvas)
      modifies this
      ensures View() == AfterSpawnPlanet(old(View()), kind, d, c)
    {
      planets := planets + [NewPlanet(kind, d, c)];
    }

    /** The body of the asteroid pass at index i: move the asteroid, then
        splice it out with a point of credit if it escaped, or splice it out
        and damage the ship if it overlaps the ship. */
    method StepAsteroid(i: nat, dt: real, c: Canvas)
      requires i < |asteroids|
      modifies this
      ensures View() == AsteroidStep(old(View()), i, dt, c)
    {
      var a := MoveAsteroid(asteroids[i], dt, c.height);
      if AsteroidEscaped(a) {
        asteroids := RemoveAt(asteroids, i);
        score := score + 1;
        consecutiveHits := 0;
      } else if AsteroidStrikes(a, ship.x, ship.y) {
        asteroids := RemoveAt(asteroids, i);
        DamageShip();
      } else {
        asteroids := asteroids[i := a];
      }
    }

    /** The asteroid pass, from the last asteroid down to the first. */
    method AsteroidPass(dt: real, c: Canvas)
      modifies this
      ensures View() == AsteroidSweep(old(View()), |old(asteroids)|, dt, c)
    {
      var i := |asteroids|;
      while i > 0
        invariant 0 <= i <= |asteroids|
        invariant AsteroidSweep(View(), i, dt, c) == AsteroidSweep(old(View()), |old(asteroids)|, dt, c)
        decreases i
      {
        i := i - 1;
        StepAsteroid(i, dt, c);
      }
    }

    /** The body of the planet pass at index i: move the planet, then splice
        it out if it left the screen, or splice it out and heal or refill if
        it touches the ship. */
    method StepPlanet(i: nat, dt: real)
      requires i < |planets|
      modifies this
      ensures View() == PlanetStep(old(View()), i, dt)
    {
      var p := MovePlanet(planets[i], dt);
      if PlanetEscaped(p) {
        planets := RemoveAt(planets, i);
      } else if PlanetTouches(p, ship.x, ship.y) {
        planets := RemoveAt(planets, i);
        if p.kind == LifePlanet {
          HealShip();
        } else {
          RefillAmmo();
        }
      } else {
        planets := planets[i := p];
      }
    }

    /** The planet pass, from the last planet down to the first. */
    method PlanetPass(dt: real)
      modifies this
      ensures View() == PlanetSweep(old(View()), |old(planets)|, dt)
    {
      var i := |planets|;
      while i > 0
        invariant 0 <= i <= |planets|
        invariant PlanetSweep(View(), i, dt) == PlanetSweep(old(View()), |old(planets)|, dt)
        decreases i
      {
        i := i - 1;
        StepPlanet(i, dt);
      }
    }

    /** The body of the bullet pass at index i: move and age the bullet,
        splice it out if it expired or left the canvas, and otherwise let it
        destroy the first asteroid the scan finds, which spends the bullet. */
    method StepBullet(i: nat, dt: real, c: Canvas)
      requires i < |bullets|
      modifies this
      ensures View() == BulletStep(old(View()), i, dt, c)
    {
      var b := MoveBullet(bullets[i], dt);
      if BulletGone(b, c) {
        bullets := RemoveAt(bullets, i);
      } else {
        var hit := LastHit(asteroids, b);
        LastHitUnique(asteroids, b, hit);
        if hit.Some? {
          asteroids := RemoveAt(asteroids, hit.value);
          destroyed := destroyed + 1;
          score := score + 2;
          consecutiveHits := 0;
          bullets := RemoveAt(bullets, i);
        } else {
          bullets := bullets[i := b];
        }
      }
    }

    /** The bullet pass, from the last bullet down to the first. */
    method BulletPass(dt: real, c: Canvas)
      modifies this
      ensures View() == BulletSweep(old(View()), |old(bullets)|, dt, c)
    {
      var i := |bullets|;
      while i > 0
        invariant 0 <= i <= |bullets|
        invariant BulletSweep(View(), i, dt, c) == BulletSweep(old(View()), |old(bullets)|, dt, c)
        decreases i
      {
        i := i - 1;
        StepBullet(i, dt, c);
      }
    }

    /** The start of update: age the session, move the ship and let the
        cooldown and invulnerability run down. */
    method AdvanceShip(dt: real, input: Input, c: Canvas)
      modifies this
      ensures View() == Advance(old(View()), dt, input, c)
    {
      elapsed := elapsed + dt;
      ship := MoveShip(ship, dt, input, c);
    }

    /** Run the asteroid timer down and spawn when it expires. */
    method TickAsteroidTimer(dt: real, d: AsteroidDraws, c: Canvas)
      modifies this
      ensures View() == AsteroidTimer(old(View()), dt, d, c)
    {
      asteroidSpawnTimer := asteroidSpawnTimer - dt;
      if asteroidSpawnTimer <= 0.0 {
        SpawnAsteroid(d, c);
      }
    }

    /** Run the support-planet timer down; when it expires spawn a planet of
        the kind the draw picks and rearm the timer. */
    method TickPlanetTimer(dt: real, d: PlanetDraws, c: Canvas)
      modifies this
      ensures View() == PlanetTimer(old(View()), dt, d, c)
    {
      supportPlanetTimer := supportPlanetTimer - dt;
      if supportPlanetTimer <= 0.0 {
        SpawnPlanet(PlanetKindOf(d.kind), d, c);
        supportPlanetTimer := NextPlanetDelay(d.delay);
      }
    }

    /** update(dt) for one frame of input and random draws. */
    method Update(dt: real, input: Input, draws: Draws, c: Canvas)
      modifies this
      ensures View() == AfterUpdate(old(View()), dt, input, draws, c)
      ensures old(Valid()) ==> Valid()
    {
      if old(Valid()) {
        UpdateKeepsInv(View(), dt, input, draws, c);
      }
      if over {
        return;
      }
      AdvanceShip(dt, input, c);
      if input.fire && ammo > 0 {
        Shoot(input.aimX, input.aimY);
      }
      TickAsteroidTimer(dt, draws.asteroid, c);
      TickPlanetTimer(dt, draws.planet, c);
      AsteroidPass(dt, c);
      PlanetPass(dt);
      BulletPass(dt, c);
    }
  }

  /** One animation frame of `loop`: update with the clamped delta since the
      previous frame; `now` becomes the new previous frame time. */
  method Loop(game: GameState, now: real, last: real, input: Input, draws: Draws, c: Canvas)
    returns (newLast: real)
    modifies game
    ensures game.View() == AfterUpdate(old(game.View()), FrameDelta(now, last), input, draws, c)
    ensures FrameDelta(now, last) <= MaxFrameDelta
    ensures newLast == now
    ensures old(game.Valid()) ==> game.Valid()
  {
    var dt := Min(MaxFrameDelta, (now - last) / 1000.0);
    newLast := now;
    game.Update(dt, input, draws, c);
  }
}
