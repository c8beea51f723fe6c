/** The three entity passes of the per-frame update. Each pass walks its
    array from the last index down to the first and splices entities out
    as it goes, so the entity at index i is handled while everything above
    it is already done and everything below it is untouched. The sweep
    functions say exactly that, one index at a time; the lemmas give each
    pass's effect in closed form against reference definitions. */
module Passes {
  import opened Entities
  import opened Session

  // ---------------------------------------------------------------------
  // Asteroid pass
  // ---------------------------------------------------------------------

  /** The asteroid pass at index i: move the asteroid, then remove it with
      one point of credit if it escaped, or remove it and damage the ship if
      it overlaps the ship, or else keep it where it is. */
  function AsteroidStep(s: State, i: nat, dt: real, c: Canvas): (r: State)
    requires i < |s.asteroids|
    ensures i <= |r.asteroids| <= |s.asteroids|
  {
    var a := MoveAsteroid(s.asteroids[i], dt, c.height);
    if AsteroidEscaped(a) then
      s.(asteroids := RemoveAt(s.asteroids, i), score := s.score + 1, consecutiveHits := 0)
    else if AsteroidStrikes(a, s.ship.x, s.ship.y) then
      AfterDamage(s.(asteroids := RemoveAt(s.asteroids, i)))
    else
      s.(asteroids := s.asteroids[i := a])
  }

  /** The asteroid pass over the indices k-1 down to 0. */
  function AsteroidSweep(s: State, k: nat, dt: real, c: Canvas): State
    requires k <= |s.asteroids|
    decreases k
  {
    if k == 0 then s else AsteroidSweep(AsteroidStep(s, k - 1, dt, c), k - 1, dt, c)
  }

  /** An asteroid that the pass keeps, once moved. */
  predicate AsteroidStays(a: Asteroid, sx: real, sy: real)
  {
    !AsteroidEscaped(a) && !AsteroidStrikes(a, sx, sy)
  }

  /** Reference: the moved asteroids of `asts` that neither escape nor
      strike the ship at (sx, sy), in their original order. */
  function Survivors(asts: seq<Asteroid>, sx: real, sy: real, dt: real, h: real): (r: seq<Asteroid>)
    ensures |r| <= |asts|
    decreases |asts|
  {
    if asts == [] then []
    else
      var a := MoveAsteroid(asts[|asts| - 1], dt, h);
      Survivors(asts[..|asts| - 1], sx, sy, dt, h) + (if AsteroidStays(a, sx, sy) then [a] else [])
  }

  /** Reference: how many asteroids of `asts` escape on the left once moved. */
  function Escapes(asts: seq<Asteroid>, dt: real, h: real): (n: nat)
    ensures n <= |asts|
    decreases |asts|
  {
    if asts == [] then 0
    else
      Escapes(asts[..|asts| - 1], dt, h)
        + (if AsteroidEscaped(MoveAsteroid(asts[|asts| - 1], dt, h)) then 1 else 0)
  }

  /** One asteroid step: indices below i untouched, the moved asteroid kept
      at i exactly when it stays (and then nothing else changes), the score
      up by one exactly when it escaped, and a strike exactly damageShip. */
  lemma AsteroidStepEffect(s: State, i: nat, dt: real, c: Canvas)
    requires i < |s.asteroids|
    ensures var t := AsteroidStep(s, i, dt, c);
      var a := MoveAsteroid(s.asteroids[i], dt, c.height);
      && t.asteroids[..i] == s.asteroids[..i]
      && t.asteroids[i..] == (if AsteroidStays(a, s.ship.x, s.ship.y) then [a] else []) + s.asteroids[i + 1..]
      && t.score == s.score + (if AsteroidEscaped(a) then 1 else 0)
      && (AsteroidEscaped(a) ==>
            t.consecutiveHits == 0 && t.life == s.life && t.over == s.over && t.ship == s.ship)
      && (!AsteroidEscaped(a) && AsteroidStrikes(a, s.ship.x, s.ship.y) ==>
            t == AfterDamage(s.(asteroids := t.asteroids)))
      && (AsteroidStays(a, s.ship.x, s.ship.y) ==> t == s.(asteroids := s.asteroids[i := a]))
      && t.ship == s.ship.(invulnerableFor := t.ship.invulnerableFor)
      && t == s.(asteroids := t.asteroids, score := t.score, life := t.life,
                 consecutiveHits := t.consecutiveHits, over := t.over, ship := t.ship)
  {
  }

  /** The list and score part of one asteroid step, a subset of
      AsteroidStepEffect's clauses that keeps the proof of
      AsteroidSweepEffect small. */
  lemma AsteroidStepList(s: State, i: nat, dt: real, c: Canvas)
    requires i < |s.asteroids|
    ensures var t := AsteroidStep(s, i, dt, c);
      var a := MoveAsteroid(s.asteroids[i], dt, c.height);
      && t.asteroids[..i] == s.asteroids[..i]
      && t.asteroids[i..] == (if AsteroidStays(a, s.ship.x, s.ship.y) then [a] else []) + s.asteroids[i + 1..]
      && t.score == s.score + (if AsteroidEscaped(a) then 1 else 0)
      && t.ship.x == s.ship.x && t.ship.y == s.ship.y
  {
    AsteroidStepEffect(s, i, dt, c);
  }

  /** The asteroid pass leaves exactly the moved asteroids that neither
      escaped nor struck the ship, in order, and adds one point per escaped
      asteroid. */
  lemma {:induction false} AsteroidSweepEffect(s: State, k: nat, dt: real, c: Canvas)
    requires k <= |s.asteroids|
    ensures var r := AsteroidSweep(s, k, dt, c);
      && r.asteroids == Survivors(s.asteroids[..k], s.ship.x, s.ship.y, dt, c.height) + s.asteroids[k..]
      && r.score == s.score + Escapes(s.asteroids[..k], dt, c.height)
    decreases k
  {
    if k > 0 {
      var i := k - 1;
      var t := AsteroidStep(s, i, dt, c);
      AsteroidStepList(s, i, dt, c);
      AsteroidSweepEffect(t, i, dt, c);
      var pre, sx, sy, h := s.asteroids[..k], s.ship.x, s.ship.y, c.height;
      assert pre[..|pre| - 1] == s.asteroids[..i] == t.asteroids[..i];
      assert pre[|pre| - 1] == s.asteroids[i];
      var a := MoveAsteroid(s.asteroids[i], dt, h);
      var keep := if AsteroidStays(a, sx, sy) then [a] else [];
      var before := Survivors(s.asteroids[..i], sx, sy, dt, h);
      assert Survivors(pre, sx, sy, dt, h) == before + keep;
      assert t.asteroids[i..] == keep + s.asteroids[k..];
      ConcatAssoc(before, keep, s.asteroids[k..]);
      assert Escapes(pre, dt, h) == Escapes(s.asteroids[..i], dt, h) + (if AsteroidEscaped(a) then 1 else 0);
    }
  }

  /** The asteroid pass changes only the asteroids, the score, life, the
      streak, `over` and the ship's invulnerability: destroyed, ammo, bullets,
      planets, timers and the ship's position, velocity and cooldown keep
      their values. */
  lemma {:induction false} AsteroidSweepFrame(s: State, k: nat, dt: real, c: Canvas)
    requires k <= |s.asteroids|
    ensures var r := AsteroidSweep(s, k, dt, c);
      && r.ship == s.ship.(invulnerableFor := r.ship.invulnerableFor)
      && r == s.(asteroids := r.asteroids, score := r.score, life := r.life,
                 consecutiveHits := r.consecutiveHits, over := r.over, ship := r.ship)
    decreases k
  {
    if k > 0 {
      AsteroidStepEffect(s, k - 1, dt, c);
      AsteroidSweepFrame(AsteroidStep(s, k - 1, dt, c), k - 1, dt, c);
    }
  }

  /** Reference: some asteroid of `asts`, once moved, stays on screen and
      overlaps the ship at (sx, sy). */
  predicate AnyStrike(asts: seq<Asteroid>, sx: real, sy: real, dt: real, h: real)
    decreases |asts|
  {
    && asts != []
    && var a := MoveAsteroid(asts[|asts| - 1], dt, h);
       ((!AsteroidEscaped(a) && AsteroidStrikes(a, sx, sy)) || AnyStrike(asts[..|asts| - 1], sx, sy, dt, h))
  }

  /** The damage part of one asteroid step, kept apart so that the proof
      of AsteroidSweepDamage stays small: lower indices and the ship's
      position are untouched, and life, invulnerability and `over` change
      only by a strike on a damageable ship. */
  lemma AsteroidStepDamage(s: State, i: nat, dt: real, c: Canvas)
    requires i < |s.asteroids|
    ensures var t := AsteroidStep(s, i, dt, c);
      var a := MoveAsteroid(s.asteroids[i], dt, c.height);
      var hit := !AsteroidEscaped(a) && AsteroidStrikes(a, s.ship.x, s.ship.y) && !DamageBlocked(s);
      && t.asteroids[..i] == s.asteroids[..i]
      && t.ship.x == s.ship.x && t.ship.y == s.ship.y
      && (hit ==> t.life == MaxInt(0, s.life - 1) && t.ship.invulnerableFor == InvulnerableTime
                  && (s.life <= 1 ==> t.over))
      && (!hit ==> t.life == s.life && t.ship.invulnerableFor == s.ship.invulnerableFor && t.over == s.over)
  {
    var t := AsteroidStep(s, i, dt, c);
    assert t.asteroids[..i] == s.asteroids[..i];
  }

  /** The asteroid pass damages the ship, through damageShip, exactly when
      some asteroid strikes it while it is damageable, and then only once:
      it loses one life (not below zero), becomes invulnerable, and the
      session is over if that was its last life. Otherwise life,
      invulnerability and `over` keep their values. */
  lemma {:induction false} AsteroidSweepDamage(s: State, k: nat, dt: real, c: Canvas)
    requires k <= |s.asteroids|
    ensures var r := AsteroidSweep(s, k, dt, c);
      var hit := AnyStrike(s.asteroids[..k], s.ship.x, s.ship.y, dt, c.height) && !DamageBlocked(s);
      && (hit ==> r.life == MaxInt(0, s.life - 1) && r.ship.invulnerableFor == InvulnerableTime)
      && (hit && s.life <= 1 ==> r.over)
      && (!hit ==> r.life == s.life && r.ship.invulnerableFor == s.ship.invulnerableFor && r.over == s.over)
    decreases k
  {
    if k > 0 {
      var i := k - 1;
      var t := AsteroidStep(s, i, dt, c);
      AsteroidStepDamage(s, i, dt, c);
      AsteroidSweepDamage(t, i, dt, c);
      var pre := s.asteroids[..k];
      assert pre[..|pre| - 1] == s.asteroids[..i] == t.asteroids[..i];
      assert pre[|pre| - 1] == s.asteroids[i];
      var a := MoveAsteroid(s.asteroids[i], dt, c.height);
      var strike := !AsteroidEscaped(a) && AsteroidStrikes(a, s.ship.x, s.ship.y);
      var later := AnyStrike(t.asteroids[..i], t.ship.x, t.ship.y, dt, c.height);
      assert AnyStrike(pre, s.ship.x, s.ship.y, dt, c.height) == (strike || later);
      DamageCombines(s, t, AsteroidSweep(t, i, dt, c), strike, later);
    }
  }

  /** How one step's damage and the damage of the rest of the pass add up:
      a strike on a damageable ship makes it invulnerable, so no later
      strike counts, and a step without one leaves the ship as damageable
      as it was. */
  lemma DamageCombines(s: State, t: State, r: State, strike: bool, later: bool)
    requires strike && !DamageBlocked(s) ==>
      t.life == MaxInt(0, s.life - 1) && t.ship.invulnerableFor == InvulnerableTime && (s.life <= 1 ==> t.over)
    requires !(strike && !DamageBlocked(s)) ==>
      t.life == s.life && t.ship.invulnerableFor == s.ship.invulnerableFor && t.over == s.over
    requires later && !DamageBlocked(t) ==>
      r.life == MaxInt(0, t.life - 1) && r.ship.invulnerableFor == InvulnerableTime && (t.life <= 1 ==> r.over)
    requires !(later && !DamageBlocked(t)) ==>
      r.life == t.life && r.ship.invulnerableFor == t.ship.invulnerableFor && r.over == t.over
    ensures var hit := (strike || later) && !DamageBlocked(s);
      && (hit ==> r.life == MaxInt(0, s.life - 1) && r.ship.invulnerableFor == InvulnerableTime)
      && (hit && s.life <= 1 ==> r.over)
      && (!hit ==> r.life == s.life && r.ship.invulnerableFor == s.ship.invulnerableFor && r.over == s.over)
  {
  }

  /** An asteroid pass in which no asteroid escapes and none strikes the
      ship changes nothing but the asteroid list: in particular the streak
      of hits in a row, life, `over` and the score keep their values. */
  lemma {:induction false} AsteroidSweepQuiet(s: State, k: nat, dt: real, c: Canvas)
    requires k <= |s.asteroids|
    ensures var r := AsteroidSweep(s, k, dt, c);
      (Escapes(s.asteroids[..k], dt, c.height) == 0
       && !AnyStrike(s.asteroids[..k], s.ship.x, s.ship.y, dt, c.height))
      ==> r == s.(asteroids := r.asteroids)
    decreases k
  {
    if k > 0 {
      var i := k - 1;
      var t := AsteroidStep(s, i, dt, c);
      AsteroidStepEffect(s, i, dt, c);
      AsteroidSweepQuiet(t, i, dt, c);
      var pre := s.asteroids[..k];
      assert pre[..|pre| - 1] == s.asteroids[..i] == t.asteroids[..i];
      assert pre[|pre| - 1] == s.asteroids[i];
    }
  }

  /** The asteroid pass keeps the session invariant. */
  lemma {:induction false} AsteroidSweepKeepsInv(s: State, k: nat, dt: real, c: Canvas)
    requires k <= |s.asteroids| && Inv(s)
    ensures Inv(AsteroidSweep(s, k, dt, c))
    decreases k
  {
    if k > 0 {
      var t := s.(asteroids := RemoveAt(s.asteroids, k - 1));
      EventsKeepInv(t, 0.0, 0.0);
      AsteroidSweepKeepsInv(AsteroidStep(s, k - 1, dt, c), k - 1, dt, c);
    }
  }

  // ---------------------------------------------------------------------
  // Planet pass
  // ---------------------------------------------------------------------

  /** The planet pass at index i: move the planet, then drop it if it left
      the screen, or drop it and heal (life planet) or refill ammo (weapon
      planet) if it touches the ship, or else keep it where it is. */
  function PlanetStep(s: State, i: nat, dt: real): (r: State)
    requires i < |s.planets|
    ensures i <= |r.planets| <= |s.planets|
  {
    var p := MovePlanet(s.planets[i], dt);
    if PlanetEscaped(p) then
      s.(planets := RemoveAt(s.planets, i))
    else if PlanetTouches(p, s.ship.x, s.ship.y) then
      var t := s.(planets := RemoveAt(s.planets, i));
      if p.kind == LifePlanet then AfterHeal(t) else AfterRefill(t)
    else
      s.(planets := s.planets[i := p])
  }

  /** The planet pass over the indices k-1 down to 0. */
  function PlanetSweep(s: State, k: nat, dt: real): State
    requires k <= |s.planets|
    decreases k
  {
    if k == 0 then s else PlanetSweep(PlanetStep(s, k - 1, dt), k - 1, dt)
  }

  /** A planet that the ship collects, once moved. */
  predicate Collects(p: Planet, sx: real, sy: real)
  {
    !PlanetEscaped(p) && PlanetTouches(p, sx, sy)
  }

  /** Reference: the moved planets of `ps` that neither left the screen nor
      were collected by the ship at (sx, sy), in their original order. */
  function Remaining(ps: seq<Planet>, sx: real, sy: real, dt: real): (r: seq<Planet>)
    ensures |r| <= |ps|
    decreases |ps|
  {
    if ps == [] then []
    else
      var p := MovePlanet(ps[|ps| - 1], dt);
      Remaining(ps[..|ps| - 1], sx, sy, dt)
        + (if !PlanetEscaped(p) && !PlanetTouches(p, sx, sy) then [p] else [])
  }

  /** Reference: how many planets of `ps` of the given kind the ship collects. */
  function Collected(ps: seq<Planet>, kind: PlanetKind, sx: real, sy: real, dt: real): (n: nat)
    ensures n <= |ps|
    decreases |ps|
  {
    if ps == [] then 0
    else
      var p := MovePlanet(ps[|ps| - 1], dt);
      Collected(ps[..|ps| - 1], kind, sx, sy, dt)
        + (if p.kind == kind && Collects(p, sx, sy) then 1 else 0)
  }

  /** One planet step: indices below i untouched, the moved planet kept at i
      exactly when it was neither lost nor collected, and a collected planet
      heals or refills according to its kind. */
  lemma PlanetStepEffect(s: State, i: nat, dt: real)
    requires i < |s.planets|
    ensures var t := PlanetStep(s, i, dt);
      var p := MovePlanet(s.planets[i], dt);
      var got := Collects(p, s.ship.x, s.ship.y);
      && t.planets[..i] == s.planets[..i]
      && t.planets[i..] == (if !PlanetEscaped(p) && !PlanetTouches(p, s.ship.x, s.ship.y) then [p] else [])
                           + s.planets[i + 1..]
      && t.ammo == (if got && p.kind == WeaponPlanet then MaxAmmo else s.ammo)
      && t.consecutiveHits == (if got && p.kind == LifePlanet then 0 else s.consecutiveHits)
      && t.life == (if got && p.kind == LifePlanet then MinInt(MaxLife, s.life + 1) else s.life)
      && t == s.(planets := t.planets, life := t.life, ammo := t.ammo,
                 consecutiveHits := t.consecutiveHits)
  {
  }

  /** The list part of one planet step: indices below i untouched, the
      moved planet kept at i exactly when it was neither lost nor collected,
      and the ship where it was. These clauses are a subset of
      PlanetStepEffect's; this lemma exists only to keep the proof of
      PlanetSweepEffect small. */
  lemma PlanetStepPlanets(s: State, i: nat, dt: real)
    requires i < |s.planets|
    ensures var t := PlanetStep(s, i, dt);
      var p := MovePlanet(s.planets[i], dt);
      && t.planets[..i] == s.planets[..i]
      && t.planets[i..] == (if !PlanetEscaped(p) && !PlanetTouches(p, s.ship.x, s.ship.y) then [p] else [])
                           + s.planets[i + 1..]
      && t.ship == s.ship
  {
  }

  /** The planet pass leaves exactly the moved planets that were neither
      lost nor collected, in order. */
  lemma {:induction false} PlanetSweepEffect(s: State, k: nat, dt: real)
    requires k <= |s.planets|
    ensures PlanetSweep(s, k, dt).planets
         == Remaining(s.planets[..k], s.ship.x, s.ship.y, dt) + s.planets[k..]
    decreases k
  {
    if k > 0 {
      var i := k - 1;
      var t := PlanetStep(s, i, dt);
      PlanetStepPlanets(s, i, dt);
      PlanetSweepEffect(t, i, dt);
      var pre, sx, sy := s.planets[..k], s.ship.x, s.ship.y;
      assert pre[..|pre| - 1] == s.planets[..i] == t.planets[..i];
      assert pre[|pre| - 1] == s.planets[i];
      var p := MovePlanet(s.planets[i], dt);
      var keep := if !PlanetEscaped(p) && !PlanetTouches(p, sx, sy) then [p] else [];
      var before := Remaining(s.planets[..i], sx, sy, dt);
      assert Remaining(pre, sx, sy, dt) == before + keep;
      assert t.planets[i..] == keep + s.planets[k..];
      ConcatAssoc(before, keep, s.planets[k..]);
    }
  }

  /** The pickup part of one planet step, kept apart so that the proof of
      PlanetSweepPickups stays small. */
  lemma PlanetStepPickups(s: State, i: nat, dt: real)
    requires i < |s.planets|
    ensures var t := PlanetStep(s, i, dt);
      var p := MovePlanet(s.planets[i], dt);
      var got := Collects(p, s.ship.x, s.ship.y);
      && t.planets[..i] == s.planets[..i]
      && t.ship == s.ship
      && t.ammo == (if got && p.kind == WeaponPlanet then MaxAmmo else s.ammo)
      && t.consecutiveHits == (if got && p.kind == LifePlanet then 0 else s.consecutiveHits)
      && t.life == (if got && p.kind == LifePlanet then MinInt(MaxLife, s.life + 1) else s.life)
  {
    var t := PlanetStep(s, i, dt);
    assert t.planets[..i] == s.planets[..i];
  }

  /** Over the planet pass, ammo is full exactly when a weapon planet was
      collected and unchanged otherwise; the streak is broken exactly when a
      life planet was collected. */
  lemma {:induction false} PlanetSweepPickups(s: State, k: nat, dt: real)
    requires k <= |s.planets|
    ensures var r := PlanetSweep(s, k, dt);
      var lifes := Collected(s.planets[..k], LifePlanet, s.ship.x, s.ship.y, dt);
      var weapons := Collected(s.planets[..k], WeaponPlanet, s.ship.x, s.ship.y, dt);
      && r.ammo == (if weapons > 0 then MaxAmmo else s.ammo)
      && r.consecutiveHits == (if lifes > 0 then 0 else s.consecutiveHits)
    decreases k
  {
    if k > 0 {
      var i := k - 1;
      var t := PlanetStep(s, i, dt);
      assert PlanetSweep(s, k, dt) == PlanetSweep(t, i, dt);
      PlanetStepPickups(s, i, dt);
      PlanetSweepPickups(t, i, dt);
      var pre := s.planets[..k];
      assert pre[..|pre| - 1] == s.planets[..i] == t.planets[..i];
      assert pre[|pre| - 1] == s.planets[i];
      var p, sx, sy := MovePlanet(s.planets[i], dt), s.ship.x, s.ship.y;
      assert Collected(pre, LifePlanet, sx, sy, dt)
          == Collected(t.planets[..i], LifePlanet, sx, sy, dt)
             + (if p.kind == LifePlanet && Collects(p, sx, sy) then 1 else 0);
      assert Collected(pre, WeaponPlanet, sx, sy, dt)
          == Collected(t.planets[..i], WeaponPlanet, sx, sy, dt)
             + (if p.kind == WeaponPlanet && Collects(p, sx, sy) then 1 else 0);
    }
  }

  /** Over the planet pass each life planet collected heals one life, up to
      the maximum. */
  lemma {:induction false} PlanetSweepHeals(s: State, k: nat, dt: real)
    requires k <= |s.planets| && s.life <= MaxLife
    ensures PlanetSweep(s, k, dt).life
         == MinInt(MaxLife, s.life + Collected(s.planets[..k], LifePlanet, s.ship.x, s.ship.y, dt))
    decreases k
  {
    if k > 0 {
      var i := k - 1;
      var t := PlanetStep(s, i, dt);
      assert PlanetSweep(s, k, dt) == PlanetSweep(t, i, dt);
      PlanetStepPickups(s, i, dt);
      PlanetSweepHeals(t, i, dt);
      var pre := s.planets[..k];
      assert pre[..|pre| - 1] == s.planets[..i] == t.planets[..i];
      assert pre[|pre| - 1] == s.planets[i];
      var p, sx, sy := MovePlanet(s.planets[i], dt), s.ship.x, s.ship.y;
      var later := Collected(t.planets[..i], LifePlanet, sx, sy, dt);
      if p.kind == LifePlanet && Collects(p, sx, sy) {
        assert Collected(pre, LifePlanet, sx, sy, dt) == later + 1;
        assert MinInt(MaxLife, MinInt(MaxLife, s.life + 1) + later) == MinInt(MaxLife, s.life + 1 + later);
      } else {
        assert Collected(pre, LifePlanet, sx, sy, dt) == later;
      }
    }
  }

  /** The planet pass changes only the planets, life, ammo and the streak:
      score, destroyed, `over`, the ship, asteroids, bullets and timers keep
      their values. */
  lemma {:induction false} PlanetSweepFrame(s: State, k: nat, dt: real)
    requires k <= |s.planets|
    ensures var r := PlanetSweep(s, k, dt);
      r == s.(planets := r.planets, life := r.life, ammo := r.ammo,
              consecutiveHits := r.consecutiveHits)
    decreases k
  {
    if k > 0 {
      PlanetStepEffect(s, k - 1, dt);
      PlanetSweepFrame(PlanetStep(s, k - 1, dt), k - 1, dt);
    }
  }

  /** The planet pass keeps the session invariant. */
  lemma PlanetSweepKeepsInv(s: State, k: nat, dt: real)
    requires k <= |s.planets| && Inv(s)
    ensures Inv(PlanetSweep(s, k, dt))
  {
    PlanetSweepPickups(s, k, dt);
    PlanetSweepHeals(s, k, dt);
    PlanetSweepFrame(s, k, dt);
    PickupsKeepInv(s, PlanetSweep(s, k, dt), Collected(s.planets[..k], LifePlanet, s.ship.x, s.ship.y, dt),
                   Collected(s.planets[..k], WeaponPlanet, s.ship.x, s.ship.y, dt));
  }

  /** Healing by some life planets and refilling by some weapon planets,
      with nothing else changed, keeps the session invariant. */
  lemma PickupsKeepInv(s: State, r: State, lifes: nat, weapons: nat)
    requires Inv(s)
    requires r.ammo == (if weapons > 0 then MaxAmmo else s.ammo)
    requires r.consecutiveHits == (if lifes > 0 then 0 else s.consecutiveHits)
    requires r.life == MinInt(MaxLife, s.life + lifes)
    requires r == s.(planets := r.planets, life := r.life, ammo := r.ammo, consecutiveHits := r.consecutiveHits)
    ensures Inv(r)
  {
  }

  // ---------------------------------------------------------------------
  // Bullet pass
  // ---------------------------------------------------------------------

  /** `h` is the result of scanning `asts` from the last index down for an
      asteroid within reach of bullet b and stopping at the first one found:
      the highest such index, or None when there is none. */
  predicate IsLastHit(asts: seq<Asteroid>, b: Bullet, h: Option<nat>)
  {
    && (h.None? ==> forall j :: 0 <= j < |asts| ==> !BulletHits(asts[j], b))
    && (h.Some? ==>
          && h.value < |asts| && BulletHits(asts[h.value], b)
          && forall j :: h.value < j < |asts| ==> !BulletHits(asts[j], b))
  }

  /** The asteroid bullet b destroys, if any. */
  function HitIndex(asts: seq<Asteroid>, b: Bullet): (h: Option<nat>)
    ensures IsLastHit(asts, b, h)
    decreases |asts|
  {
    if asts == [] then None
    else if BulletHits(asts[|asts| - 1], b) then Some(|asts| - 1)
    else HitIndex(asts[..|asts| - 1], b)
  }

  /** The scan result is determined: any result of the scan is HitIndex's. */
  lemma LastHitUnique(asts: seq<Asteroid>, b: Bullet, h: Option<nat>)
    requires IsLastHit(asts, b, h)
    ensures h == HitIndex(asts, b)
  {
    var g := HitIndex(asts, b);
    if h.Some? && g.Some? && h.value != g.value {
      assert false;
    }
  }

  /** The bullet pass at index i: move and age the bullet; drop it if it
      expired or left the canvas, without looking at asteroids; otherwise
      the asteroid it reaches first in the scan is destroyed, worth two
      points and a broken streak, and the bullet is spent; a bullet that
      reaches nothing stays. */
  function BulletStep(s: State, i: nat, dt: real, c: Canvas): (r: State)
    requires i < |s.bullets|
    ensures i <= |r.bullets| <= |s.bullets|
  {
    var b := MoveBullet(s.bullets[i], dt);
    if BulletGone(b, c) then
      s.(bullets := RemoveAt(s.bullets, i))
    else
      match HitIndex(s.asteroids, b)
      case None => s.(bullets := s.bullets[i := b])
      case Some(j) =>
        s.(asteroids := RemoveAt(s.asteroids, j),
           destroyed := s.destroyed + 1,
           score := s.score + 2,
           consecutiveHits := 0,
           bullets := RemoveAt(s.bullets, i))
  }

  /** The bullet pass over the indices k-1 down to 0. */
  function BulletSweep(s: State, k: nat, dt: real, c: Canvas): State
    requires k <= |s.bullets|
    decreases k
  {
    if k == 0 then s else BulletSweep(BulletStep(s, k - 1, dt, c), k - 1, dt, c)
  }

  /** One bullet step destroys at most one asteroid, one the session had,
      and only by spending the bullet; it scores two points and breaks the
      streak exactly when it destroys one. An expired or stray bullet is
      simply dropped; a bullet that destroys something destroys the asteroid
      the scan finds; a bullet that reaches nothing stays, moved. */
  lemma BulletStepEffect(s: State, i: nat, dt: real, c: Canvas)
    requires i < |s.bullets|
    ensures var t := BulletStep(s, i, dt, c);
      var b := MoveBullet(s.bullets[i], dt);
      var kill := |s.asteroids| - |t.asteroids|;
      && (BulletGone(b, c) ==> t == s.(bullets := RemoveAt(s.bullets, i)))
      && (!BulletGone(b, c) && kill == 0 ==>
            t == s.(bullets := s.bullets[i := b]) && HitIndex(s.asteroids, b).None?)
      && (kill == 1 ==>
            && HitIndex(s.asteroids, b).Some?
            && t.asteroids == RemoveAt(s.asteroids, HitIndex(s.asteroids, b).value)
            && t.bullets == RemoveAt(s.bullets, i))
      && multiset(t.asteroids) <= multiset(s.asteroids)
      && 0 <= kill <= 1
      && (kill == 1 ==> |t.bullets| == |s.bullets| - 1)
      && t.destroyed == s.destroyed + kill
      && t.score == s.score + 2 * kill
      && t.consecutiveHits == (if kill > 0 then 0 else s.consecutiveHits)
      && t == s.(asteroids := t.asteroids, bullets := t.bullets, destroyed := t.destroyed,
                 score := t.score, consecutiveHits := t.consecutiveHits)
  {
    var b := MoveBullet(s.bullets[i], dt);
    if !BulletGone(b, c) && HitIndex(s.asteroids, b).Some? {
      var j := HitIndex(s.asteroids, b).value;
      assert multiset(RemoveAt(s.asteroids, j)) + multiset{s.asteroids[j]} == multiset(s.asteroids);
    }
  }

  /** Over the bullet pass, every destroyed asteroid is one the session had,
      is counted once in `destroyed`, is worth two points and used up a
      bullet of its own; the streak is broken exactly when something was
      destroyed. Life, ammo, `over`, the ship, planets and timers are
      untouched. */
  lemma {:induction false} BulletSweepEffect(s: State, k: nat, dt: real, c: Canvas)
    requires k <= |s.bullets|
    ensures var r := BulletSweep(s, k, dt, c);
      var kills := |s.asteroids| - |r.asteroids|;
      && multiset(r.asteroids) <= multiset(s.asteroids)
      && 0 <= kills <= |s.bullets| - |r.bullets|
      && kills <= k
      && r.destroyed == s.destroyed + kills
      && r.score == s.score + 2 * kills
      && r.consecutiveHits == (if kills > 0 then 0 else s.consecutiveHits)
      && r == s.(asteroids := r.asteroids, bullets := r.bullets, destroyed := r.destroyed,
                 score := r.score, consecutiveHits := r.consecutiveHits)
    decreases k
  {
    if k > 0 {
      var t := BulletStep(s, k - 1, dt, c);
      BulletStepEffect(s, k - 1, dt, c);
      BulletSweepEffect(t, k - 1, dt, c);
    }
  }

  /** The bullet pass keeps the session invariant. */
  lemma BulletSweepKeepsInv(s: State, k: nat, dt: real, c: Canvas)
    requires k <= |s.bullets| && Inv(s)
    ensures Inv(BulletSweep(s, k, dt, c))
  {
    BulletSweepEffect(s, k, dt, c);
  }

  /** Neither the planet pass nor the bullet pass looks at `over`: once an
      asteroid has ended the session, the rest of the same frame still heals,
      refills and scores exactly as it would have. */
  lemma {:induction false} LaterPassesIgnoreOver(s: State, o: bool, dt: real, c: Canvas)
    ensures PlanetSweep(s.(over := o), |s.planets|, dt)
         == PlanetSweep(s, |s.planets|, dt).(over := o)
    ensures BulletSweep(s.(over := o), |s.bullets|, dt, c)
         == BulletSweep(s, |s.bullets|, dt, c).(over := o)
  {
    PlanetSweepIgnoresOver(s, o, |s.planets|, dt);
    BulletSweepIgnoresOver(s, o, |s.bullets|, dt, c);
  }

  lemma {:induction false} PlanetSweepIgnoresOver(s: State, o: bool, k: nat, dt: real)
    requires k <= |s.planets|
    ensures PlanetSweep(s.(over := o), k, dt) == PlanetSweep(s, k, dt).(over := o)
    decreases k
  {
    if k > 0 {
      assert PlanetStep(s.(over := o), k - 1, dt) == PlanetStep(s, k - 1, dt).(over := o);
      PlanetSweepIgnoresOver(PlanetStep(s, k - 1, dt), o, k - 1, dt);
    }
  }

  lemma {:induction false} BulletSweepIgnoresOver(s: State, o: bool, k: nat, dt: real, c: Canvas)
    requires k <= |s.bullets|
    ensures BulletSweep(s.(over := o), k, dt, c) == BulletSweep(s, k, dt, c).(over := o)
    decreases k
  {
    if k > 0 {
      assert BulletStep(s.(over := o), k - 1, dt, c) == BulletStep(s, k - 1, dt, c).(over := o);
      BulletSweepIgnoresOver(BulletStep(s, k - 1, dt, c), o, k - 1, dt, c);
    }
  }
}
