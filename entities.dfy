/** Entities of one play session: the ship, asteroids, bullets and the support
    planets, the game's fixed configuration, and the per-entity motion and
    overlap tests that the per-frame update applies to them. */
module Entities {

  // The `config` record and the literal constants of game.js.
  const MaxLife: int := 3
  const MaxAmmo: int := 40
  const BulletSpeed: real := 900.0
  const AsteroidMinRadius: real := 22.0
  const AsteroidMaxRadius: real := 52.0
  const ShipRadius: real := 22.0

  const BulletLife: real := 1.2
  const FireCooldown: real := 0.12
  const InvulnerableTime: real := 1.2
  const MaxHitsInARow: int := 3
  const MaxFrameDelta: real := 0.033
  const ShipAccel: real := 900.0
  const ShipDrag: real := 0.88
  const ShipMargin: real := 60.0

  datatype Option<T> = None | Some(value: T)

  /** The drawing surface; its size changes on window resize. */
  datatype Canvas = Canvas(width: real, height: real)

  /** The ship record. Its facing angle only feeds drawing and is not kept. */
  datatype Ship = Ship(x: real, y: real, vx: real, vy: real,
                       fireCooldown: real, invulnerableFor: real)

  /** An asteroid; its outline, rotation and spin are cosmetic and not kept. */
  datatype Asteroid = Asteroid(x: real, y: real, radius: real, speed: real, drift: real)

  /** A bullet with its remaining time to live. */
  datatype Bullet = Bullet(x: real, y: real, vx: real, vy: real, life: real)

  /** The two kinds of support planet: "life" heals, "weapon" refills ammo. */
  datatype PlanetKind = LifePlanet | WeaponPlanet

  /** A support planet; its pulse phase is cosmetic and not kept. */
  datatype Planet = Planet(kind: PlanetKind, x: real, y: real, radius: real, speed: real)

  function Max(a: real, b: real): real { if a >= b then a else b }
  function Min(a: real, b: real): real { if a <= b then a else b }
  function MaxInt(a: int, b: int): int { if a >= b then a else b }
  function MinInt(a: int, b: int): int { if a <= b then a else b }

  /** Array.prototype.splice(i, 1): the sequence without its element at i. */
  function RemoveAt<T>(s: seq<T>, i: nat): (r: seq<T>)
    requires i < |s|
    ensures |r| == |s| - 1
    ensures r[..i] == s[..i] && r[i..] == s[i + 1..]
    ensures multiset(r) + multiset{s[i]} == multiset(s)
  {
    assert s == s[..i] + [s[i]] + s[i + 1..];
    s[..i] + s[i + 1..]
  }

  /** Concatenation regroups freely. */
  lemma ConcatAssoc<T>(a: seq<T>, b: seq<T>, c: seq<T>)
    ensures (a + b) + c == a + (b + c)
  {
  }

  /** `Math.hypot(dx, dy) < r`, written without the square root. */
  predicate CloserThan(dx: real, dy: real, r: real)
  {
    0.0 < r && dx * dx + dy * dy < r * r
  }

  /** `Math.hypot(dx, dy) <= r`, written without the square root. */
  predicate WithinDistance(dx: real, dy: real, r: real)
  {
    0.0 <= r && dx * dx + dy * dy <= r * r
  }

  /** Squaring is strictly monotone on the non-negative reals. */
  lemma SquareMonotone(a: real, b: real)
    requires 0.0 <= a < b
    ensures a * a < b * b
  {
    var aa, ab, bb := a * a, a * b, b * b;
    assert aa <= ab by { assert a * (b - a) >= 0.0; assert a * (b - a) == ab - aa; }
    assert ab < bb by { assert b * (b - a) > 0.0; assert b * (b - a) == bb - ab; }
  }

  /** For any non-negative root h of dx^2 + dy^2 (the value Math.hypot
      returns), the square-free tests agree with comparing h itself. */
  lemma HypotTests(dx: real, dy: real, r: real, h: real)
    requires 0.0 <= h && h * h == dx * dx + dy * dy
    ensures CloserThan(dx, dy, r) <==> h < r
    ensures WithinDistance(dx, dy, r) <==> h <= r
  {
    if 0.0 <= h < r {
      SquareMonotone(h, r);
    } else if 0.0 <= r < h {
      SquareMonotone(r, h);
    }
  }

  /** `Math.max(lo, Math.min(hi, v))`, the clamp applied to the ship. */
  function Clamp(v: real, lo: real, hi: real): (r: real)
    ensures lo <= r
    ensures lo <= hi ==> r <= hi
    ensures lo <= v <= hi ==> r == v
  {
    Max(lo, Min(hi, v))
  }

  /** An asteroid after one frame of dt: it moves left by its speed, drifts
      vertically, and its drift flips once it lies past the top or bottom band. */
  function MoveAsteroid(a: Asteroid, dt: real, height: real): Asteroid
  {
    var x := a.x - a.speed * dt;
    var y := a.y + a.drift * dt;
    var drift := if y < a.radius || y > height - a.radius then -a.drift else a.drift;
    a.(x := x, y := y, drift := drift)
  }

  /** A planet after one frame of dt: it moves left by its speed. */
  function MovePlanet(p: Planet, dt: real): Planet
  {
    p.(x := p.x - p.speed * dt)
  }

  /** A bullet after one frame of dt: it moves by its velocity and ages by dt. */
  function MoveBullet(b: Bullet, dt: real): Bullet
  {
    b.(x := b.x + b.vx * dt, y := b.y + b.vy * dt, life := b.life - dt)
  }

  /** An asteroid that has left the screen on the left. */
  predicate AsteroidEscaped(a: Asteroid)
  {
    a.x < -a.radius - 15.0
  }

  /** An asteroid that overlaps the ship standing at (sx, sy). */
  predicate AsteroidStrikes(a: Asteroid, sx: real, sy: real)
  {
    CloserThan(a.x - sx, a.y - sy, a.radius + ShipRadius - 4.0)
  }

  /** A planet that has left the screen on the left. */
  predicate PlanetEscaped(p: Planet)
  {
    p.x < -p.radius - 15.0
  }

  /** A planet that touches the ship standing at (sx, sy). */
  predicate PlanetTouches(p: Planet, sx: real, sy: real)
  {
    CloserThan(p.x - sx, p.y - sy, p.radius + ShipRadius)
  }

  /** A bullet that has expired or left the canvas by more than 20 units. */
  predicate BulletGone(b: Bullet, c: Canvas)
  {
    b.life <= 0.0 || b.x < -20.0 || b.y < -20.0 || b.x > c.width + 20.0 || b.y > c.height + 20.0
  }

  /** A bullet within the asteroid's radius plus 4. */
  predicate BulletHits(a: Asteroid, b: Bullet)
  {
    WithinDistance(a.x - b.x, a.y - b.y, a.radius + 4.0)
  }
}
