/**
 * The particle field of js/camera.js: 8000 particles that drift, orbit the
 * year overlay's circle, are attracted and enlarged near the mouse, wrap
 * around the canvas edges and are capped at a maximum speed; mouse handlers
 * recolour them from one of two palettes, and a gate skips frames that come
 * less than 32 ms after the previous one.
 *
 * JavaScript doubles are exact reals here. `Math.random` becomes injected
 * draws in [0, 1), and `Math.sqrt` an injected function `sqrt`; the lemmas
 * assume it is the exact square root (`IsSqrt`). The cosine and sine of
 * `Math.atan2(dy, dx)` are written exactly as `dx / d` and `dy / d` for the
 * distance `d` (and 1, 0 when `d` is 0, as `atan2(0, 0)` is 0).
 */
module Camera {
  import opened Options
  import TextOverlay
  import Gate
  import Years

  /** Canvas size set by the particle system (lines 13-14). */
  const CanvasWidth: real := 1280.0
  const CanvasHeight: real := 720.0
  const ParticleCount: nat := 8000
  /** Reach of the mouse's influence. */
  const MouseRadius: real := 150.0
  /** Minimum milliseconds between two frames. */
  const FrameInterval: real := 32.0
  /** Particles closer than this multiple of the text circle's radius orbit it. */
  const OrbitReach: real := 1.5
  const OrbitSpeed: real := 0.3
  const PushStrength: real := 1.2
  /** Growth of a particle's size and of its rotation increment at full force. */
  const SizeGain: real := 1.2
  const RotationGain: real := 0.3
  const MaxSpeed: real := 1.2
  /** Width of the range speeds and rotation speeds are drawn from, centred on 0. */
  const SpeedSpread: real := 0.3
  const RotationSpread: real := 0.02
  /** `Math.PI`, the double closest to pi. */
  const Pi: real := 3.141592653589793

  /** Colours of particles away from the mouse. */
  const InitialColors: seq<string> := [
    "rgba(0, 0, 255, 0.5)",
    "rgba(0, 102, 204, 0.5)",
    "rgba(51, 153, 255, 0.4)",
    "rgba(0, 204, 255, 0.4)",
    "rgba(0, 51, 102, 0.4)"]

  /** Colours of particles near the mouse. */
  const HoverColors: seq<string> := [
    "rgba(255, 0, 0, 0.5)",
    "rgba(255, 192, 203, 0.5)",
    "rgba(255, 255, 0, 0.4)",
    "rgba(255, 255, 224, 0.4)"]

  /** One particle; `shape` 0 is drawn as a disc, 1 as a curve. */
  datatype Particle = Particle(
    x: real, y: real,
    size: real,
    speedX: real, speedY: real,
    color: string,
    rotation: real, rotationSpeed: real,
    shape: int,
    originalSpeedX: real, originalSpeedY: real,
    originalSize: real)

  /** The twelve `Math.random()` results one new particle consumes, in the order they are drawn. */
  datatype Draws = Draws(
    x: real, y: real, size: real, speedX: real, speedY: real, color: real,
    rotation: real, rotationSpeed: real, shape: real,
    originalSpeedX: real, originalSpeedY: real, originalSize: real)

  /** What `Math.random()` can return. */
  predicate Unit(r: real) {
    0.0 <= r < 1.0
  }

  predicate UnitDraws(d: Draws) {
    && Unit(d.x) && Unit(d.y) && Unit(d.size) && Unit(d.speedX) && Unit(d.speedY)
    && Unit(d.color) && Unit(d.rotation) && Unit(d.rotationSpeed) && Unit(d.shape)
    && Unit(d.originalSpeedX) && Unit(d.originalSpeedY) && Unit(d.originalSize)
  }

  /** `sqrt` is the exact square root on the non-negative reals. */
  ghost predicate IsSqrt(sqrt: real -> real) {
    forall v: real :: 0.0 <= v ==> 0.0 <= sqrt(v) && sqrt(v) * sqrt(v) == v
  }

  // ---------------------------------------------------------------------
  // Colours
  // ---------------------------------------------------------------------

  /** `Math.floor(r * n)`: the palette entry a random draw picks. */
  function PaletteIndex(r: real, n: nat): (k: nat)
    requires Unit(r) && n > 0
    ensures k < n
    ensures k as real <= r * n as real < k as real + 1.0
  {
    var x := r * n as real;
    assert 0.0 <= x < n as real by {
      MulLeft(n as real, 0.0, r);
      MulLeftStrict(n as real, r, 1.0);
    }
    x.Floor
  }

  function InitialColor(r: real): (c: string)
    requires Unit(r)
    ensures c in InitialColors
  {
    InitialColors[PaletteIndex(r, |InitialColors|)]
  }

  function HoverColor(r: real): (c: string)
    requires Unit(r)
    ensures c in HoverColors
  {
    HoverColors[PaletteIndex(r, |HoverColors|)]
  }

  /** No colour is in both palettes, so a colour tells which palette it came from. */
  lemma PalettesDisjoint()
    ensures forall c :: c in InitialColors ==> c !in HoverColors
  {
  }

  // ---------------------------------------------------------------------
  // Creation
  // ---------------------------------------------------------------------

  /** A fresh particle built from its twelve random draws. */
  function NewParticle(d: Draws): (p: Particle)
    requires UnitDraws(d)
    ensures 0.0 <= p.x < CanvasWidth && 0.0 <= p.y < CanvasHeight
    ensures 1.0 <= p.size < 3.0 && 1.0 <= p.originalSize < 3.0
    ensures -0.15 <= p.speedX < 0.15 && -0.15 <= p.speedY < 0.15
    ensures -0.15 <= p.originalSpeedX < 0.15 && -0.15 <= p.originalSpeedY < 0.15
    ensures p.color in InitialColors
    ensures 0.0 <= p.rotation < 2.0 * Pi
    ensures -0.01 <= p.rotationSpeed < 0.01
    ensures p.shape == 0 || p.shape == 1
  {
    Particle(
      x := d.x * CanvasWidth,
      y := d.y * CanvasHeight,
      size := d.size * 2.0 + 1.0,
      speedX := (d.speedX - 0.5) * SpeedSpread,
      speedY := (d.speedY - 0.5) * SpeedSpread,
      color := InitialColor(d.color),
      rotation := d.rotation * Pi * 2.0,
      rotationSpeed := (d.rotationSpeed - 0.5) * RotationSpread,
      shape := (d.shape * 2.0).Floor,
      originalSpeedX := (d.originalSpeedX - 0.5) * SpeedSpread,
      originalSpeedY := (d.originalSpeedY - 0.5) * SpeedSpread,
      originalSize := d.originalSize * 2.0 + 1.0)
  }

  // ---------------------------------------------------------------------
  // Geometry
  // ---------------------------------------------------------------------

  /** `Math.sqrt(dx * dx + dy * dy)`. */
  function Distance(dx: real, dy: real, sqrt: real -> real): real {
    sqrt(dx * dx + dy * dy)
  }

  /** A distance is below a positive bound exactly when its square is below the bound's square. */
  lemma DistanceBelow(dx: real, dy: real, bound: real, sqrt: real -> real)
    requires IsSqrt(sqrt) && bound > 0.0
    ensures Distance(dx, dy, sqrt) >= 0.0
    ensures Distance(dx, dy, sqrt) < bound <==> dx * dx + dy * dy < bound * bound
  {
    var d := Distance(dx, dy, sqrt);
    SumSquaresNonneg(dx, dy);
    assert 0.0 <= d && d * d == dx * dx + dy * dy;
    SquareMonotone(d, bound);
  }

  /** `Math.cos(Math.atan2(dy, dx))` for the distance `d` of (dx, dy). */
  function DirX(dx: real, dy: real, d: real): real {
    if d == 0.0 then 1.0 else dx / d
  }

  /** `Math.sin(Math.atan2(dy, dx))` for the distance `d` of (dx, dy). */
  function DirY(dx: real, dy: real, d: real): real {
    if d == 0.0 then 0.0 else dy / d
  }

  /**
   * (DirX, DirY) is a unit vector. Away from the origin it points along
   * (dx, dy): it is parallel to it and its projection on (dx, dy) is the
   * distance; at the origin it is (1, 0), as `atan2(0, 0)` is 0.
   */
  lemma Direction(dx: real, dy: real, sqrt: real -> real)
    requires IsSqrt(sqrt)
    ensures var d := Distance(dx, dy, sqrt);
      var ux, uy := DirX(dx, dy, d), DirY(dx, dy, d);
      && d >= 0.0
      && ux * ux + uy * uy == 1.0
      && (d > 0.0 ==> ux * dy == uy * dx && ux * dx + uy * dy == d)
  {
    var d := Distance(dx, dy, sqrt);
    SumSquaresNonneg(dx, dy);
    assert 0.0 <= d && d * d == dx * dx + dy * dy;
    if d > 0.0 {
      DivSquares(dx, dy, d);
      DivProjection(dx, dy, d);
      DivParallel(dx, dy, d);
    }
  }

  /** Linear falloff of a force from 1 at distance 0 to 0 at distance `reach`. */
  function Falloff(d: real, reach: real): (f: real)
    requires reach > 0.0
    ensures 0.0 <= d < reach ==> 0.0 < f <= 1.0
    ensures d == 0.0 ==> f == 1.0
  {
    (reach - d) / reach
  }

  function SpeedSquared(p: Particle): real {
    p.speedX * p.speedX + p.speedY * p.speedY
  }

  // ---------------------------------------------------------------------
  // One frame of one particle, phase by phase
  // ---------------------------------------------------------------------

  /**
   * Orbital pull: within 1.5 times the circle's radius, a force tangential to
   * the circle (the radial direction turned by a quarter turn) is added to
   * the particle's current speed. Only the speed changes.
   */
  function Orbit(p: Particle, c: TextOverlay.Circle, sqrt: real -> real): (q: Particle)
    requires c.radius > 0.0
    ensures q == p.(speedX := q.speedX, speedY := q.speedY)
  {
    var dx, dy := p.x - c.x, p.y - c.y;
    var d := Distance(dx, dy, sqrt);
    var reach := c.radius * OrbitReach;
    if d < reach then
      var kick := OrbitKick(dx, dy, d, reach);
      p.(speedX := p.speedX + kick.0, speedY := p.speedY + kick.1)
    else
      p
  }

  /**
   * The speed the orbital pull adds to a particle at offset (dx, dy) from the
   * circle's centre and distance `d`: the direction of the offset turned by a
   * quarter turn, times the falloff force, times 0.3.
   */
  function OrbitKick(dx: real, dy: real, d: real, reach: real): (a: (real, real))
    requires reach > 0.0
    ensures a.0 * DirX(dx, dy, d) + a.1 * DirY(dx, dy, d) == 0.0
  {
    var force := Falloff(d, reach);
    // cos(angle + pi/2) is -sin(angle), sin(angle + pi/2) is cos(angle)
    (-DirY(dx, dy, d) * force * OrbitSpeed, DirX(dx, dy, d) * force * OrbitSpeed)
  }

  /**
   * Mouse influence: three branches. No mouse: the particle moves by its
   * current speed. Mouse within `MouseRadius`: speed is the original speed
   * plus a pull toward the mouse, size and rotation step grow with the
   * force. Mouse farther away: original speed, original size, plain rotation.
   */
  function MousePhase(p: Particle, mouseX: Option<real>, mouseY: Option<real>, sqrt: real -> real): (q: Particle)
    ensures q.color == p.color && q.shape == p.shape && q.rotationSpeed == p.rotationSpeed
    ensures q.originalSpeedX == p.originalSpeedX && q.originalSpeedY == p.originalSpeedY
    ensures q.originalSize == p.originalSize
    ensures q.x == p.x + q.speedX && q.y == p.y + q.speedY
  {
    if mouseX.Some? && mouseY.Some? then
      var dx, dy := mouseX.value - p.x, mouseY.value - p.y;
      var d := Distance(dx, dy, sqrt);
      if d < MouseRadius then
        var force := Falloff(d, MouseRadius);
        var push := MousePush(dx, dy, d);
        var speedX := p.originalSpeedX + push.0;
        var speedY := p.originalSpeedY + push.1;
        p.(speedX := speedX, speedY := speedY,
           x := p.x + speedX, y := p.y + speedY,
           size := p.originalSize * (1.0 + force * SizeGain),
           rotation := p.rotation + p.rotationSpeed * (1.0 + force * RotationGain))
      else
        p.(speedX := p.originalSpeedX, speedY := p.originalSpeedY,
           x := p.x + p.originalSpeedX, y := p.y + p.originalSpeedY,
           size := p.originalSize,
           rotation := p.rotation + p.rotationSpeed)
    else
      p.(x := p.x + p.speedX, y := p.y + p.speedY,
         rotation := p.rotation + p.rotationSpeed)
  }

  /**
   * The speed the mouse adds to a particle at offset (dx, dy) from the
   * particle to the mouse, at distance `d` below `MouseRadius`: the direction
   * of the offset times the falloff force times 1.2.
   */
  function MousePush(dx: real, dy: real, d: real): (push: (real, real))
    ensures push.0 * DirY(dx, dy, d) == push.1 * DirX(dx, dy, d)
  {
    var force := Falloff(d, MouseRadius);
    (DirX(dx, dy, d) * force * PushStrength, DirY(dx, dy, d) * force * PushStrength)
  }

  /**
   * Toroidal wrap: a coordinate below 0 jumps to the far edge, one beyond the
   * far edge jumps to 0. The result lies in the CLOSED box [0, width] x
   * [0, height]; a coordinate already inside is kept.
   */
  function Wrap(p: Particle, width: real, height: real): (q: Particle)
    requires 0.0 <= width && 0.0 <= height
    ensures 0.0 <= q.x <= width && 0.0 <= q.y <= height
    ensures 0.0 <= p.x <= width ==> q.x == p.x
    ensures 0.0 <= p.y <= height ==> q.y == p.y
    ensures q == p.(x := q.x, y := q.y)
  {
    var x := if p.x < 0.0 then width else p.x;
    var x := if x > width then 0.0 else x;
    var y := if p.y < 0.0 then height else p.y;
    var y := if y > height then 0.0 else y;
    p.(x := x, y := y)
  }

  /** Speed ceiling: a speed above `MaxSpeed` is rescaled to `MaxSpeed`, keeping its direction. */
  function Clamp(p: Particle, sqrt: real -> real): (q: Particle)
    ensures q == p.(speedX := q.speedX, speedY := q.speedY)
  {
    var s := Distance(p.speedX, p.speedY, sqrt);
    if s > MaxSpeed then
      p.(speedX := p.speedX / s * MaxSpeed, speedY := p.speedY / s * MaxSpeed)
    else
      p
  }

  /**
   * The complete update of one particle in one frame: orbit, mouse, wrap,
   * speed ceiling. A frame never changes a particle's colour, shape,
   * rotation step or original speed and size.
   */
  function Step(p: Particle, c: TextOverlay.Circle, mouseX: Option<real>, mouseY: Option<real>,
                sqrt: real -> real): (q: Particle)
    requires c.radius > 0.0
    ensures q.color == p.color && q.shape == p.shape && q.rotationSpeed == p.rotationSpeed
    ensures q.originalSpeedX == p.originalSpeedX && q.originalSpeedY == p.originalSpeedY
    ensures q.originalSize == p.originalSize
  {
    Clamp(Wrap(MousePhase(Orbit(p, c, sqrt), mouseX, mouseY, sqrt), CanvasWidth, CanvasHeight), sqrt)
  }

  // ---------------------------------------------------------------------
  // Properties of the phases
  // ---------------------------------------------------------------------

  /**
   * Within reach of the circle the orbital force lies in (0, 1] and the
   * kick (tangential, of length force * 0.3, by `OrbitKickTangent`) is added
   * to the current speed, so it accumulates from frame to frame; nothing
   * else changes. Out of reach nothing changes at all.
   */
  lemma OrbitPull(p: Particle, c: TextOverlay.Circle, sqrt: real -> real)
    requires IsSqrt(sqrt) && c.radius > 0.0
    ensures var dx, dy := p.x - c.x, p.y - c.y;
      var d := Distance(dx, dy, sqrt);
      var reach := c.radius * OrbitReach;
      d < reach ==>
        var f := Falloff(d, reach);
        var a := OrbitKick(dx, dy, d, reach);
        && Orbit(p, c, sqrt) == p.(speedX := p.speedX + a.0, speedY := p.speedY + a.1)
        && 0.0 < f <= 1.0
    ensures !(Distance(p.x - c.x, p.y - c.y, sqrt) < c.radius * OrbitReach) ==> Orbit(p, c, sqrt) == p
  {
    SumSquaresNonneg(p.x - c.x, p.y - c.y);
  }

  /**
   * Within reach, the orbital kick has length force * 0.3, is perpendicular
   * to the offset, and is turned from it toward increasing angle (clockwise
   * as drawn, since the canvas's y axis points down): its cross product with
   * the offset is positive, so every particle orbits the circle the same way
   * round.
   */
  lemma OrbitKickTangent(dx: real, dy: real, reach: real, sqrt: real -> real)
    requires IsSqrt(sqrt) && reach > 0.0
    requires Distance(dx, dy, sqrt) < reach
    ensures var d := Distance(dx, dy, sqrt);
      var f := Falloff(d, reach);
      var a := OrbitKick(dx, dy, d, reach);
      && 0.0 < f <= 1.0
      && a.0 * a.0 + a.1 * a.1 == (f * OrbitSpeed) * (f * OrbitSpeed)
      && (d > 0.0 ==> a.0 * dx + a.1 * dy == 0.0)
      && (d > 0.0 ==> dx * a.1 - dy * a.0 == f * OrbitSpeed * d)
  {
    var d := Distance(dx, dy, sqrt);
    Direction(dx, dy, sqrt);
    var f := Falloff(d, reach);
    var ux, uy := DirX(dx, dy, d), DirY(dx, dy, d);
    var k := f * OrbitSpeed;
    var a := OrbitKick(dx, dy, d, reach);
    assert a.0 == k * -uy && a.1 == k * ux;
    QuarterTurn(k, ux, uy, dx, dy, a.0, a.1);
  }

  /**
   * Mouse within range (distance strictly below 150): the force lies in
   * (0, 1]; the speed is the original speed plus the mouse's push (whose
   * length and direction `MousePushToward` gives); the particle moves by that speed;
   * its size grows to originalSize * (1 + 1.2 * force), strictly above the
   * original size and at most 2.2 times it; its rotation grows by
   * rotationSpeed * (1 + 0.3 * force).
   */
  lemma MouseInRange(p: Particle, mx: real, my: real, sqrt: real -> real)
    requires IsSqrt(sqrt) && p.originalSize > 0.0
    requires Distance(mx - p.x, my - p.y, sqrt) < MouseRadius
    ensures var dx, dy := mx - p.x, my - p.y;
      var d := Distance(dx, dy, sqrt);
      var f := Falloff(d, MouseRadius);
      var q := MousePhase(p, Some(mx), Some(my), sqrt);
      var push := MousePush(dx, dy, d);
      && 0.0 < f <= 1.0
      && q.speedX == p.originalSpeedX + push.0 && q.speedY == p.originalSpeedY + push.1
      && q.x == p.x + q.speedX && q.y == p.y + q.speedY
      && q.size == p.originalSize * (1.0 + f * SizeGain)
      && p.originalSize < q.size <= p.originalSize * (1.0 + SizeGain)
      && q.rotation == p.rotation + p.rotationSpeed * (1.0 + f * RotationGain)
  {
    var dx, dy := mx - p.x, my - p.y;
    var d := Distance(dx, dy, sqrt);
    var f := Falloff(d, MouseRadius);
    SumSquaresNonneg(dx, dy);
    MousePhaseNear(p, mx, my, sqrt);
    Growth(p.originalSize, f);
  }

  /** The out-of-range branch of `MousePhase`, as one record update. */
  lemma MousePhaseFar(p: Particle, mx: real, my: real, sqrt: real -> real)
    requires !(Distance(mx - p.x, my - p.y, sqrt) < MouseRadius)
    ensures MousePhase(p, Some(mx), Some(my), sqrt) ==
      p.(speedX := p.originalSpeedX, speedY := p.originalSpeedY,
         x := p.x + p.originalSpeedX, y := p.y + p.originalSpeedY,
         size := p.originalSize, rotation := p.rotation + p.rotationSpeed)
  {
  }

  /** The in-range branch of `MousePhase`, as one record update. */
  lemma MousePhaseNear(p: Particle, mx: real, my: real, sqrt: real -> real)
    requires Distance(mx - p.x, my - p.y, sqrt) < MouseRadius
    ensures var dx, dy := mx - p.x, my - p.y;
      var d := Distance(dx, dy, sqrt);
      var f := Falloff(d, MouseRadius);
      var push := MousePush(dx, dy, d);
      var speedX, speedY := p.originalSpeedX + push.0, p.originalSpeedY + push.1;
      MousePhase(p, Some(mx), Some(my), sqrt) ==
        p.(speedX := speedX, speedY := speedY,
           x := p.x + speedX, y := p.y + speedY,
           size := p.originalSize * (1.0 + f * SizeGain),
           rotation := p.rotation + p.rotationSpeed * (1.0 + f * RotationGain))
  {
  }

  /** Growing a positive size by a factor 1 + 1.2 * f with f in (0, 1] makes it larger, by at most 2.2 times. */
  lemma Growth(size: real, f: real)
    requires size > 0.0 && 0.0 < f <= 1.0
    ensures size < size * (1.0 + f * SizeGain) <= size * (1.0 + SizeGain)
  {
    MulLeftStrict(size, 1.0, 1.0 + f * SizeGain);
    MulLeft(size, 1.0 + f * SizeGain, 1.0 + SizeGain);
  }

  /**
   * Within `MouseRadius` the mouse's push has length force * 1.2 and, away
   * from the mouse's own position, points along the offset toward the mouse.
   */
  lemma MousePushToward(dx: real, dy: real, sqrt: real -> real)
    requires IsSqrt(sqrt)
    requires Distance(dx, dy, sqrt) < MouseRadius
    ensures var d := Distance(dx, dy, sqrt);
      var f := Falloff(d, MouseRadius);
      var push := MousePush(dx, dy, d);
      && 0.0 < f <= 1.0
      && push.0 * push.0 + push.1 * push.1 == (f * PushStrength) * (f * PushStrength)
      && (d > 0.0 ==> push.0 * dy == push.1 * dx && push.0 * dx + push.1 * dy > 0.0)
  {
    var d := Distance(dx, dy, sqrt);
    Direction(dx, dy, sqrt);
    var f := Falloff(d, MouseRadius);
    var ux, uy := DirX(dx, dy, d), DirY(dx, dy, d);
    var k := f * PushStrength;
    var push := MousePush(dx, dy, d);
    assert push.0 == k * ux && push.1 == k * uy;
    Along(k, ux, uy, dx, dy, d, push.0, push.1);
  }

  /**
   * Mouse present but out of range: speed is reset to the original speed,
   * the particle moves by exactly that, its size is the original size and
   * its rotation grows by exactly rotationSpeed.
   */
  lemma MouseOutOfRange(p: Particle, mx: real, my: real, sqrt: real -> real)
    requires !(Distance(mx - p.x, my - p.y, sqrt) < MouseRadius)
    ensures var q := MousePhase(p, Some(mx), Some(my), sqrt);
      && q.speedX == p.originalSpeedX && q.speedY == p.originalSpeedY
      && q.x == p.x + p.originalSpeedX && q.y == p.y + p.originalSpeedY
      && q.size == p.originalSize
      && q.rotation == p.rotation + p.rotationSpeed
  {
    MousePhaseFar(p, mx, my, sqrt);
  }

  /**
   * No mouse: the particle moves by its current speed, which keeps any
   * orbital addition of this frame and earlier ones; the speed is not reset
   * to the original speed and the size is untouched.
   */
  lemma NoMouse(p: Particle, c: TextOverlay.Circle, mouseX: Option<real>, mouseY: Option<real>,
                  sqrt: real -> real)
    requires c.radius > 0.0
    requires mouseX.None? || mouseY.None?
    ensures var o := Orbit(p, c, sqrt);
      var q := MousePhase(o, mouseX, mouseY, sqrt);
      && q.speedX == o.speedX && q.speedY == o.speedY
      && q.x == p.x + o.speedX && q.y == p.y + o.speedY
      && q.size == p.size
      && q.rotation == p.rotation + p.rotationSpeed
  {
  }

  /** A coordinate leaving through one edge re-enters at the opposite edge. */
  lemma WrapOpposite(p: Particle, width: real, height: real)
    requires 0.0 <= width && 0.0 <= height
    ensures p.x < 0.0 ==> Wrap(p, width, height).x == width
    ensures p.x > width ==> Wrap(p, width, height).x == 0.0
    ensures p.y < 0.0 ==> Wrap(p, width, height).y == height
    ensures p.y > height ==> Wrap(p, width, height).y == 0.0
  {
  }

  /** The factor the speed ceiling multiplies both speed components by. */
  function ClampFactor(p: Particle, sqrt: real -> real): real
    requires IsSqrt(sqrt)
  {
    var s := Distance(p.speedX, p.speedY, sqrt);
    if s > MaxSpeed then MaxSpeed / s else 1.0
  }

  /**
   * After the speed ceiling the squared speed is at most 1.2 * 1.2, and the
   * new speed is the old one scaled by a factor in (0, 1], so its direction
   * is kept.
   */
  lemma ClampBound(p: Particle, sqrt: real -> real)
    requires IsSqrt(sqrt)
    ensures SpeedSquared(Clamp(p, sqrt)) <= MaxSpeed * MaxSpeed
    ensures 0.0 < ClampFactor(p, sqrt) <= 1.0
    ensures Clamp(p, sqrt).speedX == ClampFactor(p, sqrt) * p.speedX
    ensures Clamp(p, sqrt).speedY == ClampFactor(p, sqrt) * p.speedY
  {
    var sx, sy := p.speedX, p.speedY;
    var s := Distance(sx, sy, sqrt);
    SumSquaresNonneg(sx, sy);
    assert 0.0 <= s && s * s == sx * sx + sy * sy;
    if s > MaxSpeed {
      var k := MaxSpeed / s;
      DivBelowOne(MaxSpeed, s);
      assert sx / s * MaxSpeed == k * sx;
      assert sy / s * MaxSpeed == k * sy;
      ScaledSquares(k, sx, sy);
      RescaledNorm(k, s);
    } else {
      MulLeft(s, s, MaxSpeed);
      MulLeft(MaxSpeed, s, MaxSpeed);
    }
  }

  // ---------------------------------------------------------------------
  // The invariant every particle keeps
  // ---------------------------------------------------------------------

  /**
   * What holds of every particle at all times: it is on the canvas (closed
   * box), its shape is 0 or 1, its sizes are in range, its speed is at most
   * `MaxSpeed` and its colour comes from one of the two palettes.
   */
  ghost predicate WellFormed(p: Particle) {
    && 0.0 <= p.x <= CanvasWidth && 0.0 <= p.y <= CanvasHeight
    && (p.shape == 0 || p.shape == 1)
    && 1.0 <= p.originalSize < 3.0
    && 1.0 <= p.size < 3.0 * (1.0 + SizeGain)
    && SpeedSquared(p) <= MaxSpeed * MaxSpeed
    && (p.color in InitialColors || p.color in HoverColors)
  }

  /** Giving a particle a colour from either palette keeps the invariant. */
  lemma RecolorWellFormed(p: Particle, color: string)
    requires WellFormed(p)
    requires color in InitialColors || color in HoverColors
    ensures WellFormed(p.(color := color))
  {
  }

  /** Recolouring every particle of a sequence from the palettes keeps the invariant for all of them. */
  lemma RecoloredWellFormed(before: seq<Particle>, after: seq<Particle>)
    requires |before| == |after|
    requires forall i :: 0 <= i < |before| ==> WellFormed(before[i])
    requires forall i :: 0 <= i < |after| ==>
      after[i] == before[i].(color := after[i].color) && (after[i].color in InitialColors || after[i].color in HoverColors)
    ensures forall i :: 0 <= i < |after| ==> WellFormed(after[i])
  {
    forall i | 0 <= i < |after|
      ensures WellFormed(after[i])
    {
      RecolorWellFormed(before[i], after[i].color);
    }
  }

  /** Every freshly drawn particle satisfies the invariant. */
  lemma NewParticleWellFormed(d: Draws)
    requires UnitDraws(d)
    ensures WellFormed(NewParticle(d))
  {
    var p := NewParticle(d);
    SquareBelow(p.speedX, 0.15);
    SquareBelow(p.speedY, 0.15);
  }

  /** A frame keeps the invariant: on the canvas, below the speed ceiling, sizes in range. */
  lemma StepWellFormed(p: Particle, c: TextOverlay.Circle, mouseX: Option<real>, mouseY: Option<real>,
                       sqrt: real -> real)
    requires IsSqrt(sqrt) && c.radius > 0.0
    requires WellFormed(p)
    ensures WellFormed(Step(p, c, mouseX, mouseY, sqrt))
  {
    var o := Orbit(p, c, sqrt);
    var m := MousePhase(o, mouseX, mouseY, sqrt);
    if mouseX.Some? && mouseY.Some? && Distance(mouseX.value - o.x, mouseY.value - o.y, sqrt) < MouseRadius {
      MouseInRange(o, mouseX.value, mouseY.value, sqrt);
      assert m.size <= o.originalSize * (1.0 + SizeGain) < 3.0 * (1.0 + SizeGain);
    }
    var w := Wrap(m, CanvasWidth, CanvasHeight);
    ClampBound(w, sqrt);
  }

  /** One frame of the whole particle array: each particle takes its own `Step`, in place. */
  function StepAll(ps: seq<Particle>, c: TextOverlay.Circle,
                   mouseX: Option<real>, mouseY: Option<real>, sqrt: real -> real): (qs: seq<Particle>)
    requires c.radius > 0.0
    ensures |qs| == |ps|
    ensures forall i :: 0 <= i < |ps| ==> qs[i] == Step(ps[i], c, mouseX, mouseY, sqrt)
  {
    seq(|ps|, i requires 0 <= i < |ps| => Step(ps[i], c, mouseX, mouseY, sqrt))
  }

  /** A frame that steps every particle keeps the invariant for all of them. */
  lemma SteppedWellFormed(ps: seq<Particle>, c: TextOverlay.Circle,
                          mouseX: Option<real>, mouseY: Option<real>, sqrt: real -> real)
    requires IsSqrt(sqrt) && c.radius > 0.0
    requires forall i :: 0 <= i < |ps| ==> WellFormed(ps[i])
    ensures forall i :: 0 <= i < |ps| ==> WellFormed(StepAll(ps, c, mouseX, mouseY, sqrt)[i])
  {
    var qs := StepAll(ps, c, mouseX, mouseY, sqrt);
    forall i | 0 <= i < |qs|
      ensures WellFormed(qs[i])
    {
      StepWellFormed(ps[i], c, mouseX, mouseY, sqrt);
    }
  }

  // ---------------------------------------------------------------------
  // Imperative code
  // ---------------------------------------------------------------------

  /** Creates the particle array: one particle per set of draws, in order. */
  method InitParticles(draws: seq<Draws>) returns (particles: array<Particle>)
    requires forall i :: 0 <= i < |draws| ==> UnitDraws(draws[i])
    ensures fresh(particles) && particles.Length == |draws|
    ensures forall i :: 0 <= i < |draws| ==> particles[i] == NewParticle(draws[i])
  {
    particles := new Particle[|draws|];
    for i := 0 to |draws|
      invariant forall j :: 0 <= j < i ==> particles[j] == NewParticle(draws[j])
    {
      particles[i] := NewParticle(draws[i]);
    }
  }

  /**
   * The update of one particle in one frame, phase by phase as the frame
   * loop performs it.
   */
  method UpdateParticle(particle: Particle, textCircle: TextOverlay.Circle,
                        mouseX: Option<real>, mouseY: Option<real>, sqrt: real -> real)
    returns (p: Particle)
    requires textCircle.radius > 0.0
    ensures p == Step(particle, textCircle, mouseX, mouseY, sqrt)
  {
    p := ApplyOrbit(particle, textCircle, sqrt);
    p := ApplyMouse(p, mouseX, mouseY, sqrt);
    p := ApplyWrap(p);
    p := ApplySpeedCeiling(p, sqrt);
  }

  /** Orbit around the text circle: the tangential kick is added to both speed fields. */
  method ApplyOrbit(particle: Particle, textCircle: TextOverlay.Circle, sqrt: real -> real)
    returns (p: Particle)
    requires textCircle.radius > 0.0
    ensures p == Orbit(particle, textCircle, sqrt)
  {
    p := particle;
    var dxToText, dyToText := p.x - textCircle.x, p.y - textCircle.y;
    var distanceToText := Distance(dxToText, dyToText, sqrt);
    var reach := textCircle.radius * OrbitReach;
    if distanceToText < reach {
      var orbitForce := (reach - distanceToText) / reach;
      // cos(angle + pi/2) is -sin(angle), sin(angle + pi/2) is cos(angle)
      var kickX := -DirY(dxToText, dyToText, distanceToText) * orbitForce * OrbitSpeed;
      var kickY := DirX(dxToText, dyToText, distanceToText) * orbitForce * OrbitSpeed;
      assert kickX == OrbitKick(dxToText, dyToText, distanceToText, reach).0;
      assert kickY == OrbitKick(dxToText, dyToText, distanceToText, reach).1;
      p := p.(speedX := p.speedX + kickX, speedY := p.speedY + kickY);
    }
  }

  /**
   * Mouse influence: speed, then position by the new speed, then size and
   * rotation, as the frame loop computes them; the particle record is
   * written once per branch.
   */
  method ApplyMouse(particle: Particle, mouseX: Option<real>, mouseY: Option<real>, sqrt: real -> real)
    returns (p: Particle)
    ensures p == MousePhase(particle, mouseX, mouseY, sqrt)
  {
    p := particle;
    if mouseX.Some? && mouseY.Some? {
      var dx, dy := mouseX.value - p.x, mouseY.value - p.y;
      var distance := Distance(dx, dy, sqrt);
      if distance < MouseRadius {
        var force := (MouseRadius - distance) / MouseRadius;
        var pushX := DirX(dx, dy, distance) * force * PushStrength;
        var pushY := DirY(dx, dy, distance) * force * PushStrength;
        assert pushX == MousePush(dx, dy, distance).0;
        assert pushY == MousePush(dx, dy, distance).1;
        MousePhaseNear(particle, mouseX.value, mouseY.value, sqrt);
        var speedX, speedY := p.originalSpeedX + pushX, p.originalSpeedY + pushY;
        var x, y := p.x + speedX, p.y + speedY;
        var size := p.originalSize * (1.0 + force * SizeGain);
        var rotation := p.rotation + p.rotationSpeed * (1.0 + force * RotationGain);
        p := p.(speedX := speedX, speedY := speedY, x := x, y := y, size := size, rotation := rotation);
      } else {
        MousePhaseFar(particle, mouseX.value, mouseY.value, sqrt);
        var speedX, speedY := p.originalSpeedX, p.originalSpeedY;
        var x, y := p.x + speedX, p.y + speedY;
        p := p.(speedX := speedX, speedY := speedY, x := x, y := y,
                size := p.originalSize, rotation := p.rotation + p.rotationSpeed);
      }
    } else {
      p := p.(x := p.x + p.speedX, y := p.y + p.speedY, rotation := p.rotation + p.rotationSpeed);
    }
  }

  /** Wrap around the canvas edges, one coordinate test at a time. */
  method ApplyWrap(particle: Particle) returns (p: Particle)
    ensures p == Wrap(particle, CanvasWidth, CanvasHeight)
  {
    p := particle;
    if p.x < 0.0 { p := p.(x := CanvasWidth); }
    if p.x > CanvasWidth { p := p.(x := 0.0); }
    if p.y < 0.0 { p := p.(y := CanvasHeight); }
    if p.y > CanvasHeight { p := p.(y := 0.0); }
  }

  /** Speed ceiling: rescale a speed above `MaxSpeed` down to it. */
  method ApplySpeedCeiling(particle: Particle, sqrt: real -> real) returns (p: Particle)
    ensures p == Clamp(particle, sqrt)
  {
    p := particle;
    var currentSpeed := Distance(p.speedX, p.speedY, sqrt);
    if currentSpeed > MaxSpeed {
      p := p.(speedX := p.speedX / currentSpeed * MaxSpeed, speedY := p.speedY / currentSpeed * MaxSpeed);
    }
  }

  /** Every particle of `ps` recoloured by `MoveColor` with its own draw; nothing else changes. */
  function Recolor(ps: seq<Particle>, mx: real, my: real, draws: seq<real>, sqrt: real -> real): (qs: seq<Particle>)
    requires |draws| == |ps| && forall i :: 0 <= i < |draws| ==> Unit(draws[i])
    ensures |qs| == |ps|
    ensures forall i :: 0 <= i < |ps| ==> qs[i] == ps[i].(color := qs[i].color)
    ensures forall i :: 0 <= i < |ps| ==> qs[i].color in InitialColors || qs[i].color in HoverColors
  {
    seq(|ps|, i requires 0 <= i < |ps| => ps[i].(color := MoveColor(ps[i], mx, my, draws[i], sqrt)))
  }

  /** The particle lies strictly within `MouseRadius` of (mx, my), compared without a square root. */
  predicate NearMouse(p: Particle, mx: real, my: real) {
    (mx - p.x) * (mx - p.x) + (my - p.y) * (my - p.y) < MouseRadius * MouseRadius
  }

  /** Colour a particle gets when the mouse moves to (mx, my), given the random draw `r`. */
  function MoveColor(p: Particle, mx: real, my: real, r: real, sqrt: real -> real): (c: string)
    requires Unit(r)
    ensures c in InitialColors || c in HoverColors
  {
    if Distance(mx - p.x, my - p.y, sqrt) < MouseRadius then HoverColor(r) else InitialColor(r)
  }

  /**
   * After a mouse move a particle's colour is a hover colour exactly when it
   * lies strictly within `MouseRadius` of the mouse, and an initial colour
   * exactly when it does not.
   */
  lemma MoveColorPalette(p: Particle, mx: real, my: real, r: real, sqrt: real -> real)
    requires IsSqrt(sqrt) && Unit(r)
    ensures MoveColor(p, mx, my, r, sqrt) in HoverColors <==> NearMouse(p, mx, my)
    ensures MoveColor(p, mx, my, r, sqrt) in InitialColors <==> !NearMouse(p, mx, my)
  {
    DistanceBelow(mx - p.x, my - p.y, MouseRadius, sqrt);
    PalettesDisjoint();
  }

  /**
   * The mouse-move rule for the whole array: after `Recolor` a particle has
   * a hover colour exactly when it lies strictly within `MouseRadius` of the
   * mouse, and an initial colour exactly when it does not.
   */
  lemma RecolorPalette(ps: seq<Particle>, mx: real, my: real, draws: seq<real>, sqrt: real -> real)
    requires IsSqrt(sqrt)
    requires |draws| == |ps| && forall i :: 0 <= i < |draws| ==> Unit(draws[i])
    ensures forall i :: 0 <= i < |ps| ==>
      (Recolor(ps, mx, my, draws, sqrt)[i].color in HoverColors <==> NearMouse(ps[i], mx, my))
    ensures forall i :: 0 <= i < |ps| ==>
      (Recolor(ps, mx, my, draws, sqrt)[i].color in InitialColors <==> !NearMouse(ps[i], mx, my))
  {
    var qs := Recolor(ps, mx, my, draws, sqrt);
    forall i | 0 <= i < |ps|
      ensures qs[i].color in HoverColors <==> NearMouse(ps[i], mx, my)
      ensures qs[i].color in InitialColors <==> !NearMouse(ps[i], mx, my)
    {
      assert qs[i].color == MoveColor(ps[i], mx, my, draws[i], sqrt);
      MoveColorPalette(ps[i], mx, my, draws[i], sqrt);
    }
  }

  // ---------------------------------------------------------------------
  // Arithmetic facts over plain reals, used by the proofs above
  // ---------------------------------------------------------------------

  lemma MulLeft(a: real, b: real, c: real)
    requires 0.0 <= a && b <= c
    ensures a * b <= a * c
  {
  }

  lemma MulLeftStrict(a: real, b: real, c: real)
    requires 0.0 < a && b < c
    ensures a * b < a * c
  {
  }

  lemma SquareBelow(a: real, m: real)
    requires -m <= a <= m
    ensures a * a <= m * m
  {
  }

  lemma SumSquaresNonneg(a: real, b: real)
    ensures 0.0 <= a * a + b * b
  {
  }

  lemma ScaledSquares(k: real, a: real, b: real)
    ensures (k * a) * (k * a) + (k * b) * (k * b) == k * k * (a * a + b * b)
  {
  }

  lemma DivBelowOne(a: real, s: real)
    requires 0.0 < a < s
    ensures 0.0 < a / s < 1.0 && (a / s) * s == a
  {
    var k := a / s;
    assert k * s == a;
    FactorBelowOne(s, k, k * s);
  }

  /** A factor that shrinks a positive number is below 1 (the product passed in as a plain value). */
  lemma FactorBelowOne(s: real, k: real, ks: real)
    requires s > 0.0 && ks == k * s && ks < s
    ensures k < 1.0
  {
  }

  /** Between non-negative reals, order is the order of their squares. */
  lemma SquareMonotone(a: real, b: real)
    requires 0.0 <= a && 0.0 <= b
    ensures a < b <==> a * a < b * b
  {
    if a < b {
      ProductsOrdered(a, b, a * a, a * b, b * b);
    } else {
      ProductsOrdered(b, a, b * b, b * a, a * a);
    }
  }

  /** For 0 <= a <= b, with the products passed in as plain values: a*a <= a*b <= b*b. */
  lemma ProductsOrdered(a: real, b: real, aa: real, ab: real, bb: real)
    requires 0.0 <= a <= b && aa == a * a && ab == a * b && bb == b * b
    ensures aa <= ab <= bb
    ensures a < b ==> aa < bb
  {
    assert aa <= ab;
    assert ab <= bb;
    if a < b {
      assert ab < bb;
    }
  }

  lemma RescaledNorm(k: real, s: real)
    ensures k * k * (s * s) == (k * s) * (k * s)
  {
  }

  lemma DivSquares(a: real, b: real, d: real)
    requires d > 0.0 && d * d == a * a + b * b
    ensures (a / d) * (a / d) + (b / d) * (b / d) == 1.0
  {
    var k := 1.0 / d;
    assert a / d == k * a && b / d == k * b;
    ScaledSquares(k, a, b);
    assert k * d == 1.0;
    RescaledNorm(k, d);
  }

  lemma DivProjection(a: real, b: real, d: real)
    requires d > 0.0 && d * d == a * a + b * b
    ensures (a / d) * a + (b / d) * b == d
  {
    var k := 1.0 / d;
    assert a / d == k * a && b / d == k * b;
    assert (k * a) * a + (k * b) * b == k * (a * a + b * b);
    assert k * (d * d) == (k * d) * d;
    assert k * d == 1.0;
  }

  lemma DivParallel(a: real, b: real, d: real)
    requires d > 0.0
    ensures (a / d) * b == (b / d) * a
  {
    var k := 1.0 / d;
    assert a / d == k * a && b / d == k * b;
  }

  /**
   * (ax, ay) is the unit vector (ux, uy) turned by a quarter turn and scaled
   * by k: its length is |k|, it is perpendicular to any (dx, dy) parallel
   * to (ux, uy), and its cross product with (dx, dy) is k times the
   * projection of (dx, dy) on (ux, uy).
   */
  lemma QuarterTurn(k: real, ux: real, uy: real, dx: real, dy: real, ax: real, ay: real)
    requires ax == k * -uy && ay == k * ux && ux * ux + uy * uy == 1.0
    ensures ax * ax + ay * ay == k * k
    ensures ux * dy == uy * dx ==> ax * dx + ay * dy == 0.0
    ensures dx * ay - dy * ax == k * (ux * dx + uy * dy)
  {
    ScaledSquares(k, -uy, ux);
    assert ax * dx + ay * dy == k * (ux * dy - uy * dx);
  }

  /**
   * (px, py) is the unit vector (ux, uy) scaled by k: its length is |k|, and
   * for k > 0 it points the same way as any (dx, dy) that (ux, uy) is the
   * direction of.
   */
  lemma Along(k: real, ux: real, uy: real, dx: real, dy: real, d: real, px: real, py: real)
    requires px == k * ux && py == k * uy && ux * ux + uy * uy == 1.0
    ensures px * px + py * py == k * k
    ensures k > 0.0 && d > 0.0 && ux * dy == uy * dx && ux * dx + uy * dy == d ==>
      px * dy == py * dx && px * dx + py * dy > 0.0
  {
    ScaledSquares(k, ux, uy);
    if k > 0.0 && d > 0.0 && ux * dy == uy * dx && ux * dx + uy * dy == d {
      assert px * dx + py * dy == k * d;
      MulLeftStrict(k, 0.0, d);
    }
  }

  class ParticleSystem {
    /** The particles, created once and updated in place. */
    const particles: array<Particle>
    /** The year overlay whose circle the particles orbit. */
    const textAnimation: TextOverlay.TextAnimation
    /** Mouse position on the canvas; None (null) when the mouse is not over it. */
    var mouseX: Option<real>
    var mouseY: Option<real>
    /** Time stamp of the last frame that ran. */
    var lastTime: real

    ghost predicate Valid()
      reads this, particles
    {
      && particles.Length == ParticleCount
      && forall i :: 0 <= i < particles.Length ==> WellFormed(particles[i])
    }

    /**
     * Creates the 8000 particles from their random draws, the year overlay
     * on the 1280 x 720 canvas, and no mouse.
     */
    constructor(draws: seq<Draws>)
      requires |draws| == ParticleCount
      requires forall i :: 0 <= i < |draws| ==> UnitDraws(draws[i])
      ensures Valid() && fresh(particles) && fresh(textAnimation)
      ensures forall i :: 0 <= i < particles.Length ==> particles[i] == NewParticle(draws[i])
      ensures mouseX == None && mouseY == None && lastTime == 0.0
      ensures textAnimation.Valid() && textAnimation.currentYear == 2011
      ensures textAnimation.GetTextCircle() == TextOverlay.Circle(640.0, 360.0, 100.0)
    {
      mouseX := None;
      mouseY := None;
      var created := InitParticles(draws);
      particles := created;
      textAnimation := new TextOverlay.TextAnimation(CanvasWidth, CanvasHeight);
      lastTime := 0.0;
      new;
      forall i | 0 <= i < particles.Length
        ensures WellFormed(particles[i])
      {
        NewParticleWellFormed(draws[i]);
      }
    }

    /**
     * The mouse moves to (clientX, clientY) in page coordinates, with the
     * canvas's top-left corner at (rectLeft, rectTop). Every particle is
     * recoloured with its own draw by `MoveColor` (from the hover palette
     * when strictly within `MouseRadius` of the mouse, from the initial
     * palette otherwise, as `RecolorPalette` shows). Nothing else about
     * the particles changes.
     */
    method HandleMouseMove(clientX: real, clientY: real, rectLeft: real, rectTop: real,
                           draws: seq<real>, sqrt: real -> real)
      requires Valid()
      requires |draws| == particles.Length && forall i :: 0 <= i < |draws| ==> Unit(draws[i])
      modifies this`mouseX, this`mouseY, particles
      ensures Valid()
      ensures mouseX == Some(clientX - rectLeft) && mouseY == Some(clientY - rectTop)
      ensures particles[..] == Recolor(old(particles[..]), mouseX.value, mouseY.value, draws, sqrt)
    {
      var mx, my := clientX - rectLeft, clientY - rectTop;
      mouseX, mouseY := Some(mx), Some(my);
      ghost var target := Recolor(particles[..], mx, my, draws, sqrt);
      for i := 0 to particles.Length
        modifies particles
        invariant forall j :: 0 <= j < i ==> particles[j] == target[j]
        invariant forall j :: i <= j < particles.Length ==> particles[j] == old(particles[j])
      {
        var particle := particles[i];
        var color := MoveColor(particle, mx, my, draws[i], sqrt);
        particles[i] := particle.(color := color);
      }
      RecoloredWellFormed(old(particles[..]), particles[..]);
    }

    /**
     * The mouse leaves the canvas: its position becomes null and every
     * particle is recoloured from the initial palette with its own draw.
     * Nothing else about the particles changes.
     */
    method HandleMouseLeave(draws: seq<real>)
      requires Valid()
      requires |draws| == particles.Length && forall i :: 0 <= i < |draws| ==> Unit(draws[i])
      modifies this`mouseX, this`mouseY, particles
      ensures Valid()
      ensures mouseX == None && mouseY == None
      ensures forall i :: 0 <= i < particles.Length ==>
        particles[i] == old(particles[i]).(color := InitialColor(draws[i]))
      ensures forall i :: 0 <= i < particles.Length ==> particles[i].color in InitialColors
    {
      mouseX := None;
      mouseY := None;
      for i := 0 to particles.Length
        modifies particles
        invariant forall j :: 0 <= j < i ==> particles[j] == old(particles[j]).(color := InitialColor(draws[j]))
        invariant forall j :: i <= j < particles.Length ==> particles[j] == old(particles[j])
      {
        particles[i] := particles[i].(color := InitialColor(draws[i]));
      }
      RecoloredWellFormed(old(particles[..]), particles[..]);
    }

    /**
     * One animation callback at `currentTime`. Less than 32 ms after the last
     * frame that ran, nothing changes. Otherwise the time is recorded and
     * every particle takes one step, orbiting the overlay's circle and
     * reacting to the mouse.
     */
    method Animate(currentTime: real, sqrt: real -> real) returns (ran: bool)
      requires Valid() && IsSqrt(sqrt)
      modifies this`lastTime, particles
      ensures Valid()
      ensures ran == Gate.FrameDue(currentTime, old(lastTime), FrameInterval)
      ensures !ran ==> lastTime == old(lastTime) && particles[..] == old(particles[..])
      ensures ran ==> lastTime == currentTime
      ensures ran ==> particles[..] == StepAll(old(particles[..]), textAnimation.GetTextCircle(), mouseX, mouseY, sqrt)
    {
      if currentTime - lastTime < FrameInterval {
        return false;
      }
      lastTime := currentTime;
      var textCircle := textAnimation.GetTextCircle();
      ghost var target := StepAll(particles[..], textCircle, mouseX, mouseY, sqrt);
      SteppedWellFormed(particles[..], textCircle, mouseX, mouseY, sqrt);
      for i := 0 to particles.Length
        modifies particles
        invariant forall j :: 0 <= j < i ==> particles[j] == target[j]
        invariant forall j :: i <= j < particles.Length ==> particles[j] == old(particles[j])
      {
        particles[i] := UpdateParticle(particles[i], textCircle, mouseX, mouseY, sqrt);
      }
      assert particles[..] == target;
      return true;
    }

    /**
     * The 15-second timer: the overlay moves on to the next year and
     * restarts its reveal. The particles are not touched.
     */
    method OnYearTimer()
      requires textAnimation.Valid()
      modifies textAnimation`currentYear, textAnimation`textOpacity, textAnimation`textScale
      ensures textAnimation.Valid()
      ensures textAnimation.currentYear == Years.Next(old(textAnimation.currentYear))
      ensures textAnimation.textOpacity == 0.0 && textAnimation.textScale == TextOverlay.RestartScale
    {
      textAnimation.NextYear();
    }
  }
}
