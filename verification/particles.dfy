/** Particle records of the animated background: how a particle is spawned from
    random draws, how many particles a surface holds, and the one-frame
    move-and-wrap step. Positions and velocities are exact reals; the browser's
    floating-point rounding is abstracted away. */
module Particles {

  /** The drawable surface. A canvas's width and height are whole pixels. */
  datatype Surface = Surface(width: nat, height: nat)

  /** The component's props that affect the simulation (the draw colour does not). */
  datatype Config = Config(density: real, maxDensity: real, speed: real)

  /** The props' default values. */
  const DefaultConfig: Config := Config(50.0, 50.0, 0.5)

  /** One simulated point. `size` is the disc radius; `opacity` its fixed alpha. */
  datatype Particle = Particle(x: real, y: real, size: real, speedX: real, speedY: real, opacity: real)

  /** Random draws a particle consumes, in the order its constructor makes them:
      x, y, size, speedX, speedY, opacity. */
  const DrawsPerParticle: nat := 6

  /** Area units per particle at density 1. */
  const AreaPerParticle: real := 10000.0

  /** A value `Math.random` can return: a real in [0, 1). */
  predicate IsUnit(r: real) {
    0.0 <= r < 1.0
  }

  predicate AllUnit(draws: seq<real>) {
    forall k :: 0 <= k < |draws| ==> IsUnit(draws[k])
  }

  /** `Math.min(density, maxDensity)`. */
  function EffectiveDensity(cfg: Config): (d: real)
    ensures d <= cfg.density && d <= cfg.maxDensity
    ensures d == cfg.density || d == cfg.maxDensity
  {
    if cfg.density <= cfg.maxDensity then cfg.density else cfg.maxDensity
  }

  /** `Math.floor((width * height) / (10000 / d))`, as the number of particles the
      seeding loop creates. A non-positive effective density makes the loop run
      zero times: 10000 / 0 is Infinity, so the quotient is 0, and a negative
      divisor makes the floored count non-positive. */
  function ParticleCount(s: Surface, cfg: Config): (n: nat)
    ensures EffectiveDensity(cfg) <= 0.0 ==> n == 0
    ensures EffectiveDensity(cfg) > 0.0 ==>
              var exact := (s.width * s.height) as real * EffectiveDensity(cfg) / AreaPerParticle;
              n as real <= exact < n as real + 1.0
  {
    var d := EffectiveDensity(cfg);
    if d <= 0.0 then 0
    else
      var q := (s.width * s.height) as real / (AreaPerParticle / d);
      QuotientIsScaledArea((s.width * s.height) as real, d);
      q.Floor
  }

  /** Dividing by `10000 / d` is multiplying by `d / 10000`. */
  lemma QuotientIsScaledArea(area: real, d: real)
    requires area >= 0.0 && d > 0.0
    ensures area / (AreaPerParticle / d) == area * d / AreaPerParticle
    ensures area / (AreaPerParticle / d) >= 0.0
  {
  }

  /** The ranges the constructor promises when every draw lies in [0, 1). A
      zero-width (zero-height) surface puts every particle at x = 0 (y = 0). */
  predicate Spawned(p: Particle, s: Surface, speed: real) {
    && 0.0 <= p.x <= s.width as real && (s.width > 0 ==> p.x < s.width as real)
    && 0.0 <= p.y <= s.height as real && (s.height > 0 ==> p.y < s.height as real)
    && 0.5 <= p.size < 2.5
    && 0.2 <= p.opacity < 0.7
    && VelocityInRange(p.speedX, speed)
    && VelocityInRange(p.speedY, speed)
  }

  /** `(r - 0.5) * speed` for r in [0, 1): in [-speed/2, speed/2), or the mirror
      interval when `speed` is negative (the props are not validated). */
  predicate VelocityInRange(v: real, speed: real) {
    if speed >= 0.0 then -speed / 2.0 <= v <= speed / 2.0 && (speed > 0.0 ==> v < speed / 2.0)
    else speed / 2.0 < v <= -speed / 2.0
  }

  /** The particle constructor, reading its six draws from `d`. */
  function NewParticle(s: Surface, speed: real, d: seq<real>): (p: Particle)
    requires |d| == DrawsPerParticle
    ensures AllUnit(d) ==> Spawned(p, s, speed)
  {
    assert AllUnit(d) ==> IsUnit(d[0]) && IsUnit(d[1]) && IsUnit(d[2]) && IsUnit(d[3]) && IsUnit(d[4]) && IsUnit(d[5]);
    Particle(
      x := Scaled(d[0], s.width as real),
      y := Scaled(d[1], s.height as real),
      size := d[2] * 2.0 + 0.5,
      speedX := Velocity(d[3], speed),
      speedY := Velocity(d[4], speed),
      opacity := d[5] * 0.5 + 0.2)
  }

  /** `Math.random() * bound`: in [0, bound], and below `bound` when it is positive. */
  function Scaled(r: real, bound: real): (v: real)
    ensures IsUnit(r) && bound >= 0.0 ==> 0.0 <= v <= bound && (bound > 0.0 ==> v < bound)
  {
    assert IsUnit(r) && bound > 0.0 ==> r * bound < 1.0 * bound;
    r * bound
  }

  /** `(Math.random() - 0.5) * speed`. */
  function Velocity(r: real, speed: real): (v: real)
    ensures IsUnit(r) ==> VelocityInRange(v, speed)
  {
    assert IsUnit(r) ==> VelocityInRange((r - 0.5) * speed, speed) by {
      if IsUnit(r) {
        CenteredScale(r, speed);
      }
    }
    (r - 0.5) * speed
  }

  /** A draw in [0, 1), centred and scaled by `speed`, lies within half of `speed`. */
  lemma CenteredScale(r: real, speed: real)
    requires IsUnit(r)
    ensures VelocityInRange((r - 0.5) * speed, speed)
  {
  }

  /** The draws the particle at `index` reads. */
  function DrawsFor(draws: seq<real>, index: nat): (d: seq<real>)
    requires |draws| >= DrawsPerParticle * (index + 1)
    ensures |d| == DrawsPerParticle
    ensures forall k :: 0 <= k < DrawsPerParticle ==> d[k] == draws[DrawsPerParticle * index + k]
  {
    draws[DrawsPerParticle * index .. DrawsPerParticle * (index + 1)]
  }

  /** The seeding loop's first `k` iterations: particle `i` is built from the
      `i`-th block of six draws, so no draw is reused. */
  function Spawn(s: Surface, speed: real, draws: seq<real>, k: nat): (ps: seq<Particle>)
    requires |draws| >= DrawsPerParticle * k
    ensures |ps| == k
    ensures forall i :: 0 <= i < k ==> ps[i] == NewParticle(s, speed, DrawsFor(draws, i))
    ensures AllUnit(draws) ==> forall i :: 0 <= i < k ==> Spawned(ps[i], s, speed)
    decreases k
  {
    if k == 0 then []
    else
      var p := NewParticle(s, speed, DrawsFor(draws, k - 1));
      assert AllUnit(draws) ==> AllUnit(DrawsFor(draws, k - 1));
      Spawn(s, speed, draws, k - 1) + [p]
  }

  /** `initParticles`: discard the collection and create `ParticleCount` fresh
      particles. The random source is the sequence `draws`. */
  function Seed(s: Surface, cfg: Config, draws: seq<real>): (ps: seq<Particle>)
    requires |draws| >= DrawsPerParticle * ParticleCount(s, cfg)
    ensures |ps| == ParticleCount(s, cfg)
    ensures forall i :: 0 <= i < |ps| ==> ps[i] == NewParticle(s, cfg.speed, DrawsFor(draws, i))
    ensures AllUnit(draws) ==> forall i :: 0 <= i < |ps| ==> Spawned(ps[i], s, cfg.speed)
  {
    Spawn(s, cfg.speed, draws, ParticleCount(s, cfg))
  }

  /** A zero-area surface seeds no particles. */
  lemma ZeroAreaSeedsNothing(s: Surface, cfg: Config, draws: seq<real>)
    requires s.width == 0 || s.height == 0
    ensures ParticleCount(s, cfg) == 0
    ensures Seed(s, cfg, draws) == []
  {
  }

  /** With the default props a 1000 x 1000 surface holds 5000 particles, and
      density 30 (the contact section's override) gives 3000. */
  lemma CountExamples()
    ensures ParticleCount(Surface(1000, 1000), DefaultConfig) == 5000
    ensures ParticleCount(Surface(1000, 1000), Config(30.0, 50.0, 0.5)) == 3000
  {
  }

  /** A larger surface never holds fewer particles. */
  lemma CountMonotoneInArea(s: Surface, t: Surface, cfg: Config)
    requires s.width * s.height <= t.width * t.height
    ensures ParticleCount(s, cfg) <= ParticleCount(t, cfg)
  {
    var d := EffectiveDensity(cfg);
    if d > 0.0 {
      var a := (s.width * s.height) as real;
      var b := (t.width * t.height) as real;
      assert a * d <= b * d;
      var ea := a * d / AreaPerParticle;
      var eb := b * d / AreaPerParticle;
      assert ea <= eb;
      assert ParticleCount(s, cfg) as real <= ea;
      assert eb < ParticleCount(t, cfg) as real + 1.0;
    }
  }

  /** One axis of `update`: move by `v`, then wrap. The test is strict, so a
      coordinate that lands exactly on `bound` stays there. */
  function WrapAxis(pos: real, v: real, bound: real): (r: real)
    ensures bound >= 0.0 ==> 0.0 <= r <= bound
    ensures 0.0 <= pos + v <= bound ==> r == pos + v
    ensures r != pos + v ==> r == 0.0 || r == bound
    ensures pos + v > bound ==> r == 0.0
    ensures pos + v <= bound && pos + v < 0.0 ==> r == bound
  {
    var moved := pos + v;
    if moved > bound then 0.0
    else if moved < 0.0 then bound
    else moved
  }

  /** The closed box [0, width] x [0, height]: every position `update` can produce. */
  predicate InBox(p: Particle, s: Surface) {
    0.0 <= p.x <= s.width as real && 0.0 <= p.y <= s.height as real
  }

  /** Same particle but for its position. */
  predicate SameAttributes(p: Particle, q: Particle) {
    p.size == q.size && p.speedX == q.speedX && p.speedY == q.speedY && p.opacity == q.opacity
  }

  /** `Particle.update`. The new x depends only on x, speedX and the width; the
      new y only on y, speedY and the height. */
  function Update(p: Particle, s: Surface): (q: Particle)
    ensures SameAttributes(p, q)
    ensures q.x == WrapAxis(p.x, p.speedX, s.width as real)
    ensures q.y == WrapAxis(p.y, p.speedY, s.height as real)
    ensures InBox(q, s)
  {
    p.(x := WrapAxis(p.x, p.speedX, s.width as real),
       y := WrapAxis(p.y, p.speedY, s.height as real))
  }

  /** A particle sitting exactly on the right edge with no horizontal motion is
      not wrapped to 0 (the comparison is `x > width`). */
  lemma RightEdgeIsNotWrapped(p: Particle, s: Surface)
    requires p.x == s.width as real && p.speedX == 0.0
    ensures Update(p, s).x == s.width as real
  {
  }

  /** A particle that moves past the right edge reappears at 0, past the left
      edge at the width; its velocity is kept. */
  lemma EdgeCrossings(p: Particle, s: Surface)
    ensures p.x + p.speedX > s.width as real ==> Update(p, s).x == 0.0
    ensures p.x + p.speedX < 0.0 ==> Update(p, s).x == s.width as real
    ensures Update(p, s).speedX == p.speedX
  {
  }

  /** `k` frames of `update` on one particle. */
  function Frames(p: Particle, s: Surface, k: nat): (q: Particle)
    decreases k
  {
    if k == 0 then p else Frames(Update(p, s), s, k - 1)
  }

  /** Over any number of frames only the position changes, and after at least
      one frame the position is inside the box whatever it was before. */
  lemma {:induction false} FramesKeepAttributes(p: Particle, s: Surface, k: nat)
    ensures SameAttributes(p, Frames(p, s, k))
    ensures k > 0 ==> InBox(Frames(p, s, k), s)
    decreases k
  {
    if k > 0 {
      FramesKeepAttributes(Update(p, s), s, k - 1);
    }
  }

  /** A motionless particle inside the box is a fixed point of `update`, so it
      stays put across any number of frames. */
  lemma {:induction false} StillParticleStaysPut(p: Particle, s: Surface, k: nat)
    requires p.speedX == 0.0 && p.speedY == 0.0 && InBox(p, s)
    ensures Frames(p, s, k) == p
    decreases k
  {
    if k > 0 {
      assert Update(p, s) == p;
      StillParticleStaysPut(p, s, k - 1);
    }
  }
}
