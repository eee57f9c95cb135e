/** The particle background as a whole: a surface, the particle collection
    seeded for it, the resize handler that reseeds, and one animation frame
    (move every particle, then scan for the lines to draw). The canvas calls
    themselves are not modelled; a frame's drawing is the list of lines it
    strokes. */
module Background {
  import opened Particles
  import opened Connections

  /** The state the effect closure keeps between frames. */
  datatype Scene = Scene(surface: Surface, particles: seq<Particle>)

  /** What one frame leaves behind: the moved particles and the lines drawn. */
  datatype Frame = Frame(scene: Scene, lines: seq<Pair>)

  /** Every particle lies in the closed box of the surface. */
  predicate Settled(sc: Scene) {
    forall k :: 0 <= k < |sc.particles| ==> InBox(sc.particles[k], sc.surface)
  }

  /** `resizeCanvas`: the canvas takes the window's new dimensions and the whole
      collection is replaced by a fresh one seeded for them. */
  function Resize(sc: Scene, cfg: Config, width: nat, height: nat, draws: seq<real>): (r: Scene)
    requires |draws| >= DrawsPerParticle * ParticleCount(Surface(width, height), cfg)
    ensures r.surface == Surface(width, height)
    ensures |r.particles| == ParticleCount(Surface(width, height), cfg)
    ensures forall k :: 0 <= k < |r.particles| ==>
              r.particles[k] == NewParticle(r.surface, cfg.speed, DrawsFor(draws, k))
    ensures AllUnit(draws) ==> forall k :: 0 <= k < |r.particles| ==> Spawned(r.particles[k], r.surface, cfg.speed)
  {
    Scene(Surface(width, height), Seed(Surface(width, height), cfg, draws))
  }

  /** The new collection does not depend on the old one: every previous
      particle is discarded. */
  lemma ResizeDiscardsOldParticles(a: Scene, b: Scene, cfg: Config, width: nat, height: nat, draws: seq<real>)
    requires |draws| >= DrawsPerParticle * ParticleCount(Surface(width, height), cfg)
    ensures Resize(a, cfg, width, height, draws) == Resize(b, cfg, width, height, draws)
  {
  }

  /** Freshly seeded particles lie in the closed box, as `update` keeps them. */
  lemma SpawnedIsInBox(p: Particle, s: Surface, speed: real)
    requires Spawned(p, s, speed)
    ensures InBox(p, s)
  {
  }

  /** The `forEach` over the collection calling `update` on each particle. */
  function UpdateAll(ps: seq<Particle>, s: Surface): (qs: seq<Particle>)
    ensures |qs| == |ps|
    ensures forall k :: 0 <= k < |ps| ==> qs[k] == Update(ps[k], s)
    decreases |ps|
  {
    if ps == [] then [] else [Update(ps[0], s)] + UpdateAll(ps[1..], s)
  }

  /** `animate`, one frame: move every particle, then join close pairs of the
      moved positions. The surface is read once and used throughout. */
  function Tick(sc: Scene): (f: Frame)
    ensures f.scene.surface == sc.surface
    ensures |f.scene.particles| == |sc.particles|
    ensures Settled(f.scene)
    ensures forall k :: 0 <= k < |sc.particles| ==> f.scene.particles[k] == Update(sc.particles[k], sc.surface)
    ensures forall k :: 0 <= k < |sc.particles| ==> SameAttributes(sc.particles[k], f.scene.particles[k])
    ensures Proper(f.lines, |sc.particles|)
    ensures forall a, b :: 0 <= a < b < |sc.particles| ==>
              (Pair(a, b) in f.lines <==> Close(f.scene.particles[a], f.scene.particles[b]))
    ensures f.lines == ConnectedPairs(f.scene.particles)
  {
    var moved := UpdateAll(sc.particles, sc.surface);
    var lines := ConnectedPairs(moved);
    assert forall a, b :: 0 <= a < b < |moved| && Pair(a, b) in lines ==> Close(moved[a], moved[b]) by {
      forall a, b | 0 <= a < b < |moved| && Pair(a, b) in lines
        ensures Close(moved[a], moved[b])
      {
        var k :| 0 <= k < |lines| && lines[k] == Pair(a, b);
      }
    }
    Frame(Scene(sc.surface, moved), lines)
  }

  /** `k` frames in a row, without a resize in between. */
  function Run(sc: Scene, k: nat): (r: Scene)
    decreases k
  {
    if k == 0 then sc else Run(Tick(sc).scene, k - 1)
  }

  /** Frames never create or destroy particles and never change anything but
      their positions; after the first frame every particle is in the box. */
  lemma {:induction false} RunPreservesCollection(sc: Scene, k: nat)
    ensures Run(sc, k).surface == sc.surface
    ensures |Run(sc, k).particles| == |sc.particles|
    ensures forall i :: 0 <= i < |sc.particles| ==> SameAttributes(sc.particles[i], Run(sc, k).particles[i])
    ensures k > 0 ==> Settled(Run(sc, k))
    decreases k
  {
    if k > 0 {
      var next := Tick(sc).scene;
      RunPreservesCollection(next, k - 1);
      if k - 1 == 0 {
        assert Run(sc, k) == next;
      }
    }
  }

  /** Every particle is motionless. */
  predicate Motionless(sc: Scene) {
    forall k :: 0 <= k < |sc.particles| ==> sc.particles[k].speedX == 0.0 && sc.particles[k].speedY == 0.0
  }

  /** A motionless, settled scene is left exactly as it is by every frame. */
  lemma {:induction false} MotionlessSceneIsStill(sc: Scene, k: nat)
    requires Motionless(sc) && Settled(sc)
    ensures Run(sc, k) == sc
    decreases k
  {
    if k > 0 {
      var next := Tick(sc).scene;
      assert next.particles == sc.particles by {
        forall i | 0 <= i < |sc.particles|
          ensures next.particles[i] == sc.particles[i]
        {
          assert Update(sc.particles[i], sc.surface) == sc.particles[i];
        }
      }
      MotionlessSceneIsStill(next, k - 1);
    }
  }

  /** With `speed` 0 every seeded particle is motionless and lies in the box, so
      after a resize the picture never changes. */
  lemma ZeroSpeedResizeIsStill(sc: Scene, cfg: Config, width: nat, height: nat, draws: seq<real>, k: nat)
    requires cfg.speed == 0.0 && AllUnit(draws)
    requires |draws| >= DrawsPerParticle * ParticleCount(Surface(width, height), cfg)
    ensures Run(Resize(sc, cfg, width, height, draws), k) == Resize(sc, cfg, width, height, draws)
  {
    var r := Resize(sc, cfg, width, height, draws);
    assert Motionless(r) && Settled(r) by {
      forall i | 0 <= i < |r.particles|
        ensures r.particles[i].speedX == 0.0 && r.particles[i].speedY == 0.0 && InBox(r.particles[i], r.surface)
      {
        assert Spawned(r.particles[i], r.surface, 0.0);
        SpawnedIsInBox(r.particles[i], r.surface, 0.0);
      }
    }
    MotionlessSceneIsStill(r, k);
  }

  /** Mounting: the effect sizes the canvas and seeds (`resizeCanvas`), then
      draws the first frame (`animate`). */
  function Mount(cfg: Config, width: nat, height: nat, draws: seq<real>): (f: Frame)
    requires |draws| >= DrawsPerParticle * ParticleCount(Surface(width, height), cfg)
    ensures f.scene.surface == Surface(width, height)
    ensures |f.scene.particles| == ParticleCount(Surface(width, height), cfg)
    ensures forall k :: 0 <= k < |f.scene.particles| ==>
              f.scene.particles[k] == Update(Seed(Surface(width, height), cfg, draws)[k], Surface(width, height))
    ensures Settled(f.scene)
    ensures f.lines == ConnectedPairs(f.scene.particles)
  {
    Tick(Resize(Scene(Surface(0, 0), []), cfg, width, height, draws))
  }
}
