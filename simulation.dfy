/**
 * The `Simulation` object: it owns the particle vector, fills it once at
 * construction and updates it in place, one tick per call of `Update`.
 *
 * The vector's length is fixed at construction, so it is a `const` array
 * field. The random generator is not modelled: the constructor receives the
 * four seeding draws per particle and `Update` the two wind-noise draws per
 * particle that the generator would have produced.
 */
module Simulations {
  import opened Particles

  class Simulation {
    /** The particle vector; its length is the particle count. */
    const particles: array<Particle>

    /**
     * Allocate `count` particles and seed each of them from `draws`
     * (x, y, vx, vy per particle, in particle order).
     */
    constructor (count: nat, draws: seq<real>)
      requires |draws| == 4 * count
      requires DrawsInRange(draws)
      ensures fresh(particles)
      ensures GetParticlesCount() == count
      ensures GetParticles() == Seeded(draws)
      ensures forall i :: 0 <= i < count ==> SeededRecord(particles[i])
      ensures AllInBox(GetParticles())
    {
      particles := new Particle[count](_ => Particle(0.0, 0.0, 0.0, 0.0));
      new;
      SetCoordinates(draws);
      SeededInRange(draws);
    }

    /** Overwrite every particle with the next four draws of the stream. */
    method SetCoordinates(draws: seq<real>)
      requires |draws| == 4 * particles.Length
      modifies particles
      ensures particles[..] == Seeded(draws)
    {
      var i := 0;
      while i < particles.Length
        invariant 0 <= i <= particles.Length
        invariant forall k :: 0 <= k < i ==>
          particles[k] == Particle(draws[4 * k], draws[4 * k + 1], draws[4 * k + 2], draws[4 * k + 3])
      {
        var x := draws[4 * i];
        var y := draws[4 * i + 1];
        var vx := draws[4 * i + 2];
        var vy := draws[4 * i + 3];
        particles[i] := Particle(x, y, vx, vy);
        i := i + 1;
      }
      forall k | 0 <= k < particles.Length
        ensures particles[..][k] == Seeded(draws)[k]
      {
        SeededAt(draws, k);
      }
    }

    /**
     * One tick: every particle, in order, takes two noise values, gets wind
     * and gravity, moves by v * dt and bounces off the walls of [-1, 1]^2.
     */
    method Update(dt: real, noise: seq<real>)
      requires |noise| == 2 * particles.Length
      modifies particles
      ensures GetParticles() == UpdateAll(old(GetParticles()), dt, noise)
      ensures dt >= 0.0 && AllInBox(old(GetParticles())) ==> AllInBox(GetParticles())
    {
      var i := 0;
      while i < particles.Length
        invariant 0 <= i <= particles.Length
        invariant forall k :: 0 <= k < i ==>
          particles[k] == Step(old(particles[k]), dt, noise[2 * k], noise[2 * k + 1])
        invariant forall k :: i <= k < particles.Length ==> particles[k] == old(particles[k])
      {
        var p := particles[i];
        // wind on vx; gravity and wind on vy
        var vx := p.vx + (WIND_X + noise[2 * i]) * dt;
        var vy := p.vy + (-GRAVITY + (WIND_Y + noise[2 * i + 1]) * dt);
        // move
        var x := p.x + vx * dt;
        var y := p.y + vy * dt;
        ghost var q := Particle(x, y, vx, vy);
        assert q == PreBounce(p, dt, noise[2 * i], noise[2 * i + 1]);
        // bounce off the four walls
        if x >= 1.0 && vx > 0.0 {
          x, vx := 1.0, -vx;
        }
        assert Particle(x, y, vx, vy) == BounceRight(q);
        if x <= -1.0 && vx < 0.0 {
          x, vx := -1.0, -vx;
        }
        assert Particle(x, y, vx, vy) == BounceLeft(BounceRight(q));
        if y >= 1.0 && vy > 0.0 {
          y, vy := 1.0, -vy;
        }
        assert Particle(x, y, vx, vy) == BounceTop(BounceLeft(BounceRight(q)));
        if y <= -1.0 && vy < 0.0 {
          y, vy := -1.0, -vy;
        }
        assert Particle(x, y, vx, vy) == Step(p, dt, noise[2 * i], noise[2 * i + 1]);
        particles[i] := Particle(x, y, vx, vy);
        i := i + 1;
      }
      ghost var before := old(particles[..]);
      forall k | 0 <= k < particles.Length
        ensures particles[..][k] == UpdateAll(before, dt, noise)[k]
      {
        UpdateAllAt(before, dt, noise, k);
      }
      if dt >= 0.0 && AllInBox(before) {
        UpdateAllStaysInBox(before, dt, noise);
      }
    }

    /** A read-only view of the particle vector. */
    function GetParticles(): (ps: seq<Particle>)
      reads particles
      ensures |ps| == particles.Length
      ensures forall i :: 0 <= i < |ps| ==> ps[i] == particles[i]
    {
      particles[..]
    }

    /** The byte width of one particle record: four 4-byte floats. */
    function GetParticleSize(): (n: nat)
      ensures n == PARTICLE_FIELDS * FLOAT_BYTES
    {
      16
    }

    /** The number of particles, the length of the vector. */
    function GetParticlesCount(): (n: nat)
      reads particles
      ensures n == |GetParticles()|
    {
      particles.Length
    }

    /** The contiguous buffer itself, holding the same records as `GetParticles`. */
    function GetParticlesData(): (a: array<Particle>)
      reads particles
      ensures a == particles
      ensures a.Length == GetParticlesCount()
      ensures a[..] == GetParticles()
    {
      particles
    }
  }
}
