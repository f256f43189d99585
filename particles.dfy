/**
 * The physics of one Dretsim particle, as pure functions over Dafny `real`.
 *
 * A particle is the four-float record {x, y, vx, vy}. One tick of
 * `update_particles` applies, to each particle on its own, three phases:
 * wind and gravity change the velocity, the velocity moves the position, and
 * four wall tests clamp the position to the box [-1, 1]^2 and reverse the
 * velocity component that points out of it. `Step` is that tick for one
 * particle, `UpdateAll` for the whole vector, `Run` for a sequence of ticks.
 *
 * The random source is an oracle: the caller supplies the values it drew.
 */
module Particles {

  /** One particle record: position (x, y) and velocity (vx, vy). */
  datatype Particle = Particle(x: real, y: real, vx: real, vy: real)

  /** Downward velocity change per tick (subtracted once, not scaled by dt). */
  const GRAVITY: real := 0.1
  /** Mean wind acceleration along x and along y. */
  const WIND_X: real := 0.05
  const WIND_Y: real := 0.0
  /**
   * The wind noise distribution draws from [-NOISE_BOUND, NOISE_BOUND);
   * `NoiseValue` allows the closed interval, which contains that range.
   */
  const NOISE_BOUND: real := 0.01
  /** Width in bytes of one float field, and the number of fields of a record. */
  const FLOAT_BYTES: nat := 4
  const PARTICLE_FIELDS: nat := 4

  function Abs(r: real): real
  {
    if r < 0.0 then -r else r
  }

  /** The particle's position lies in the closed box [-1, 1]^2. */
  predicate InBox(p: Particle)
  {
    -1.0 <= p.x <= 1.0 && -1.0 <= p.y <= 1.0
  }

  predicate AllInBox(ps: seq<Particle>)
  {
    forall i :: 0 <= i < |ps| ==> InBox(ps[i])
  }

  /** A value of the seeding distribution: uniform on [-1, 1). */
  predicate InSeedRange(r: real)
  {
    -1.0 <= r < 1.0
  }

  predicate DrawsInRange(draws: seq<real>)
  {
    forall k :: 0 <= k < |draws| ==> InSeedRange(draws[k])
  }

  /** Every component of the record is a value of the seeding distribution. */
  predicate SeededRecord(p: Particle)
  {
    InSeedRange(p.x) && InSeedRange(p.y) && InSeedRange(p.vx) && InSeedRange(p.vy)
  }

  /** A value of the wind noise distribution. */
  predicate NoiseValue(n: real)
  {
    -NOISE_BOUND <= n <= NOISE_BOUND
  }

  // ---------------------------------------------------------------------------
  // One tick for one particle

  /** Phase 1: wind plus noise `n1` on vx; gravity, wind plus noise `n2` on vy. */
  function Accelerate(p: Particle, dt: real, n1: real, n2: real): Particle
  {
    p.(vx := p.vx + (WIND_X + n1) * dt,
       vy := p.vy + (-GRAVITY + (WIND_Y + n2) * dt))
  }

  /** Phase 2: move the position by the (new) velocity times dt. */
  function Move(p: Particle, dt: real): Particle
  {
    p.(x := p.x + p.vx * dt, y := p.y + p.vy * dt)
  }

  /** Phase 3, the four wall tests, applied in the source's order. */
  function BounceRight(p: Particle): Particle
  {
    if p.x >= 1.0 && p.vx > 0.0 then p.(x := 1.0, vx := -p.vx) else p
  }

  function BounceLeft(p: Particle): Particle
  {
    if p.x <= -1.0 && p.vx < 0.0 then p.(x := -1.0, vx := -p.vx) else p
  }

  function BounceTop(p: Particle): Particle
  {
    if p.y >= 1.0 && p.vy > 0.0 then p.(y := 1.0, vy := -p.vy) else p
  }

  function BounceBottom(p: Particle): Particle
  {
    if p.y <= -1.0 && p.vy < 0.0 then p.(y := -1.0, vy := -p.vy) else p
  }

  function Bounce(p: Particle): Particle
  {
    BounceBottom(BounceTop(BounceLeft(BounceRight(p))))
  }

  /** The state of a particle before the wall tests of a tick. */
  function PreBounce(p: Particle, dt: real, n1: real, n2: real): Particle
  {
    Move(Accelerate(p, dt, n1, n2), dt)
  }

  /** One tick of `update_particles` for one particle. */
  function Step(p: Particle, dt: real, n1: real, n2: real): Particle
  {
    Bounce(PreBounce(p, dt, n1, n2))
  }

  // ---------------------------------------------------------------------------
  // The whole vector

  /**
   * One tick over the vector: the particles are visited in order and each
   * takes the next two noise values from the stream, first for vx, then for vy.
   */
  function UpdateAll(ps: seq<Particle>, dt: real, noise: seq<real>): (r: seq<Particle>)
    requires |noise| == 2 * |ps|
    ensures |r| == |ps|
    decreases |ps|
  {
    if ps == [] then []
    else [Step(ps[0], dt, noise[0], noise[1])] + UpdateAll(ps[1..], dt, noise[2..])
  }

  /**
   * The initial vector: each particle takes the next four draws of the stream,
   * in the order x, y, vx, vy.
   */
  function Seeded(draws: seq<real>): (r: seq<Particle>)
    requires |draws| % 4 == 0
    ensures |r| == |draws| / 4
    decreases |draws|
  {
    if draws == [] then []
    else [Particle(draws[0], draws[1], draws[2], draws[3])] + Seeded(draws[4..])
  }

  /** One call of `update_particles`: its dt and the noise it draws. */
  datatype Tick = Tick(dt: real, noise: seq<real>)

  predicate TicksFit(n: nat, ticks: seq<Tick>)
  {
    forall k :: 0 <= k < |ticks| ==> |ticks[k].noise| == 2 * n
  }

  /** A sequence of calls of `update_particles`, the first tick first. */
  function Run(ps: seq<Particle>, ticks: seq<Tick>): (r: seq<Particle>)
    requires TicksFit(|ps|, ticks)
    ensures |r| == |ps|
    decreases |ticks|
  {
    if ticks == [] then ps
    else Run(UpdateAll(ps, ticks[0].dt, ticks[0].noise), ticks[1..])
  }

  // ---------------------------------------------------------------------------
  // Locality and consumption order

  /**
   * Particle i's new state depends only on its own old state, dt and noise
   * values 2i and 2i+1.
   */
  lemma {:induction false} UpdateAllAt(ps: seq<Particle>, dt: real, noise: seq<real>, i: nat)
    requires |noise| == 2 * |ps|
    requires i < |ps|
    ensures UpdateAll(ps, dt, noise)[i] == Step(ps[i], dt, noise[2 * i], noise[2 * i + 1])
  {
    if i > 0 {
      UpdateAllAt(ps[1..], dt, noise[2..], i - 1);
    }
  }

  /**
   * Updating a vector split in two is updating each part with its own slice
   * of the noise stream: one tick consumes exactly two values per particle.
   */
  lemma {:induction false} UpdateAllAppend(ps: seq<Particle>, qs: seq<Particle>, dt: real,
                                            m: seq<real>, n: seq<real>)
    requires |m| == 2 * |ps| && |n| == 2 * |qs|
    ensures UpdateAll(ps + qs, dt, m + n) == UpdateAll(ps, dt, m) + UpdateAll(qs, dt, n)
    decreases |ps|
  {
    if ps != [] {
      assert (ps + qs)[1..] == ps[1..] + qs;
      assert (m + n)[2..] == m[2..] + n;
      UpdateAllAppend(ps[1..], qs, dt, m[2..], n);
    } else {
      assert ps + qs == qs;
      assert m + n == n;
    }
  }

  /** Particle i of the initial vector is built from draws 4i .. 4i+3. */
  lemma {:induction false} SeededAt(draws: seq<real>, i: nat)
    requires |draws| % 4 == 0
    requires i < |draws| / 4
    ensures Seeded(draws)[i] == Particle(draws[4 * i], draws[4 * i + 1], draws[4 * i + 2], draws[4 * i + 3])
  {
    if i > 0 {
      SeededAt(draws[4..], i - 1);
    }
  }

  /** Every initial coordinate and velocity lies in [-1, 1); so every position lies in the box. */
  lemma SeededInRange(draws: seq<real>)
    requires |draws| % 4 == 0
    requires DrawsInRange(draws)
    ensures forall i :: 0 <= i < |Seeded(draws)| ==> SeededRecord(Seeded(draws)[i])
    ensures AllInBox(Seeded(draws))
  {
    forall i | 0 <= i < |Seeded(draws)|
      ensures SeededRecord(Seeded(draws)[i])
    {
      SeededAt(draws, i);
      assert InSeedRange(draws[4 * i]) && InSeedRange(draws[4 * i + 1]);
      assert InSeedRange(draws[4 * i + 2]) && InSeedRange(draws[4 * i + 3]);
    }
  }

  // ---------------------------------------------------------------------------
  // Phase 1: the velocity change

  /**
   * The state of a tick just before the wall tests: the velocity has
   * changed by (WIND_X + n1) * dt along x and by -GRAVITY + (WIND_Y + n2) * dt
   * along y, and the position has moved by the new velocity times dt.
   */
  lemma AccelerateDelta(p: Particle, dt: real, n1: real, n2: real)
    ensures PreBounce(p, dt, n1, n2).vx - p.vx == (WIND_X + n1) * dt
    ensures PreBounce(p, dt, n1, n2).vy - p.vy == -GRAVITY + (WIND_Y + n2) * dt
    ensures PreBounce(p, dt, n1, n2).x == p.x + PreBounce(p, dt, n1, n2).vx * dt
    ensures PreBounce(p, dt, n1, n2).y == p.y + PreBounce(p, dt, n1, n2).vy * dt
  {
  }

  lemma MulMonotone(a: real, b: real, dt: real)
    requires a <= b && dt >= 0.0
    ensures a * dt <= b * dt
  {
    assert b * dt - a * dt == (b - a) * dt;
  }

  /**
   * With noise from the distribution and dt >= 0, the wind pushes vx by
   * between 0.04 dt and 0.06 dt, and vy falls by GRAVITY give or take 0.01 dt.
   */
  lemma AccelerateBounds(p: Particle, dt: real, n1: real, n2: real)
    requires NoiseValue(n1) && NoiseValue(n2) && dt >= 0.0
    ensures 0.04 * dt <= Accelerate(p, dt, n1, n2).vx - p.vx <= 0.06 * dt
    ensures -GRAVITY - 0.01 * dt <= Accelerate(p, dt, n1, n2).vy - p.vy <= -GRAVITY + 0.01 * dt
  {
    MulMonotone(0.04, WIND_X + n1, dt);
    MulMonotone(WIND_X + n1, 0.06, dt);
    MulMonotone(-0.01, WIND_Y + n2, dt);
    MulMonotone(WIND_Y + n2, 0.01, dt);
  }

  // ---------------------------------------------------------------------------
  // Phase 3: the wall tests

  /**
   * Reflection on the x walls: at or past the right wall and moving right,
   * the particle is put on the wall and vx is negated; the same for the left
   * wall; otherwise x and vx are not touched. The x result depends on the
   * pre-bounce x and vx only.
   */
  lemma {:induction false} BounceX(q: Particle)
    ensures q.x >= 1.0 && q.vx > 0.0 ==> Bounce(q).x == 1.0 && Bounce(q).vx == -q.vx
    ensures q.x <= -1.0 && q.vx < 0.0 ==> Bounce(q).x == -1.0 && Bounce(q).vx == -q.vx
    ensures !(q.x >= 1.0 && q.vx > 0.0) && !(q.x <= -1.0 && q.vx < 0.0) ==>
              Bounce(q).x == q.x && Bounce(q).vx == q.vx
  {
    var r := BounceLeft(BounceRight(q));
    assert Bounce(q).x == r.x && Bounce(q).vx == r.vx;
  }

  /** Reflection on the y walls, the same way as on the x walls. */
  lemma {:induction false} BounceY(q: Particle)
    ensures q.y >= 1.0 && q.vy > 0.0 ==> Bounce(q).y == 1.0 && Bounce(q).vy == -q.vy
    ensures q.y <= -1.0 && q.vy < 0.0 ==> Bounce(q).y == -1.0 && Bounce(q).vy == -q.vy
    ensures !(q.y >= 1.0 && q.vy > 0.0) && !(q.y <= -1.0 && q.vy < 0.0) ==>
              Bounce(q).y == q.y && Bounce(q).vy == q.vy
  {
    var r := BounceLeft(BounceRight(q));
    assert r.y == q.y && r.vy == q.vy;
  }

  /** The bounce is elastic: it keeps the speed along each axis. */
  lemma BounceElastic(q: Particle)
    ensures Abs(Bounce(q).vx) == Abs(q.vx) && Abs(Bounce(q).vy) == Abs(q.vy)
  {
    BounceX(q);
    BounceY(q);
  }

  /**
   * Reflection for a whole tick, stated on the state just after the move:
   * wall hits put the particle on the wall and negate the outward component,
   * and every other component leaves the tick as it left phase 2.
   */
  lemma StepReflects(p: Particle, dt: real, n1: real, n2: real)
    ensures var q, r := PreBounce(p, dt, n1, n2), Step(p, dt, n1, n2);
      && (q.x >= 1.0 && q.vx > 0.0 ==> r.x == 1.0 && r.vx == -q.vx)
      && (q.x <= -1.0 && q.vx < 0.0 ==> r.x == -1.0 && r.vx == -q.vx)
      && (q.y >= 1.0 && q.vy > 0.0 ==> r.y == 1.0 && r.vy == -q.vy)
      && (q.y <= -1.0 && q.vy < 0.0 ==> r.y == -1.0 && r.vy == -q.vy)
      && (q.x > -1.0 && q.x < 1.0 ==> r.x == q.x && r.vx == q.vx)
      && (q.y > -1.0 && q.y < 1.0 ==> r.y == q.y && r.vy == q.vy)
  {
    BounceX(PreBounce(p, dt, n1, n2));
    BounceY(PreBounce(p, dt, n1, n2));
  }

  /**
   * After any tick no particle sits at or beyond a wall while moving out
   * through it, whatever dt is.
   */
  lemma StepNotLeaving(p: Particle, dt: real, n1: real, n2: real)
    ensures var r := Step(p, dt, n1, n2);
      && (r.x >= 1.0 ==> r.vx <= 0.0) && (r.x <= -1.0 ==> r.vx >= 0.0)
      && (r.y >= 1.0 ==> r.vy <= 0.0) && (r.y <= -1.0 ==> r.vy >= 0.0)
  {
    BounceX(PreBounce(p, dt, n1, n2));
    BounceY(PreBounce(p, dt, n1, n2));
  }

  // ---------------------------------------------------------------------------
  // The box invariant

  lemma MoveAlongX(x: real, v: real, dt: real)
    requires -1.0 <= x <= 1.0 && dt >= 0.0
    ensures v <= 0.0 ==> x + v * dt <= 1.0
    ensures v >= 0.0 ==> x + v * dt >= -1.0
  {
    if v <= 0.0 { MulMonotone(v, 0.0, dt); }
    if v >= 0.0 { MulMonotone(0.0, v, dt); }
  }

  /** A particle in the box stays in the box over a tick with dt >= 0. */
  lemma StepStaysInBox(p: Particle, dt: real, n1: real, n2: real)
    requires InBox(p) && dt >= 0.0
    ensures InBox(Step(p, dt, n1, n2))
  {
    var a := Accelerate(p, dt, n1, n2);
    var q := PreBounce(p, dt, n1, n2);
    MoveAlongX(p.x, a.vx, dt);
    MoveAlongX(p.y, a.vy, dt);
    assert q.x == p.x + a.vx * dt && q.y == p.y + a.vy * dt;
    BounceX(q);
    BounceY(q);
  }

  /** The wall-clamp invariant for one call of `update_particles`. */
  lemma UpdateAllStaysInBox(ps: seq<Particle>, dt: real, noise: seq<real>)
    requires |noise| == 2 * |ps|
    requires AllInBox(ps) && dt >= 0.0
    ensures AllInBox(UpdateAll(ps, dt, noise))
  {
    forall i | 0 <= i < |ps|
      ensures InBox(UpdateAll(ps, dt, noise)[i])
    {
      UpdateAllAt(ps, dt, noise, i);
      StepStaysInBox(ps[i], dt, noise[2 * i], noise[2 * i + 1]);
    }
  }

  /** The wall-clamp invariant after any number of calls with dt >= 0. */
  lemma {:induction false} RunStaysInBox(ps: seq<Particle>, ticks: seq<Tick>)
    requires TicksFit(|ps|, ticks)
    requires AllInBox(ps)
    requires forall k :: 0 <= k < |ticks| ==> ticks[k].dt >= 0.0
    ensures AllInBox(Run(ps, ticks))
    decreases |ticks|
  {
    if ticks != [] {
      UpdateAllStaysInBox(ps, ticks[0].dt, ticks[0].noise);
      RunStaysInBox(UpdateAll(ps, ticks[0].dt, ticks[0].noise), ticks[1..]);
    }
  }

  /** Running ticks one after the other is running their concatenation. */
  lemma {:induction false} RunAppend(ps: seq<Particle>, t1: seq<Tick>, t2: seq<Tick>)
    requires TicksFit(|ps|, t1 + t2)
    ensures TicksFit(|ps|, t1) && TicksFit(|Run(ps, t1)|, t2)
    ensures Run(ps, t1 + t2) == Run(Run(ps, t1), t2)
    decreases |t1|
  {
    assert forall k :: 0 <= k < |t1| ==> (t1 + t2)[k] == t1[k];
    assert forall k :: 0 <= k < |t2| ==> (t1 + t2)[|t1| + k] == t2[k];
    if t1 == [] {
      assert t1 + t2 == t2;
    } else {
      assert (t1 + t2)[1..] == t1[1..] + t2;
      RunAppend(UpdateAll(ps, t1[0].dt, t1[0].noise), t1[1..], t2);
    }
  }

  // ---------------------------------------------------------------------------
  // A zero time step

  /**
   * With dt = 0 a particle in the box keeps its position, and keeps the
   * speed of vx and of vy - GRAVITY: gravity is applied even at dt = 0.
   */
  lemma ZeroStep(p: Particle, n1: real, n2: real)
    requires InBox(p)
    ensures Step(p, 0.0, n1, n2).x == p.x && Step(p, 0.0, n1, n2).y == p.y
    ensures Abs(Step(p, 0.0, n1, n2).vx) == Abs(p.vx)
    ensures Abs(Step(p, 0.0, n1, n2).vy) == Abs(p.vy - GRAVITY)
  {
    var q := PreBounce(p, 0.0, n1, n2);
    assert q == p.(vy := p.vy - GRAVITY);
    BounceX(q);
    BounceY(q);
    BounceElastic(q);
  }

  /**
   * A zero step is not a no-op: a particle strictly between the floor and the
   * ceiling loses exactly GRAVITY of vy, so its state changes.
   */
  lemma ZeroStepNotNoOp(p: Particle, n1: real, n2: real)
    requires -1.0 < p.y < 1.0
    ensures Step(p, 0.0, n1, n2).vy == p.vy - GRAVITY
    ensures Step(p, 0.0, n1, n2) != p
  {
    var q := PreBounce(p, 0.0, n1, n2);
    assert q == p.(vy := p.vy - GRAVITY);
    BounceY(q);
  }
}
