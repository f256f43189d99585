# Dretsim particle simulation — a Dafny model

Dretsim's simulation core is the `Simulation` class in `src/simulation.cpp`.
It owns a vector of `Particle {x, y, vx, vy}` records. At construction it
seeds each of the four components of each particle from a uniform
distribution on [-1, 1). Each call of `update_particles(dt)` makes one pass
over the vector, in place. For each particle the pass:

1. adds wind plus noise to `vx`, and gravity plus wind plus noise to `vy`;
2. moves the position by `v * dt`;
3. tests the four walls of the box [-1, 1]^2: a particle at or past a wall
   that is moving outward is put on the wall and its velocity component is
   negated.

Read-only accessors expose the vector, its length and the byte size of one
record.

The model has two modules:

- `Particles` (`particles.dfy`) holds the record as a datatype, the
  constants, and the tick as pure specification functions. `Step` is one
  particle, `UpdateAll` the whole vector, `Seeded` the initial vector and
  `Run` a sequence of ticks. It also holds the lemmas about them.
- `Simulations` (`simulation.dfy`) holds the class `Simulation`. Its vector is
  a `const` array field, so the count is fixed for the object's lifetime.
  Its constructor and the `set_coordinates` and `update_particles` loops
  assign the array elements in place. Each method is proved to produce
  exactly the specification function of its inputs and old state.

The arithmetic is over `real`. The random generator is an oracle. The
constructor receives the `4 * count` seeding draws (x, y, vx, vy per
particle, in particle order), each in [-1, 1). `Update` receives the
`2 * count` noise draws of one tick (vx's, then vy's, per particle, in
particle order). The wind noise distribution draws from the half-open
[-0.01, 0.01) (`src/simulation.cpp:19`). The lemmas that need a bound on
the noise assume the closed [-0.01, 0.01], which contains that range.

Gravity is subtracted once per tick and is not scaled by `dt`
(`src/simulation.cpp:29`). So even a zero step changes `vy`: see
`ZeroStepNotNoOp`. `update_particles` applies no force other than wind and
gravity.

## Model

| member | source | states |
|---|---|---|
| `Simulations.Simulation.constructor` | src/simulation.cpp:15-22 | the vector is freshly allocated, holds exactly `count` particles, particle i is built from draws 4i..4i+3, every component lies in [-1, 1), and every particle starts in the box |
| `Simulations.Simulation.SetCoordinates` | src/simulation.cpp:77-85 | after the loop the vector is exactly `Seeded(draws)`: particle i takes draws 4i, 4i+1, 4i+2, 4i+3 as x, y, vx, vy |
| `Simulations.Simulation.Update` | src/simulation.cpp:25-53 | the new vector is `UpdateAll` of the old vector, dt and the noise; the array, so the count, is unchanged; if dt >= 0 and every particle was in the box, every particle is still in the box |
| `Simulations.Simulation.GetParticles` | src/simulation.cpp:55-57 | a read-only view with one entry per array element, equal to that element |
| `Simulations.Simulation.GetParticleSize` | src/simulation.cpp:59-62 | the record size is a constant: four fields of four bytes each |
| `Simulations.Simulation.GetParticlesCount` | src/simulation.cpp:64-67 | the count is the length of the view `GetParticles` returns |
| `Simulations.Simulation.GetParticlesData` | src/simulation.cpp:69-71 | the result is the object's own storage, it has `GetParticlesCount()` elements and holds exactly the sequence `GetParticles` exposes |
| `Particles.Accelerate` | src/simulation.cpp:28-29 | no contract: the definition of phase 1 (wind and noise on vx; gravity, wind and noise on vy); its properties are stated by `AccelerateDelta` and `AccelerateBounds` |
| `Particles.Move` | src/simulation.cpp:32-33 | no contract: the definition of the position update by the new velocity times dt; stated by `AccelerateDelta` |
| `Particles.BounceRight` | src/simulation.cpp:36-39 | no contract: the definition of the right-wall test; stated by `BounceX` and `StepReflects` |
| `Particles.BounceLeft` | src/simulation.cpp:40-43 | no contract: the definition of the left-wall test; stated by `BounceX` and `StepReflects` |
| `Particles.BounceTop` | src/simulation.cpp:44-47 | no contract: the definition of the top-wall test; stated by `BounceY` and `StepReflects` |
| `Particles.BounceBottom` | src/simulation.cpp:48-51 | no contract: the definition of the bottom-wall test; stated by `BounceY` and `StepReflects` |
| `Particles.Bounce` | src/simulation.cpp:36-51 | no contract: the definition of the four wall tests in the source's order; stated by `BounceX`, `BounceY` and `BounceElastic` |
| `Particles.PreBounce` | src/simulation.cpp:28-33 | no contract: the definition of a particle's state before the wall tests; stated by `AccelerateDelta` |
| `Particles.Step` | src/simulation.cpp:28-51 | no contract: the definition of one tick for one particle; stated by `StepReflects`, `StepNotLeaving`, `StepStaysInBox`, `ZeroStep` and `ZeroStepNotNoOp` |
| `Particles.UpdateAll` | src/simulation.cpp:26 | one pass over the vector never changes the particle count |
| `Particles.Seeded` | src/simulation.cpp:78-84 | the initial vector has one particle per four draws |
| `Particles.Run` | src/simulation.cpp:25-53 | any number of successive ticks keeps the particle count |
| `Particles.UpdateAllAt` | src/simulation.cpp:26-52 | locality: particle i's new state is `Step` of its own old state, dt and noise values 2i and 2i+1 only |
| `Particles.UpdateAllAppend` | src/simulation.cpp:26-52 | the tick consumes the noise stream in particle order, two values per particle: updating `ps + qs` is updating `ps` with the first `2|ps|` values and `qs` with the rest |
| `Particles.SeededAt` | src/simulation.cpp:78-84 | initial particle i is (draws[4i], draws[4i+1], draws[4i+2], draws[4i+3]) |
| `Particles.SeededInRange` | src/simulation.cpp:18 | if the draws come from [-1, 1), every initial x, y, vx and vy lies in [-1, 1) and every initial particle lies in the box |
| `Particles.AccelerateDelta` | src/simulation.cpp:28-33 | before the wall tests of a tick, vx has changed by (WIND_X + n1) * dt, vy by -GRAVITY + (WIND_Y + n2) * dt, and the position has moved by the new velocity times dt |
| `Particles.AccelerateBounds` | src/simulation.cpp:19 | with noise from [-0.01, 0.01] and dt >= 0, the vx change lies in [0.04 dt, 0.06 dt] and the vy change lies in [-GRAVITY - 0.01 dt, -GRAVITY + 0.01 dt] |
| `Particles.BounceX` | src/simulation.cpp:36-43 | on the x walls: at or past x = 1 moving right gives x = 1 and vx negated; at or past x = -1 moving left gives x = -1 and vx negated; otherwise x and vx are unchanged |
| `Particles.BounceY` | src/simulation.cpp:44-51 | the same three cases for the y walls, with y and vy |
| `Particles.BounceElastic` | src/simulation.cpp:36-51 | the wall tests keep the absolute value of vx and of vy |
| `Particles.StepReflects` | src/simulation.cpp:36-51 | for a whole tick, in terms of the post-move state q: hitting each of the four walls while moving outward clamps onto that wall and negates q's component, and a component strictly inside its walls passes through unchanged |
| `Particles.StepNotLeaving` | src/simulation.cpp:36-51 | after any tick, whatever dt is, no particle is at or beyond a wall while moving outward through it |
| `Particles.StepStaysInBox` | src/simulation.cpp:32-51 | a particle in [-1, 1]^2 is still in [-1, 1]^2 after a tick with dt >= 0 |
| `Particles.UpdateAllStaysInBox` | src/simulation.cpp:26-52 | the wall-clamp invariant for a whole pass: every particle in the box and dt >= 0 implies every particle is in the box afterwards |
| `Particles.RunStaysInBox` | src/simulation.cpp:25-53 | the wall-clamp invariant after any number of passes, each with dt >= 0 |
| `Particles.RunAppend` | src/simulation.cpp:25-53 | running two sequences of ticks one after the other is running their concatenation |
| `Particles.ZeroStep` | src/simulation.cpp:29-51 | with dt = 0 a particle in the box keeps its position exactly; vx keeps its absolute value and vy ends with the absolute value of vy - GRAVITY |
| `Particles.ZeroStepNotNoOp` | src/simulation.cpp:29 | with dt = 0 a particle strictly between floor and ceiling ends with vy - GRAVITY, so its state changes |

## Left out

- The random generator (`std::random_device`, `std::mt19937` and the two `uniform_real_distribution` objects) is not modelled. Its outputs are inputs to the constructor and to `Update`. The seeding draws are required to lie in [-1, 1), the range of `dist`. The noise draws are not constrained by `Update`; the lemmas that bound the velocity change assume the closed [-0.01, 0.01], which contains the range of `wind_noise`.
- Float rounding: the arithmetic is over `real`. The clamps, comparisons and negations do not depend on rounding. The sums and products are exact here, while single-precision floats round them. IEEE infinities and NaN are not modelled either. In the float code, a velocity that has overflowed to infinity, times a zero `dt`, makes the position NaN (src/simulation.cpp:32-33). Every comparison with NaN is false, so no wall test fires (src/simulation.cpp:36-51). So in the source, the box invariant proved here for every `dt >= 0` holds only while all values stay finite.
- Negative `count`: `std::vector(count)` would reject it inside the library. The constructor takes a `nat`.
- `sizeof(Particle)` is 16 on the usual platforms: four 4-byte floats, no padding. The model fixes that value.
- `src/main.cpp` is not part of this model. It holds only window, shader and buffer setup and the render loop, and it does not call the simulation.
- `get_particles` returns a const reference to the vector; the model returns its contents as a sequence value. `get_particles_data` returns a pointer to const records; the model returns the object's own array, and nothing in Dafny keeps a caller from writing through it.
