/**
 * The timestep stages of the Rust solver (crates/sph/src/simulation.rs), each a loop over the
 * `N` particles of the arena, and `update`, which runs them in order. Each stage is specified
 * per particle by a function of the particle's old values.
 */
module Simulation {
  import opened Arena

  /** `GLOBALS.timestep`. */
  const Dt: real := 1.0 / 2000.0
  /** `GLOBALS.box_min` and `GLOBALS.box_max`: the walls, the same on every axis. */
  const BoxMin: real := -1.6
  const BoxMax: real := 1.6
  /** `GLOBALS.gravity`, added to the y-acceleration. */
  const Gravity: real := -200.0
  /** `GLOBALS.dim`: the solver is two-dimensional. */
  const Dim: nat := 2
  /** The constant density `add_densities` adds to every particle. */
  const DensityIncrement: real := 2.1

  // ---------------------------------------------------------------------------
  // Per-particle specification

  /** One coordinate and its velocity after meeting the walls `lo` and `hi`: a coordinate
      below `lo` is put on `lo`, one above `hi` on `hi`, and a moved coordinate has its
      velocity reversed. */
  function ReflectAxis(p: real, v: real, lo: real, hi: real): (r: (real, real))
    ensures lo <= p <= hi ==> r == (p, v)
    ensures r.0 != p ==> r.1 == -v && (r.0 == lo || r.0 == hi)
    ensures lo <= hi ==> lo <= r.0 <= hi
  {
    if p < lo then (lo, v * -1.0)
    else if p > hi then (hi, v * -1.0)
    else (p, v)
  }

  /** Reflecting a reflected coordinate changes nothing. */
  lemma ReflectAxisIdempotent(p: real, v: real, lo: real, hi: real)
    requires lo <= hi
    ensures ReflectAxis(ReflectAxis(p, v, lo, hi).0, ReflectAxis(p, v, lo, hi).1, lo, hi)
            == ReflectAxis(p, v, lo, hi)
  {
    var r := ReflectAxis(p, v, lo, hi);
    assert lo <= r.0 <= hi;
  }

  /** A violated wall is the one the coordinate is clamped to: below `lo` gives `lo`, above
      `hi` gives `hi`. */
  lemma ReflectAxisClampsToViolatedWall(p: real, v: real, lo: real, hi: real)
    requires lo <= hi
    ensures p < lo ==> ReflectAxis(p, v, lo, hi) == (lo, -v)
    ensures p > hi ==> ReflectAxis(p, v, lo, hi) == (hi, -v)
  {
  }

  /** The position half of a leapfrog step: the position advances with the velocity of the
      start of the step and the previous acceleration. */
  function LeapfrogPosition(x: real, v: real, aPrev: real, dt: real): real
  {
    x + (v * dt + 0.5 * aPrev * dt * dt)
  }

  /** The velocity half of a leapfrog step: the velocity advances with the mean of the
      previous and the current acceleration. */
  function LeapfrogVelocity(v: real, aPrev: real, a: real, dt: real): real
  {
    v + 0.5 * (aPrev + a) * dt
  }

  /** One leapfrog step of a coordinate and its velocity. */
  function LeapfrogAxis(x: real, v: real, aPrev: real, a: real, dt: real): (real, real)
  {
    (LeapfrogPosition(x, v, aPrev, dt), LeapfrogVelocity(v, aPrev, a, dt))
  }

  /** Under a constant acceleration the step is time-reversible: stepping back by `-dt`
      from the result returns to the start. */
  lemma LeapfrogReversible(x: real, v: real, acc: real, dt: real)
    ensures LeapfrogVelocity(LeapfrogVelocity(v, acc, acc, dt), acc, acc, -dt) == v
    ensures LeapfrogPosition(LeapfrogPosition(x, v, acc, dt), LeapfrogVelocity(v, acc, acc, dt), acc, -dt) == x
  {
    var w := LeapfrogVelocity(v, acc, acc, dt);
    var ad := acc * dt;
    assert w == v + ad;
    assert w * -dt == -(v * dt) - ad * dt;
    assert 0.5 * acc * -dt * -dt == 0.5 * ad * dt;
    assert 0.5 * acc * dt * dt == 0.5 * ad * dt;
  }

  /** The step is exact for uniform acceleration: the velocity grows by `a dt`, and the
      position by the mean of the start and end velocities times `dt`. */
  lemma LeapfrogUniformAcceleration(x: real, v: real, acc: real, dt: real)
    ensures LeapfrogAxis(x, v, acc, acc, dt).1 - v == acc * dt
    ensures LeapfrogAxis(x, v, acc, acc, dt).0 - x == (v + LeapfrogAxis(x, v, acc, acc, dt).1) / 2.0 * dt
  {
    var w := LeapfrogVelocity(v, acc, acc, dt);
    var ad := acc * dt;
    assert w == v + ad;
    assert (v + w) / 2.0 * dt == v * dt + 0.5 * ad * dt;
    assert 0.5 * acc * dt * dt == 0.5 * ad * dt;
  }

  // ---------------------------------------------------------------------------
  // The stages, one particle at a time

  /** The first loop of `initialize_timestep`: the acceleration becomes the previous one and
      is reset to zero. */
  function SnapshotAcceleration(q: Particle): Particle
  {
    q.(axPrev := q.ax, ayPrev := q.ay, azPrev := q.az, ax := 0.0, ay := 0.0, az := 0.0)
  }

  /** The second loop of `initialize_timestep`: the density is reset to zero. */
  function ResetDensity(q: Particle): Particle
  {
    q.(rho := 0.0)
  }

  /** `add_densities`, for one particle. */
  function AddDensity(q: Particle): Particle
  {
    q.(rho := q.rho + DensityIncrement)
  }

  /** The gravity loop of `update`, for one particle. */
  function AddGravityTo(q: Particle): Particle
  {
    q.(ay := q.ay + Gravity)
  }

  /** The x block of `reflect`, for one particle. */
  function ReflectX(q: Particle): Particle
  {
    var r := ReflectAxis(q.x, q.vx, BoxMin, BoxMax);
    q.(x := r.0, vx := r.1)
  }

  /** The y block of `reflect`, for one particle. */
  function ReflectY(q: Particle): Particle
  {
    var r := ReflectAxis(q.y, q.vy, BoxMin, BoxMax);
    q.(y := r.0, vy := r.1)
  }

  /** The z block of `reflect`, for one particle. */
  function ReflectZ(q: Particle): Particle
  {
    var r := ReflectAxis(q.z, q.vz, BoxMin, BoxMax);
    q.(z := r.0, vz := r.1)
  }

  /** `reflect`, for one particle, in `dim` dimensions: x and y, and z when `dim > 2`. */
  function ReflectParticle(q: Particle, dim: nat): Particle
  {
    var r := ReflectY(ReflectX(q));
    if dim > 2 then ReflectZ(r) else r
  }

  /** `leapfrog`, for one particle: x and y step; z is not advanced. */
  function LeapfrogParticle(q: Particle): Particle
  {
    q.(x := LeapfrogPosition(q.x, q.vx, q.axPrev, Dt), y := LeapfrogPosition(q.y, q.vy, q.ayPrev, Dt),
       vx := LeapfrogVelocity(q.vx, q.axPrev, q.ax, Dt), vy := LeapfrogVelocity(q.vy, q.ayPrev, q.ay, Dt))
  }

  /** `update`, for one particle: the stages in the order `update` runs them. */
  function UpdateParticle(q: Particle): Particle
  {
    LeapfrogParticle(ReflectParticle(AddGravityTo(AddDensity(ResetDensity(SnapshotAcceleration(q)))), Dim))
  }

  // ---------------------------------------------------------------------------
  // Properties of the stages

  /** After `reflect` the reflected coordinates lie between the walls; with `dim = 2`, z
      and its velocity are untouched; the accelerations, density and pressure never
      change. */
  lemma ReflectParticleInBox(q: Particle, dim: nat)
    ensures var r := ReflectParticle(q, dim);
      BoxMin <= r.x <= BoxMax && BoxMin <= r.y <= BoxMax && (dim > 2 ==> BoxMin <= r.z <= BoxMax)
    ensures dim <= 2 ==> ReflectParticle(q, dim).z == q.z && ReflectParticle(q, dim).vz == q.vz
    ensures var r := ReflectParticle(q, dim);
      r.(x := q.x, y := q.y, z := q.z, vx := q.vx, vy := q.vy, vz := q.vz) == q
  {
  }

  /** `reflect` is idempotent. */
  lemma ReflectParticleIdempotent(q: Particle, dim: nat)
    ensures ReflectParticle(ReflectParticle(q, dim), dim) == ReflectParticle(q, dim)
  {
    ReflectAxisIdempotent(q.x, q.vx, BoxMin, BoxMax);
    ReflectAxisIdempotent(q.y, q.vy, BoxMin, BoxMax);
    ReflectAxisIdempotent(q.z, q.vz, BoxMin, BoxMax);
  }

  /** `initialize_timestep` followed by `add_densities` leaves every density at exactly 2.1
      and every acceleration at zero, with the old acceleration kept as the previous one,
      and changes no position, velocity or pressure. */
  lemma InitializeThenAddDensities(q: Particle)
    ensures var r := AddDensity(ResetDensity(SnapshotAcceleration(q)));
      r.rho == 2.1 && r.ax == 0.0 && r.ay == 0.0 && r.az == 0.0 &&
      r.axPrev == q.ax && r.ayPrev == q.ay && r.azPrev == q.az &&
      r.x == q.x && r.y == q.y && r.z == q.z && r.vx == q.vx && r.vy == q.vy && r.vz == q.vz && r.p == q.p
  {
  }

  /** The new state of a particle after `update`, in terms of its old state: the old
      acceleration becomes the previous one; the acceleration is `(0, gravity, 0)` (so this
      is what `reflect` and `leapfrog` see) and the density 2.1; x and y are reflected and
      then take one leapfrog step under the previous and the new acceleration; z, its
      velocity and the pressure keep their values. */
  lemma UpdateParticleState(q: Particle)
    ensures var r := UpdateParticle(q);
      r.axPrev == q.ax && r.ayPrev == q.ay && r.azPrev == q.az &&
      r.ax == 0.0 && r.ay == Gravity && r.az == 0.0 && r.rho == DensityIncrement &&
      r.z == q.z && r.vz == q.vz && r.p == q.p
    ensures var (x, vx) := ReflectAxis(q.x, q.vx, BoxMin, BoxMax);
      var r := UpdateParticle(q);
      r.x == LeapfrogPosition(x, vx, q.ax, Dt) && r.vx == LeapfrogVelocity(vx, q.ax, 0.0, Dt)
    ensures var (y, vy) := ReflectAxis(q.y, q.vy, BoxMin, BoxMax);
      var r := UpdateParticle(q);
      r.y == LeapfrogPosition(y, vy, q.ay, Dt) && r.vy == LeapfrogVelocity(vy, q.ay, Gravity, Dt)
  {
  }

  /** `reflect` runs before `leapfrog`, so `update` can end with a particle outside the
      box: one resting on the upper wall, with zero acceleration and moving outwards at
      1000, ends at x = 2.1. */
  lemma UpdateMayLeaveBox()
    ensures var q := Particle(BoxMax, 0.0, 0.0, 1000.0, 0.0, 0.0, 0.0, 0.0, 0.0, 0.0, 0.0, 0.0, 0.0, 0.0);
      UpdateParticle(q).x == 2.1 > BoxMax
  {
  }

  // ---------------------------------------------------------------------------
  // The stages on the arena

  /** One iteration of the first loop of `initialize_timestep`. */
  method SnapshotParticle(a: Arena, i: nat)
    requires a.Valid() && i < N
    modifies a.data
    ensures a.Valid()
    ensures a.ParticleAt(i) == SnapshotAcceleration(old(a.ParticleAt(i)))
    ensures forall k: nat :: k < N && k != i ==> a.ParticleAt(k) == old(a.ParticleAt(k))
  {
    var axPrev := a.Get(Ax, i);
    var ayPrev := a.Get(Ay, i);
    var azPrev := a.Get(Az, i);
    a.Set(AxPrev, i, axPrev);
    a.Set(AyPrev, i, ayPrev);
    a.Set(AzPrev, i, azPrev);
    a.Set(Ax, i, 0.0);
    a.Set(Ay, i, 0.0);
    a.Set(Az, i, 0.0);
  }

  /** One iteration of the second loop of `initialize_timestep`. */
  method ResetDensityStep(a: Arena, i: nat)
    requires a.Valid() && i < N
    modifies a.data
    ensures a.Valid()
    ensures a.ParticleAt(i) == ResetDensity(old(a.ParticleAt(i)))
    ensures forall k: nat :: k < N && k != i ==> a.ParticleAt(k) == old(a.ParticleAt(k))
  {
    a.Set(Rho, i, 0.0);
  }

  /** `initialize_timestep`: both loops, each over all particles. */
  method InitializeTimestep(a: Arena)
    requires a.Valid()
    modifies a.data
    ensures a.Valid()
    ensures forall i: nat :: i < N ==> a.ParticleAt(i) == ResetDensity(SnapshotAcceleration(old(a.ParticleAt(i))))
  {
    for i := 0 to N
      invariant a.Valid()
      invariant forall k: nat :: k < i ==> a.ParticleAt(k) == SnapshotAcceleration(old(a.ParticleAt(k)))
      invariant forall k: nat :: i <= k < N ==> a.ParticleAt(k) == old(a.ParticleAt(k))
    {
      SnapshotParticle(a, i);
    }
    for i := 0 to N
      invariant a.Valid()
      invariant forall k: nat :: k < i ==> a.ParticleAt(k) == ResetDensity(SnapshotAcceleration(old(a.ParticleAt(k))))
      invariant forall k: nat :: i <= k < N ==> a.ParticleAt(k) == SnapshotAcceleration(old(a.ParticleAt(k)))
    {
      ResetDensityStep(a, i);
    }
  }

  /** One iteration of `add_densities`. */
  method AddDensityStep(a: Arena, i: nat)
    requires a.Valid() && i < N
    modifies a.data
    ensures a.Valid()
    ensures a.ParticleAt(i) == AddDensity(old(a.ParticleAt(i)))
    ensures forall k: nat :: k < N && k != i ==> a.ParticleAt(k) == old(a.ParticleAt(k))
  {
    a.Set(Rho, i, a.Get(Rho, i) + DensityIncrement);
  }

  /** `add_densities`. */
  method AddDensities(a: Arena)
    requires a.Valid()
    modifies a.data
    ensures a.Valid()
    ensures forall i: nat :: i < N ==> a.ParticleAt(i) == AddDensity(old(a.ParticleAt(i)))
  {
    for i := 0 to N
      invariant a.Valid()
      invariant forall k: nat :: k < i ==> a.ParticleAt(k) == AddDensity(old(a.ParticleAt(k)))
      invariant forall k: nat :: i <= k < N ==> a.ParticleAt(k) == old(a.ParticleAt(k))
    {
      AddDensityStep(a, i);
    }
  }

  /** One iteration of the gravity loop of `update`. */
  method AddGravityStep(a: Arena, i: nat)
    requires a.Valid() && i < N
    modifies a.data
    ensures a.Valid()
    ensures a.ParticleAt(i) == AddGravityTo(old(a.ParticleAt(i)))
    ensures forall k: nat :: k < N && k != i ==> a.ParticleAt(k) == old(a.ParticleAt(k))
  {
    a.Set(Ay, i, a.Get(Ay, i) + Gravity);
  }

  /** The gravity loop of `update`. */
  method AddGravity(a: Arena)
    requires a.Valid()
    modifies a.data
    ensures a.Valid()
    ensures forall i: nat :: i < N ==> a.ParticleAt(i) == AddGravityTo(old(a.ParticleAt(i)))
  {
    for i := 0 to N
      invariant a.Valid()
      invariant forall k: nat :: k < i ==> a.ParticleAt(k) == AddGravityTo(old(a.ParticleAt(k)))
      invariant forall k: nat :: i <= k < N ==> a.ParticleAt(k) == old(a.ParticleAt(k))
    {
      AddGravityStep(a, i);
    }
  }

  /** One iteration of `leapfrog`. */
  method LeapfrogStep(a: Arena, i: nat)
    requires a.Valid() && i < N
    modifies a.data
    ensures a.Valid()
    ensures a.ParticleAt(i) == LeapfrogParticle(old(a.ParticleAt(i)))
    ensures forall k: nat :: k < N && k != i ==> a.ParticleAt(k) == old(a.ParticleAt(k))
  {
    var vx := a.Get(Vx, i);
    var vy := a.Get(Vy, i);
    var axPrev := a.Get(AxPrev, i);
    var ayPrev := a.Get(AyPrev, i);
    a.Set(X, i, LeapfrogPosition(a.Get(X, i), vx, axPrev, Dt));
    a.Set(Y, i, LeapfrogPosition(a.Get(Y, i), vy, ayPrev, Dt));
    var ax := a.Get(Ax, i);
    var ay := a.Get(Ay, i);
    a.Set(Vx, i, LeapfrogVelocity(vx, axPrev, ax, Dt));
    a.Set(Vy, i, LeapfrogVelocity(vy, ayPrev, ay, Dt));
  }

  /** `leapfrog`. */
  method Leapfrog(a: Arena)
    requires a.Valid()
    modifies a.data
    ensures a.Valid()
    ensures forall i: nat :: i < N ==> a.ParticleAt(i) == LeapfrogParticle(old(a.ParticleAt(i)))
  {
    for i := 0 to N
      invariant a.Valid()
      invariant forall k: nat :: k < i ==> a.ParticleAt(k) == LeapfrogParticle(old(a.ParticleAt(k)))
      invariant forall k: nat :: i <= k < N ==> a.ParticleAt(k) == old(a.ParticleAt(k))
    {
      LeapfrogStep(a, i);
    }
  }

  /** The x block of one iteration of `reflect`. */
  method ReflectXStep(a: Arena, i: nat)
    requires a.Valid() && i < N
    modifies a.data
    ensures a.Valid()
    ensures a.ParticleAt(i) == ReflectX(old(a.ParticleAt(i)))
    ensures forall k: nat :: k < N && k != i ==> a.ParticleAt(k) == old(a.ParticleAt(k))
  {
    ghost var q := a.ParticleAt(i);
    var px := a.Get(X, i);
    if px < BoxMin {
      a.Set(X, i, BoxMin);
      a.Set(Vx, i, a.Get(Vx, i) * -1.0);
      assert ReflectAxis(q.x, q.vx, BoxMin, BoxMax) == (BoxMin, q.vx * -1.0);
    } else if px > BoxMax {
      a.Set(X, i, BoxMax);
      a.Set(Vx, i, a.Get(Vx, i) * -1.0);
      assert ReflectAxis(q.x, q.vx, BoxMin, BoxMax) == (BoxMax, q.vx * -1.0);
    } else {
      assert ReflectAxis(q.x, q.vx, BoxMin, BoxMax) == (q.x, q.vx);
      assert ReflectX(q) == q;
    }
  }

  /** The y block of one iteration of `reflect`. */
  method ReflectYStep(a: Arena, i: nat)
    requires a.Valid() && i < N
    modifies a.data
    ensures a.Valid()
    ensures a.ParticleAt(i) == ReflectY(old(a.ParticleAt(i)))
    ensures forall k: nat :: k < N && k != i ==> a.ParticleAt(k) == old(a.ParticleAt(k))
  {
    ghost var q := a.ParticleAt(i);
    var py := a.Get(Y, i);
    if py < BoxMin {
      a.Set(Y, i, BoxMin);
      a.Set(Vy, i, a.Get(Vy, i) * -1.0);
      assert ReflectAxis(q.y, q.vy, BoxMin, BoxMax) == (BoxMin, q.vy * -1.0);
    } else if py > BoxMax {
      a.Set(Y, i, BoxMax);
      a.Set(Vy, i, a.Get(Vy, i) * -1.0);
      assert ReflectAxis(q.y, q.vy, BoxMin, BoxMax) == (BoxMax, q.vy * -1.0);
    } else {
      assert ReflectAxis(q.y, q.vy, BoxMin, BoxMax) == (q.y, q.vy);
      assert ReflectY(q) == q;
    }
  }

  /** The z block of one iteration of `reflect`, run only when `dim > 2`. */
  method ReflectZStep(a: Arena, i: nat)
    requires a.Valid() && i < N
    modifies a.data
    ensures a.Valid()
    ensures a.ParticleAt(i) == ReflectZ(old(a.ParticleAt(i)))
    ensures forall k: nat :: k < N && k != i ==> a.ParticleAt(k) == old(a.ParticleAt(k))
  {
    ghost var q := a.ParticleAt(i);
    var pz := a.Get(Z, i);
    if pz < BoxMin {
      a.Set(Z, i, BoxMin);
      a.Set(Vz, i, a.Get(Vz, i) * -1.0);
      assert ReflectAxis(q.z, q.vz, BoxMin, BoxMax) == (BoxMin, q.vz * -1.0);
    } else if pz > BoxMax {
      a.Set(Z, i, BoxMax);
      a.Set(Vz, i, a.Get(Vz, i) * -1.0);
      assert ReflectAxis(q.z, q.vz, BoxMin, BoxMax) == (BoxMax, q.vz * -1.0);
    } else {
      assert ReflectAxis(q.z, q.vz, BoxMin, BoxMax) == (q.z, q.vz);
      assert ReflectZ(q) == q;
    }
  }

  /** One iteration of `reflect`. */
  method ReflectStep(a: Arena, i: nat, dim: nat)
    requires a.Valid() && i < N
    modifies a.data
    ensures a.Valid()
    ensures a.ParticleAt(i) == ReflectParticle(old(a.ParticleAt(i)), dim)
    ensures forall k: nat :: k < N && k != i ==> a.ParticleAt(k) == old(a.ParticleAt(k))
  {
    ReflectXStep(a, i);
    ReflectYStep(a, i);
    if dim > 2 {
      ReflectZStep(a, i);
    }
  }

  /** `reflect`, with the dimension `GLOBALS.dim` as a parameter. */
  method Reflect(a: Arena, dim: nat)
    requires a.Valid()
    modifies a.data
    ensures a.Valid()
    ensures forall i: nat :: i < N ==> a.ParticleAt(i) == ReflectParticle(old(a.ParticleAt(i)), dim)
  {
    for i := 0 to N
      invariant a.Valid()
      invariant forall k: nat :: k < i ==> a.ParticleAt(k) == ReflectParticle(old(a.ParticleAt(k)), dim)
      invariant forall k: nat :: i <= k < N ==> a.ParticleAt(k) == old(a.ParticleAt(k))
    {
      ReflectStep(a, i, dim);
    }
  }

  /** `update`: every particle ends in the state `UpdateParticle` gives for its old state. */
  method Update(a: Arena)
    requires a.Valid()
    modifies a.data
    ensures a.Valid()
    ensures forall i: nat :: i < N ==> a.ParticleAt(i) == UpdateParticle(old(a.ParticleAt(i)))
  {
    InitializeTimestep(a);
    AddDensities(a);
    AddGravity(a);
    Reflect(a, Dim);
    Leapfrog(a);
  }
}
