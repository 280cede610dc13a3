/**
 * The driver of the TypeScript prototype (src/main.ts): the position and velocity arrays
 * of `NUM_PARTICLES` particles in `DIM` dimensions, filled by `initSimulation`, and the
 * fixed-timestep loop of `animate`, which banks the frame time in an accumulator and runs
 * the element-wise step (src/step.ts) once per `FIXED_DELTA` banked, at most `MAX_STEPS`
 * times a frame.
 */
module MainTs {
  import StepTs

  const NumParticles: nat := 1000
  const Dim: nat := 3
  const FixedDelta: real := 1.0 / 60.0
  const MaxSteps: nat := 5

  /** The state of one slot after `n` steps. */
  function SlotSteps(p: real, v: real, dt: real, n: nat): (real, real)
  {
    if n == 0 then (p, v)
    else
      var r := SlotSteps(p, v, dt, n - 1);
      StepTs.SlotStep(r.0, r.1, dt)
  }

  /** The state of one slot `n` steps back. */
  function SlotUnsteps(p: real, v: real, dt: real, n: nat): (real, real)
    decreases n
  {
    if n == 0 then (p, v)
    else
      var r := StepTs.SlotUnstep(p, v, dt);
      SlotUnsteps(r.0, r.1, dt, n - 1)
  }

  /** `n` steps can be undone one at a time: `n` steps back after `n` steps restore the
      slot, so the simulation loses no information however many frames run. */
  lemma {:induction false} SlotStepsInverse(p: real, v: real, dt: real, n: nat)
    ensures var r := SlotSteps(p, v, dt, n); SlotUnsteps(r.0, r.1, dt, n) == (p, v)
  {
    if n > 0 {
      var r := SlotSteps(p, v, dt, n - 1);
      StepTs.SlotStepInverse(r.0, r.1, dt);
      SlotStepsInverse(p, v, dt, n - 1);
    }
  }

  /** `initSimulation`, with the values of `Math.random` as inputs in call order: the three
      coordinates of particle `i` are `(random[3i + j] - 0.5) * 2` and its three velocity
      components are 0. Every other slot is left as it was. */
  method InitSimulation(pos: array<real>, vel: array<real>, random: seq<real>)
    requires pos != vel
    requires 3 * NumParticles <= pos.Length && 3 * NumParticles <= vel.Length
    requires |random| == 3 * NumParticles
    modifies pos, vel
    ensures forall k :: 0 <= k < 3 * NumParticles ==> pos[k] == (random[k] - 0.5) * 2.0 && vel[k] == 0.0
    ensures forall k :: 3 * NumParticles <= k < pos.Length ==> pos[k] == old(pos[k])
    ensures forall k :: 3 * NumParticles <= k < vel.Length ==> vel[k] == old(vel[k])
  {
    for i := 0 to NumParticles
      invariant forall k :: 0 <= k < 3 * i ==> pos[k] == (random[k] - 0.5) * 2.0 && vel[k] == 0.0
      invariant forall k :: 3 * i <= k < pos.Length ==> pos[k] == old(pos[k])
      invariant forall k :: 3 * i <= k < vel.Length ==> vel[k] == old(vel[k])
    {
      pos[i * 3 + 0] := (random[i * 3 + 0] - 0.5) * 2.0;
      pos[i * 3 + 1] := (random[i * 3 + 1] - 0.5) * 2.0;
      pos[i * 3 + 2] := (random[i * 3 + 2] - 0.5) * 2.0;

      vel[i * 3 + 0] := 0.0;
      vel[i * 3 + 1] := 0.0;
      vel[i * 3 + 2] := 0.0;
    }
  }

  /** The module state of main.ts: the two arrays and the accumulator of unsimulated time. */
  class Driver {
    const positions: array<real>
    const velocities: array<real>
    var accumulator: real

    ghost predicate Valid()
      reads this
    {
      positions != velocities &&
      positions.Length == NumParticles * Dim && velocities.Length == NumParticles * Dim
    }

    /** The module's start: two arrays of `NUM_PARTICLES * DIM` zeros, filled by
        `initSimulation`, and an empty accumulator. */
    constructor (random: seq<real>)
      requires |random| == 3 * NumParticles
      ensures Valid() && fresh(positions) && fresh(velocities) && accumulator == 0.0
      ensures forall k :: 0 <= k < NumParticles * Dim ==>
                positions[k] == (random[k] - 0.5) * 2.0 && velocities[k] == 0.0
    {
      positions := new real[NumParticles * Dim](_ => 0.0);
      velocities := new real[NumParticles * Dim](_ => 0.0);
      accumulator := 0.0;
      new;
      InitSimulation(positions, velocities, random);
    }

    /** The simulation part of `animate`, with the clock's `getDelta` as `frameTime` and the
        step's `TIMESTEP` as `dt`: it runs `steps` steps, at most `MAX_STEPS`, takes exactly
        `FIXED_DELTA` from the accumulator per step, and stops only when less than
        `FIXED_DELTA` is left or the cap is reached. */
    method Animate(frameTime: real, dt: real) returns (steps: nat)
      requires Valid()
      modifies this, positions, velocities
      ensures Valid()
      ensures steps <= MaxSteps
      ensures accumulator == old(accumulator) + frameTime - steps as real * FixedDelta
      ensures steps < MaxSteps ==> accumulator < FixedDelta
      ensures steps > 0 ==> accumulator >= 0.0
      ensures old(accumulator) + frameTime < FixedDelta ==> steps == 0
      ensures forall k :: 0 <= k < NumParticles * Dim ==>
                (positions[k], velocities[k]) == SlotSteps(old(positions[k]), old(velocities[k]), dt, steps)
    {
      accumulator := accumulator + frameTime;
      steps := 0;
      while accumulator >= FixedDelta && steps < MaxSteps
        invariant Valid() && steps <= MaxSteps
        invariant accumulator == old(accumulator) + frameTime - steps as real * FixedDelta
        invariant steps > 0 ==> old(accumulator) + frameTime >= FixedDelta && accumulator >= 0.0
        invariant forall k :: 0 <= k < NumParticles * Dim ==>
                    (positions[k], velocities[k]) == SlotSteps(old(positions[k]), old(velocities[k]), dt, steps)
        decreases MaxSteps - steps
      {
        StepTs.Step(positions, velocities, NumParticles, Dim, dt);
        accumulator := accumulator - FixedDelta;
        steps := steps + 1;
      }
    }
  }

  /** The number of steps a frame runs is the number of whole `FIXED_DELTA`s banked, capped
      at `MAX_STEPS`; when the cap is not reached, what is left is the fraction of a step. */
  lemma StepsAreWholeDeltas(total: real, steps: nat, left: real)
    requires total >= 0.0 && steps <= MaxSteps
    requires left == total - steps as real * FixedDelta
    requires steps > 0 ==> left >= 0.0
    requires steps < MaxSteps ==> left < FixedDelta
    ensures steps == if (total / FixedDelta).Floor < MaxSteps then (total / FixedDelta).Floor else MaxSteps
    ensures steps < MaxSteps ==> 0.0 <= left
  {
    var q := total / FixedDelta;
    assert total == q * FixedDelta;
    if steps < MaxSteps {
      assert steps as real <= q < steps as real + 1.0;
    } else {
      assert q >= MaxSteps as real;
    }
  }
}
