/**
 * The element-wise step of the TypeScript prototype (src/step.ts): every slot below
 * `NUM_PARTICLES * DIM` is pulled back towards the origin by a spring of stiffness 0.001,
 * velocity first, and then moved by its new velocity. The timestep, the particle count and
 * `DIM`, which the file imports from a constants module that does not export them, are
 * parameters here.
 */
module StepTs {

  /** The new velocity of one slot: a spring of stiffness 0.001 pulls it towards 0. */
  function SpringVelocity(p: real, v: real): real
  {
    v - 0.001 * p
  }

  /** The new position of one slot, moved by its new velocity `v1`. */
  function Move(p: real, v1: real, dt: real): real
  {
    p + v1 * dt
  }

  /** The new position and velocity of one slot. */
  function SlotStep(p: real, v: real, dt: real): (r: (real, real))
  {
    var v1 := SpringVelocity(p, v);
    (Move(p, v1, dt), v1)
  }

  /** A slot at rest at the origin stays there, and the velocity changes only by the pull
      of the old position: it is unchanged exactly when the position is 0. */
  lemma SlotStepFixedPoint(p: real, v: real, dt: real)
    ensures p == 0.0 && v == 0.0 ==> SlotStep(p, v, dt) == (0.0, 0.0)
    ensures SlotStep(p, v, dt).1 == v <==> p == 0.0
    ensures SlotStep(p, v, dt).0 == p + SlotStep(p, v, dt).1 * dt
  {
  }

  /** The pull always points towards the origin: a slot at a positive position loses
      velocity and one at a negative position gains it. */
  lemma SpringPullsBack(p: real, v: real)
    ensures p > 0.0 ==> SpringVelocity(p, v) < v
    ensures p < 0.0 ==> SpringVelocity(p, v) > v
  {
  }

  /** The step run backwards: the old position is the new one moved back by the new
      velocity, and the old velocity adds back the pull of that old position. */
  function SlotUnstep(p1: real, v1: real, dt: real): (real, real)
  {
    var p := p1 - v1 * dt;
    (p, v1 + 0.001 * p)
  }

  /** The step is invertible: undoing it restores the slot, and stepping an undone slot
      gives the slot back. */
  lemma SlotStepInverse(p: real, v: real, dt: real)
    ensures var r := SlotStep(p, v, dt); SlotUnstep(r.0, r.1, dt) == (p, v)
    ensures var u := SlotUnstep(p, v, dt); SlotStep(u.0, u.1, dt) == (p, v)
  {
    MoveBack(p, SpringVelocity(p, v), dt);
    var u := SlotUnstep(p, v, dt);
    assert SpringVelocity(u.0, u.1) == v;
    assert Move(u.0, v, dt) == p;
  }

  /** Moving back by the velocity that moved a slot forward returns it. */
  lemma MoveBack(p: real, v1: real, dt: real)
    ensures SlotUnstep(Move(p, v1, dt), v1, dt) == (p, v1 + 0.001 * p)
  {
  }

  /** The step is area-preserving in the position-velocity plane (its matrix has
      determinant 1): for any two slot states, `p * w - q * v` is the same after the step. */
  lemma SlotStepPreservesArea(p: real, v: real, q: real, w: real, dt: real)
    ensures var a := SlotStep(p, v, dt);
            var b := SlotStep(q, w, dt);
            a.0 * b.1 - b.0 * a.1 == p * w - q * v
  {
    var v1, w1 := v - 0.001 * p, w - 0.001 * q;
    var p1, q1 := p + v1 * dt, q + w1 * dt;
    calc {
      p1 * w1 - q1 * v1;
      (p + v1 * dt) * w1 - (q + w1 * dt) * v1;
      p * w1 - q * v1;
      p * (w - 0.001 * q) - q * (v - 0.001 * p);
      p * w - q * v;
    }
  }

  /** `step`: each slot below `NUM_PARTICLES * DIM` gets its new position and velocity from
      its own old ones, and every slot past them is left as it was. */
  method Step(positions: array<real>, velocities: array<real>, numParticles: nat, dim: nat, dt: real)
    requires positions != velocities
    requires numParticles * dim <= positions.Length && numParticles * dim <= velocities.Length
    modifies positions, velocities
    ensures forall k :: 0 <= k < numParticles * dim ==>
              (positions[k], velocities[k]) == SlotStep(old(positions[k]), old(velocities[k]), dt)
    ensures forall k :: numParticles * dim <= k < positions.Length ==> positions[k] == old(positions[k])
    ensures forall k :: numParticles * dim <= k < velocities.Length ==> velocities[k] == old(velocities[k])
  {
    var arraySize := numParticles * dim;
    for i := 0 to arraySize
      invariant forall k :: 0 <= k < i ==>
                  (positions[k], velocities[k]) == SlotStep(old(positions[k]), old(velocities[k]), dt)
      invariant forall k :: i <= k < positions.Length ==> positions[k] == old(positions[k])
      invariant forall k :: i <= k < velocities.Length ==> velocities[k] == old(velocities[k])
    {
      velocities[i] := SpringVelocity(positions[i], velocities[i]);
      positions[i] := Move(positions[i], velocities[i], dt);
    }
  }
}
