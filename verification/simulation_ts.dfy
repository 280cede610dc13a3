/**
 * The timestep of the TypeScript prototype (src/simulation.ts): particle `i` owns the three
 * slots `3i .. 3i + 2` of a position array and of a velocity array; a step pulls the
 * y-velocity down by gravity, advances x and y, and bounces every coordinate below `dim`
 * off the walls of the box. `randomize` scatters the particles and zeroes the components
 * at and above `dim`.
 *
 * The timestep, the particle count and `dim`, which the file imports from a constants
 * module that does not export them, are parameters here.
 */
module SimulationTs {
  import Simulation

  const BoxMin: real := -1.6
  const BoxMax: real := 1.6
  const Gravity: real := -1.0

  /** The three slots of a particle, as position or as velocity. */
  datatype Triple = Triple(x: real, y: real, z: real)

  /** Component `j` of a triple. */
  function At(t: Triple, j: nat): real
    requires j < 3
  {
    if j == 0 then t.x else if j == 1 then t.y else t.z
  }

  /** A triple with component `j` replaced by `v`. */
  function WithAt(t: Triple, j: nat, v: real): (r: Triple)
    requires j < 3
    ensures At(r, j) == v
    ensures forall m :: 0 <= m < 3 && m != j ==> At(r, m) == At(t, m)
  {
    if j == 0 then t.(x := v) else if j == 1 then t.(y := v) else t.(z := v)
  }

  /** `p += v * TIMESTEP`. */
  function Move(p: real, v: real, dt: real): real
  {
    p + v * dt
  }

  /** The x and y advance: gravity is added to the y-velocity first, and the new velocities
      move x and y; z is never advanced. */
  function Advance(pos: Triple, vel: Triple, dt: real): (r: (Triple, Triple))
  {
    var vel1 := vel.(y := vel.y + Gravity * dt);
    (pos.(x := Move(pos.x, vel1.x, dt), y := Move(pos.y, vel1.y, dt)), vel1)
  }

  /** One pass of the wall loop: coordinate `j` of the particle, when it lies outside the box,
      is set to the wall it crossed and its velocity negated. A component past the third is
      read as `undefined` from the three-slot view, fails both comparisons, and is left alone. */
  function Wall(pv: (Triple, Triple), j: nat): (r: (Triple, Triple))
  {
    if j < 3 then
      var c := Simulation.ReflectAxis(At(pv.0, j), At(pv.1, j), BoxMin, BoxMax);
      (WithAt(pv.0, j, c.0), WithAt(pv.1, j, c.1))
    else pv
  }

  /** The wall loop after its first `k` passes. */
  function Walls(pv: (Triple, Triple), k: nat): (Triple, Triple)
  {
    if k == 0 then pv else Wall(Walls(pv, k - 1), k - 1)
  }

  /** The step of one particle. */
  function StepParticle(pos: Triple, vel: Triple, dim: nat, dt: real): (Triple, Triple)
  {
    Walls(Advance(pos, vel, dt), dim)
  }

  /** After `k` passes of the wall loop, each coordinate below `k` has been reflected once
      on its own, and every other coordinate is as before. */
  lemma {:induction false} WallsPerAxis(pv: (Triple, Triple), k: nat, j: nat)
    requires j < 3
    ensures j < k ==> (At(Walls(pv, k).0, j), At(Walls(pv, k).1, j))
                      == Simulation.ReflectAxis(At(pv.0, j), At(pv.1, j), BoxMin, BoxMax)
    ensures j >= k ==> At(Walls(pv, k).0, j) == At(pv.0, j) && At(Walls(pv, k).1, j) == At(pv.1, j)
  {
    if k > 0 {
      WallsPerAxis(pv, k - 1, j);
    }
  }

  /** The step of one particle, coordinate by coordinate: the y-velocity gains
      `GRAVITY * TIMESTEP`; x and y move by their new velocities and z stays; then each
      coordinate below `dim` is reflected off the walls, and the others keep their values. */
  lemma StepParticleAxes(pos: Triple, vel: Triple, dim: nat, dt: real, j: nat)
    requires j < 3
    ensures var v := if j == 1 then At(vel, 1) + Gravity * dt else At(vel, j);
            var p := if j < 2 then Move(At(pos, j), v, dt) else At(pos, j);
            (At(StepParticle(pos, vel, dim, dt).0, j), At(StepParticle(pos, vel, dim, dt).1, j))
            == if j < dim then Simulation.ReflectAxis(p, v, BoxMin, BoxMax) else (p, v)
  {
    WallsPerAxis(Advance(pos, vel, dt), dim, j);
  }

  /** After a step every coordinate below `dim` lies in the box; a coordinate that was
      moved back to a wall had its velocity negated, and one inside the box kept its
      velocity. */
  lemma StepParticleInBox(pos: Triple, vel: Triple, dim: nat, dt: real, j: nat)
    requires j < 3 && j < dim
    ensures BoxMin <= At(StepParticle(pos, vel, dim, dt).0, j) <= BoxMax
    ensures var a := Advance(pos, vel, dt);
            var r := StepParticle(pos, vel, dim, dt);
            (At(r.0, j) != At(a.0, j) ==> At(r.1, j) == -At(a.1, j)) &&
            (BoxMin <= At(a.0, j) <= BoxMax ==> At(r.0, j) == At(a.0, j) && At(r.1, j) == At(a.1, j))
  {
    WallsPerAxis(Advance(pos, vel, dt), dim, j);
  }

  /** In two dimensions the z slots are never touched. */
  lemma StepKeepsZ(pos: Triple, vel: Triple, dim: nat, dt: real)
    requires dim <= 2
    ensures StepParticle(pos, vel, dim, dt).0.z == pos.z
    ensures StepParticle(pos, vel, dim, dt).1.z == vel.z
  {
    StepParticleAxes(pos, vel, dim, dt, 2);
  }

  /** The slots `3i .. 3i + 2` of an array's contents: particle `i`. */
  function Slots(s: seq<real>, i: nat): Triple
    requires 3 * i + 3 <= |s|
  {
    Triple(s[3 * i], s[3 * i + 1], s[3 * i + 2])
  }

  /** Writing slot `3i + j` sets component `j` of particle `i`. */
  lemma WriteSlot(s: seq<real>, i: nat, j: nat, v: real)
    requires j < 3 && 3 * i + 3 <= |s|
    ensures Slots(s[3 * i + j := v], i) == WithAt(Slots(s, i), j, v)
  {
  }

  /** The body of the particle loop: the advance of particle `i`. */
  method AdvanceParticle(positions: array<real>, velocities: array<real>, i: nat, dt: real)
    requires positions != velocities
    requires 3 * i + 3 <= positions.Length && 3 * i + 3 <= velocities.Length
    modifies positions, velocities
    ensures (Slots(positions[..], i), Slots(velocities[..], i))
            == Advance(Slots(old(positions[..]), i), Slots(old(velocities[..]), i), dt)
    ensures forall k :: 0 <= k < positions.Length && (k < 3 * i || 3 * i + 3 <= k) ==> positions[k] == old(positions[k])
    ensures forall k :: 0 <= k < velocities.Length && (k < 3 * i || 3 * i + 3 <= k) ==> velocities[k] == old(velocities[k])
  {
    velocities[3 * i + 1] := velocities[3 * i + 1] + Gravity * dt;
    positions[3 * i] := Move(positions[3 * i], velocities[3 * i], dt);
    positions[3 * i + 1] := Move(positions[3 * i + 1], velocities[3 * i + 1], dt);
  }

  /** One pass of the wall loop, on coordinate `j < 3` of particle `i`. */
  method ReflectSlot(positions: array<real>, velocities: array<real>, i: nat, j: nat)
    requires positions != velocities && j < 3
    requires 3 * i + 3 <= positions.Length && 3 * i + 3 <= velocities.Length
    modifies positions, velocities
    ensures (Slots(positions[..], i), Slots(velocities[..], i))
            == Wall((Slots(old(positions[..]), i), Slots(old(velocities[..]), i)), j)
    ensures forall k :: 0 <= k < positions.Length && k != 3 * i + j ==> positions[k] == old(positions[k])
    ensures forall k :: 0 <= k < velocities.Length && k != 3 * i + j ==> velocities[k] == old(velocities[k])
  {
    var at := 3 * i + j;
    if positions[at] < BoxMin {
      positions[at] := BoxMin;
      velocities[at] := velocities[at] * -1.0;
    } else if positions[at] > BoxMax {
      positions[at] := BoxMax;
      velocities[at] := velocities[at] * -1.0;
    }
    WriteSlot(old(positions[..]), i, j, positions[at]);
    WriteSlot(old(velocities[..]), i, j, velocities[at]);
    assert positions[..] == old(positions[..])[at := positions[at]];
    assert velocities[..] == old(velocities[..])[at := velocities[at]];
  }

  /** The wall loop of particle `i`, over the coordinates `0 .. dim`. */
  method ReflectParticle(positions: array<real>, velocities: array<real>, i: nat, dim: nat)
    requires positions != velocities
    requires 3 * i + 3 <= positions.Length && 3 * i + 3 <= velocities.Length
    modifies positions, velocities
    ensures (Slots(positions[..], i), Slots(velocities[..], i))
            == Walls((Slots(old(positions[..]), i), Slots(old(velocities[..]), i)), dim)
    ensures forall k :: 0 <= k < positions.Length && (k < 3 * i || 3 * i + 3 <= k) ==> positions[k] == old(positions[k])
    ensures forall k :: 0 <= k < velocities.Length && (k < 3 * i || 3 * i + 3 <= k) ==> velocities[k] == old(velocities[k])
  {
    ghost var start := (Slots(positions[..], i), Slots(velocities[..], i));
    for j := 0 to dim
      invariant (Slots(positions[..], i), Slots(velocities[..], i)) == Walls(start, j)
      invariant forall k :: 0 <= k < positions.Length && (k < 3 * i || 3 * i + 3 <= k) ==> positions[k] == old(positions[k])
      invariant forall k :: 0 <= k < velocities.Length && (k < 3 * i || 3 * i + 3 <= k) ==> velocities[k] == old(velocities[k])
    {
      if j < 3 {
        ReflectSlot(positions, velocities, i, j);
      }
    }
  }

  /** The body of the particle loop: particle `i` takes one step, and no other slot changes. */
  method StepOne(positions: array<real>, velocities: array<real>, i: nat, dim: nat, dt: real)
    requires positions != velocities
    requires 3 * i + 3 <= positions.Length && 3 * i + 3 <= velocities.Length
    modifies positions, velocities
    ensures (Slots(positions[..], i), Slots(velocities[..], i))
            == StepParticle(Slots(old(positions[..]), i), Slots(old(velocities[..]), i), dim, dt)
    ensures forall k :: 0 <= k < positions.Length && (k < 3 * i || 3 * i + 3 <= k) ==> positions[k] == old(positions[k])
    ensures forall k :: 0 <= k < velocities.Length && (k < 3 * i || 3 * i + 3 <= k) ==> velocities[k] == old(velocities[k])
  {
    AdvanceParticle(positions, velocities, i, dt);
    ReflectParticle(positions, velocities, i, dim);
  }

  /** `step`: every particle below `numParticles` takes one step, and every slot past them is
      left as it was. */
  method Step(positions: array<real>, velocities: array<real>, numParticles: nat, dim: nat, dt: real)
    requires positions != velocities
    requires 3 * numParticles <= positions.Length && 3 * numParticles <= velocities.Length
    modifies positions, velocities
    ensures forall i: nat :: i < numParticles ==>
              (Slots(positions[..], i), Slots(velocities[..], i))
              == StepParticle(Slots(old(positions[..]), i), Slots(old(velocities[..]), i), dim, dt)
    ensures forall k :: 3 * numParticles <= k < positions.Length ==> positions[k] == old(positions[k])
    ensures forall k :: 3 * numParticles <= k < velocities.Length ==> velocities[k] == old(velocities[k])
  {
    for i := 0 to numParticles
      invariant forall m: nat :: m < i ==>
                  (Slots(positions[..], m), Slots(velocities[..], m))
                  == StepParticle(Slots(old(positions[..]), m), Slots(old(velocities[..]), m), dim, dt)
      invariant forall k :: 3 * i <= k < positions.Length ==> positions[k] == old(positions[k])
      invariant forall k :: 3 * i <= k < velocities.Length ==> velocities[k] == old(velocities[k])
    {
      StepOne(positions, velocities, i, dim, dt);
    }
  }

  /** `randomize`, with the values of `Math.random` as inputs: components below `dim` of
      slot `k` get `(randomPos[k] - 0.5) * 2` and `(randomVel[k] - 0.5) * 1`, the others 0.
      Past the third component the first loop would write into the next particle's slots;
      three components at most are modelled. */
  method Randomize(positions: array<real>, velocities: array<real>, numParticles: nat, dim: nat,
                   randomPos: seq<real>, randomVel: seq<real>)
    requires positions != velocities && dim <= 3
    requires 3 * numParticles <= positions.Length && 3 * numParticles <= velocities.Length
    requires |randomPos| == 3 * numParticles && |randomVel| == 3 * numParticles
    modifies positions, velocities
    ensures forall k :: 0 <= k < 3 * numParticles ==>
              positions[k] == (if k % 3 < dim then (randomPos[k] - 0.5) * 2.0 else 0.0) &&
              velocities[k] == (if k % 3 < dim then (randomVel[k] - 0.5) * 1.0 else 0.0)
    ensures forall k :: 3 * numParticles <= k < positions.Length ==> positions[k] == old(positions[k])
    ensures forall k :: 3 * numParticles <= k < velocities.Length ==> velocities[k] == old(velocities[k])
  {
    for i := 0 to numParticles
      invariant forall k :: 0 <= k < 3 * i ==>
                  positions[k] == (if k % 3 < dim then (randomPos[k] - 0.5) * 2.0 else 0.0) &&
                  velocities[k] == (if k % 3 < dim then (randomVel[k] - 0.5) * 1.0 else 0.0)
      invariant forall k :: 3 * i <= k < positions.Length ==> positions[k] == old(positions[k])
      invariant forall k :: 3 * i <= k < velocities.Length ==> velocities[k] == old(velocities[k])
    {
      for j := 0 to dim
        invariant forall k :: 0 <= k < 3 * i + j ==>
                    positions[k] == (if k % 3 < dim then (randomPos[k] - 0.5) * 2.0 else 0.0) &&
                    velocities[k] == (if k % 3 < dim then (randomVel[k] - 0.5) * 1.0 else 0.0)
        invariant forall k :: 3 * i + j <= k < positions.Length ==> positions[k] == old(positions[k])
        invariant forall k :: 3 * i + j <= k < velocities.Length ==> velocities[k] == old(velocities[k])
      {
        positions[3 * i + j] := (randomPos[3 * i + j] - 0.5) * 2.0;
        velocities[3 * i + j] := (randomVel[3 * i + j] - 0.5) * 1.0;
      }
      for j := dim to 3
        invariant forall k :: 0 <= k < 3 * i + j ==>
                    positions[k] == (if k % 3 < dim then (randomPos[k] - 0.5) * 2.0 else 0.0) &&
                    velocities[k] == (if k % 3 < dim then (randomVel[k] - 0.5) * 1.0 else 0.0)
        invariant forall k :: 3 * i + j <= k < positions.Length ==> positions[k] == old(positions[k])
        invariant forall k :: 3 * i + j <= k < velocities.Length ==> velocities[k] == old(velocities[k])
      {
        positions[3 * i + j] := 0.0;
        velocities[3 * i + j] := 0.0;
      }
    }
  }

  /** With `Math.random` in `[0, 1)`, a randomized coordinate lies in `[-1, 1)` and a
      randomized velocity in `[-0.5, 0.5)`; components at and above `dim` are zero. */
  lemma RandomizedRanges(r: real, component: nat, dim: nat)
    requires 0.0 <= r < 1.0
    ensures var x := if component < dim then (r - 0.5) * 2.0 else 0.0;
            -1.0 <= x < 1.0 && (component >= dim ==> x == 0.0)
    ensures var v := if component < dim then (r - 0.5) * 1.0 else 0.0;
            -0.5 <= v < 0.5 && (component >= dim ==> v == 0.0)
  {
  }
}
