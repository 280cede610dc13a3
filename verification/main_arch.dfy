/**
 * The early all-pairs prototype (src/main_arch.ts): particles in a 600 x 400 container,
 * densities from a Poly6 kernel over every particle in range, pressure and viscosity forces
 * between distinct particles in range, gravity, a mouse-drag force, forward Euler
 * integration with damped walls, a run/pause toggle and the start-up grid of particles.
 * Meshes, colours, the renderer and the DOM are not modelled; `Math.sqrt` is a parameter.
 */
module MainArch {
  import opened Numeric
  import opened Kernel

  const RestDensity: real := 1000.0
  const GasConstant: real := 2000.0
  const H: real := 16.0
  const H2: real := 16.0 * 16.0
  const Mass: real := 65.0
  const Viscosity: real := 250.0
  const Dt: real := 0.0008
  const BoundDamping: real := -0.5
  const Width: real := 600.0
  const Height: real := 400.0
  const Poly6: real := 315.0 / (64.0 * PI * Pow(16.0, 9))
  const SpikyGrad: real := -45.0 / (PI * Pow(16.0, 6))
  const ViscLap: real := 45.0 / (PI * Pow(16.0, 6))
  /** The square of the drag radius 50. */
  const DragRadius: real := 2500.0

  /** `Math.pow` for a whole exponent. */
  function Pow(x: real, n: nat): real
  {
    if n == 0 then 1.0 else x * Pow(x, n - 1)
  }

  datatype Vec2 = Vec2(x: real, y: real)

  const Zero: Vec2 := Vec2(0.0, 0.0)

  function Add(a: Vec2, b: Vec2): Vec2
  {
    Vec2(a.x + b.x, a.y + b.y)
  }

  function Scale(a: Vec2, k: real): Vec2
  {
    Vec2(k * a.x, k * a.y)
  }

  // ---------------------------------------------------------------------------
  // Interaction

  /** `InteractionState`: whether the pointer is dragging, where it is, and the drag force,
      the pointer's last displacement. */
  class Interaction {
    var isDragging: bool
    var position: Vec2
    var dragForce: Vec2

    /** A drag force is only held during a drag. */
    ghost predicate Consistent()
      reads this
    {
      !isDragging ==> dragForce == Zero
    }

    /** `createInteractionState`: not dragging, at the origin, no force. */
    constructor ()
      ensures !isDragging && position == Zero && dragForce == Zero
      ensures Consistent()
    {
      isDragging := false;
      position := Zero;
      dragForce := Zero;
    }

    /** `startDrag`: dragging from `p`; the force is kept. */
    method StartDrag(p: Vec2)
      modifies this
      ensures isDragging && position == p && dragForce == old(dragForce)
      ensures Consistent()
    {
      isDragging := true;
      position := p;
    }

    /** `updateDrag`: the force becomes the displacement from the last position to `p`, and
        `p` becomes the position. */
    method UpdateDrag(p: Vec2)
      modifies this
      ensures dragForce == Vec2(p.x - old(position).x, p.y - old(position).y)
      ensures position == p && isDragging == old(isDragging)
      ensures Add(old(position), dragForce) == position
    {
      dragForce := Vec2(p.x - position.x, p.y - position.y);
      position := p;
    }

    /** `endDrag`: not dragging and no force; the position is kept. */
    method EndDrag()
      modifies this
      ensures !isDragging && dragForce == Zero && position == old(position)
      ensures Consistent()
    {
      isDragging := false;
      dragForce := Zero;
    }

    /** The move handlers: the drag is only updated while dragging, so the interaction
        stays consistent. */
    method OnMove(p: Vec2)
      requires Consistent()
      modifies this
      ensures old(isDragging) ==> position == p && dragForce == Vec2(p.x - old(position).x, p.y - old(position).y)
      ensures !old(isDragging) ==> position == old(position) && dragForce == old(dragForce)
      ensures isDragging == old(isDragging)
      ensures Consistent()
    {
      if isDragging {
        UpdateDrag(p);
      }
    }
  }

  // ---------------------------------------------------------------------------
  // Particles

  /** A particle without its mesh. */
  datatype Body = Body(position: Vec2, velocity: Vec2, force: Vec2, density: real, pressure: real)

  /** `createParticle`: at `p`, at rest, no force, density and pressure zero. */
  function CreateParticle(p: Vec2): (b: Body)
    ensures b.position == p && b.velocity == Zero && b.force == Zero
    ensures b.density == 0.0 && b.pressure == 0.0
  {
    Body(p, Zero, Zero, 0.0, 0.0)
  }

  /** The squared distance from `a` to `b`. */
  function Dist2(a: Vec2, b: Vec2): real
  {
    (b.x - a.x) * (b.x - a.x) + (b.y - a.y) * (b.y - a.y)
  }

  // ---------------------------------------------------------------------------
  // computeDensityPressure

  /** The Poly6 density contribution of a neighbour at squared distance `r2 < H2`. */
  function Poly6Term(r2: real): real
  {
    Mass * Poly6 * Pow(H2 - r2, 3)
  }

  /** The density a particle at `b` adds to one at `a`: the Poly6 term inside the
      smoothing radius, nothing outside. */
  function Contribution(a: Vec2, b: Vec2): real
  {
    var r2 := Dist2(a, b);
    if r2 < H2 then Poly6Term(r2) else 0.0
  }

  /** The density at `p` from the first `n` particles of `s`. */
  function DensityAt(s: seq<Body>, p: Vec2, n: nat): real
    requires n <= |s|
  {
    if n == 0 then 0.0 else DensityAt(s, p, n - 1) + Contribution(p, s[n - 1].position)
  }

  /** A particle given density `rho` and the pressure of the equation of state. */
  function WithDensity(b: Body, rho: real): Body
  {
    b.(density := rho, pressure := GasConstant * (rho - RestDensity))
  }

  /** The particles after `computeDensityPressure`: each has the density summed over all
      particles, itself included, and the matching pressure. */
  function Densities(s: seq<Body>): (t: seq<Body>)
    ensures |t| == |s|
    ensures forall k :: 0 <= k < |s| ==> t[k] == s[k].(density := t[k].density, pressure := t[k].pressure)
  {
    seq(|s|, k requires 0 <= k < |s| => WithDensity(s[k], DensityAt(s, s[k].position, |s|)))
  }

  /** The inner loop of the density pass, for particle `i`: `i`'s density is summed over
      every particle, then its pressure set; no other particle changes. */
  method AccumulateDensity(ps: array<Body>, i: nat, ghost s: seq<Body>)
    requires i < ps.Length && |s| == ps.Length
    requires forall k :: 0 <= k < ps.Length ==> ps[k].position == s[k].position
    requires ps[i].density == 0.0
    modifies ps
    ensures ps[i] == WithDensity(old(ps[i]), DensityAt(s, s[i].position, |s|))
    ensures forall k :: 0 <= k < ps.Length && k != i ==> ps[k] == old(ps[k])
  {
    for j := 0 to ps.Length
      invariant ps[i] == old(ps[i]).(density := DensityAt(s, s[i].position, j))
      invariant forall k :: 0 <= k < ps.Length && k != i ==> ps[k] == old(ps[k])
    {
      var r2 := Dist2(ps[i].position, ps[j].position);
      if r2 < H2 {
        ps[i] := ps[i].(density := ps[i].density + Poly6Term(r2));
      }
    }
    ps[i] := ps[i].(pressure := GasConstant * (ps[i].density - RestDensity));
  }

  /** `computeDensityPressure`: every density is reset, then summed, and every pressure
      follows from its density. */
  method ComputeDensityPressure(ps: array<Body>)
    modifies ps
    ensures ps[..] == Densities(old(ps[..]))
  {
    for i := 0 to ps.Length
      invariant forall k :: 0 <= k < i ==> ps[k] == old(ps[k]).(density := 0.0)
      invariant forall k :: i <= k < ps.Length ==> ps[k] == old(ps[k])
    {
      ps[i] := ps[i].(density := 0.0);
    }
    ghost var s := old(ps[..]);
    for i := 0 to ps.Length
      invariant forall k :: 0 <= k < i ==> ps[k] == WithDensity(s[k], DensityAt(s, s[k].position, |s|))
      invariant forall k :: i <= k < ps.Length ==> ps[k] == s[k].(density := 0.0)
    {
      AccumulateDensity(ps, i, s);
    }
  }

  /** A positive base has positive whole powers. */
  lemma {:induction false} PowPos(x: real, n: nat)
    requires x > 0.0
    ensures Pow(x, n) > 0.0
  {
    if n > 0 {
      PowPos(x, n - 1);
      MulPos(x, Pow(x, n - 1));
    }
  }

  /** The Poly6 term is positive inside the smoothing radius. */
  lemma Poly6TermPos(r2: real)
    requires r2 < H2
    ensures Poly6Term(r2) > 0.0
  {
    PowPos(16.0, 9);
    MulPos(64.0, PI);
    MulPos(64.0 * PI, Pow(16.0, 9));
    DivPos(315.0, 64.0 * PI * Pow(16.0, 9));
    PowPos(H2 - r2, 3);
    MulPos(Mass, Poly6);
    MulPos(Mass * Poly6, Pow(H2 - r2, 3));
  }

  /** No particle lowers a density, and each particle adds the full Poly6 term at distance
      zero to its own density. */
  lemma ContributionBounds(a: Vec2, b: Vec2)
    ensures Contribution(a, b) >= 0.0
    ensures Contribution(a, a) == Poly6Term(0.0) > 0.0
  {
    if Dist2(a, b) < H2 {
      Poly6TermPos(Dist2(a, b));
    }
    Poly6TermPos(0.0);
  }

  /** Two particles add the same density to each other. */
  lemma ContributionSymmetric(a: Vec2, b: Vec2)
    ensures Contribution(a, b) == Contribution(b, a)
  {
    Square(b.x - a.x, a.x - b.x);
    Square(b.y - a.y, a.y - b.y);
  }

  /** `d * d == e * e` when `e == -d`. */
  lemma Square(d: real, e: real)
    requires e == -d
    ensures d * d == e * e
  {
  }

  /** A density over particles that include the one at `p` is at least that particle's own
      Poly6 term. */
  lemma {:induction false} DensityAtLeastSelf(s: seq<Body>, p: Vec2, n: nat, i: nat)
    requires n <= |s| && i < n && s[i].position == p
    ensures DensityAt(s, p, n) >= Poly6Term(0.0)
  {
    ContributionBounds(p, s[n - 1].position);
    if i < n - 1 {
      DensityAtLeastSelf(s, p, n - 1, i);
    } else {
      DensityNonneg(s, p, n - 1);
    }
  }

  /** Densities are never negative. */
  lemma {:induction false} DensityNonneg(s: seq<Body>, p: Vec2, n: nat)
    requires n <= |s|
    ensures DensityAt(s, p, n) >= 0.0
  {
    if n > 0 {
      DensityNonneg(s, p, n - 1);
      ContributionBounds(p, s[n - 1].position);
    }
  }

  /** After the density pass every particle has a positive density, at least its own Poly6
      term, so the later divisions by density are defined. */
  lemma DensitiesPositive(s: seq<Body>)
    ensures forall k :: 0 <= k < |s| ==> Densities(s)[k].density >= Poly6Term(0.0) > 0.0
  {
    forall k | 0 <= k < |s|
      ensures Densities(s)[k].density >= Poly6Term(0.0)
    {
      DensityAtLeastSelf(s, s[k].position, |s|, k);
    }
    Poly6TermPos(0.0);
  }

  /** A particle with no other particle within the smoothing radius has exactly its own
      Poly6 term as density. */
  lemma {:induction false} IsolatedDensity(s: seq<Body>, p: Vec2, n: nat, i: nat)
    requires n <= |s| && i < |s| && s[i].position == p
    requires forall j :: 0 <= j < |s| && j != i ==> Dist2(p, s[j].position) >= H2
    ensures DensityAt(s, p, n) == if i < n then Poly6Term(0.0) else 0.0
  {
    if n > 0 {
      IsolatedDensity(s, p, n - 1, i);
      ContributionBounds(p, p);
    }
  }

  // ---------------------------------------------------------------------------
  // computeForces

  /** What `computeForces` reads of the interaction. */
  datatype Drag = Drag(isDragging: bool, position: Vec2, dragForce: Vec2)

  /** The unit direction along `d` of length `r`; a zero distance gives no direction. */
  function Direction(d: Vec2, r: real): Vec2
  {
    var factor := if r > 0.0 then 1.0 / r else 0.0;
    Vec2(d.x * factor, d.y * factor)
  }

  /** The pressure force magnitude on `a` from neighbour `b` at distance `r`. */
  function PressureMagnitude(a: Body, b: Body, r: real): real
    requires b.density != 0.0
  {
    -Mass * (a.pressure + b.pressure) / (2.0 * b.density) * SpikyGrad * Pow(H - r, 2)
  }

  /** The viscosity coefficient on `a` from neighbour `b` at distance `r`. */
  function ViscosityMagnitude(b: Body, r: real): real
    requires b.density != 0.0
  {
    Viscosity * Mass * ViscLap * (H - r) / b.density
  }

  /** The force neighbour `b` exerts on `a`: pressure along the direction to `b` plus
      viscosity along the velocity difference, inside the smoothing radius; nothing
      outside. */
  function PairForce(a: Body, b: Body, sqrt: real -> real): Vec2
    requires b.density != 0.0
  {
    var d := Vec2(b.position.x - a.position.x, b.position.y - a.position.y);
    var r2 := Dist2(a.position, b.position);
    if r2 < H2 then
      var r := sqrt(r2);
      var n := Direction(d, r);
      var pf := PressureMagnitude(a, b, r);
      var vf := ViscosityMagnitude(b, r);
      var dv := Vec2(b.velocity.x - a.velocity.x, b.velocity.y - a.velocity.y);
      Add(Scale(n, pf), Scale(dv, vf))
    else Zero
  }

  /** Every density is non-zero. */
  predicate DensitiesNonzero(s: seq<Body>)
  {
    forall k :: 0 <= k < |s| ==> s[k].density != 0.0
  }

  /** The forces on particle `i` from the first `n` particles other than itself. */
  function PairSum(s: seq<Body>, i: nat, n: nat, sqrt: real -> real): Vec2
    requires i < |s| && n <= |s| && DensitiesNonzero(s)
  {
    if n == 0 then Zero
    else if n - 1 == i then PairSum(s, i, n - 1, sqrt)
    else Add(PairSum(s, i, n - 1, sqrt), PairForce(s[i], s[n - 1], sqrt))
  }

  /** The drag force on a particle at `p`: only while dragging and within radius 50 of
      the pointer, fading linearly to zero at the radius. */
  function DragForceOn(p: Vec2, drag: Drag, sqrt: real -> real): Vec2
  {
    if drag.isDragging then
      var r2 := Dist2(p, drag.position);
      if r2 < DragRadius then
        var factor := 1.0 - sqrt(r2) / 50.0;
        DragPull(drag.dragForce, factor)
      else Zero
    else Zero
  }

  /** The drag force scaled by the fading factor and the strength 500. */
  function DragPull(dragForce: Vec2, factor: real): Vec2
  {
    Vec2(dragForce.x * factor * 500.0, dragForce.y * factor * 500.0)
  }

  /** The force on particle `i`: the pair forces, then gravity on y, then the drag. */
  function ForceOn(s: seq<Body>, i: nat, gravity: real, drag: Drag, sqrt: real -> real): Vec2
    requires i < |s| && DensitiesNonzero(s)
  {
    Add(Add(PairSum(s, i, |s|, sqrt), Vec2(0.0, gravity)), DragForceOn(s[i].position, drag, sqrt))
  }

  /** The particles after `computeForces`: every force replaced, nothing else changed. */
  function Forces(s: seq<Body>, gravity: real, drag: Drag, sqrt: real -> real): (t: seq<Body>)
    requires DensitiesNonzero(s)
    ensures |t| == |s|
    ensures forall k :: 0 <= k < |s| ==> t[k] == s[k].(force := t[k].force)
  {
    seq(|s|, k requires 0 <= k < |s| => s[k].(force := ForceOn(s, k, gravity, drag, sqrt)))
  }

  /** The pair force ignores the force either particle already carries. */
  lemma PairForceIgnoresForce(a: Body, b: Body, fa: Vec2, fb: Vec2, sqrt: real -> real)
    requires b.density != 0.0
    ensures PairForce(a.(force := fa), b.(force := fb), sqrt) == PairForce(a, b, sqrt)
  {
  }

  /** The body of the inner loop of `computeForces`, for the pair `(i, j)`. */
  method AddPairForce(ps: array<Body>, i: nat, j: nat, sqrt: real -> real)
    requires i < ps.Length && j < ps.Length && ps[j].density != 0.0
    modifies ps
    ensures ps[i] == old(ps[i]).(force := if i == j then old(ps[i]).force
                                           else Add(old(ps[i]).force, PairForce(old(ps[i]), old(ps[j]), sqrt)))
    ensures forall k :: 0 <= k < ps.Length && k != i ==> ps[k] == old(ps[k])
  {
    if i == j {
      return;
    }
    var a, b := ps[i], ps[j];
    var r2 := Dist2(a.position, b.position);
    if r2 < H2 {
      var r := sqrt(r2);
      var n := Direction(Vec2(b.position.x - a.position.x, b.position.y - a.position.y), r);
      var pressureForce := PressureMagnitude(a, b, r);
      var force := Add(a.force, Scale(n, pressureForce));
      var viscForce := ViscosityMagnitude(b, r);
      force := Add(force, Scale(Vec2(b.velocity.x - a.velocity.x, b.velocity.y - a.velocity.y), viscForce));
      ps[i] := ps[i].(force := force);
    } else {
      ps[i] := ps[i].(force := Add(a.force, Zero));
    }
  }

  /** The per-particle body of `computeForces`: particle `i`, whose force was reset, gets
      the pair forces of every other particle, gravity and the drag. */
  method ForceOnParticle(ps: array<Body>, i: nat, gravity: real, drag: Drag, sqrt: real -> real, ghost s: seq<Body>)
    requires i < ps.Length && |s| == ps.Length && DensitiesNonzero(s)
    requires forall k :: 0 <= k < ps.Length ==> ps[k] == s[k].(force := ps[k].force)
    requires ps[i].force == Zero
    modifies ps
    ensures ps[i] == s[i].(force := ForceOn(s, i, gravity, drag, sqrt))
    ensures forall k :: 0 <= k < ps.Length && k != i ==> ps[k] == old(ps[k])
  {
    for j := 0 to ps.Length
      invariant ps[i] == s[i].(force := PairSum(s, i, j, sqrt))
      invariant forall k :: 0 <= k < ps.Length && k != i ==> ps[k] == old(ps[k])
    {
      PairForceIgnoresForce(s[i], s[j], ps[i].force, ps[j].force, sqrt);
      AddPairForce(ps, i, j, sqrt);
    }
    ps[i] := ps[i].(force := Add(ps[i].force, Vec2(0.0, gravity)));
    ApplyDrag(ps, i, drag, sqrt);
  }

  /** The mouse-interaction part of the per-particle body of `computeForces`. */
  method ApplyDrag(ps: array<Body>, i: nat, drag: Drag, sqrt: real -> real)
    requires i < ps.Length
    modifies ps
    ensures ps[i] == old(ps[i]).(force := Add(old(ps[i]).force, DragForceOn(old(ps[i]).position, drag, sqrt)))
    ensures forall k :: 0 <= k < ps.Length && k != i ==> ps[k] == old(ps[k])
  {
    if drag.isDragging {
      var r2 := Dist2(ps[i].position, drag.position);
      if r2 < DragRadius {
        var factor := 1.0 - sqrt(r2) / 50.0;
        ps[i] := ps[i].(force := Add(ps[i].force, DragPull(drag.dragForce, factor)));
        return;
      }
    }
    ps[i] := ps[i].(force := Add(ps[i].force, Zero));
  }

  /** `computeForces`: every force is reset, then each particle gets the pair forces of
      every other particle in range, gravity on y and, while dragging, the drag. */
  method ComputeForces(ps: array<Body>, gravity: real, interaction: Interaction, sqrt: real -> real)
    requires DensitiesNonzero(ps[..])
    modifies ps
    ensures DensitiesNonzero(old(ps[..]))
    ensures ps[..] == Forces(old(ps[..]), gravity, Drag(interaction.isDragging, interaction.position, interaction.dragForce), sqrt)
  {
    var drag := Drag(interaction.isDragging, interaction.position, interaction.dragForce);
    for i := 0 to ps.Length
      invariant forall k :: 0 <= k < i ==> ps[k] == old(ps[k]).(force := Zero)
      invariant forall k :: i <= k < ps.Length ==> ps[k] == old(ps[k])
    {
      ps[i] := ps[i].(force := Zero);
    }
    ghost var s := old(ps[..]);
    for i := 0 to ps.Length
      invariant forall k :: 0 <= k < i ==> ps[k] == s[k].(force := ForceOn(s, k, gravity, drag, sqrt))
      invariant forall k :: i <= k < ps.Length ==> ps[k] == s[k].(force := Zero)
    {
      ForceOnParticle(ps, i, gravity, drag, sqrt, s);
    }
  }

  /** A neighbour outside the smoothing radius exerts no force, and one at the same spot
      exerts no pressure force, only viscosity: its direction is zero. */
  lemma PairForceCases(a: Body, b: Body, sqrt: real -> real)
    requires b.density != 0.0
    ensures Dist2(a.position, b.position) >= H2 ==> PairForce(a, b, sqrt) == Zero
    ensures a.position == b.position ==>
              PairForce(a, b, sqrt) == Scale(Vec2(b.velocity.x - a.velocity.x, b.velocity.y - a.velocity.y),
                                             ViscosityMagnitude(b, sqrt(0.0)))
  {
    if a.position == b.position {
      assert Dist2(a.position, b.position) == 0.0;
    }
  }

  /** The pair forces on a particle with no other particle within the smoothing radius
      cancel to nothing. */
  lemma {:induction false} PairSumIsolated(s: seq<Body>, i: nat, n: nat, sqrt: real -> real)
    requires i < |s| && n <= |s| && DensitiesNonzero(s)
    requires forall j :: 0 <= j < |s| && j != i ==> Dist2(s[i].position, s[j].position) >= H2
    ensures PairSum(s, i, n, sqrt) == Zero
  {
    if n > 0 {
      PairSumIsolated(s, i, n - 1, sqrt);
      if n - 1 != i {
        PairForceCases(s[i], s[n - 1], sqrt);
      }
    }
  }

  /** Gravity is added exactly once: an isolated particle that is not being dragged feels
      only gravity, on y. The drag only acts while dragging and within radius 50. */
  lemma IsolatedForce(s: seq<Body>, i: nat, gravity: real, drag: Drag, sqrt: real -> real)
    requires i < |s| && DensitiesNonzero(s)
    requires forall j :: 0 <= j < |s| && j != i ==> Dist2(s[i].position, s[j].position) >= H2
    ensures !drag.isDragging || Dist2(s[i].position, drag.position) >= DragRadius ==>
              ForceOn(s, i, gravity, drag, sqrt) == Vec2(0.0, gravity)
  {
    PairSumIsolated(s, i, |s|, sqrt);
  }

  // ---------------------------------------------------------------------------
  // integrateParticles

  /** The two boundary checks of one axis, in order: below `lo` the velocity is damped by
      `BOUND_DAMPING` and the coordinate set to `lo`; then above `hi` the same with `hi`. */
  function Bound(p: real, v: real, lo: real, hi: real): (r: (real, real))
    ensures lo <= hi ==> lo <= r.0 <= hi
    ensures lo <= hi && r.0 != p ==> r.1 == v * BoundDamping
    ensures lo <= p <= hi ==> r == (p, v)
  {
    var (p1, v1) := if p < lo then (lo, v * BoundDamping) else (p, v);
    if p1 > hi then (hi, v1 * BoundDamping) else (p1, v1)
  }

  /** One particle after `integrateParticles`: forward Euler with the new velocity moving
      the position, then the walls of the container. */
  function Integrate(b: Body): (r: Body)
    requires b.density != 0.0
  {
    var v := Vec2(b.velocity.x + Dt * b.force.x / b.density, b.velocity.y + Dt * b.force.y / b.density);
    var p := Vec2(b.position.x + Dt * v.x, b.position.y + Dt * v.y);
    var (x, vx) := Bound(p.x, v.x, -Width / 2.0, Width / 2.0);
    var (y, vy) := Bound(p.y, v.y, -Height / 2.0, Height / 2.0);
    b.(position := Vec2(x, y), velocity := Vec2(vx, vy))
  }

  /** After integration every particle is inside the container, and a component that was
      put back on a wall had its velocity damped by -0.5; the force, density and pressure
      are unchanged. */
  lemma IntegrateInContainer(b: Body)
    requires b.density != 0.0
    ensures var r := Integrate(b);
            -Width / 2.0 <= r.position.x <= Width / 2.0 && -Height / 2.0 <= r.position.y <= Height / 2.0
    ensures var v := Vec2(b.velocity.x + Dt * b.force.x / b.density, b.velocity.y + Dt * b.force.y / b.density);
            var p := Vec2(b.position.x + Dt * v.x, b.position.y + Dt * v.y);
            var r := Integrate(b);
            (r.position.x != p.x ==> r.velocity.x == v.x * BoundDamping) &&
            (r.position.y != p.y ==> r.velocity.y == v.y * BoundDamping) &&
            (r.position == p ==> r.velocity == v)
    ensures Integrate(b).force == b.force && Integrate(b).density == b.density && Integrate(b).pressure == b.pressure
  {
  }

  /** The particles after `integrateParticles`. */
  function Integrated(s: seq<Body>): (t: seq<Body>)
    requires DensitiesNonzero(s)
    ensures |t| == |s|
  {
    seq(|s|, k requires 0 <= k < |s| => Integrate(s[k]))
  }

  /** `integrateParticles`: each particle is integrated and bounded in turn (its mesh and
      colour are not modelled). */
  method IntegrateParticles(ps: array<Body>)
    requires DensitiesNonzero(ps[..])
    modifies ps
    ensures DensitiesNonzero(old(ps[..]))
    ensures ps[..] == Integrated(old(ps[..]))
  {
    for i := 0 to ps.Length
      invariant forall k :: 0 <= k < i ==> ps[k] == Integrate(old(ps[k]))
      invariant forall k :: i <= k < ps.Length ==> ps[k] == old(ps[k])
    {
      IntegrateParticle(ps, i);
    }
  }

  /** The per-particle body of `integrateParticles`: the Euler updates, then the four wall
      checks in order. */
  method IntegrateParticle(ps: array<Body>, i: nat)
    requires i < ps.Length && ps[i].density != 0.0
    modifies ps
    ensures ps[i] == Integrate(old(ps[i]))
    ensures forall k :: 0 <= k < ps.Length && k != i ==> ps[k] == old(ps[k])
  {
    var b := ps[i];
    var velocity := Vec2(b.velocity.x + Dt * b.force.x / b.density, b.velocity.y + Dt * b.force.y / b.density);
    var position := Vec2(b.position.x + Dt * velocity.x, b.position.y + Dt * velocity.y);
    if position.x < -Width / 2.0 {
      velocity := velocity.(x := velocity.x * BoundDamping);
      position := position.(x := -Width / 2.0);
    }
    if position.x > Width / 2.0 {
      velocity := velocity.(x := velocity.x * BoundDamping);
      position := position.(x := Width / 2.0);
    }
    if position.y < -Height / 2.0 {
      velocity := velocity.(y := velocity.y * BoundDamping);
      position := position.(y := -Height / 2.0);
    }
    if position.y > Height / 2.0 {
      velocity := velocity.(y := velocity.y * BoundDamping);
      position := position.(y := Height / 2.0);
    }
    ps[i] := b.(position := position, velocity := velocity);
  }

  // ---------------------------------------------------------------------------
  // The simulation

  /** One `simulationStep` of a running simulation: densities and pressures, then forces,
      then integration. The density pass makes every density positive, so the divisions of
      the later passes are defined. */
  function StepBodies(s: seq<Body>, gravity: real, drag: Drag, sqrt: real -> real): (t: seq<Body>)
    ensures |t| == |s|
  {
    DensitiesPositive(s);
    var d := Densities(s);
    var f := Forces(d, gravity, drag, sqrt);
    Integrated(f)
  }

  /** After a step of a running simulation every particle is inside the container. */
  lemma StepKeepsParticlesInside(s: seq<Body>, gravity: real, drag: Drag, sqrt: real -> real, k: nat)
    requires k < |s|
    ensures var t := StepBodies(s, gravity, drag, sqrt);
            -Width / 2.0 <= t[k].position.x <= Width / 2.0 && -Height / 2.0 <= t[k].position.y <= Height / 2.0
  {
    DensitiesPositive(s);
    var f := Forces(Densities(s), gravity, drag, sqrt);
    IntegrateInContainer(f[k]);
  }

  /** The smallest `r` with `r * r >= n`: `Math.ceil(Math.sqrt(n))` for an exact square root. */
  function CeilSqrt(n: nat): (r: nat)
    ensures r * r >= n
    ensures r == 0 || (r - 1) * (r - 1) < n
  {
    CeilSqrtFrom(n, 0)
  }

  /** The search for `CeilSqrt(n)` from `r` upwards. */
  function CeilSqrtFrom(n: nat, r: nat): (q: nat)
    requires r == 0 || (r - 1) * (r - 1) < n
    ensures q * q >= n
    ensures q == 0 || (q - 1) * (q - 1) < n
    decreases n - r
  {
    if r * r >= n then r
    else
      assert r < n by {
        if r >= n {
          IntMulMono(1, r, r);
        }
      }
      CeilSqrtFrom(n, r + 1)
  }

  const StartX: real := -Width / 2.0 + 50.0
  const StartY: real := -Height / 2.0 + 50.0
  const RegionWidth: real := Width * 0.4

  /** The spacing of the start-up grid: the region width over the particles per row. With
      no particles JavaScript divides by zero, but the value is then never used. */
  function GridSpacing(perRow: nat): real
  {
    if perRow > 0 then RegionWidth / perRow as real else 0.0
  }

  /** The start-up position of particle `i`: row `i / perRow`, column `i % perRow`, each
      coordinate shifted by five times its `Math.random` value. */
  function InitialPosition(i: nat, perRow: nat, jitter: Vec2): Vec2
    requires perRow > 0
  {
    var row := i / perRow;
    var col := i % perRow;
    Vec2(StartX + col as real * GridSpacing(perRow) + jitter.x * 5.0,
         StartY + row as real * GridSpacing(perRow) + jitter.y * 5.0)
  }

  /** Distinct particles sit on distinct grid points. */
  lemma GridPointsDistinct(i: nat, k: nat, perRow: nat)
    requires perRow > 0 && i != k
    ensures (i / perRow, i % perRow) != (k / perRow, k % perRow)
  {
  }

  /** A grid index below `perRow` is less than the region width away from the start. */
  lemma GridOffsetBelowWidth(c: nat, perRow: nat)
    requires c < perRow
    ensures 0.0 <= c as real * GridSpacing(perRow) < RegionWidth
  {
    var sp := GridSpacing(perRow);
    DivMulCancel(RegionWidth, perRow as real);
    MulStrictRight(c as real, perRow as real, sp);
    MulNonneg(c as real, sp);
  }

  /** Every start-up particle, with `Math.random` in `[0, 1)`, lies inside the container, in
      the lower-left part of width and height `0.4 * WIDTH + 5` from `(startX, startY)`: row
      and column are both below `perRow`, as `count <= perRow * perRow`. */
  lemma InitialPositionInside(i: nat, count: nat, jitter: Vec2)
    requires i < count
    requires 0.0 <= jitter.x < 1.0 && 0.0 <= jitter.y < 1.0
    ensures var p := InitialPosition(i, CeilSqrt(count), jitter);
            StartX <= p.x < StartX + RegionWidth + 5.0 && StartY <= p.y < StartY + RegionWidth + 5.0
    ensures var p := InitialPosition(i, CeilSqrt(count), jitter);
            -Width / 2.0 <= p.x <= Width / 2.0 && -Height / 2.0 <= p.y <= Height / 2.0
  {
    RowBelowPerRow(i, count, CeilSqrt(count));
    InitialPositionInRegion(i, CeilSqrt(count), jitter);
  }

  /** The position of a particle whose row is below `perRow` lies in the start-up region. */
  lemma InitialPositionInRegion(i: nat, perRow: nat, jitter: Vec2)
    requires perRow > 0 && i / perRow < perRow
    requires 0.0 <= jitter.x < 1.0 && 0.0 <= jitter.y < 1.0
    ensures var p := InitialPosition(i, perRow, jitter);
            StartX <= p.x < StartX + RegionWidth + 5.0 && StartY <= p.y < StartY + RegionWidth + 5.0
  {
    var sp := GridSpacing(perRow);
    var row, col := i / perRow, i % perRow;
    GridOffsetBelowWidth(col, perRow);
    GridOffsetBelowWidth(row, perRow);
    JitteredBelow(col as real * sp, jitter.x);
    JitteredBelow(row as real * sp, jitter.y);
  }

  /** With `count <= perRow * perRow`, the row of a particle is below `perRow`. */
  lemma RowBelowPerRow(i: nat, count: nat, perRow: nat)
    requires i < count && perRow == CeilSqrt(count)
    ensures perRow > 0 && i / perRow < perRow
  {
    if i / perRow >= perRow {
      IntMulMono(perRow, i / perRow, perRow);
    }
  }

  /** A grid offset below the region width plus five times a random value stays below the
      region width plus five. */
  lemma JitteredBelow(offset: real, r: real)
    requires 0.0 <= offset < RegionWidth && 0.0 <= r < 1.0
    ensures 0.0 <= offset + r * 5.0 < RegionWidth + 5.0
  {
  }

  /** `SimulationState` without the scene, camera and renderer. */
  class Simulation {
    var particles: array<Body>
    var isRunning: bool
    var gravity: real
    const interaction: Interaction

    /** `initParticles`: the old particles are dropped and `count` new ones are created
        at rest on the start-up grid with `perRow = ceil(sqrt(count))`; `jitter` holds the
        `Math.random` values. */
    method InitParticles(count: nat, jitter: seq<Vec2>)
      requires |jitter| == count
      modifies this
      ensures fresh(particles) && particles.Length == count
      ensures forall i :: 0 <= i < count ==>
                particles[i] == CreateParticle(InitialPosition(i, CeilSqrt(count), jitter[i]))
      ensures isRunning == old(isRunning) && gravity == old(gravity)
    {
      var perRow := CeilSqrt(count);
      var ps := new Body[count](_ => CreateParticle(Zero));
      for i := 0 to count
        modifies ps
        invariant forall k :: 0 <= k < i ==> ps[k] == CreateParticle(InitialPosition(k, perRow, jitter[k]))
      {
        ps[i] := CreateParticle(InitialPosition(i, perRow, jitter[i]));
      }
      particles := ps;
    }

    /** `createSimulation`: running, with the given gravity, an idle interaction and the
        start-up grid of `count` particles (150 and 12000 by default). */
    constructor (count: nat, initialGravity: real, jitter: seq<Vec2>)
      requires |jitter| == count
      ensures isRunning && gravity == initialGravity && fresh(interaction)
      ensures !interaction.isDragging && interaction.dragForce == Zero
      ensures fresh(particles) && particles.Length == count
      ensures forall i :: 0 <= i < count ==>
                particles[i] == CreateParticle(InitialPosition(i, CeilSqrt(count), jitter[i]))
    {
      isRunning := true;
      gravity := initialGravity;
      interaction := new Interaction();
      particles := new Body[0];
      new;
      InitParticles(count, jitter);
    }

    /** `simulationStep`: nothing when paused; otherwise the density, force and integration
        passes, with the current gravity and drag. */
    method SimulationStep(sqrt: real -> real)
      modifies particles
      ensures !isRunning ==> particles[..] == old(particles[..])
      ensures isRunning ==> particles[..] == StepBodies(old(particles[..]), gravity,
                              Drag(interaction.isDragging, interaction.position, interaction.dragForce), sqrt)
    {
      if !isRunning {
        return;
      }
      ComputeDensityPressure(particles);
      DensitiesPositive(old(particles[..]));
      ComputeForces(particles, gravity, interaction, sqrt);
      IntegrateParticles(particles);
    }

    /** `toggleSimulation`: running and paused swap, and the new state is returned. */
    method ToggleSimulation() returns (running: bool)
      modifies this
      ensures isRunning == !old(isRunning) && running == isRunning
      ensures particles == old(particles) && gravity == old(gravity)
    {
      isRunning := !isRunning;
      running := isRunning;
    }

    /** `setGravity`. */
    method SetGravity(value: real)
      modifies this
      ensures gravity == value && isRunning == old(isRunning) && particles == old(particles)
    {
      gravity := value;
    }

    /** `resetSimulation`: the start-up grid again, with as many particles as now. */
    method ResetSimulation(jitter: seq<Vec2>)
      requires |jitter| == particles.Length
      modifies this
      ensures fresh(particles) && particles.Length == old(particles.Length)
      ensures forall i :: 0 <= i < particles.Length ==>
                particles[i] == CreateParticle(InitialPosition(i, CeilSqrt(particles.Length), jitter[i]))
      ensures isRunning == old(isRunning) && gravity == old(gravity)
    {
      InitParticles(particles.Length, jitter);
    }

    /** `setParticleCount`: the start-up grid with `count` particles. */
    method SetParticleCount(count: nat, jitter: seq<Vec2>)
      requires |jitter| == count
      modifies this
      ensures fresh(particles) && particles.Length == count
      ensures forall i :: 0 <= i < count ==>
                particles[i] == CreateParticle(InitialPosition(i, CeilSqrt(count), jitter[i]))
      ensures isRunning == old(isRunning) && gravity == old(gravity)
    {
      InitParticles(count, jitter);
    }
  }
}
