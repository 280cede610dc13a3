/**
 * The solver state (crates/sph/src/state.rs): fourteen per-particle arrays, the grid and
 * the neighbour lists, and the scalar parameters of the solver. The Rust arrays `[f32; N]`
 * are values held inside the struct, so each is a sequence field here.
 */
module SolverState {
  import opened Arena
  import SpatialHash

  /** A particle with every field zero. */
  const Zero: Particle := Particle(0.0, 0.0, 0.0, 0.0, 0.0, 0.0, 0.0, 0.0, 0.0, 0.0, 0.0, 0.0, 0.0, 0.0)

  class State {
    var x: seq<real>
    var y: seq<real>
    var z: seq<real>
    var vx: seq<real>
    var vy: seq<real>
    var vz: seq<real>
    var ax: seq<real>
    var ay: seq<real>
    var az: seq<real>
    var axPrev: seq<real>
    var ayPrev: seq<real>
    var azPrev: seq<real>
    var rho: seq<real>
    var p: seq<real>
    var grid: SpatialHash.Grid
    var cellContents: seq<seq<nat>>
    var pointToCell: seq<nat>
    var neighbors: seq<seq<nat>>
    var particleMass: real
    var invH: real
    var neighborOffsets: seq<nat>
    var invReferenceDensity: real
    var taitB: real

    /** Every per-particle array holds `N` elements, as its type `[f32; N]` fixes. */
    ghost predicate Valid()
      reads this
    {
      |x| == N && |y| == N && |z| == N && |vx| == N && |vy| == N && |vz| == N &&
      |ax| == N && |ay| == N && |az| == N && |axPrev| == N && |ayPrev| == N && |azPrev| == N &&
      |rho| == N && |p| == N
    }

    /** Particle `i`: element `i` of every per-particle array. */
    function ParticleAt(i: nat): Particle
      reads this
      requires Valid() && i < N
    {
      Particle(x[i], y[i], z[i], vx[i], vy[i], vz[i], ax[i], ay[i], az[i],
               axPrev[i], ayPrev[i], azPrev[i], rho[i], p[i])
    }

    /** `State::new` up to its call of `fill_state`: every particle is zero, the grid, the
        cell lists and the neighbour offsets are empty, every particle is in cell 0 with no
        neighbours, and the scalar parameters are zero. */
    constructor ()
      ensures Valid()
      ensures forall i: nat :: i < N ==> ParticleAt(i) == Zero
      ensures grid == SpatialHash.Grid([], []) && cellContents == [] && neighborOffsets == []
      ensures pointToCell == seq(N, _ => 0) && neighbors == seq(N, _ => [])
      ensures particleMass == 0.0 && invH == 0.0 && invReferenceDensity == 0.0 && taitB == 0.0
    {
      var zeros := seq(N, _ => 0.0);
      x, y, z := zeros, zeros, zeros;
      vx, vy, vz := zeros, zeros, zeros;
      ax, ay, az := zeros, zeros, zeros;
      axPrev, ayPrev, azPrev := zeros, zeros, zeros;
      rho, p := zeros, zeros;
      grid := SpatialHash.Grid([], []);
      cellContents := [];
      pointToCell := seq(N, _ => 0);
      neighbors := seq(N, _ => []);
      particleMass, invH := 0.0, 0.0;
      neighborOffsets := [];
      invReferenceDensity, taitB := 0.0, 0.0;
    }

    /** `len`: the number of floats in the fourteen per-particle arrays together, which is
        the length of the arena. */
    function Len(): (n: nat)
      reads this
      ensures Valid() ==> n == |x| + |y| + |z| + |vx| + |vy| + |vz| + |ax| + |ay| + |az| +
                               |axPrev| + |ayPrev| + |azPrev| + |rho| + |p|
      ensures n == ArenaLen()
    {
      N * 14
    }
  }
}
