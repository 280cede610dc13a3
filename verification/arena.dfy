/**
 * The particle arena (crates/sph/src/arena.rs, repeated in crates/sph/src/lib.rs): one
 * array of `14 * N` floats, exposed as fourteen per-particle fields, each a window of `N`
 * consecutive slots. Field `k` (x = 0, …, p = 13) owns the slots `[k * N, (k + 1) * N)`.
 */
module Arena {

  /** Particles the arena holds. */
  const N: nat := 1000

  /** Per-particle fields stored in the arena. */
  const FieldCount: nat := 14

  /** The fourteen fields, in storage order; `AxPrev`…`AzPrev` are `ax_`…`az_`, the
      accelerations of the previous step. */
  datatype Field = X | Y | Z | Vx | Vy | Vz | Ax | Ay | Az | AxPrev | AyPrev | AzPrev | Rho | P

  /** The window number of a field: the multiplier of `N` in its accessor. */
  function Slot(f: Field): (k: nat)
    ensures k < FieldCount
  {
    match f
    case X => 0 case Y => 1 case Z => 2
    case Vx => 3 case Vy => 4 case Vz => 5
    case Ax => 6 case Ay => 7 case Az => 8
    case AxPrev => 9 case AyPrev => 10 case AzPrev => 11
    case Rho => 12 case P => 13
  }

  /** The field stored in window `k`: the inverse of `Slot`. */
  function FieldAt(k: nat): (f: Field)
    requires k < FieldCount
    ensures Slot(f) == k
  {
    [X, Y, Z, Vx, Vy, Vz, Ax, Ay, Az, AxPrev, AyPrev, AzPrev, Rho, P][k]
  }

  /** `arena_len`: the number of floats in the arena. */
  function ArenaLen(): nat
  {
    N * FieldCount
  }

  /** The arena slot behind element `i` of field `f`. */
  function Index(f: Field, i: nat): (a: nat)
    requires i < N
    ensures Slot(f) * N <= a < (Slot(f) + 1) * N
    ensures a < ArenaLen()
  {
    Slot(f) * N + i
  }

  /** Which field and element an arena slot belongs to. */
  function Locate(a: nat): (r: (Field, nat))
    requires a < ArenaLen()
    ensures r.1 < N && Index(r.0, r.1) == a
  {
    (FieldAt(a / N), a % N)
  }

  /** Distinct fields, or distinct elements of one field, never share a slot: the windows
      are pairwise disjoint. */
  lemma IndexInjective(f: Field, i: nat, g: Field, k: nat)
    requires i < N && k < N
    ensures Index(f, i) == Index(g, k) <==> f == g && i == k
  {
    if Index(f, i) == Index(g, k) {
      assert Slot(f) == Slot(g);
      assert f == FieldAt(Slot(f));
    }
  }

  /** The windows cover the arena exactly: every slot below `arena_len` is element
      `Locate(a).1` of field `Locate(a).0` and of no other field, and every window lies
      inside the arena. */
  lemma WindowsPartitionArena(a: nat)
    requires a < ArenaLen()
    ensures forall f: Field, i: nat :: i < N && Index(f, i) == a ==> (f, i) == Locate(a)
    ensures forall f: Field, i: nat :: i < N ==> Index(f, i) < ArenaLen()
  {
    var (g, k) := Locate(a);
    forall f: Field, i: nat | i < N && Index(f, i) == a
      ensures (f, i) == (g, k)
    {
      IndexInjective(f, i, g, k);
    }
  }

  /** The fourteen values of one particle, as the accessors expose them. */
  datatype Particle = Particle(x: real, y: real, z: real, vx: real, vy: real, vz: real,
                               ax: real, ay: real, az: real,
                               axPrev: real, ayPrev: real, azPrev: real,
                               rho: real, p: real)

  /** The value of field `f` of a particle. */
  function Value(q: Particle, f: Field): real
  {
    match f
    case X => q.x case Y => q.y case Z => q.z
    case Vx => q.vx case Vy => q.vy case Vz => q.vz
    case Ax => q.ax case Ay => q.ay case Az => q.az
    case AxPrev => q.axPrev case AyPrev => q.ayPrev case AzPrev => q.azPrev
    case Rho => q.rho case P => q.p
  }

  /** A particle with field `f` replaced by `v` and every other field kept. */
  function With(q: Particle, f: Field, v: real): (r: Particle)
    ensures Value(r, f) == v
    ensures forall g: Field :: g != f ==> Value(r, g) == Value(q, g)
  {
    match f
    case X => q.(x := v) case Y => q.(y := v) case Z => q.(z := v)
    case Vx => q.(vx := v) case Vy => q.(vy := v) case Vz => q.(vz := v)
    case Ax => q.(ax := v) case Ay => q.(ay := v) case Az => q.(az := v)
    case AxPrev => q.(axPrev := v) case AyPrev => q.(ayPrev := v) case AzPrev => q.(azPrev := v)
    case Rho => q.(rho := v) case P => q.(p := v)
  }

  /** Particle `i` of an arena's contents: element `i` of every window. */
  function ParticleIn(s: seq<real>, i: nat): Particle
    requires |s| == ArenaLen() && i < N
  {
    Particle(s[i], s[N + i], s[2 * N + i], s[3 * N + i], s[4 * N + i], s[5 * N + i],
             s[6 * N + i], s[7 * N + i], s[8 * N + i], s[9 * N + i], s[10 * N + i],
             s[11 * N + i], s[12 * N + i], s[13 * N + i])
  }

  /** Field `f` of particle `i` is the arena slot `Index(f, i)`. */
  lemma ParticleInValue(s: seq<real>, i: nat, f: Field)
    requires |s| == ArenaLen() && i < N
    ensures Value(ParticleIn(s, i), f) == s[Index(f, i)]
  {
    match f
    case X => case Y => case Z => case Vx => case Vy => case Vz => case Ax => case Ay => case Az =>
    case AxPrev => case AyPrev => case AzPrev => case Rho => case P =>
  }

  /** Writing slot `Index(f, i)` sets field `f` of particle `i` and keeps its other fields. */
  lemma WriteUpdatesField(s: seq<real>, f: Field, i: nat, v: real)
    requires |s| == ArenaLen() && i < N
    ensures ParticleIn(s[Index(f, i) := v], i) == With(ParticleIn(s, i), f, v)
  {
    match f
    case X => case Y => case Z => case Vx => case Vy => case Vz => case Ax => case Ay => case Az =>
    case AxPrev => case AyPrev => case AzPrev => case Rho => case P =>
  }

  /** Writing a slot of particle `i` changes no other particle. */
  lemma WriteKeepsOtherParticles(s: seq<real>, f: Field, i: nat, v: real, k: nat)
    requires |s| == ArenaLen() && i < N && k < N && k != i
    ensures ParticleIn(s[Index(f, i) := v], k) == ParticleIn(s, k)
  {
    match f
    case X => case Y => case Z => case Vx => case Vy => case Vz => case Ax => case Ay => case Az =>
    case AxPrev => case AyPrev => case AzPrev => case Rho => case P =>
  }

  /** The arena: one buffer of `arena_len` floats, all zero at start. */
  class Arena {
    var data: array<real>

    ghost predicate Valid()
      reads this
    {
      data.Length == ArenaLen()
    }

    /** The static arena starts as `arena_len` zeros. */
    constructor ()
      ensures Valid() && fresh(data)
      ensures forall a :: 0 <= a < data.Length ==> data[a] == 0.0
    {
      data := new real[ArenaLen()](_ => 0.0);
    }

    /** The accessor of field `f` (`x()`, …, `p()`): its window of `N` elements. */
    function Window(f: Field): (w: seq<real>)
      reads this, data
      requires Valid()
      ensures |w| == N
      ensures forall i :: 0 <= i < N ==> w[i] == data[Index(f, i)]
    {
      data[Slot(f) * N .. (Slot(f) + 1) * N]
    }

    /** Element `i` of field `f`, read through its accessor. */
    function Get(f: Field, i: nat): (v: real)
      reads this, data
      requires Valid() && i < N
      ensures v == Window(f)[i] == Value(ParticleAt(i), f)
    {
      ParticleInValue(data[..], i, f);
      data[Index(f, i)]
    }

    /** Particle `i`. */
    function ParticleAt(i: nat): Particle
      reads this, data
      requires Valid() && i < N
    {
      ParticleIn(data[..], i)
    }

    /** A write `f()[i] = v` through an accessor: it sets field `f` of particle `i` and
        changes no other field of that particle and no other particle. */
    method Set(f: Field, i: nat, v: real)
      requires Valid() && i < N
      modifies data
      ensures Valid()
      ensures ParticleAt(i) == With(old(ParticleAt(i)), f, v)
      ensures forall k: nat :: k < N && k != i ==> ParticleAt(k) == old(ParticleAt(k))
    {
      ghost var s := data[..];
      data[Index(f, i)] := v;
      assert data[..] == s[Index(f, i) := v];
      WriteUpdatesField(s, f, i, v);
      forall k: nat | k < N && k != i
        ensures ParticleAt(k) == old(ParticleAt(k))
      {
        WriteKeepsOtherParticles(s, f, i, v, k);
      }
    }
  }
}
