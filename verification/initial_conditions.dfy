/**
 * The initial placement (crates/sph/src/initial_conditions.rs, repeated in
 * crates/sph/src/lib.rs): particles are laid out at rest in rows of a triangle standing on
 * the bottom of the box, the rows narrowing linearly from the full base width to nothing at
 * the top, and at most `N` particles are written, at consecutive indices from 0.
 */
module InitialConditions {
  import opened Numeric
  import opened Arena

  const BoxMin: real := -1.6
  const BoxMax: real := 1.6
  const DomainWidth: real := BoxMax - BoxMin
  /** The triangle sits 0.1 inside the walls. */
  const BaseY: real := BoxMin + 0.1
  const TopY: real := BoxMax - 0.1
  const TriangleHeight: real := TopY - BaseY
  const BaseWidth: real := DomainWidth - 0.2

  /** `rows`: the rounded-up approximate row count, at least one. The approximate count is
      the square root of `N / (0.5 * aspect_ratio)`, passed in as `approxRows`. */
  function Rows(approxRows: real): (rows: nat)
    ensures rows >= 1
  {
    Max(ToUsize(Ceil(approxRows)), 1)
  }

  /** How far up the triangle row `row` sits, from 0 at the base to 1 at the top. */
  function RowProgress(row: nat, rows: nat): real
  {
    if rows > 1 then row as real / (rows - 1) as real else 0.0
  }

  /** The height of row `row`. */
  function RowY(row: nat, rows: nat): real
  {
    BaseY + RowProgress(row, rows) * TriangleHeight
  }

  /** The width of the triangle at row `row`. */
  function RowWidth(row: nat, rows: nat): real
  {
    BaseWidth * (1.0 - RowProgress(row, rows))
  }

  /** `particles_in_row`: the width measured in row heights times the approximate row count,
      rounded up, at least one. */
  function ParticlesInRow(row: nat, rows: nat, approxRows: real): (n: nat)
    ensures n >= 1
  {
    Max(ToUsize(Ceil(RowWidth(row, rows) / TriangleHeight * approxRows)), 1)
  }

  /** `spacing`: a row of `count` particles spreads them evenly over `width`; a single
      particle has spacing zero. */
  function Spacing(width: real, count: nat): (s: real)
    ensures count == 1 ==> s == 0.0
    ensures count > 1 ==> s * (count - 1) as real == width
  {
    if count > 1 then width / (count - 1) as real else 0.0
  }

  /** The x coordinate of column `col`. */
  function ColX(col: nat, spacing: real): real
  {
    BoxMin + 0.1 + col as real * spacing
  }

  /** One row of the triangle: its height, its number of particles and the spacing of its
      columns. */
  datatype Row = Row(y: real, count: nat, spacing: real)

  /** Row `row` of `rows`. */
  function RowOf(row: nat, rows: nat, approxRows: real): Row
  {
    var count := ParticlesInRow(row, rows, approxRows);
    Row(RowY(row, rows), count, Spacing(RowWidth(row, rows), count))
  }

  /** The rows of the triangle, bottom row first. */
  function Triangle(approxRows: real): (rs: seq<Row>)
    ensures |rs| == Rows(approxRows)
  {
    var rows := Rows(approxRows);
    seq(rows, row requires 0 <= row < rows => RowOf(row, rows, approxRows))
  }

  /** The positions of a row, left to right. */
  function Positions(r: Row): (ps: seq<(real, real)>)
    ensures |ps| == r.count
  {
    seq(r.count, col requires 0 <= col < r.count => (ColX(col, r.spacing), r.y))
  }

  /** The positions of rows `0 .. r`, bottom row first, without the cut at `N`. */
  function Placed(rs: seq<Row>, r: nat): seq<(real, real)>
    requires r <= |rs|
  {
    if r == 0 then [] else Placed(rs, r - 1) + Positions(rs[r - 1])
  }

  /** The positions `fill_arena` writes, in index order: all rows, cut at `N`. */
  function Layout(approxRows: real): (ps: seq<(real, real)>)
    ensures |ps| <= N
  {
    var rs := Triangle(approxRows);
    var all := Placed(rs, |rs|);
    all[..Min(N, |all|)]
  }

  /** A particle at rest at `(x, y)` in the plane `z = 0`: every other field is zero. */
  function AtRest(p: (real, real)): Particle
  {
    Particle(p.0, p.1, 0.0, 0.0, 0.0, 0.0, 0.0, 0.0, 0.0, 0.0, 0.0, 0.0, 0.0, 0.0)
  }

  // ---------------------------------------------------------------------------
  // Properties of the layout

  /** Earlier rows are a prefix of later ones. */
  lemma {:induction false} PlacedPrefix(rs: seq<Row>, r: nat, r2: nat)
    requires r <= r2 <= |rs|
    ensures |Placed(rs, r)| <= |Placed(rs, r2)|
    ensures Placed(rs, r) == Placed(rs, r2)[..|Placed(rs, r)|]
    decreases r2
  {
    if r < r2 {
      PlacedPrefix(rs, r, r2 - 1);
    }
  }

  /** Column `col` of row `row` is position `|Placed(row)| + col` of every longer prefix. */
  lemma PlacedAt(rs: seq<Row>, row: nat, col: nat, r: nat)
    requires row < r <= |rs| && col < rs[row].count
    ensures |Placed(rs, row)| + col < |Placed(rs, r)|
    ensures Placed(rs, r)[|Placed(rs, row)| + col] == (ColX(col, rs[row].spacing), rs[row].y)
  {
    PlacedPrefix(rs, row + 1, r);
    PrefixAt(Placed(rs, row), Positions(rs[row]), Placed(rs, r), col);
  }

  /** Element `col` of the part `b` appended to `a` sits at `|a| + col` of any sequence that
      has `a + b` as a prefix. */
  lemma PrefixAt(a: seq<(real, real)>, b: seq<(real, real)>, whole: seq<(real, real)>, col: nat)
    requires col < |b| && |a + b| <= |whole| && a + b == whole[..|a + b|]
    ensures |a| + col < |whole| && whole[|a| + col] == b[col]
  {
    assert (a + b)[|a| + col] == b[col];
  }

  /** Particle `k` of row `row`, counted from the particles of the rows below it, sits at
      the row's height, `k - start` spacings from the left edge. */
  lemma RowParticleInLayout(rs: seq<Row>, row: nat, start: nat, k: nat)
    requires row < |rs| && start == |Placed(rs, row)|
    requires start <= k < start + rs[row].count
    ensures k < |Placed(rs, |rs|)| && Placed(rs, |rs|)[k] == (ColX(k - start, rs[row].spacing), rs[row].y)
  {
    PlacedAt(rs, row, k - start, |rs|);
  }

  /** Position `|Placed(row)| + col` of the layout, when written, is column `col` of row
      `row`: every particle of a row has the row's height, and its x is `box_min + 0.1 +
      col * spacing`. */
  lemma LayoutRow(approxRows: real, row: nat, col: nat)
    requires row < Rows(approxRows)
    requires col < ParticlesInRow(row, Rows(approxRows), approxRows)
    requires |Placed(Triangle(approxRows), row)| + col < |Layout(approxRows)|
    ensures var rows := Rows(approxRows);
      var spacing := Spacing(RowWidth(row, rows), ParticlesInRow(row, rows, approxRows));
      Layout(approxRows)[|Placed(Triangle(approxRows), row)| + col] == (ColX(col, spacing), RowY(row, rows))
  {
    var rs := Triangle(approxRows);
    assert rs[row] == RowOf(row, Rows(approxRows), approxRows);
    PlacedAt(rs, row, col, |rs|);
  }

  /** Row heights climb from the base to the top of the triangle, and widths shrink from
      the base width to zero: row 0 is the base, the last row (when there are several) the
      apex. */
  lemma RowsSpanTriangle(row: nat, rows: nat)
    requires row < rows
    ensures BaseY <= RowY(row, rows) <= TopY
    ensures 0.0 <= RowWidth(row, rows) <= BaseWidth
    ensures row == 0 ==> RowY(row, rows) == BaseY && RowWidth(row, rows) == BaseWidth
    ensures rows > 1 && row == rows - 1 ==> RowY(row, rows) == TopY && RowWidth(row, rows) == 0.0
  {
    var t := RowProgress(row, rows);
    if rows > 1 {
      DivMulCancel(row as real, (rows - 1) as real);
      assert t * (rows - 1) as real == row as real;
      if t > 1.0 {
        MulStrictRight(1.0, t, (rows - 1) as real);
      }
      if t < 0.0 {
        MulStrictRight(t, 0.0, (rows - 1) as real);
      }
    }
    assert 0.0 <= t <= 1.0;
    MulMono(0.0, t, TriangleHeight);
    MulMono(t, 1.0, TriangleHeight);
    MulMono(0.0, 1.0 - t, BaseWidth);
    MulMono(1.0 - t, 1.0, BaseWidth);
  }

  /** Every column of a row lies between the left edge `box_min + 0.1` and the right end
      of the row. */
  lemma ColumnsSpanRow(col: nat, count: nat, width: real)
    requires col < count && width >= 0.0
    ensures BoxMin + 0.1 <= ColX(col, Spacing(width, count)) <= BoxMin + 0.1 + width
  {
    var s := Spacing(width, count);
    if count > 1 {
      assert s >= 0.0 by {
        if s < 0.0 {
          MulStrictRight(s, 0.0, (count - 1) as real);
        }
      }
      MulMonoRight(col as real, (count - 1) as real, s);
      MulNonneg(col as real, s);
    }
  }

  /** Every position of the layout lies inside the box, 0.1 from the walls. */
  lemma LayoutInsideBox(approxRows: real, k: nat)
    requires k < |Layout(approxRows)|
    ensures BoxMin + 0.1 <= Layout(approxRows)[k].0 <= BoxMax - 0.1
    ensures BoxMin + 0.1 <= Layout(approxRows)[k].1 <= BoxMax - 0.1
  {
    var rows := Rows(approxRows);
    var rs := Triangle(approxRows);
    var row, col := LocateInRows(rs, |rs|, k);
    assert rs[row] == RowOf(row, rows, approxRows);
    LayoutRow(approxRows, row, col);
    RowsSpanTriangle(row, rows);
    ColumnsSpanRow(col, ParticlesInRow(row, rows, approxRows), RowWidth(row, rows));
  }

  /** The row and column of position `k` of the first `r` rows. */
  lemma {:induction false} LocateInRows(rs: seq<Row>, r: nat, k: nat) returns (row: nat, col: nat)
    requires r <= |rs| && k < |Placed(rs, r)|
    ensures row < r && col < rs[row].count
    ensures k == |Placed(rs, row)| + col
    decreases r
  {
    var before := Placed(rs, r - 1);
    if k < |before| {
      row, col := LocateInRows(rs, r - 1, k);
    } else {
      row, col := r - 1, k - |before|;
    }
  }

  // ---------------------------------------------------------------------------
  // The loop

  /** The body of the column loop: particle `k` is placed at rest at `p`. */
  method PlaceParticle(a: Arena, k: nat, p: (real, real))
    requires a.Valid() && k < N
    modifies a.data
    ensures a.Valid()
    ensures a.ParticleAt(k) == AtRest(p)
    ensures forall j: nat :: j < N && j != k ==> a.ParticleAt(j) == old(a.ParticleAt(j))
  {
    PlacePosition(a, k, p);
    ClearDynamics(a, k);
  }

  /** The first writes of the column loop body: position `(x, y, 0)` and zero velocity. */
  method PlacePosition(a: Arena, k: nat, p: (real, real))
    requires a.Valid() && k < N
    modifies a.data
    ensures a.Valid()
    ensures a.ParticleAt(k) == old(a.ParticleAt(k)).(x := p.0, y := p.1, z := 0.0, vx := 0.0, vy := 0.0, vz := 0.0)
    ensures forall j: nat :: j < N && j != k ==> a.ParticleAt(j) == old(a.ParticleAt(j))
  {
    a.Set(X, k, p.0);
    a.Set(Y, k, p.1);
    a.Set(Z, k, 0.0);
    a.Set(Vx, k, 0.0);
    a.Set(Vy, k, 0.0);
    a.Set(Vz, k, 0.0);
  }

  /** The remaining writes of the column loop body: zero acceleration, previous
      acceleration, density and pressure. */
  method ClearDynamics(a: Arena, k: nat)
    requires a.Valid() && k < N
    modifies a.data
    ensures a.Valid()
    ensures a.ParticleAt(k) == old(a.ParticleAt(k)).(ax := 0.0, ay := 0.0, az := 0.0, axPrev := 0.0,
                                                    ayPrev := 0.0, azPrev := 0.0, rho := 0.0, p := 0.0)
    ensures forall j: nat :: j < N && j != k ==> a.ParticleAt(j) == old(a.ParticleAt(j))
  {
    a.Set(Ax, k, 0.0);
    a.Set(Ay, k, 0.0);
    a.Set(Az, k, 0.0);
    a.Set(AxPrev, k, 0.0);
    a.Set(AyPrev, k, 0.0);
    a.Set(AzPrev, k, 0.0);
    a.Set(Rho, k, 0.0);
    a.Set(P, k, 0.0);
  }

  /** The column loop: `count` particles of one row, at height `y` and `spacing` apart, are
      placed at rest from index `start` on, until the arena is full. */
  method FillRow(a: Arena, start: nat, count: nat, spacing: real, y: real) returns (next: nat)
    requires a.Valid() && start <= N
    modifies a.data
    ensures a.Valid()
    ensures next == Min(N, start + count)
    ensures forall k: nat :: start <= k < next ==> a.ParticleAt(k) == AtRest((ColX(k - start, spacing), y))
    ensures forall k: nat :: (k < start || next <= k) && k < N ==> a.ParticleAt(k) == old(a.ParticleAt(k))
  {
    next := start;
    for col := 0 to count
      invariant next == Min(N, start + col)
      invariant a.Valid()
      invariant forall k: nat :: start <= k < next ==> a.ParticleAt(k) == AtRest((ColX(k - start, spacing), y))
      invariant forall k: nat :: (k < start || next <= k) && k < N ==> a.ParticleAt(k) == old(a.ParticleAt(k))
    {
      if next >= N {
        break;
      }
      PlaceParticle(a, next, (ColX(col, spacing), y));
      next := next + 1;
    }
  }

  /** One pass of the row loop, from the particle index the rows below reached: the row's
      particles, `count` of them at height `y` and `spacing` apart, are placed at rest at
      their layout positions until the arena is full. */
  method FillTriangleRow(a: Arena, ghost rs: seq<Row>, ghost all: seq<(real, real)>, row: nat, start: nat,
                         y: real, count: nat, spacing: real) returns (next: nat)
    requires a.Valid() && row < |rs| && rs[row] == Row(y, count, spacing) && all == Placed(rs, |rs|)
    requires start == |Placed(rs, row)| && start < N
    modifies a.data
    ensures a.Valid()
    ensures next == Min(N, |Placed(rs, row + 1)|) && next <= |all|
    ensures forall k: nat :: start <= k < next ==> a.ParticleAt(k) == AtRest(all[k])
    ensures forall k: nat :: (k < start || next <= k) && k < N ==> a.ParticleAt(k) == old(a.ParticleAt(k))
  {
    next := FillRow(a, start, count, spacing, y);
    PlacedPrefix(rs, row + 1, |rs|);
    forall k: nat | start <= k < next
      ensures a.ParticleAt(k) == AtRest(all[k])
    {
      RowParticleInLayout(rs, row, start, k);
    }
  }

  /** Row `row` of the triangle has the height, particle count and spacing `fill_arena`
      computes for it. */
  lemma TriangleRow(approxRows: real, row: nat)
    requires row < Rows(approxRows)
    ensures var rows := Rows(approxRows);
            var count := ParticlesInRow(row, rows, approxRows);
            Triangle(approxRows)[row] == Row(RowY(row, rows), count, Spacing(RowWidth(row, rows), count))
  {
  }

  /** `fill_arena`, with the square root that gives the approximate row count as the
      parameter `approxRows`: particle `k` below the length of the layout is placed at rest
      at position `k` of the layout, and every later particle is left as it was. */
  method FillArena(a: Arena, approxRows: real)
    requires a.Valid()
    modifies a.data
    ensures a.Valid()
    ensures forall k: nat :: k < |Layout(approxRows)| ==> a.ParticleAt(k) == AtRest(Layout(approxRows)[k])
    ensures forall k: nat :: |Layout(approxRows)| <= k < N ==> a.ParticleAt(k) == old(a.ParticleAt(k))
  {
    var rows := Rows(approxRows);
    ghost var rs := Triangle(approxRows);
    ghost var all := Placed(rs, rows);
    var particleIndex: nat := 0;
    for row := 0 to rows
      invariant particleIndex == Min(N, |Placed(rs, row)|) && particleIndex <= |all|
      invariant a.Valid()
      invariant forall k: nat :: k < particleIndex ==> a.ParticleAt(k) == AtRest(all[k])
      invariant forall k: nat :: particleIndex <= k < N ==> a.ParticleAt(k) == old(a.ParticleAt(k))
    {
      if particleIndex >= N {
        PlacedPrefix(rs, row, rows);
        break;
      }
      PlacedPrefix(rs, row + 1, rows);
      var y := RowY(row, rows);
      var particlesInRow := ParticlesInRow(row, rows, approxRows);
      var spacing := Spacing(RowWidth(row, rows), particlesInRow);
      TriangleRow(approxRows, row);
      particleIndex := FillTriangleRow(a, rs, all, row, particleIndex, y, particlesInRow, spacing);
    }
    if particleIndex >= N {
      PlacedPrefix(rs, 0, rows);
    }
  }

  /** The `fill_arena` of crates/sph/src/lib.rs: the same loop, with an argument `v` that
      it never reads; the result does not depend on `v`. */
  method FillArenaIgnoringValue(a: Arena, v: real, approxRows: real)
    requires a.Valid()
    modifies a.data
    ensures a.Valid()
    ensures forall k: nat :: k < |Layout(approxRows)| ==> a.ParticleAt(k) == AtRest(Layout(approxRows)[k])
    ensures forall k: nat :: |Layout(approxRows)| <= k < N ==> a.ParticleAt(k) == old(a.ParticleAt(k))
  {
    FillArena(a, approxRows);
  }
}
