/**
 * The uniform grid of the solver (crates/sph/src/spatial_hash.rs): sizing a padded grid
 * centred on the domain, mapping positions to cells, the mixed-radix cell hash, and the
 * per-cell particle lists.
 */
module SpatialHash {
  import opened Numeric
  import opened Counting

  /** `Grid`: the number of cells along each dimension and the position of the grid's
      lower corner. */
  datatype Grid = Grid(count: seq<nat>, offset: seq<real>)

  // ---------------------------------------------------------------------------
  // compute_grid

  /** Cells along one dimension: the extent measured in cells, rounded up, plus three
      cells of padding. */
  function CellCount(lo: real, hi: real, cellLength: real): nat
    requires cellLength > 0.0
  {
    ToUsize(Ceil((hi - lo) / cellLength)) + 3
  }

  /** Lower corner along one dimension: the grid is centred on the middle of the extent. */
  function CellOffset(lo: real, hi: real, cellLength: real): real
    requires cellLength > 0.0
  {
    var gridSize := CellCount(lo, hi, cellLength) as real * cellLength;
    (lo + hi) / 2.0 - gridSize / 2.0
  }

  /** The grid `compute_grid` builds, one entry per extent. */
  function GridOf(extents: seq<(real, real)>, cellLength: real): Grid
    requires cellLength > 0.0
  {
    Grid(seq(|extents|, i requires 0 <= i < |extents| => CellCount(extents[i].0, extents[i].1, cellLength)),
         seq(|extents|, i requires 0 <= i < |extents| => CellOffset(extents[i].0, extents[i].1, cellLength)))
  }

  /** Every extent lies inside the grid with at least one and a half cells to spare on
      each side (so strictly inside). */
  predicate Covers(grid: Grid, extents: seq<(real, real)>, cellLength: real)
  {
    |grid.count| == |extents| && |grid.offset| == |extents| &&
    forall i :: 0 <= i < |extents| ==>
      grid.offset[i] <= extents[i].0 - 1.5 * cellLength &&
      extents[i].1 + 1.5 * cellLength <= grid.offset[i] + grid.count[i] as real * cellLength
  }

  /** The middle of the grid is the middle of the extent, in every dimension. */
  predicate Centred(grid: Grid, extents: seq<(real, real)>, cellLength: real)
  {
    |grid.count| == |extents| && |grid.offset| == |extents| &&
    forall i :: 0 <= i < |extents| ==>
      grid.offset[i] + grid.count[i] as real * cellLength / 2.0 == (extents[i].0 + extents[i].1) / 2.0
  }

  /** The padded grid is at least the extent plus three cells long, whatever the extent
      (an inverted extent gets exactly three cells). */
  lemma GridSizeBound(lo: real, hi: real, cellLength: real)
    requires cellLength > 0.0
    ensures CellCount(lo, hi, cellLength) >= 3
    ensures CellCount(lo, hi, cellLength) as real * cellLength >= (hi - lo) + 3.0 * cellLength
    ensures hi < lo ==> CellCount(lo, hi, cellLength) == 3
  {
    var k := Ceil((hi - lo) / cellLength);
    var n := CellCount(lo, hi, cellLength);
    assert (hi - lo) / cellLength + 3.0 <= n as real;
    MulMonoRight((hi - lo) / cellLength + 3.0, n as real, cellLength);
    DivMulCancel(hi - lo, cellLength);
    DivSign(hi - lo, cellLength);
  }

  /** For a non-empty extent the padding is less than four cells: `count` is the least
      count that holds the extent plus three cells. */
  lemma GridSizeTight(lo: real, hi: real, cellLength: real)
    requires cellLength > 0.0 && lo <= hi
    ensures CellCount(lo, hi, cellLength) as real * cellLength < (hi - lo) + 4.0 * cellLength
  {
    var n := CellCount(lo, hi, cellLength);
    DivMulCancel(hi - lo, cellLength);
    DivSign(hi - lo, cellLength);
    assert n as real < (hi - lo) / cellLength + 4.0;
    MulStrict(n as real, (hi - lo) / cellLength + 4.0, cellLength);
  }

  /** One dimension of the grid covers its extent with a margin of 1.5 cells and is
      centred on it. */
  lemma DimensionCovered(lo: real, hi: real, cellLength: real)
    requires cellLength > 0.0
    ensures CellOffset(lo, hi, cellLength) <= lo - 1.5 * cellLength
    ensures hi + 1.5 * cellLength
         <= CellOffset(lo, hi, cellLength) + CellCount(lo, hi, cellLength) as real * cellLength
    ensures CellOffset(lo, hi, cellLength) + CellCount(lo, hi, cellLength) as real * cellLength / 2.0
         == (lo + hi) / 2.0
  {
    GridSizeBound(lo, hi, cellLength);
  }

  /** The grid `compute_grid` builds covers every extent strictly and is centred on it. */
  lemma GridOfCovers(extents: seq<(real, real)>, cellLength: real)
    requires cellLength > 0.0
    ensures Covers(GridOf(extents, cellLength), extents, cellLength)
    ensures Centred(GridOf(extents, cellLength), extents, cellLength)
  {
    var g := GridOf(extents, cellLength);
    forall i | 0 <= i < |extents|
      ensures g.offset[i] <= extents[i].0 - 1.5 * cellLength
      ensures extents[i].1 + 1.5 * cellLength <= g.offset[i] + g.count[i] as real * cellLength
      ensures g.offset[i] + g.count[i] as real * cellLength / 2.0 == (extents[i].0 + extents[i].1) / 2.0
    {
      DimensionCovered(extents[i].0, extents[i].1, cellLength);
    }
  }

  /** `compute_grid`: one count and one offset per extent, filled dimension by dimension. */
  method ComputeGrid(extents: seq<(real, real)>, cellLength: real) returns (grid: Grid)
    requires cellLength > 0.0
    ensures grid == GridOf(extents, cellLength)
    ensures Covers(grid, extents, cellLength) && Centred(grid, extents, cellLength)
  {
    var count := new nat[|extents|];
    var offset := new real[|extents|];
    for i := 0 to |extents|
      invariant forall k :: 0 <= k < i ==> count[k] == CellCount(extents[k].0, extents[k].1, cellLength)
      invariant forall k :: 0 <= k < i ==> offset[k] == CellOffset(extents[k].0, extents[k].1, cellLength)
    {
      var (lo, hi) := extents[i];
      count[i] := ToUsize(Ceil((hi - lo) / cellLength)) + 3;
      var gridSize := count[i] as real * cellLength;
      var center := (lo + hi) / 2.0;
      offset[i] := center - gridSize / 2.0;
    }
    grid := Grid(count[..], offset[..]);
    GridOfCovers(extents, cellLength);
  }

  /** The first test example: the extent [0, 10] with cells of 2 gives 8 cells from -3. */
  lemma ComputeGridExample1D()
    ensures GridOf([(0.0, 10.0)], 2.0) == Grid([8], [-3.0])
  {
    assert Ceil(10.0 / 2.0) == 5;
  }

  /** The second test example: [0, 4] with cells of 1 gives 7 cells from -1.5. */
  lemma ComputeGridExampleUnit()
    ensures GridOf([(0.0, 4.0)], 1.0) == Grid([7], [-1.5])
  {
    assert Ceil(4.0 / 1.0) == 4;
  }

  /** The three-dimensional test example. */
  lemma ComputeGridExample3D()
    ensures GridOf([(0.0, 2.0), (0.0, 4.0), (0.0, 6.0)], 1.0) == Grid([5, 7, 9], [-1.5, -1.5, -1.5])
  {
    assert Ceil(2.0 / 1.0) == 2;
    assert Ceil(4.0 / 1.0) == 4;
    assert Ceil(6.0 / 1.0) == 6;
  }

  // ---------------------------------------------------------------------------
  // get_cell

  /** `get_cell`: the integer cell coordinates of a position, `floor` of the distance from
      the grid corner in cell units. */
  function GetCell(x: real, y: real, z: real, grid: Grid, invH: real): (c: (int, int, int))
    requires |grid.offset| >= 3
    ensures c.0 as real <= (x - grid.offset[0]) * invH < c.0 as real + 1.0
    ensures c.1 as real <= (y - grid.offset[1]) * invH < c.1 as real + 1.0
    ensures c.2 as real <= (z - grid.offset[2]) * invH < c.2 as real + 1.0
  {
    (((x - grid.offset[0]) * invH).Floor,
     ((y - grid.offset[1]) * invH).Floor,
     ((z - grid.offset[2]) * invH).Floor)
  }

  /** A coordinate inside its extent falls in a cell at least one away from either edge of
      the padded grid, when invH is the reciprocal of the cell length. */
  lemma CoordinateCellInside(lo: real, hi: real, cellLength: real, invH: real, x: real)
    requires cellLength > 0.0 && cellLength * invH == 1.0 && lo <= x <= hi
    ensures 1 <= ((x - CellOffset(lo, hi, cellLength)) * invH).Floor <= CellCount(lo, hi, cellLength) - 2
  {
    var o := CellOffset(lo, hi, cellLength);
    var n := CellCount(lo, hi, cellLength);
    DimensionCovered(lo, hi, cellLength);
    assert invH > 0.0 by {
      if invH <= 0.0 {
        MulNonpos(cellLength, invH);
      }
    }
    assert 1.5 * cellLength <= x - o <= n as real * cellLength - 1.5 * cellLength;
    MulMonoRight(1.5 * cellLength, x - o, invH);
    MulMonoRight(x - o, n as real * cellLength - 1.5 * cellLength, invH);
    assert (1.5 * cellLength) * invH == 1.5 * (cellLength * invH);
    assert (n as real * cellLength - 1.5 * cellLength) * invH == (n as real - 1.5) * (cellLength * invH);
  }

  // ---------------------------------------------------------------------------
  // hash

  /** Cell coordinates inside the grid. */
  predicate InGrid(x: int, y: int, z: int, grid: Grid)
    requires |grid.count| >= 3
  {
    0 <= x < grid.count[0] && 0 <= y < grid.count[1] && 0 <= z < grid.count[2]
  }

  /** The number of cells of a three-dimensional grid. */
  function Total(grid: Grid): nat
    requires |grid.count| >= 3
  {
    grid.count[0] * grid.count[1] * grid.count[2]
  }

  /** `hash`: the mixed-radix index x + c0 (y + c1 z) of a cell. */
  function Hash(x: int, y: int, z: int, grid: Grid): int
    requires |grid.count| >= 3
  {
    x + grid.count[0] * (y + grid.count[1] * z)
  }

  /** The inverse of `hash` on flat indices: the digits of h in the radices c0 and c1. */
  function Unhash(h: int, grid: Grid): (int, int, int)
    requires |grid.count| >= 3 && grid.count[0] > 0 && grid.count[1] > 0
  {
    (h % grid.count[0], (h / grid.count[0]) % grid.count[1], (h / grid.count[0]) / grid.count[1])
  }

  /** Cells inside the grid hash into [0, c0 c1 c2). */
  lemma HashInRange(x: int, y: int, z: int, grid: Grid)
    requires |grid.count| >= 3 && InGrid(x, y, z, grid)
    ensures 0 <= Hash(x, y, z, grid) < Total(grid)
  {
    var c0, c1, c2 := grid.count[0], grid.count[1], grid.count[2];
    IntMulMono(z, c2 - 1, c1);
    assert y + c1 * z <= c1 * c2 - 1;
    IntMulMono(0, y + c1 * z, c0);
    IntMulMono(y + c1 * z, c1 * c2 - 1, c0);
    assert c0 * (c1 * c2 - 1) == c0 * c1 * c2 - c0;
  }

  /** Decoding the hash of a cell inside the grid gives the cell back. */
  lemma UnhashHash(x: int, y: int, z: int, grid: Grid)
    requires |grid.count| >= 3 && InGrid(x, y, z, grid)
    ensures Unhash(Hash(x, y, z, grid), grid) == (x, y, z)
  {
    var c0, c1 := grid.count[0], grid.count[1];
    DivModUnique(Hash(x, y, z, grid), c0, y + c1 * z, x);
    DivModUnique(y + c1 * z, c1, z, y);
  }

  /** Every flat index below the total decodes to a cell inside the grid that hashes back
      to it. */
  lemma HashUnhash(h: int, grid: Grid)
    requires |grid.count| >= 3 && 0 <= h < Total(grid)
    ensures grid.count[0] > 0 && grid.count[1] > 0
    ensures var (x, y, z) := Unhash(h, grid); InGrid(x, y, z, grid) && Hash(x, y, z, grid) == h
  {
    var c0, c1, c2 := grid.count[0], grid.count[1], grid.count[2];
    assert c0 > 0 && c1 > 0 && c2 > 0;
    var k := h / c0;
    assert h == c0 * k + h % c0;
    assert 0 <= k < c1 * c2 by {
      if k >= c1 * c2 {
        IntMulMono(c1 * c2, k, c0);
      }
    }
    assert k == c1 * (k / c1) + k % c1;
    assert k / c1 < c2 by {
      if k / c1 >= c2 {
        IntMulMono(c2, k / c1, c1);
      }
    }
  }

  /** `hash` is injective on the cells of the grid. */
  lemma HashInjective(a: (int, int, int), b: (int, int, int), grid: Grid)
    requires |grid.count| >= 3 && InGrid(a.0, a.1, a.2, grid) && InGrid(b.0, b.1, b.2, grid)
    requires Hash(a.0, a.1, a.2, grid) == Hash(b.0, b.1, b.2, grid)
    ensures a == b
  {
    UnhashHash(a.0, a.1, a.2, grid);
    UnhashHash(b.0, b.1, b.2, grid);
  }

  // ---------------------------------------------------------------------------
  // populate_grid

  /** The flat cell index `populate_grid` computes for particle i. */
  function CellIndexOf(px: seq<real>, py: seq<real>, pz: seq<real>, grid: Grid, invH: real, i: nat): int
    requires |grid.count| >= 3 && |grid.offset| >= 3
    requires i < |px| && i < |py| && i < |pz|
  {
    var c := GetCell(px[i], py[i], pz[i], grid, invH);
    Hash(c.0, c.1, c.2, grid)
  }

  /** The flat cell indices of the first n particles. */
  function CellIndices(px: seq<real>, py: seq<real>, pz: seq<real>, grid: Grid, invH: real, n: nat): (cells: seq<int>)
    requires |grid.count| >= 3 && |grid.offset| >= 3
    requires n <= |px| && n <= |py| && n <= |pz|
    ensures |cells| == n
  {
    seq(n, i requires 0 <= i < n => CellIndexOf(px, py, pz, grid, invH, i))
  }

  /** The list of cell c after the first k particles were placed: the particles among them
      whose cell is c, in the order they were pushed. */
  function Bucket(cells: seq<int>, c: int, k: nat): seq<nat>
    requires k <= |cells|
  {
    if k == 0 then [] else Bucket(cells, c, k - 1) + (if cells[k - 1] == c then [k - 1] else [])
  }

  /** A particle is in a cell's list exactly when it is one of the first k and its cell is c. */
  lemma {:induction false} BucketMembers(cells: seq<int>, c: int, k: nat, j: int)
    requires k <= |cells|
    ensures j in Bucket(cells, c, k) <==> 0 <= j < k && cells[j] == c
  {
    if k > 0 {
      BucketMembers(cells, c, k - 1, j);
    }
  }

  /** Each list is strictly increasing, so it never holds a particle twice. */
  lemma {:induction false} BucketIncreasing(cells: seq<int>, c: int, k: nat)
    requires k <= |cells|
    ensures forall a, b :: 0 <= a < b < |Bucket(cells, c, k)| ==> Bucket(cells, c, k)[a] < Bucket(cells, c, k)[b]
    ensures forall a :: 0 <= a < |Bucket(cells, c, k)| ==> Bucket(cells, c, k)[a] < k
  {
    if k > 0 {
      BucketIncreasing(cells, c, k - 1);
    }
  }

  /** Every particle among the first k occurs exactly once in the list of its own cell and
      never in another list. */
  lemma {:induction false} BucketCount(cells: seq<int>, c: int, k: nat, j: int)
    requires k <= |cells|
    ensures Count(Bucket(cells, c, k), j) == Ind(0 <= j < k && cells[j] == c)
  {
    if k > 0 {
      BucketCount(cells, c, k - 1, j);
      var tail: seq<nat> := if cells[k - 1] == c then [k - 1] else [];
      CountConcat(Bucket(cells, c, k - 1), tail, j);
      if cells[k - 1] == c {
        CountSingleton(k - 1, j);
      }
    }
  }

  /** `populate_grid`: clears every cell list, then pushes each particle onto the list of
      its cell and records that cell in `grid_map`. */
  method PopulateGrid(px: seq<real>, py: seq<real>, pz: seq<real>, grid: Grid,
                      contents: array<seq<nat>>, gridMap: array<nat>, numParticles: nat, invH: real)
    requires |grid.count| >= 3 && |grid.offset| >= 3
    requires numParticles <= |px| && numParticles <= |py| && numParticles <= |pz|
    requires numParticles <= gridMap.Length
    requires forall i :: 0 <= i < numParticles ==> 0 <= CellIndexOf(px, py, pz, grid, invH, i) < contents.Length
    modifies contents, gridMap
    ensures forall c :: 0 <= c < contents.Length ==>
      contents[c] == Bucket(CellIndices(px, py, pz, grid, invH, numParticles), c, numParticles)
    ensures forall i :: 0 <= i < numParticles ==> gridMap[i] == CellIndexOf(px, py, pz, grid, invH, i)
    ensures forall i :: numParticles <= i < gridMap.Length ==> gridMap[i] == old(gridMap[i])
  {
    ghost var cells := CellIndices(px, py, pz, grid, invH, numParticles);
    for c := 0 to contents.Length
      invariant forall k :: 0 <= k < c ==> contents[k] == []
      invariant gridMap[..] == old(gridMap[..])
    {
      contents[c] := [];
    }
    for i := 0 to numParticles
      invariant forall c :: 0 <= c < contents.Length ==> contents[c] == Bucket(cells, c, i)
      invariant forall k :: 0 <= k < i ==> gridMap[k] == cells[k]
      invariant forall k :: numParticles <= k < gridMap.Length ==> gridMap[k] == old(gridMap[k])
    {
      var x, y, z := px[i], py[i], pz[i];
      var cell := GetCell(x, y, z, grid, invH);
      var cellIndex := Hash(cell.0, cell.1, cell.2, grid);
      assert cellIndex == cells[i];
      contents[cellIndex] := contents[cellIndex] + [i];
      gridMap[i] := cellIndex;
    }
  }

  /** After `populate_grid`, each of the first n particles is in exactly one list, the one
      `grid_map` names, once. */
  lemma PopulatedExactlyOnce(cells: seq<int>, n: nat, i: nat, c: int)
    requires n <= |cells| && i < n
    ensures multiset(Bucket(cells, c, n))[i] == (if c == cells[i] then 1 else 0)
  {
    BucketCount(cells, c, n, i);
    CountIsMultiplicity(Bucket(cells, c, n), i);
  }
}
