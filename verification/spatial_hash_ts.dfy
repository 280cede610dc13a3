/**
 * The grid sizing of the TypeScript prototype (src/spatial-hash.ts): the same centred grid
 * as the Rust solver, but padded by one cell instead of three, and carrying its cell length.
 */
module SpatialHashTs {
  import opened Numeric
  import SpatialHash

  /** The grid `computeGrid` returns. JavaScript numbers are exact reals here, so a count is
      an integer that may be negative for an inverted extent. */
  datatype GridTs = GridTs(count: seq<int>, cellLength: real, offset: seq<real>)

  /** Cells along one dimension: the extent measured in cells, rounded up, plus one. */
  function CellCountTs(lo: real, hi: real, cellLength: real): int
    requires cellLength != 0.0
  {
    Ceil((hi - lo) / cellLength) + 1
  }

  /** Lower corner along one dimension: the grid is centred on the middle of the extent. */
  function CellOffsetTs(lo: real, hi: real, cellLength: real): real
    requires cellLength != 0.0
  {
    var gridSize := CellCountTs(lo, hi, cellLength) as real * cellLength;
    (lo + hi) / 2.0 - gridSize / 2.0
  }

  /** `computeGrid`: one count and one offset per extent, and the cell length unchanged. */
  function ComputeGridTs(extents: seq<(real, real)>, cellLength: real): (g: GridTs)
    requires cellLength != 0.0
    ensures |g.count| == |extents| && |g.offset| == |extents| && g.cellLength == cellLength
  {
    GridTs(seq(|extents|, i requires 0 <= i < |extents| => CellCountTs(extents[i].0, extents[i].1, cellLength)),
           cellLength,
           seq(|extents|, i requires 0 <= i < |extents| => CellOffsetTs(extents[i].0, extents[i].1, cellLength)))
  }

  /** Every extent lies strictly inside the grid, with half a cell to spare on each side. */
  predicate CoversTs(g: GridTs, extents: seq<(real, real)>)
  {
    |g.count| == |extents| && |g.offset| == |extents| &&
    forall i :: 0 <= i < |extents| ==>
      g.offset[i] + 0.5 * g.cellLength <= extents[i].0 &&
      extents[i].1 + 0.5 * g.cellLength <= g.offset[i] + g.count[i] as real * g.cellLength
  }

  /** The middle of the grid is the middle of the extent, in every dimension. */
  predicate CentredTs(g: GridTs, extents: seq<(real, real)>)
  {
    |g.count| == |extents| && |g.offset| == |extents| &&
    forall i :: 0 <= i < |extents| ==>
      g.offset[i] + g.count[i] as real * g.cellLength / 2.0 == (extents[i].0 + extents[i].1) / 2.0
  }

  /** The padded grid is at least one cell longer than the extent; a non-empty extent gets
      at least one cell and a non-degenerate one at least two. */
  lemma GridSizeBoundTs(lo: real, hi: real, cellLength: real)
    requires cellLength > 0.0
    ensures CellCountTs(lo, hi, cellLength) as real * cellLength >= (hi - lo) + cellLength
    ensures lo <= hi ==> CellCountTs(lo, hi, cellLength) >= 1
    ensures lo < hi ==> CellCountTs(lo, hi, cellLength) >= 2
  {
    var n := CellCountTs(lo, hi, cellLength);
    assert (hi - lo) / cellLength + 1.0 <= n as real;
    MulMonoRight((hi - lo) / cellLength + 1.0, n as real, cellLength);
    DivMulCancel(hi - lo, cellLength);
    DivSign(hi - lo, cellLength);
    if lo < hi {
      DivPos(hi - lo, cellLength);
    }
  }

  /** For a non-empty extent the padding is less than two cells. */
  lemma GridSizeTightTs(lo: real, hi: real, cellLength: real)
    requires cellLength > 0.0 && lo <= hi
    ensures CellCountTs(lo, hi, cellLength) as real * cellLength < (hi - lo) + 2.0 * cellLength
  {
    var n := CellCountTs(lo, hi, cellLength);
    DivMulCancel(hi - lo, cellLength);
    assert n as real < (hi - lo) / cellLength + 2.0;
    MulStrict(n as real, (hi - lo) / cellLength + 2.0, cellLength);
  }

  /** The grid `computeGrid` builds covers every extent strictly and is centred on it. */
  lemma ComputeGridTsCovers(extents: seq<(real, real)>, cellLength: real)
    requires cellLength > 0.0
    ensures CoversTs(ComputeGridTs(extents, cellLength), extents)
    ensures CentredTs(ComputeGridTs(extents, cellLength), extents)
  {
    var g := ComputeGridTs(extents, cellLength);
    forall i | 0 <= i < |extents|
      ensures g.offset[i] + 0.5 * cellLength <= extents[i].0
      ensures extents[i].1 + 0.5 * cellLength <= g.offset[i] + g.count[i] as real * cellLength
      ensures g.offset[i] + g.count[i] as real * cellLength / 2.0 == (extents[i].0 + extents[i].1) / 2.0
    {
      GridSizeBoundTs(extents[i].0, extents[i].1, cellLength);
    }
  }

  /** The Rust grid pads a non-empty extent with exactly two cells more than the prototype,
      so both grids share their centre and the Rust one reaches one cell further on each
      side. */
  lemma RustGridIsTwoCellsWider(lo: real, hi: real, cellLength: real)
    requires cellLength > 0.0 && lo <= hi
    ensures SpatialHash.CellCount(lo, hi, cellLength) == CellCountTs(lo, hi, cellLength) + 2
    ensures SpatialHash.CellOffset(lo, hi, cellLength) == CellOffsetTs(lo, hi, cellLength) - cellLength
  {
    DivMulCancel(hi - lo, cellLength);
    DivSign(hi - lo, cellLength);
  }

  /** The one-dimensional test examples. */
  lemma ComputeGridTsExamples1D()
    ensures ComputeGridTs([(0.0, 10.0)], 2.0) == GridTs([6], 2.0, [-1.0])
    ensures ComputeGridTs([(0.0, 4.0)], 1.0) == GridTs([5], 1.0, [-0.5])
    ensures ComputeGridTs([(-5.0, 5.0)], 2.0) == GridTs([6], 2.0, [-6.0])
    ensures ComputeGridTs([(0.0, 3.0)], 0.5) == GridTs([7], 0.5, [-0.25])
  {
    assert Ceil(10.0 / 2.0) == 5;
    assert Ceil(4.0 / 1.0) == 4;
    assert Ceil(3.0 / 0.5) == 6;
  }

  /** The two- and three-dimensional test examples. */
  lemma ComputeGridTsExamplesND()
    ensures ComputeGridTs([(0.0, 10.0), (0.0, 20.0)], 5.0) == GridTs([3, 5], 5.0, [-2.5, -2.5])
    ensures ComputeGridTs([(-1.0, 1.0), (0.0, 3.0)], 1.0) == GridTs([3, 4], 1.0, [-1.5, -0.5])
    ensures ComputeGridTs([(0.0, 2.0), (0.0, 4.0), (0.0, 6.0)], 1.0) == GridTs([3, 5, 7], 1.0, [-0.5, -0.5, -0.5])
  {
    assert Ceil(10.0 / 5.0) == 2;
    assert Ceil(20.0 / 5.0) == 4;
    assert Ceil(2.0 / 1.0) == 2;
    assert Ceil(3.0 / 1.0) == 3;
    assert Ceil(4.0 / 1.0) == 4;
    assert Ceil(6.0 / 1.0) == 6;
  }
}
