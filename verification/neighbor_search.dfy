/**
 * The neighbour search `find_neighbors` of crates/sph/src/spatial_hash.rs. For every cell
 * (x, y, z) of the grid and each of the 27 offsets (dx, dy, dz) in {-1, 0, 1}^3 whose cell
 * lies in the grid, every pair (i, j) with i in the cell, j in the offset cell and i < j
 * appends j to `neighbors[i]`.
 *
 * The loop nest is specified level by level, each level as the list of everything appended
 * to `neighbors[p]`: `Above` is the innermost loop over the neighbouring cell, `Pairs` the
 * loop over the cell's own points, and `Run` every loop of the nest around them, as the
 * concatenation of what its iterations append (`Iteration`).
 */
module NeighborSearch {
  import opened Numeric
  import opened Counting
  import opened SpatialHash

  // ---------------------------------------------------------------------------
  // What the loops append to neighbors[p]

  /** The list of a flat cell index (empty outside the table). */
  function CellAt(contents: seq<seq<nat>>, h: int): seq<nat>
  {
    if 0 <= h < |contents| then contents[h] else []
  }

  /** The entries of b above p, in order: what the loop over a neighbouring cell appends to
      `neighbors[p]` for i = p. */
  function Above(b: seq<nat>, p: nat): (r: seq<nat>)
    ensures forall j :: j in r ==> j > p
  {
    if |b| == 0 then [] else Above(b[..|b| - 1], p) + (if p < b[|b| - 1] then [b[|b| - 1]] else [])
  }

  /** What the loops over the points a of a cell and b of a neighbouring cell append to
      `neighbors[p]`: `Above(b, p)` once for each occurrence of p in a. */
  function Pairs(a: seq<nat>, b: seq<nat>, p: nat): (r: seq<nat>)
    ensures forall j :: j in r ==> j > p
  {
    if |a| == 0 then [] else Pairs(a[..|a| - 1], b, p) + (if a[|a| - 1] == p then Above(b, p) else [])
  }

  /** The visit of cell (x, y, z) and its neighbour at offset (dx, dy, dz): skipped when the
      neighbour lies outside the grid. */
  function Visit(g: Grid, cs: seq<seq<nat>>, x: int, y: int, z: int, dx: int, dy: int, dz: int, p: nat): (r: seq<nat>)
    requires |g.count| >= 3
    ensures forall j :: j in r ==> j > p
  {
    if InGrid(x + dx, y + dy, z + dz, g) then
      Pairs(CellAt(cs, Hash(x, y, z, g)), CellAt(cs, Hash(x + dx, y + dy, z + dz, g)), p)
    else []
  }

  /** The loops of the nest, each with the values of the loop variables around it. */
  datatype Loop =
    | DzLoop(x: int, y: int, z: int, dx: int, dy: int)
    | DyLoop(x: int, y: int, z: int, dx: int)
    | DxLoop(x: int, y: int, z: int)
    | ZLoop(x: int, y: int)
    | YLoop(x: int)
    | XLoop

  /** How many loops a loop holds inside it. */
  function Depth(l: Loop): nat
  {
    match l
    case DzLoop(_, _, _, _, _) => 0
    case DyLoop(_, _, _, _) => 1
    case DxLoop(_, _, _) => 2
    case ZLoop(_, _) => 3
    case YLoop(_) => 4
    case XLoop => 5
  }

  /** What iteration i of loop l appends to `neighbors[p]`: a visit for the loop over dz, the
      whole inner loop for every other loop. */
  function Iteration(g: Grid, cs: seq<seq<nat>>, l: Loop, i: int, p: nat): seq<nat>
    requires |g.count| >= 3
    decreases Depth(l), 0
  {
    match l
    case DzLoop(x, y, z, dx, dy) => Visit(g, cs, x, y, z, dx, dy, i, p)
    case DyLoop(x, y, z, dx) => Run(g, cs, DzLoop(x, y, z, dx, i), -1, 2, p)
    case DxLoop(x, y, z) => Run(g, cs, DyLoop(x, y, z, i), -1, 2, p)
    case ZLoop(x, y) => Run(g, cs, DxLoop(x, y, i), -1, 2, p)
    case YLoop(x) => Run(g, cs, ZLoop(x, i), 0, g.count[2], p)
    case XLoop => Run(g, cs, YLoop(i), 0, g.count[1], p)
  }

  /** What iterations lo .. hi-1 of loop l append to `neighbors[p]`, in order. */
  function Run(g: Grid, cs: seq<seq<nat>>, l: Loop, lo: int, hi: int, p: nat): seq<nat>
    requires |g.count| >= 3
    decreases Depth(l), 1, hi - lo
  {
    if hi <= lo then [] else Run(g, cs, l, lo, hi - 1, p) + Iteration(g, cs, l, hi - 1, p)
  }

  /** All 27 offsets of cell (x, y, z). */
  function CellScan(g: Grid, cs: seq<seq<nat>>, x: int, y: int, z: int, p: nat): seq<nat>
    requires |g.count| >= 3
  {
    Run(g, cs, DxLoop(x, y, z), -1, 2, p)
  }

  /** `neighbors[p]` after `find_neighbors`. */
  function Neighbours(g: Grid, cs: seq<seq<nat>>, p: nat): seq<nat>
    requires |g.count| >= 3
  {
    Run(g, cs, XLoop, 0, g.count[0], p)
  }

  // ---------------------------------------------------------------------------
  // The loops

  /** Every particle index stored in a cell list is a valid index of `neighbors`. */
  predicate IndicesBelow(cs: seq<seq<nat>>, bound: nat)
  {
    forall h, i :: 0 <= h < |cs| && i in cs[h] ==> i < bound
  }

  /** `for &j in neighbor_points { if i < j { neighbors[i].push(j) } }`. */
  method PushAbove(nb: array<seq<nat>>, i: nat, b: seq<nat>)
    requires i < nb.Length
    modifies nb
    ensures forall q :: 0 <= q < nb.Length ==> nb[q] == old(nb[q]) + (if q == i then Above(b, q) else [])
  {
    for k := 0 to |b|
      invariant forall q :: 0 <= q < nb.Length ==> nb[q] == old(nb[q]) + (if q == i then Above(b[..k], q) else [])
    {
      assert b[..k + 1][..k] == b[..k];
      var j := b[k];
      if i < j {
        nb[i] := nb[i] + [j];
      }
    }
    assert b[..|b|] == b;
  }

  /** `for &i in cell_points { ... }`. */
  method PushPairs(nb: array<seq<nat>>, a: seq<nat>, b: seq<nat>)
    requires forall i :: i in a ==> i < nb.Length
    modifies nb
    ensures forall q :: 0 <= q < nb.Length ==> nb[q] == old(nb[q]) + Pairs(a, b, q)
  {
    for k := 0 to |a|
      invariant forall q :: 0 <= q < nb.Length ==> nb[q] == old(nb[q]) + Pairs(a[..k], b, q)
    {
      assert a[..k + 1][..k] == a[..k];
      assert a[k] in a;
      PushAbove(nb, a[k], b);
    }
    assert a[..|a|] == a;
  }

  /** The body of the loop over dz: the bounds check on the neighbouring cell and, when it
      lies in the grid, the loops over the pairs of the two cells. */
  method VisitNeighbour(nb: array<seq<nat>>, g: Grid, cs: seq<seq<nat>>, cellPoints: seq<nat>,
                        x: int, y: int, z: int, dx: int, dy: int, dz: int)
    requires |g.count| >= 3 && |cs| == Total(g) && InGrid(x, y, z, g)
    requires IndicesBelow(cs, nb.Length) && cellPoints == CellAt(cs, Hash(x, y, z, g))
    modifies nb
    ensures forall q :: 0 <= q < nb.Length ==> nb[q] == old(nb[q]) + Visit(g, cs, x, y, z, dx, dy, dz, q)
  {
    HashInRange(x, y, z, g);
    var nx, ny, nz := x + dx, y + dy, z + dz;
    if 0 <= nx < g.count[0] && 0 <= ny < g.count[1] && 0 <= nz < g.count[2] {
      HashInRange(nx, ny, nz, g);
      var neighborPoints := cs[Hash(nx, ny, nz, g)];
      PushPairs(nb, cellPoints, neighborPoints);
    } else {
      assert forall q :: 0 <= q < nb.Length ==> nb[q] == old(nb[q]) + [];
    }
  }

  /** The loop over dz for one cell and one (dx, dy). */
  method ScanDz(nb: array<seq<nat>>, g: Grid, cs: seq<seq<nat>>, cellPoints: seq<nat>,
                x: int, y: int, z: int, dx: int, dy: int)
    requires |g.count| >= 3 && |cs| == Total(g) && InGrid(x, y, z, g)
    requires IndicesBelow(cs, nb.Length) && cellPoints == CellAt(cs, Hash(x, y, z, g))
    modifies nb
    ensures forall q :: 0 <= q < nb.Length ==> nb[q] == old(nb[q]) + Run(g, cs, DzLoop(x, y, z, dx, dy), -1, 2, q)
  {
    for dz := -1 to 2
      invariant forall q :: 0 <= q < nb.Length ==> nb[q] == old(nb[q]) + Run(g, cs, DzLoop(x, y, z, dx, dy), -1, dz, q)
    {
      VisitNeighbour(nb, g, cs, cellPoints, x, y, z, dx, dy, dz);
    }
  }

  /** The loop over dy for one cell and one dx. */
  method ScanDy(nb: array<seq<nat>>, g: Grid, cs: seq<seq<nat>>, cellPoints: seq<nat>,
                x: int, y: int, z: int, dx: int)
    requires |g.count| >= 3 && |cs| == Total(g) && InGrid(x, y, z, g)
    requires IndicesBelow(cs, nb.Length) && cellPoints == CellAt(cs, Hash(x, y, z, g))
    modifies nb
    ensures forall q :: 0 <= q < nb.Length ==> nb[q] == old(nb[q]) + Run(g, cs, DyLoop(x, y, z, dx), -1, 2, q)
  {
    for dy := -1 to 2
      invariant forall q :: 0 <= q < nb.Length ==> nb[q] == old(nb[q]) + Run(g, cs, DyLoop(x, y, z, dx), -1, dy, q)
    {
      ScanDz(nb, g, cs, cellPoints, x, y, z, dx, dy);
    }
  }

  /** The 27 offsets of one cell: the loop over dx. */
  method ScanCell(nb: array<seq<nat>>, g: Grid, cs: seq<seq<nat>>, x: int, y: int, z: int)
    requires |g.count| >= 3 && |cs| == Total(g) && InGrid(x, y, z, g)
    requires IndicesBelow(cs, nb.Length)
    modifies nb
    ensures forall q :: 0 <= q < nb.Length ==> nb[q] == old(nb[q]) + CellScan(g, cs, x, y, z, q)
  {
    HashInRange(x, y, z, g);
    var cellPoints := cs[Hash(x, y, z, g)];
    for dx := -1 to 2
      invariant forall q :: 0 <= q < nb.Length ==> nb[q] == old(nb[q]) + Run(g, cs, DxLoop(x, y, z), -1, dx, q)
    {
      ScanDy(nb, g, cs, cellPoints, x, y, z, dx);
    }
  }

  /** The loop over z for one (x, y). */
  method ScanZ(nb: array<seq<nat>>, g: Grid, cs: seq<seq<nat>>, x: int, y: int)
    requires |g.count| >= 3 && |cs| == Total(g) && 0 <= x < g.count[0] && 0 <= y < g.count[1]
    requires IndicesBelow(cs, nb.Length)
    modifies nb
    ensures forall q :: 0 <= q < nb.Length ==> nb[q] == old(nb[q]) + Run(g, cs, ZLoop(x, y), 0, g.count[2], q)
  {
    for z := 0 to g.count[2]
      invariant forall q :: 0 <= q < nb.Length ==> nb[q] == old(nb[q]) + Run(g, cs, ZLoop(x, y), 0, z, q)
    {
      ScanCell(nb, g, cs, x, y, z);
    }
  }

  /** The loop over y for one x. */
  method ScanY(nb: array<seq<nat>>, g: Grid, cs: seq<seq<nat>>, x: int)
    requires |g.count| >= 3 && |cs| == Total(g) && 0 <= x < g.count[0]
    requires IndicesBelow(cs, nb.Length)
    modifies nb
    ensures forall q :: 0 <= q < nb.Length ==> nb[q] == old(nb[q]) + Run(g, cs, YLoop(x), 0, g.count[1], q)
  {
    for y := 0 to g.count[1]
      invariant forall q :: 0 <= q < nb.Length ==> nb[q] == old(nb[q]) + Run(g, cs, YLoop(x), 0, y, q)
    {
      ScanZ(nb, g, cs, x, y);
    }
  }

  /** `find_neighbors`: clears every neighbour list, then scans every cell of the grid. */
  method FindNeighbors(g: Grid, cs: seq<seq<nat>>, nb: array<seq<nat>>)
    requires |g.count| >= 3 && |cs| == Total(g)
    requires IndicesBelow(cs, nb.Length)
    modifies nb
    ensures forall q :: 0 <= q < nb.Length ==> nb[q] == Neighbours(g, cs, q)
  {
    for i := 0 to nb.Length
      invariant forall q :: 0 <= q < i ==> nb[q] == []
    {
      nb[i] := [];
    }
    for x := 0 to g.count[0]
      invariant forall q :: 0 <= q < nb.Length ==> nb[q] == Run(g, cs, XLoop, 0, x, q)
    {
      ScanY(nb, g, cs, x);
    }
  }

  // ---------------------------------------------------------------------------
  // Every adjacent pair exactly once, owned by the lower index

  /** The table `populate_grid` leaves behind: one list per cell of the grid, list h holding
      the particles whose cell index is h, where particle i lies in the grid cell coords[i]
      and has the cell index `hash(coords[i])`. */
  predicate Populated(g: Grid, cs: seq<seq<nat>>, cells: seq<int>, coords: seq<(int, int, int)>)
  {
    |g.count| >= 3 && |cs| == Total(g) && |coords| == |cells| &&
    (forall i :: 0 <= i < |cells| ==> InGrid(coords[i].0, coords[i].1, coords[i].2, g)) &&
    (forall i :: 0 <= i < |cells| ==> cells[i] == Hash(coords[i].0, coords[i].1, coords[i].2, g)) &&
    (forall h :: 0 <= h < |cs| ==> cs[h] == Bucket(cells, h, |cells|))
  }

  /** The cells `get_cell` gives the first n particles. */
  function Cells(px: seq<real>, py: seq<real>, pz: seq<real>, grid: Grid, invH: real, n: nat): (coords: seq<(int, int, int)>)
    requires |grid.offset| >= 3
    requires n <= |px| && n <= |py| && n <= |pz|
    ensures |coords| == n
    ensures forall i :: 0 <= i < n ==> coords[i] == GetCell(px[i], py[i], pz[i], grid, invH)
  {
    seq(n, i requires 0 <= i < n => GetCell(px[i], py[i], pz[i], grid, invH))
  }

  /** The table `populate_grid` leaves in a `contents` of one list per grid cell is
      `Populated` by the particles' own cells, as long as every particle lies in the grid. */
  lemma PopulateGridIsPopulated(px: seq<real>, py: seq<real>, pz: seq<real>, grid: Grid, invH: real, n: nat,
                                contents: seq<seq<nat>>)
    requires |grid.count| >= 3 && |grid.offset| >= 3
    requires n <= |px| && n <= |py| && n <= |pz|
    requires forall i :: 0 <= i < n ==> InGrid(GetCell(px[i], py[i], pz[i], grid, invH).0,
                                                GetCell(px[i], py[i], pz[i], grid, invH).1,
                                                GetCell(px[i], py[i], pz[i], grid, invH).2, grid)
    requires |contents| == Total(grid)
    requires forall c :: 0 <= c < |contents| ==> contents[c] == Bucket(CellIndices(px, py, pz, grid, invH, n), c, n)
    ensures Populated(grid, contents, CellIndices(px, py, pz, grid, invH, n), Cells(px, py, pz, grid, invH, n))
  {
  }

  /** Two cells differ by at most one in every coordinate. */
  predicate Adjacent(a: (int, int, int), b: (int, int, int))
  {
    -1 <= a.0 - b.0 <= 1 && -1 <= a.1 - b.1 <= 1 && -1 <= a.2 - b.2 <= 1
  }

  /** p and j form a candidate pair owned by p: both particles exist and p < j. */
  predicate Owned(coords: seq<(int, int, int)>, p: nat, j: int)
  {
    p < |coords| && 0 <= j < |coords| && p < j
  }

  /** The entries of b above p, counted. */
  lemma {:induction false} AboveCount(b: seq<nat>, p: nat, j: int)
    ensures Count(Above(b, p), j) == if j > p then Count(b, j) else 0
  {
    if |b| > 0 {
      var init, last := b[..|b| - 1], b[|b| - 1];
      AboveCount(init, p, j);
      var tail: seq<nat> := if p < last then [last] else [];
      assert b[..|b| - 1] == init;
      CountConcat(Above(init, p), tail, j);
      assert Count(tail, j) == if p < last && last == j then 1 else 0 by {
        if p < last {
          assert tail[..0] == [];
        }
      }
      CountConcat(init, [last], j);
      assert init + [last] == b;
      assert [last][..0] == [];
    }
  }

  /** A list holding p once contributes `Above(b, p)` to p's list, a list without p nothing. */
  lemma {:induction false} PairsCount(a: seq<nat>, b: seq<nat>, p: nat, j: int)
    ensures Count(a, p) == 0 ==> Count(Pairs(a, b, p), j) == 0
    ensures Count(a, p) == 1 ==> Count(Pairs(a, b, p), j) == Count(Above(b, p), j)
  {
    if |a| > 0 {
      var init, last := a[..|a| - 1], a[|a| - 1];
      PairsCount(init, b, p, j);
      var tail: seq<nat> := if last == p then Above(b, p) else [];
      CountConcat(Pairs(init, b, p), tail, j);
    }
  }

  /** The pairs of two cell lists, counted: j is appended to p's list once when p occurs
      once in the first list, j once in the second and p < j. */
  lemma PairsOfCells(a: seq<nat>, b: seq<nat>, p: nat, j: int, inA: bool, inB: bool)
    requires Count(a, p) == (if inA then 1 else 0) && Count(b, j) == (if inB then 1 else 0)
    ensures Count(Pairs(a, b, p), j) == if inA && inB && p < j then 1 else 0
  {
    PairsCount(a, b, p, j);
    AboveCount(b, p, j);
  }

  /** In a populated table the list of cell (x, y, z) holds particle i once if i lies in
      (x, y, z), and not at all otherwise. */
  lemma CellOccurrence(g: Grid, cs: seq<seq<nat>>, cells: seq<int>, coords: seq<(int, int, int)>,
                       x: int, y: int, z: int, i: int)
    requires Populated(g, cs, cells, coords) && InGrid(x, y, z, g)
    ensures Count(CellAt(cs, Hash(x, y, z, g)), i) == if 0 <= i < |coords| && coords[i].0 == x && coords[i].1 == y && coords[i].2 == z then 1 else 0
  {
    HashInRange(x, y, z, g);
    var h := Hash(x, y, z, g);
    BucketCount(cells, h, |cells|, i);
    if 0 <= i < |cells| && cells[i] == h {
      HashInjective(coords[i], (x, y, z), g);
    }
  }

  /** Each cell list holds exactly the particles lying in that cell, each once. */
  ghost predicate CellListsExact(g: Grid, cs: seq<seq<nat>>, coords: seq<(int, int, int)>)
  {
    |g.count| >= 3 &&
    (forall i :: 0 <= i < |coords| ==> InGrid(coords[i].0, coords[i].1, coords[i].2, g)) &&
    (forall x, y, z, i {:trigger Count(CellAt(cs, Hash(x, y, z, g)), i)} :: InGrid(x, y, z, g) ==>
       Count(CellAt(cs, Hash(x, y, z, g)), i) == if 0 <= i < |coords| && coords[i].0 == x && coords[i].1 == y && coords[i].2 == z then 1 else 0)
  }

  /** The table `populate_grid` builds has exact cell lists. */
  lemma PopulatedListsExact(g: Grid, cs: seq<seq<nat>>, cells: seq<int>, coords: seq<(int, int, int)>)
    requires Populated(g, cs, cells, coords)
    ensures CellListsExact(g, cs, coords)
  {
    forall x, y, z, i | InGrid(x, y, z, g)
      ensures Count(CellAt(cs, Hash(x, y, z, g)), i) == if 0 <= i < |coords| && coords[i].0 == x && coords[i].1 == y && coords[i].2 == z then 1 else 0
    {
      CellOccurrence(g, cs, cells, coords, x, y, z, i);
    }
  }

  /** One cell list entry of `CellListsExact`, instantiated. */
  lemma ListCount(g: Grid, cs: seq<seq<nat>>, coords: seq<(int, int, int)>, x: int, y: int, z: int, i: int)
    requires CellListsExact(g, cs, coords) && InGrid(x, y, z, g)
    ensures Count(CellAt(cs, Hash(x, y, z, g)), i)
         == if 0 <= i < |coords| && coords[i].0 == x && coords[i].1 == y && coords[i].2 == z then 1 else 0
  {
  }

  /** The cell of particle i, or the origin for a particle that does not exist. */
  function At(coords: seq<(int, int, int)>, i: int): (int, int, int)
  {
    if 0 <= i < |coords| then coords[i] else (0, 0, 0)
  }

  /** Cell c is the cell (x, y, z). */
  predicate SameCell(c: (int, int, int), x: int, y: int, z: int)
  {
    c.0 == x && c.1 == y && c.2 == z
  }

  /** A loop whose iteration i appends j exactly when b holds and i == v appends j once over
      the range lo .. hi-1 exactly when b holds and v lies in the range. */
  lemma {:induction false} RunCount(g: Grid, cs: seq<seq<nat>>, l: Loop, lo: int, hi: int, p: nat, j: int, b: bool, v: int)
    requires |g.count| >= 3
    requires forall i :: lo <= i < hi ==> Count(Iteration(g, cs, l, i, p), j) == Ind(b && v == i)
    ensures Count(Run(g, cs, l, lo, hi, p), j) == Ind(b && lo <= v < hi)
    decreases hi - lo
  {
    if lo < hi {
      RunCount(g, cs, l, lo, hi - 1, p, j, b, v);
      CountConcat(Run(g, cs, l, lo, hi - 1, p), Iteration(g, cs, l, hi - 1, p), j);
    }
  }

  /** The visit of one neighbouring cell appends j to p's list once when p lies in the
      visited cell, j in its neighbour at the offset and p < j. */
  lemma VisitCount(g: Grid, cs: seq<seq<nat>>, coords: seq<(int, int, int)>,
                   x: int, y: int, z: int, dx: int, dy: int, dz: int, p: nat, j: int)
    requires CellListsExact(g, cs, coords) && InGrid(x, y, z, g)
    ensures Count(Visit(g, cs, x, y, z, dx, dy, dz, p), j)
         == Ind(Owned(coords, p, j) && SameCell(At(coords, p), x, y, z) && SameCell(At(coords, j), x + dx, y + dy, z + dz))
  {
    var nx, ny, nz := x + dx, y + dy, z + dz;
    if InGrid(nx, ny, nz, g) {
      var a, b := CellAt(cs, Hash(x, y, z, g)), CellAt(cs, Hash(nx, ny, nz, g));
      ListCount(g, cs, coords, x, y, z, p);
      ListCount(g, cs, coords, nx, ny, nz, j);
      PairsOfCells(a, b, p, j, p < |coords| && coords[p].0 == x && coords[p].1 == y && coords[p].2 == z,
                   0 <= j < |coords| && coords[j].0 == nx && coords[j].1 == ny && coords[j].2 == nz);
    } else if 0 <= j < |coords| {
      assert InGrid(coords[j].0, coords[j].1, coords[j].2, g);
    }
  }

  /** The loop over dz appends j once when p lies in (x, y, z) and j in a cell of the column
      (x + dx, y + dy, z - 1 .. z + 1). */
  lemma DzCount(g: Grid, cs: seq<seq<nat>>, coords: seq<(int, int, int)>,
                x: int, y: int, z: int, dx: int, dy: int, p: nat, j: int)
    requires CellListsExact(g, cs, coords) && InGrid(x, y, z, g)
    ensures Count(Run(g, cs, DzLoop(x, y, z, dx, dy), -1, 2, p), j)
         == Ind(Owned(coords, p, j) && SameCell(At(coords, p), x, y, z)
                && At(coords, j).0 == x + dx && At(coords, j).1 == y + dy && -1 <= At(coords, j).2 - z <= 1)
  {
    var l := DzLoop(x, y, z, dx, dy);
    var cp, cj := At(coords, p), At(coords, j);
    var b := Owned(coords, p, j) && SameCell(cp, x, y, z) && cj.0 == x + dx && cj.1 == y + dy;
    forall dz | -1 <= dz < 2
      ensures Count(Iteration(g, cs, l, dz, p), j) == Ind(b && cj.2 - z == dz)
    {
      VisitCount(g, cs, coords, x, y, z, dx, dy, dz, p, j);
    }
    RunCount(g, cs, l, -1, 2, p, j, b, cj.2 - z);
  }

  /** The loop over dy appends j once when p lies in (x, y, z) and j in a cell of the slab
      x + dx within one step of (y, z). */
  lemma DyCount(g: Grid, cs: seq<seq<nat>>, coords: seq<(int, int, int)>,
                x: int, y: int, z: int, dx: int, p: nat, j: int)
    requires CellListsExact(g, cs, coords) && InGrid(x, y, z, g)
    ensures Count(Run(g, cs, DyLoop(x, y, z, dx), -1, 2, p), j)
         == Ind(Owned(coords, p, j) && SameCell(At(coords, p), x, y, z)
                && At(coords, j).0 == x + dx && -1 <= At(coords, j).1 - y <= 1 && -1 <= At(coords, j).2 - z <= 1)
  {
    var l := DyLoop(x, y, z, dx);
    var cp, cj := At(coords, p), At(coords, j);
    var b := Owned(coords, p, j) && SameCell(cp, x, y, z) && cj.0 == x + dx && -1 <= cj.2 - z <= 1;
    forall dy | -1 <= dy < 2
      ensures Count(Iteration(g, cs, l, dy, p), j) == Ind(b && cj.1 - y == dy)
    {
      DzCount(g, cs, coords, x, y, z, dx, dy, p, j);
    }
    RunCount(g, cs, l, -1, 2, p, j, b, cj.1 - y);
  }

  /** The scan of one cell appends j to p's list once when p lies in that cell, j in an
      adjacent cell and p < j, and never otherwise. */
  lemma CellScanCount(g: Grid, cs: seq<seq<nat>>, coords: seq<(int, int, int)>,
                      x: int, y: int, z: int, p: nat, j: int)
    requires CellListsExact(g, cs, coords) && InGrid(x, y, z, g)
    ensures Count(CellScan(g, cs, x, y, z, p), j)
         == Ind(Owned(coords, p, j) && Adjacent(At(coords, j), At(coords, p)) && SameCell(At(coords, p), x, y, z))
  {
    var l := DxLoop(x, y, z);
    var cp, cj := At(coords, p), At(coords, j);
    var b := Owned(coords, p, j) && SameCell(cp, x, y, z) && -1 <= cj.1 - y <= 1 && -1 <= cj.2 - z <= 1;
    forall dx | -1 <= dx < 2
      ensures Count(Iteration(g, cs, l, dx, p), j) == Ind(b && cj.0 - x == dx)
    {
      DyCount(g, cs, coords, x, y, z, dx, p, j);
    }
    RunCount(g, cs, l, -1, 2, p, j, b, cj.0 - x);
    BlockIsAdjacent(Owned(coords, p, j), cp, cj, x, y, z);
  }

  /** The cells within one step of (x, y, z) in every coordinate are the cells adjacent to it. */
  lemma BlockIsAdjacent(o: bool, cp: (int, int, int), cj: (int, int, int), x: int, y: int, z: int)
    ensures (o && SameCell(cp, x, y, z) && -1 <= cj.1 - y <= 1 && -1 <= cj.2 - z <= 1 && -1 <= cj.0 - x < 2)
         == (o && Adjacent(cj, cp) && SameCell(cp, x, y, z))
  {
  }

  /** The loop over z appends j once when p lies in column (x, y) and j in a cell adjacent
      to p's. */
  lemma ZCount(g: Grid, cs: seq<seq<nat>>, coords: seq<(int, int, int)>, x: int, y: int, p: nat, j: int)
    requires CellListsExact(g, cs, coords) && 0 <= x < g.count[0] && 0 <= y < g.count[1]
    ensures Count(Run(g, cs, ZLoop(x, y), 0, g.count[2], p), j)
         == Ind(Owned(coords, p, j) && Adjacent(At(coords, j), At(coords, p))
                && At(coords, p).0 == x && At(coords, p).1 == y && 0 <= At(coords, p).2 < g.count[2])
  {
    var l := ZLoop(x, y);
    var cp := At(coords, p);
    var b := Owned(coords, p, j) && Adjacent(At(coords, j), cp) && cp.0 == x && cp.1 == y;
    forall z | 0 <= z < g.count[2]
      ensures Count(Iteration(g, cs, l, z, p), j) == Ind(b && cp.2 == z)
    {
      CellScanCount(g, cs, coords, x, y, z, p, j);
    }
    RunCount(g, cs, l, 0, g.count[2], p, j, b, cp.2);
  }

  /** The loop over y appends j once when p lies in plane x and j in a cell adjacent to p's. */
  lemma YCount(g: Grid, cs: seq<seq<nat>>, coords: seq<(int, int, int)>, x: int, p: nat, j: int)
    requires CellListsExact(g, cs, coords) && 0 <= x < g.count[0]
    ensures Count(Run(g, cs, YLoop(x), 0, g.count[1], p), j)
         == Ind(Owned(coords, p, j) && Adjacent(At(coords, j), At(coords, p))
                && At(coords, p).0 == x && 0 <= At(coords, p).1 < g.count[1] && 0 <= At(coords, p).2 < g.count[2])
  {
    var l := YLoop(x);
    var cp := At(coords, p);
    var b := Owned(coords, p, j) && Adjacent(At(coords, j), cp) && cp.0 == x && 0 <= cp.2 < g.count[2];
    forall y | 0 <= y < g.count[1]
      ensures Count(Iteration(g, cs, l, y, p), j) == Ind(b && cp.1 == y)
    {
      ZCount(g, cs, coords, x, y, p, j);
    }
    RunCount(g, cs, l, 0, g.count[1], p, j, b, cp.1);
  }

  /** The loop over x appends j once when p lies in the grid and j in a cell adjacent to p's. */
  lemma XCount(g: Grid, cs: seq<seq<nat>>, coords: seq<(int, int, int)>, p: nat, j: int)
    requires CellListsExact(g, cs, coords)
    ensures Count(Neighbours(g, cs, p), j)
         == Ind(Owned(coords, p, j) && Adjacent(At(coords, j), At(coords, p))
                && InGrid(At(coords, p).0, At(coords, p).1, At(coords, p).2, g))
  {
    var l := XLoop;
    var cp := At(coords, p);
    var b := Owned(coords, p, j) && Adjacent(At(coords, j), cp) && 0 <= cp.1 < g.count[1] && 0 <= cp.2 < g.count[2];
    forall x | 0 <= x < g.count[0]
      ensures Count(Iteration(g, cs, l, x, p), j) == Ind(b && cp.0 == x)
    {
      YCount(g, cs, coords, x, p, j);
    }
    RunCount(g, cs, l, 0, g.count[0], p, j, b, cp.0);
  }

  /** The main property of the neighbour search: after `find_neighbors` on a populated table,
      `neighbors[p]` holds j exactly once when p < j and the cells of p and j are adjacent,
      and not at all otherwise. */
  lemma NeighboursExactlyOnce(g: Grid, cs: seq<seq<nat>>, cells: seq<int>, coords: seq<(int, int, int)>, p: nat, j: int)
    requires Populated(g, cs, cells, coords)
    ensures multiset(Neighbours(g, cs, p))[j]
         == if Owned(coords, p, j) && Adjacent(coords[j], coords[p]) then 1 else 0
  {
    PopulatedListsExact(g, cs, cells, coords);
    XCount(g, cs, coords, p, j);
    CountIsMultiplicity(Neighbours(g, cs, p), j);
    if Owned(coords, p, j) {
      assert InGrid(coords[p].0, coords[p].1, coords[p].2, g);
    }
  }

  /** `populate_grid` followed by `find_neighbors`: particle j is listed once among p's
      neighbours when p < j and the cells `get_cell` gives them are adjacent, and never
      otherwise. */
  lemma PopulateThenFindNeighbours(px: seq<real>, py: seq<real>, pz: seq<real>, grid: Grid, invH: real, n: nat,
                                   contents: seq<seq<nat>>, p: nat, j: int)
    requires |grid.count| >= 3 && |grid.offset| >= 3
    requires n <= |px| && n <= |py| && n <= |pz|
    requires forall i :: 0 <= i < n ==> InGrid(GetCell(px[i], py[i], pz[i], grid, invH).0,
                                                GetCell(px[i], py[i], pz[i], grid, invH).1,
                                                GetCell(px[i], py[i], pz[i], grid, invH).2, grid)
    requires |contents| == Total(grid)
    requires forall c :: 0 <= c < |contents| ==> contents[c] == Bucket(CellIndices(px, py, pz, grid, invH, n), c, n)
    ensures multiset(Neighbours(grid, contents, p))[j]
         == if p < j < n && Adjacent(GetCell(px[j], py[j], pz[j], grid, invH), GetCell(px[p], py[p], pz[p], grid, invH))
            then 1 else 0
  {
    var cells, coords := CellIndices(px, py, pz, grid, invH, n), Cells(px, py, pz, grid, invH, n);
    PopulateGridIsPopulated(px, py, pz, grid, invH, n, contents);
    NeighboursExactlyOnce(grid, contents, cells, coords, p, j);
  }

  /** Each unordered pair of particles in adjacent cells is recorded once, in the list of the
      lower index, and never in the list of the higher one; pairs in cells further apart are
      never recorded. */
  lemma PairRecordedOnce(g: Grid, cs: seq<seq<nat>>, cells: seq<int>, coords: seq<(int, int, int)>, i: nat, j: nat)
    requires Populated(g, cs, cells, coords) && i < j < |cells|
    ensures Adjacent(coords[i], coords[j]) ==> multiset(Neighbours(g, cs, i))[j] == 1
    ensures !Adjacent(coords[i], coords[j]) ==> j !in Neighbours(g, cs, i)
    ensures i !in Neighbours(g, cs, j)
  {
    NeighboursExactlyOnce(g, cs, cells, coords, i, j);
    NeighboursExactlyOnce(g, cs, cells, coords, j, i);
  }

  /** Whatever a loop appends to `neighbors[p]` is above p, with no assumption on the table. */
  lemma {:induction false} RunAbove(g: Grid, cs: seq<seq<nat>>, l: Loop, lo: int, hi: int, p: nat, j: int)
    requires |g.count| >= 3 && j in Run(g, cs, l, lo, hi, p)
    ensures j > p
    decreases Depth(l), 1, hi - lo
  {
    var prev, last := Run(g, cs, l, lo, hi - 1, p), Iteration(g, cs, l, hi - 1, p);
    assert Run(g, cs, l, lo, hi, p) == prev + last;
    if j in prev {
      RunAbove(g, cs, l, lo, hi - 1, p, j);
    } else {
      IterationAbove(g, cs, l, hi - 1, p, j);
    }
  }

  /** Whatever one iteration of a loop appends to `neighbors[p]` is above p. */
  lemma {:induction false} IterationAbove(g: Grid, cs: seq<seq<nat>>, l: Loop, i: int, p: nat, j: int)
    requires |g.count| >= 3 && j in Iteration(g, cs, l, i, p)
    ensures j > p
    decreases Depth(l), 0
  {
    match l
    case DzLoop(x, y, z, dx, dy) =>
    case DyLoop(x, y, z, dx) => RunAbove(g, cs, DzLoop(x, y, z, dx, i), -1, 2, p, j);
    case DxLoop(x, y, z) => RunAbove(g, cs, DyLoop(x, y, z, i), -1, 2, p, j);
    case ZLoop(x, y) => RunAbove(g, cs, DxLoop(x, y, i), -1, 2, p, j);
    case YLoop(x) => RunAbove(g, cs, ZLoop(x, i), 0, g.count[2], p, j);
    case XLoop => RunAbove(g, cs, YLoop(i), 0, g.count[1], p, j);
  }

  /** After `find_neighbors`, every entry of `neighbors[p]` is above p. */
  lemma NeighboursAbove(g: Grid, cs: seq<seq<nat>>, p: nat, j: int)
    requires |g.count| >= 3 && j in Neighbours(g, cs, p)
    ensures j > p
  {
    RunAbove(g, cs, XLoop, 0, g.count[0], p, j);
  }

  // ---------------------------------------------------------------------------
  // Particles sharing one cell: the lists in order

  /** The indices lo .. hi-1 in increasing order. */
  function Range(lo: nat, hi: int): (r: seq<nat>)
    ensures |r| == if hi <= lo then 0 else hi - lo
    decreases hi - lo
  {
    if hi <= lo then [] else Range(lo, hi - 1) + [hi - 1]
  }

  /** `Range` is the comprehension of its indices. */
  lemma {:induction false} RangeIsSeq(lo: nat, hi: int)
    requires lo <= hi
    ensures Range(lo, hi) == seq(hi - lo, k => lo + k)
    decreases hi - lo
  {
    if lo < hi {
      RangeIsSeq(lo, hi - 1);
    }
  }

  /** The list of a cell holding every one of the first k particles is `0 .. k-1`. */
  lemma {:induction false} BucketOfAll(cells: seq<int>, c: int, k: nat)
    requires k <= |cells| && forall i :: 0 <= i < k ==> cells[i] == c
    ensures Bucket(cells, c, k) == Range(0, k)
  {
    if k > 0 {
      BucketOfAll(cells, c, k - 1);
    }
  }

  /** The entries of `0 .. k-1` above p are `p+1 .. k-1`. */
  lemma {:induction false} AboveRange(k: nat, p: nat)
    ensures Above(Range(0, k), p) == Range(p + 1, k)
  {
    if k > 0 {
      AboveRange(k - 1, p);
      assert Range(0, k)[..k - 1] == Range(0, k - 1);
    }
  }

  /** With `0 .. k-1` as the first list, p owns `Above(b, p)` when p < k and nothing
      otherwise. */
  lemma {:induction false} PairsOfRange(k: nat, b: seq<nat>, p: nat)
    ensures Pairs(Range(0, k), b, p) == if p < k then Above(b, p) else []
  {
    if k > 0 {
      PairsOfRange(k - 1, b, p);
      assert Range(0, k)[..k - 1] == Range(0, k - 1);
    }
  }

  /** An empty neighbouring list gives no pairs. */
  lemma {:induction false} PairsWithEmpty(a: seq<nat>, p: nat)
    ensures Pairs(a, [], p) == []
  {
    if |a| > 0 {
      PairsWithEmpty(a[..|a| - 1], p);
    }
  }

  /** A list in which nothing occurs is empty. */
  lemma NothingCountedIsEmpty(s: seq<nat>)
    requires forall i :: Count(s, i) == 0
    ensures s == []
  {
    if |s| > 0 {
      CountIsMultiplicity(s, s[0]);
    }
  }

  /** Every list of the in-grid cells is empty except that of cell c, which is cl. */
  ghost predicate OnlyCellHolds(g: Grid, cs: seq<seq<nat>>, c: (int, int, int), cl: seq<nat>)
  {
    |g.count| >= 3 && InGrid(c.0, c.1, c.2, g) && CellAt(cs, Hash(c.0, c.1, c.2, g)) == cl &&
    forall x, y, z :: InGrid(x, y, z, g) && (x, y, z) != c ==> CellAt(cs, Hash(x, y, z, g)) == []
  }

  /** A loop whose iterations append nothing except s in iteration v appends s when v lies
      in its range, and nothing otherwise. */
  lemma {:induction false} RunOnly(g: Grid, cs: seq<seq<nat>>, l: Loop, lo: int, hi: int, p: nat, v: int, s: seq<nat>)
    requires |g.count| >= 3
    requires forall i :: lo <= i < hi ==> Iteration(g, cs, l, i, p) == if i == v then s else []
    ensures Run(g, cs, l, lo, hi, p) == if lo <= v < hi then s else []
    decreases hi - lo
  {
    if lo < hi {
      RunOnly(g, cs, l, lo, hi - 1, p, v, s);
    }
  }

  /** With one non-empty cell, only the visit of that cell at offset 0 appends anything. */
  lemma VisitOneCell(g: Grid, cs: seq<seq<nat>>, c: (int, int, int), cl: seq<nat>,
                     x: int, y: int, z: int, dx: int, dy: int, dz: int, p: nat)
    requires OnlyCellHolds(g, cs, c, cl) && InGrid(x, y, z, g)
    ensures Visit(g, cs, x, y, z, dx, dy, dz, p)
         == if (x, y, z) == c && dx == 0 && dy == 0 && dz == 0 then Pairs(cl, cl, p) else []
  {
    if InGrid(x + dx, y + dy, z + dz, g) {
      if (x, y, z) != c {
        assert CellAt(cs, Hash(x, y, z, g)) == [];
      } else if (x + dx, y + dy, z + dz) != c {
        assert CellAt(cs, Hash(x + dx, y + dy, z + dz, g)) == [];
        PairsWithEmpty(cl, p);
      }
    }
  }

  /** With one non-empty cell, the dz loop appends its pairs only in that cell's column at
      offset (0, 0). */
  lemma DzOneCell(g: Grid, cs: seq<seq<nat>>, c: (int, int, int), cl: seq<nat>,
                  x: int, y: int, z: int, dx: int, dy: int, p: nat)
    requires OnlyCellHolds(g, cs, c, cl) && InGrid(x, y, z, g)
    ensures Run(g, cs, DzLoop(x, y, z, dx, dy), -1, 2, p)
         == if (x, y, z) == c && dx == 0 && dy == 0 then Pairs(cl, cl, p) else []
  {
    var v := if (x, y, z) == c && dx == 0 && dy == 0 then 0 else 2;
    forall dz | -1 <= dz < 2
      ensures Iteration(g, cs, DzLoop(x, y, z, dx, dy), dz, p) == if dz == v then Pairs(cl, cl, p) else []
    {
      VisitOneCell(g, cs, c, cl, x, y, z, dx, dy, dz, p);
    }
    RunOnly(g, cs, DzLoop(x, y, z, dx, dy), -1, 2, p, v, Pairs(cl, cl, p));
  }

  /** With one non-empty cell, the dy loop appends its pairs only at that cell, offset dx 0. */
  lemma DyOneCell(g: Grid, cs: seq<seq<nat>>, c: (int, int, int), cl: seq<nat>,
                  x: int, y: int, z: int, dx: int, p: nat)
    requires OnlyCellHolds(g, cs, c, cl) && InGrid(x, y, z, g)
    ensures Run(g, cs, DyLoop(x, y, z, dx), -1, 2, p)
         == if (x, y, z) == c && dx == 0 then Pairs(cl, cl, p) else []
  {
    var v := if (x, y, z) == c && dx == 0 then 0 else 2;
    forall dy | -1 <= dy < 2
      ensures Iteration(g, cs, DyLoop(x, y, z, dx), dy, p) == if dy == v then Pairs(cl, cl, p) else []
    {
      DzOneCell(g, cs, c, cl, x, y, z, dx, dy, p);
    }
    RunOnly(g, cs, DyLoop(x, y, z, dx), -1, 2, p, v, Pairs(cl, cl, p));
  }

  /** With one non-empty cell, only the scan of that cell appends anything. */
  lemma CellScanOneCell(g: Grid, cs: seq<seq<nat>>, c: (int, int, int), cl: seq<nat>,
                        x: int, y: int, z: int, p: nat)
    requires OnlyCellHolds(g, cs, c, cl) && InGrid(x, y, z, g)
    ensures CellScan(g, cs, x, y, z, p) == if (x, y, z) == c then Pairs(cl, cl, p) else []
  {
    var v := if (x, y, z) == c then 0 else 2;
    forall dx | -1 <= dx < 2
      ensures Iteration(g, cs, DxLoop(x, y, z), dx, p) == if dx == v then Pairs(cl, cl, p) else []
    {
      DyOneCell(g, cs, c, cl, x, y, z, dx, p);
    }
    RunOnly(g, cs, DxLoop(x, y, z), -1, 2, p, v, Pairs(cl, cl, p));
  }

  /** With one non-empty cell, the z loop appends its pairs only in that cell's column. */
  lemma ZOneCell(g: Grid, cs: seq<seq<nat>>, c: (int, int, int), cl: seq<nat>, x: int, y: int, p: nat)
    requires OnlyCellHolds(g, cs, c, cl) && 0 <= x < g.count[0] && 0 <= y < g.count[1]
    ensures Run(g, cs, ZLoop(x, y), 0, g.count[2], p) == if x == c.0 && y == c.1 then Pairs(cl, cl, p) else []
  {
    var v := if x == c.0 && y == c.1 then c.2 else -1;
    forall z | 0 <= z < g.count[2]
      ensures Iteration(g, cs, ZLoop(x, y), z, p) == if z == v then Pairs(cl, cl, p) else []
    {
      CellScanOneCell(g, cs, c, cl, x, y, z, p);
    }
    RunOnly(g, cs, ZLoop(x, y), 0, g.count[2], p, v, Pairs(cl, cl, p));
  }

  /** With one non-empty cell, the y loop appends its pairs only in that cell's plane. */
  lemma YOneCell(g: Grid, cs: seq<seq<nat>>, c: (int, int, int), cl: seq<nat>, x: int, p: nat)
    requires OnlyCellHolds(g, cs, c, cl) && 0 <= x < g.count[0]
    ensures Run(g, cs, YLoop(x), 0, g.count[1], p) == if x == c.0 then Pairs(cl, cl, p) else []
  {
    var v := if x == c.0 then c.1 else -1;
    forall y | 0 <= y < g.count[1]
      ensures Iteration(g, cs, YLoop(x), y, p) == if y == v then Pairs(cl, cl, p) else []
    {
      ZOneCell(g, cs, c, cl, x, y, p);
    }
    RunOnly(g, cs, YLoop(x), 0, g.count[1], p, v, Pairs(cl, cl, p));
  }

  /** With one non-empty cell, `neighbors[p]` is what the pairs of that cell with itself
      give p. */
  lemma NeighboursOneCell(g: Grid, cs: seq<seq<nat>>, c: (int, int, int), cl: seq<nat>, p: nat)
    requires OnlyCellHolds(g, cs, c, cl)
    ensures Neighbours(g, cs, p) == Pairs(cl, cl, p)
  {
    forall x | 0 <= x < g.count[0]
      ensures Iteration(g, cs, XLoop, x, p) == if x == c.0 then Pairs(cl, cl, p) else []
    {
      YOneCell(g, cs, c, cl, x, p);
    }
    RunOnly(g, cs, XLoop, 0, g.count[0], p, c.0, Pairs(cl, cl, p));
  }

  /** When all particles share one cell, that cell's list is `0 .. n-1` and every other
      list of the grid is empty. */
  lemma SharedCellTable(g: Grid, cs: seq<seq<nat>>, cells: seq<int>, coords: seq<(int, int, int)>)
    requires Populated(g, cs, cells, coords) && |coords| > 0
    requires forall i :: 0 <= i < |coords| ==> coords[i] == coords[0]
    ensures OnlyCellHolds(g, cs, coords[0], Range(0, |coords|))
  {
    var c, n := coords[0], |coords|;
    assert InGrid(c.0, c.1, c.2, g);
    var h := Hash(c.0, c.1, c.2, g);
    HashInRange(c.0, c.1, c.2, g);
    BucketOfAll(cells, h, n);
    forall x, y, z | InGrid(x, y, z, g) && (x, y, z) != c
      ensures CellAt(cs, Hash(x, y, z, g)) == []
    {
      forall i
        ensures Count(CellAt(cs, Hash(x, y, z, g)), i) == 0
      {
        CellOccurrence(g, cs, cells, coords, x, y, z, i);
      }
      NothingCountedIsEmpty(CellAt(cs, Hash(x, y, z, g)));
    }
  }

  /** With `0 .. n-1` as the only non-empty list, `neighbors[p]` is `p+1 .. n-1` in
      increasing order. */
  lemma OneCellOfAll(g: Grid, cs: seq<seq<nat>>, c: (int, int, int), n: nat, p: nat)
    requires OnlyCellHolds(g, cs, c, Range(0, n))
    ensures p < n ==> Neighbours(g, cs, p) == seq(n - 1 - p, k => p + 1 + k)
    ensures p >= n ==> Neighbours(g, cs, p) == []
  {
    NeighboursOneCell(g, cs, c, Range(0, n), p);
    PairsOfRange(n, Range(0, n), p);
    if p < n {
      AboveRange(n, p);
      RangeIsSeq(p + 1, n);
    }
  }

  /** Particles that all share one cell are all neighbours of each other: particle p's list
      holds every higher index once, in increasing order, and nothing else. */
  lemma SharedCellNeighbours(g: Grid, cs: seq<seq<nat>>, cells: seq<int>, coords: seq<(int, int, int)>, p: nat, j: int)
    requires Populated(g, cs, cells, coords) && |coords| > 0
    requires forall i :: 0 <= i < |coords| ==> coords[i] == coords[0]
    ensures multiset(Neighbours(g, cs, p))[j] == if p < j < |coords| then 1 else 0
    ensures p < |coords| ==> Neighbours(g, cs, p) == seq(|coords| - 1 - p, k => p + 1 + k)
    ensures p >= |coords| ==> Neighbours(g, cs, p) == []
  {
    NeighboursExactlyOnce(g, cs, cells, coords, p, j);
    SharedCellTable(g, cs, cells, coords);
    OneCellOfAll(g, cs, coords[0], |coords|, p);
  }
}
