# SPH fluid solver — a Dafny model

This project models the core of a small Smoothed Particle Hydrodynamics (SPH) fluid
solver, together with its TypeScript prototypes and its command-line frame builder.

**The Rust solver (`crates/sph`).**
- **Particle arena.** One flat buffer of `14 * N` floats (`N = 1000`), exposed as fourteen
  per-particle windows: `x`, `y`, `z`, `vx`, `vy`, `vz`, `ax`, `ay`, `az`, `ax_`, `ay_`,
  `az_`, `rho` and `p`.
- **Smoothing kernel.** A piecewise cubic and its derivative.
- **Uniform grid.** `compute_grid`, `get_cell`, `hash` and `populate_grid`.
- **Neighbour search.** `find_neighbors`.
- **Timestep stages** of `simulation.rs`: snapshot and reset, constant density, gravity,
  wall reflection, then leapfrog. `update` runs them in that order.
- **Initial layout.** The triangular layout of `fill_arena`.
- **Solver state.** The `State` struct.

**The TypeScript prototypes (`src`).**
- `main_arch.ts`: an all-pairs SPH with a Poly6 density, pressure, viscosity, gravity and a
  mouse-drag force. It uses forward Euler with damped walls, a run/pause toggle and a
  start-up grid of particles.
- `simulation.ts`: a bouncing-particle step and a random scatter.
- `step.ts`: a spring step.
- `main.ts`: the fixed-timestep driver.
- `kernel.ts`: the same kernel as the Rust solver.
- `spatial-hash.ts`: the same grid sizing, with less padding.

**The frame builder (`crates/cli/src/video.rs`).** RGB frames as flat byte buffers:
- the frame list;
- a single white pixel on black;
- the particles drawn as white pixels on a dark blue background.

**How the model is built.**
- Each source file is one module.
- Code that mutates arrays in place is a method over a Dafny `array` or a class field.
  Its loop invariants are stated against a specification function of the old contents.
- Pure code is functions and lemmas.
- Floating-point numbers are modelled as exact reals.

**Main results.**
- **Kernel:**
  - zero outside its support and positive inside it;
  - strictly decreasing on the support;
  - `d_kernel` is its exact derivative: the remainder is a polynomial of second order in
    the step;
  - the TypeScript kernel equals the Rust one.
- **Grid:** the Rust grid covers the extents with 1.5 cells of margin on each side and is
  centred on them; for a non-empty extent the TypeScript grid is exactly two cells narrower.
- **Hash:** a bijection between in-grid cells and `0 .. count0 * count1 * count2`.
- **`populate_grid`:** puts every particle in exactly one list, its own cell's, in
  increasing order.
- **`find_neighbors`:** records `j` in `neighbors[i]` exactly once when `i < j` and their
  cells are adjacent, and never otherwise. A pair sharing a cell is always recorded.
- **Wall reflection:** puts a particle inside the box and is idempotent.
- **Leapfrog:** reversible under a uniform acceleration.
- **`update`:** each particle's new values are one function of its old values.
- **`fill_arena`:** writes the triangle layout at indices `0 ..` and keeps every
  particle inside the box.
- **Prototypes:**
  - the `main_arch.ts` step keeps every particle inside the container, and its density is
    at least the particle's own contribution;
  - the `step.ts` update is invertible and area-preserving;
  - the `main.ts` frame loop runs the number of whole `FIXED_DELTA`s banked, capped at
    `MAX_STEPS`.
- **Frames:** a rendered pixel is white exactly when some particle maps to it.

**Behaviour worth knowing:**
- **Neighbour block.** `find_neighbors` scans the 27 cells of a 3D block, not the 9 cells
  of a 2D block.
- **No distance test.** It records every ordered pair of adjacent cells without a
  distance test, so a listed neighbour can be farther than the smoothing radius.
- **No kernel density.** `add_densities` adds the constant 2.1 to every density instead
  of summing the kernel over neighbours.
- **No pressure stage.** `update` has no pressure-force stage; the only acceleration it
  adds is gravity.
- **Positions can leave the box.** `update` reflects before the leapfrog move, so a
  position can leave the box after a step (`Simulation.UpdateMayLeaveBox` gives an
  instance).
- **Upper walls are not drawn.** `render_particles` maps a particle lying exactly on an
  upper wall (1.6) to the coordinate `width` (or `height`), so it is not drawn.
  `as usize` turns negative coordinates into 0.

## Model

| member | source | states |
|---|---|---|
| Numeric.Ceil | crates/sph/src/initial_conditions.rs:17 | `.ceil()`: the least integer not below `x` |
| Numeric.ToUsize | crates/cli/src/video.rs:113-114 | definition: `as usize` of an integral value, negative values becoming 0 and the rest kept; its ensures only spell out the two cases |
| Kernel.KernelQ | crates/sph/src/kernel.rs:8-15 | definition: the kernel at `q` for a given normalisation: 0 from `q = 2` on, `norm (4 - 6q^2 + 3q^3)` below 1, `norm (2 - q)^3` between |
| Kernel.Kernel | crates/sph/src/kernel.rs:3-16 | definition: `kernel(r, inv_h)`: `KernelQ` with `norm = 10 invH^2 / (7 pi)` at `q = 2 r invH` |
| Kernel.DKernelQ | crates/sph/src/kernel.rs:23-30 | definition: the derivative at `q`: 0 from `q = 2` on, otherwise the branch derivative in `q` times the chain factor `2 invH`, as the two branches of `d_kernel` write it out |
| Kernel.DKernel | crates/sph/src/kernel.rs:18-31 | definition: `d_kernel(r, inv_h)`: `DKernelQ` at `q = 2 r invH` |
| Kernel.KernelTs | src/kernel.ts:1-14 | definition: the TypeScript `kernel`, transcribed branch by branch |
| Kernel.NormPositive | crates/sph/src/kernel.rs:4 | the 2D normalisation `10 invH^2 / (7 pi)` is positive for every nonzero `invH` |
| Kernel.InnerAboveOne | crates/sph/src/kernel.rs:10-11 | the inner cubic `4 - 6q^2 + 3q^3` is above 1 on `[0, 1)` |
| Kernel.InnerDecreasing | crates/sph/src/kernel.rs:10-11 | the inner cubic strictly decreases on `[0, 1]` |
| Kernel.OuterBounds | crates/sph/src/kernel.rs:12-15 | the outer cubic `(2 - q)^3` strictly decreases on `[1, 2]`, is at most 1 and is positive below 2 |
| Kernel.KernelQPositive | crates/sph/src/kernel.rs:8-15 | the kernel in `q` is positive on `[0, 2)` |
| Kernel.InnerAboveOuter | crates/sph/src/kernel.rs:8-15 | every inner-branch value is above every outer-branch value |
| Kernel.KernelQStrict | crates/sph/src/kernel.rs:8-15 | the kernel in `q` strictly decreases from any point of its support onwards |
| Kernel.DKernelQNonPositive | crates/sph/src/kernel.rs:23-30 | the derivative in `q` is never positive for `q >= 0` |
| Kernel.DInnerNonPositive | crates/sph/src/kernel.rs:26 | the inner derivative `-12q + 9q^2` is not positive on `[0, 1)` |
| Kernel.DOuterNonPositive | crates/sph/src/kernel.rs:28-29 | the outer derivative `-3(2 - q)^2` is never positive |
| Kernel.InnerTaylor | crates/sph/src/kernel.rs:26 | the inner cubic's step minus the linear term is the second-order remainder |
| Kernel.OuterTaylor | crates/sph/src/kernel.rs:28-29 | the outer cubic's step minus the linear term is the second-order remainder |
| Kernel.InnerStep | crates/sph/src/kernel.rs:10-11 | within the inner branch, the kernel step minus the linear term is `norm` times the remainder |
| Kernel.OuterStep | crates/sph/src/kernel.rs:12-15 | within the outer branch, the kernel step minus the linear term is `norm` times the remainder |
| Kernel.KernelSupport | crates/sph/src/kernel.rs:49-65 | `kernel` and `d_kernel` are 0 once `r * invH >= 1` (q >= 2) |
| Kernel.KernelPositive | crates/sph/src/kernel.rs:49-65 | `kernel` is positive for `0 <= r < h` |
| Kernel.KernelAtOrigin | crates/sph/src/kernel.rs:73-74 | `kernel(0) = 4 norm > 0` and `d_kernel(0) = 0` |
| Kernel.KernelContinuousAtOne | crates/sph/src/kernel.rs:8-15 | both branches and both derivatives agree at `q = 1`, and the outer branch and its derivative vanish at `q = 2` |
| Kernel.KernelStrictlyDecreasing | crates/sph/src/kernel.rs:67-83 | `kernel` strictly decreases from any `r` inside the support |
| Kernel.KernelMonotone | crates/sph/src/kernel.rs:67-83 | `kernel` never increases with `r >= 0` |
| Kernel.DKernelInnerIsDerivative | crates/sph/src/kernel.rs:85-110 | in the inner branch, `kernel(r + e) - kernel(r) - e d_kernel(r)` is `norm` times a remainder of second order in `e` |
| Kernel.DKernelOuterIsDerivative | crates/sph/src/kernel.rs:85-110 | the same in the outer branch |
| Kernel.DKernelNonPositive | crates/sph/src/kernel.rs:18-31 | `d_kernel` is never positive for `r >= 0`, and is 0 outside the support |
| Kernel.KernelTsMatchesRust | src/kernel.ts:1-14 | the TypeScript kernel equals the Rust kernel for all inputs |
| Arena.ArenaLen | crates/sph/src/arena.rs:1-8 | definition: `arena_len`: `N * 14`, the length of the static arena |
| Arena.Slot | crates/sph/src/arena.rs:14-68 | every field's window number is below 14 |
| Arena.FieldAt | crates/sph/src/arena.rs:14-68 | the field stored in window `k` is the one whose window number is `k` |
| Arena.Index | crates/sph/src/arena.rs:14-68 | element `i` of field `f` lies in that field's window `[f N, (f + 1) N)` inside the arena |
| Arena.Locate | crates/sph/src/arena.rs:1-68 | every arena slot is element `a % N` of the field of window `a / N` |
| Arena.IndexInjective | crates/sph/src/arena.rs:14-68 | two accessor elements share a slot exactly when they are the same field and element |
| Arena.WindowsPartitionArena | crates/sph/src/arena.rs:1-68 | the fourteen windows cover the arena exactly, with no overlap |
| Arena.WriteUpdatesField | crates/sph/src/arena.rs:14-68 | writing a slot of particle `i` sets that one field of particle `i` |
| Arena.WriteKeepsOtherParticles | crates/sph/src/arena.rs:14-68 | writing a slot of particle `i` changes no other particle |
| Arena.Arena.constructor | crates/sph/src/arena.rs:4 | the static arena starts as `arena_len` zeros |
| Arena.Arena.Window | crates/sph/src/arena.rs:14-68 | an accessor returns `N` elements, element `i` being the slot `Index(f, i)` |
| Arena.Arena.Get | crates/sph/src/arena.rs:14-68 | reading through an accessor gives that field of that particle |
| Arena.Arena.Set | crates/sph/src/arena.rs:14-68 | writing through an accessor sets one field of one particle and nothing else |
| SolverState.State.constructor | crates/sph/src/state.rs:32-60 | `State::new`: every particle zero, an empty grid and empty lists, every particle in cell 0 with no neighbours, scalars zero |
| SolverState.State.Len | crates/sph/src/state.rs:62-64 | `len` is `N * 14`, the total length of the fourteen arrays |
| SpatialHash.CellCount | crates/sph/src/spatial_hash.rs:15 | definition: cells along one dimension: `ceil((max - min) / cell_length)` cast to `usize` (negatives to 0), plus 3 |
| SpatialHash.CellOffset | crates/sph/src/spatial_hash.rs:16-18 | definition: the lower corner along one dimension: the centre of the extent minus half the grid size |
| SpatialHash.GridOf | crates/sph/src/spatial_hash.rs:7-22 | definition: the `Grid` `compute_grid` returns: one `CellCount` and one `CellOffset` per extent |
| SpatialHash.GridSizeBound | crates/sph/src/spatial_hash.rs:15 | a dimension has at least 3 cells, spanning at least the extent plus 3 cells (exactly 3 cells for an inverted extent) |
| SpatialHash.GridSizeTight | crates/sph/src/spatial_hash.rs:15 | the grid spans less than the extent plus 4 cells |
| SpatialHash.DimensionCovered | crates/sph/src/spatial_hash.rs:15-18 | along each dimension the grid reaches 1.5 cells beyond both ends of the extent, and its centre is the extent's centre |
| SpatialHash.GridOfCovers | crates/sph/src/spatial_hash.rs:7-22 | the computed grid covers every extent with margin and is centred on it |
| SpatialHash.ComputeGrid | crates/sph/src/spatial_hash.rs:7-22 | `compute_grid` returns the grid of the specification, which covers and is centred on the extents |
| SpatialHash.ComputeGridExample1D | crates/sph/src/spatial_hash.rs:111-117 | extent `[0, 10]`, cell 2: 8 cells, offset -3 |
| SpatialHash.ComputeGridExampleUnit | crates/sph/src/spatial_hash.rs:119-125 | extent `[0, 4]`, cell 1: 7 cells, offset -1.5 |
| SpatialHash.ComputeGridExample3D | crates/sph/src/spatial_hash.rs:159-165 | the 3D test: counts 5, 7, 9 and offsets -1.5 |
| SpatialHash.GetCell | crates/sph/src/spatial_hash.rs:24-29 | each cell coordinate is the floor of the scaled distance from the grid corner |
| SpatialHash.CoordinateCellInside | crates/sph/src/spatial_hash.rs:24-29 | a coordinate inside the extent lands in cell `1 .. count - 2`, never on the padding edge, when `invH` is the inverse cell length |
| SpatialHash.Hash | crates/sph/src/spatial_hash.rs:31-34 | definition: `hash`: the mixed-radix index `x + c0 (y + c1 z)`, over unbounded integers (see "Integer width" below) |
| SpatialHash.HashInRange | crates/sph/src/spatial_hash.rs:31-34 | the hash of an in-grid cell is below the number of cells |
| SpatialHash.UnhashHash | crates/sph/src/spatial_hash.rs:31-34 | decoding the hash of an in-grid cell gives the cell back |
| SpatialHash.HashUnhash | crates/sph/src/spatial_hash.rs:31-34 | every index below the number of cells is the hash of exactly the in-grid cell it decodes to |
| SpatialHash.HashInjective | crates/sph/src/spatial_hash.rs:31-34 | distinct in-grid cells have distinct hashes |
| SpatialHash.CellIndexOf | crates/sph/src/spatial_hash.rs:54-55 | definition: the cell index of particle `i`: `hash` of its `get_cell` |
| SpatialHash.Bucket | crates/sph/src/spatial_hash.rs:50-58 | definition: the list of cell `c` after the first `k` iterations: the particles among them whose cell index is `c`, in push order |
| SpatialHash.CellIndices | crates/sph/src/spatial_hash.rs:50-58 | the cell index of each of the first `n` particles |
| SpatialHash.BucketMembers | crates/sph/src/spatial_hash.rs:50-58 | particle `j` is in a cell's list exactly when `j < n` and its cell index is that cell |
| SpatialHash.BucketIncreasing | crates/sph/src/spatial_hash.rs:50-58 | each cell's list is strictly increasing and below `n` |
| SpatialHash.BucketCount | crates/sph/src/spatial_hash.rs:50-58 | each particle appears in its own cell's list once and in no other list |
| SpatialHash.PopulateGrid | crates/sph/src/spatial_hash.rs:36-60 | every list is cleared and then holds, in order, the particles of its cell; `grid_map[i]` is particle `i`'s cell; later map entries are kept |
| SpatialHash.PopulatedExactlyOnce | crates/sph/src/spatial_hash.rs:36-60 | each particle occurs exactly once in its own cell's list and never elsewhere |
| SpatialHashTs.CellCountTs | src/spatial-hash.ts:20 | definition: cells along one dimension: `Math.ceil((max - min) / cellLength) + 1`, with no clamping of a negative value |
| SpatialHashTs.CellOffsetTs | src/spatial-hash.ts:21-23 | definition: the lower corner along one dimension: the centre of the extent minus half the grid size |
| SpatialHashTs.ComputeGridTs | src/spatial-hash.ts:11-27 | one count and one offset per extent, and the cell length is carried |
| SpatialHashTs.GridSizeBoundTs | src/spatial-hash.ts:20 | the grid spans at least the extent plus one cell, with at least 1 cell (2 for a non-empty extent) |
| SpatialHashTs.GridSizeTightTs | src/spatial-hash.ts:20 | the grid spans less than the extent plus 2 cells |
| SpatialHashTs.ComputeGridTsCovers | src/spatial-hash.ts:11-27 | the grid covers each extent with half a cell to spare on each side and is centred on it |
| SpatialHashTs.RustGridIsTwoCellsWider | src/spatial-hash.ts:20-23 | for a non-empty extent (`min <= max`) the Rust grid has two more cells per dimension and starts one cell lower |
| SpatialHashTs.ComputeGridTsExamples1D | tests/test-spatial-hash.ts:6-28 | the counts and offsets the four 1D cases of the TypeScript test expect, sized by the rule of src/spatial-hash.ts:11-27 |
| SpatialHashTs.ComputeGridTsExamplesND | tests/test-spatial-hash.ts:31-50 | the counts and offsets the 2D and 3D cases of the TypeScript test expect, sized by the rule of src/spatial-hash.ts:11-27 |
| NeighborSearch.Neighbours | crates/sph/src/spatial_hash.rs:62-105 | definition: `neighbors[p]` after `find_neighbors`: everything the x loop of the nest appends for owner `p`, in order |
| NeighborSearch.Above | crates/sph/src/spatial_hash.rs:92-96 | the innermost loop appends only indices above the owner |
| NeighborSearch.Pairs | crates/sph/src/spatial_hash.rs:91-97 | the pair loops append only indices above the owner |
| NeighborSearch.Visit | crates/sph/src/spatial_hash.rs:84-98 | visiting one neighbouring cell appends only indices above the owner |
| NeighborSearch.PushAbove | crates/sph/src/spatial_hash.rs:92-96 | the inner loop appends to `neighbors[i]` the points of the neighbouring cell above `i`, and to no other list |
| NeighborSearch.PushPairs | crates/sph/src/spatial_hash.rs:91-97 | the two pair loops append to each list what `Pairs` specifies |
| NeighborSearch.VisitNeighbour | crates/sph/src/spatial_hash.rs:80-98 | one offset: the pairs when the offset cell is in the grid, nothing otherwise |
| NeighborSearch.ScanDz | crates/sph/src/spatial_hash.rs:79-99 | the `dz` loop appends the concatenation of its three iterations |
| NeighborSearch.ScanDy | crates/sph/src/spatial_hash.rs:78-100 | the `dy` loop appends the concatenation of its three iterations |
| NeighborSearch.ScanCell | crates/sph/src/spatial_hash.rs:74-101 | one cell appends its 27-offset scan |
| NeighborSearch.ScanZ | crates/sph/src/spatial_hash.rs:73-102 | the `z` loop appends the scans of its cells in order |
| NeighborSearch.ScanY | crates/sph/src/spatial_hash.rs:72-103 | the `y` loop appends the scans of its rows in order |
| NeighborSearch.FindNeighbors | crates/sph/src/spatial_hash.rs:62-105 | every list is cleared and then holds exactly the specified neighbour sequence |
| NeighborSearch.AboveCount | crates/sph/src/spatial_hash.rs:92-96 | the inner loop yields `j` as often as the cell holds it when `j > i`, never otherwise |
| NeighborSearch.PairsCount | crates/sph/src/spatial_hash.rs:91-97 | an owner absent from the cell gets nothing; an owner present once gets the inner loop's output |
| NeighborSearch.PairsOfCells | crates/sph/src/spatial_hash.rs:91-97 | with `i` in one cell and `j` in the other exactly once, the pair loops record `j` once when `i < j`, never otherwise |
| NeighborSearch.CellOccurrence | crates/sph/src/spatial_hash.rs:50-58 | after `populate_grid`, a cell's list holds particle `i` once when `i` lies in that cell and never otherwise |
| NeighborSearch.PopulatedListsExact | crates/sph/src/spatial_hash.rs:50-58 | the same, for every in-grid cell at once |
| NeighborSearch.RunCount | crates/sph/src/spatial_hash.rs:71-104 | a loop whose iterations yield `j` at most once, in iteration `v` only, yields it once when `v` is in range |
| NeighborSearch.VisitCount | crates/sph/src/spatial_hash.rs:84-98 | one offset records `j` for `p` once when `p < j`, `p` is in the cell and `j` in the offset cell |
| NeighborSearch.DzCount | crates/sph/src/spatial_hash.rs:79-99 | the `dz` loop records `j` once when its cell is in the matching column within one `z` step |
| NeighborSearch.DyCount | crates/sph/src/spatial_hash.rs:78-100 | the `dy` loop records `j` once when its cell is within one `y` and one `z` step |
| NeighborSearch.CellScanCount | crates/sph/src/spatial_hash.rs:77-101 | scanning `p`'s cell records `j` once exactly when `p < j` and their cells are adjacent |
| NeighborSearch.ZCount | crates/sph/src/spatial_hash.rs:73-102 | the `z` loop records `j` once when `p`'s cell is in its column and the cells are adjacent |
| NeighborSearch.YCount | crates/sph/src/spatial_hash.rs:72-103 | the `y` loop records `j` once when `p`'s cell is in its slab and the cells are adjacent |
| NeighborSearch.XCount | crates/sph/src/spatial_hash.rs:71-104 | the whole nest records `j` once when `p < j`, the cells are adjacent and `p`'s cell is in the grid |
| NeighborSearch.PopulateGridIsPopulated | crates/sph/src/spatial_hash.rs:36-60 | a table of one list per grid cell, each list the bucket `populate_grid` leaves, with every particle in the grid, is the populated table the neighbour search lemmas assume |
| NeighborSearch.PopulateThenFindNeighbours | crates/sph/src/spatial_hash.rs:36-105 | `populate_grid` then `find_neighbors`: `j` is listed once for `p` when `p < j` and the cells `get_cell` gives them are adjacent, and never otherwise |
| NeighborSearch.NeighboursExactlyOnce | crates/sph/src/spatial_hash.rs:62-105 | after `populate_grid`, `neighbors[p]` holds `j` exactly once when `p < j` and their cells are adjacent, and never otherwise |
| NeighborSearch.PairRecordedOnce | crates/sph/src/spatial_hash.rs:93-95 | each unordered adjacent pair is recorded once, under its lower index, and never under the higher one |
| NeighborSearch.RunAbove | crates/sph/src/spatial_hash.rs:71-104 | any loop of the nest appends only indices above the owner |
| NeighborSearch.IterationAbove | crates/sph/src/spatial_hash.rs:71-104 | any single iteration appends only indices above the owner |
| NeighborSearch.NeighboursAbove | crates/sph/src/spatial_hash.rs:93 | every neighbour listed for `p` is greater than `p` |
| NeighborSearch.NeighboursOneCell | crates/sph/src/spatial_hash.rs:71-104 | when only one in-grid cell has a non-empty list, `neighbors[p]` is exactly what the pairs of that cell with itself give `p`: every other cell and offset appends nothing |
| NeighborSearch.SharedCellNeighbours | crates/sph/src/spatial_hash.rs:207-232 | when all particles share one cell, `neighbors[p]` is the ordered list `p+1, ..., n-1` (empty for `p >= n`): the `[1,2,3]`, `[2,3]`, `[3]`, `[]` of the test; each `j > p` occurs once |
| Simulation.LeapfrogPosition | crates/sph/src/simulation.rs:41-42 | definition: the position update of `leapfrog`: `x + v dt + 0.5 a_prev dt^2` |
| Simulation.LeapfrogVelocity | crates/sph/src/simulation.rs:47-48 | definition: the velocity update of `leapfrog`: `v + 0.5 (a_prev + a) dt` |
| Simulation.SnapshotAcceleration | crates/sph/src/simulation.rs:6-18 | definition: the first loop of `initialize_timestep` on one particle: previous accelerations take the current ones, which become 0 |
| Simulation.ResetDensity | crates/sph/src/simulation.rs:21-23 | definition: the second loop of `initialize_timestep` on one particle: the density becomes 0 |
| Simulation.AddDensity | crates/sph/src/simulation.rs:26-30 | definition: `add_densities` on one particle: the density rises by 2.1 |
| Simulation.AddGravityTo | crates/sph/src/simulation.rs:97-99 | definition: the gravity loop of `update` on one particle: `ay` rises by the gravity constant |
| Simulation.ReflectX | crates/sph/src/simulation.rs:57-66 | definition: the x block of `reflect` on one particle |
| Simulation.ReflectY | crates/sph/src/simulation.rs:68-77 | definition: the y block of `reflect` on one particle |
| Simulation.ReflectZ | crates/sph/src/simulation.rs:80-87 | definition: the z block of `reflect` on one particle |
| Simulation.ReflectParticle | crates/sph/src/simulation.rs:56-90 | definition: `reflect` on one particle: x, then y, then z when `dim > 2` |
| Simulation.LeapfrogParticle | crates/sph/src/simulation.rs:35-49 | definition: `leapfrog` on one particle: x and y move and their velocities update; z is not advanced |
| Simulation.UpdateParticle | crates/sph/src/simulation.rs:92-103 | definition: `update` on one particle: snapshot, density reset, +2.1, gravity, reflect, leapfrog, in that order |
| Simulation.ReflectAxis | crates/sph/src/simulation.rs:57-66 | a coordinate inside the walls is unchanged; a moved coordinate is on a wall with its velocity reversed; the result is inside the walls |
| Simulation.ReflectAxisIdempotent | crates/sph/src/simulation.rs:56-90 | reflecting twice equals reflecting once |
| Simulation.ReflectAxisClampsToViolatedWall | crates/sph/src/simulation.rs:59-65 | a coordinate below the lower wall goes onto it, and one above the upper wall onto that one, with the velocity reversed |
| Simulation.LeapfrogReversible | crates/sph/src/simulation.rs:41-48 | under a uniform acceleration, stepping with `-dt` undoes a step |
| Simulation.LeapfrogUniformAcceleration | crates/sph/src/simulation.rs:41-48 | under a uniform acceleration, the velocity changes by `a dt` and the position by the mean velocity times `dt` |
| Simulation.ReflectParticleInBox | crates/sph/src/simulation.rs:52-90 | after `reflect`, x and y (and z when `dim > 2`) are inside the box; z is untouched in 2D; only positions and velocities change |
| Simulation.ReflectParticleIdempotent | crates/sph/src/simulation.rs:52-90 | reflecting a particle twice equals reflecting it once |
| Simulation.InitializeThenAddDensities | crates/sph/src/simulation.rs:4-30 | after the first two stages the accelerations are snapshotted and zeroed, the density is 2.1, and nothing else has changed |
| Simulation.UpdateParticleState | crates/sph/src/simulation.rs:92-103 | `update`'s effect on one particle: snapshot, gravity, density 2.1, reflection of the old position, then leapfrog from it |
| Simulation.UpdateMayLeaveBox | crates/sph/src/simulation.rs:92-103 | a particle on the upper wall moving fast ends outside the box after `update` |
| Simulation.SnapshotParticle | crates/sph/src/simulation.rs:7-17 | one iteration of the snapshot loop changes only particle `i` |
| Simulation.ResetDensityStep | crates/sph/src/simulation.rs:22 | one iteration of the density reset changes only particle `i` |
| Simulation.InitializeTimestep | crates/sph/src/simulation.rs:4-24 | `initialize_timestep` snapshots and resets every particle |
| Simulation.AddDensityStep | crates/sph/src/simulation.rs:28 | one iteration adds the density to particle `i` only |
| Simulation.AddDensities | crates/sph/src/simulation.rs:26-30 | `add_densities` adds 2.1 to every density |
| Simulation.AddGravityStep | crates/sph/src/simulation.rs:98 | one iteration adds gravity to particle `i` only |
| Simulation.AddGravity | crates/sph/src/simulation.rs:97-99 | the gravity loop adds `gravity` to every `ay` |
| Simulation.LeapfrogStep | crates/sph/src/simulation.rs:36-48 | one leapfrog iteration changes particle `i` only |
| Simulation.Leapfrog | crates/sph/src/simulation.rs:32-50 | `leapfrog` moves every particle by its old velocity and old acceleration, then averages the accelerations into the velocity |
| Simulation.ReflectXStep | crates/sph/src/simulation.rs:57-66 | the x wall test of particle `i` |
| Simulation.ReflectYStep | crates/sph/src/simulation.rs:68-77 | the y wall test of particle `i` |
| Simulation.ReflectZStep | crates/sph/src/simulation.rs:79-88 | the z wall test of particle `i` |
| Simulation.ReflectStep | crates/sph/src/simulation.rs:57-88 | one `reflect` iteration: x, y, then z when `dim > 2` |
| Simulation.Reflect | crates/sph/src/simulation.rs:52-90 | `reflect` applies the wall reflection to every particle |
| Simulation.Update | crates/sph/src/simulation.rs:92-103 | `update` applies the per-particle update to every particle of the arena |
| InitialConditions.RowProgress | crates/sph/src/initial_conditions.rs:39 | definition: `row_progress`: `row / (rows - 1)` when there is more than one row, else 0 |
| InitialConditions.RowY | crates/sph/src/initial_conditions.rs:40 | definition: the height of a row: the triangle base plus the progress times the triangle height |
| InitialConditions.RowWidth | crates/sph/src/initial_conditions.rs:42 | definition: `width_at_height`: the base width times `1 - row_progress` |
| InitialConditions.ColX | crates/sph/src/initial_conditions.rs:55 | definition: the x of column `col`: `box_min + 0.1 + col * spacing` |
| InitialConditions.RowOf | crates/sph/src/initial_conditions.rs:39-50 | definition: one row of the triangle: its height, `particles_in_row` and `spacing` |
| InitialConditions.Placed | crates/sph/src/initial_conditions.rs:36-77 | definition: the positions of the first `r` rows, bottom row first, left to right, before the cut at `N` |
| InitialConditions.AtRest | crates/sph/src/initial_conditions.rs:57-73 | definition: the fourteen values one column iteration writes: `(x, y, 0)` and every other field 0 |
| InitialConditions.Rows | crates/sph/src/initial_conditions.rs:17 | there is at least one row |
| InitialConditions.ParticlesInRow | crates/sph/src/initial_conditions.rs:44 | every row holds at least one particle |
| InitialConditions.Spacing | crates/sph/src/initial_conditions.rs:46-50 | one particle: spacing 0; otherwise the gaps span the row width exactly |
| InitialConditions.Triangle | crates/sph/src/initial_conditions.rs:36-50 | there is one row description per row |
| InitialConditions.Positions | crates/sph/src/initial_conditions.rs:52-55 | a row contributes its particle count in positions |
| InitialConditions.Layout | crates/sph/src/initial_conditions.rs:36-77 | at most `N` positions are placed |
| InitialConditions.PlacedPrefix | crates/sph/src/initial_conditions.rs:36-77 | the positions of the first rows are a prefix of those of more rows |
| InitialConditions.PlacedAt | crates/sph/src/initial_conditions.rs:52-57 | column `col` of row `row` is placed after all earlier rows, at `(box_min + 0.1 + col spacing, y)` |
| InitialConditions.RowParticleInLayout | crates/sph/src/initial_conditions.rs:52-57 | the same, addressed by its index in the layout |
| InitialConditions.LayoutRow | crates/sph/src/initial_conditions.rs:39-57 | a written layout position is the row's `x` at that column and the row's height |
| InitialConditions.RowsSpanTriangle | crates/sph/src/initial_conditions.rs:39-42 | rows rise from the base (full width) to the top (zero width), staying between them |
| InitialConditions.ColumnsSpanRow | crates/sph/src/initial_conditions.rs:46-55 | every column lies between the left edge and the end of its row |
| InitialConditions.LayoutInsideBox | crates/sph/src/initial_conditions.rs:10-55 | every placed particle lies 0.1 inside the box walls |
| InitialConditions.LocateInRows | crates/sph/src/initial_conditions.rs:36-77 | every placed index is some column of some row |
| InitialConditions.TriangleRow | crates/sph/src/initial_conditions.rs:39-50 | row `row` has the loop's height, count and spacing |
| InitialConditions.PlaceParticle | crates/sph/src/initial_conditions.rs:57-73 | the fourteen writes put particle `k` at rest at `p` and change no other particle |
| InitialConditions.PlacePosition | crates/sph/src/initial_conditions.rs:57-63 | the position and velocity writes of particle `k` |
| InitialConditions.ClearDynamics | crates/sph/src/initial_conditions.rs:65-73 | the acceleration, density and pressure writes of particle `k` |
| InitialConditions.FillRow | crates/sph/src/initial_conditions.rs:52-76 | the column loop writes its columns at consecutive indices, stopping at `N`, and nothing else |
| InitialConditions.FillTriangleRow | crates/sph/src/initial_conditions.rs:39-76 | one row iteration writes exactly that row's slice of the layout |
| InitialConditions.FillArena | crates/sph/src/initial_conditions.rs:5-78 | `fill_arena` writes the triangle layout at rest at indices from 0 and leaves later particles alone |
| InitialConditions.FillArenaIgnoringValue | crates/sph/src/lib.rs:17-90 | the exported `fill_arena(v)` does the same and ignores `v` |
| StepTs.SpringVelocity | src/step.ts:7 | definition: the new velocity of a slot: `v - 0.001 p` |
| StepTs.SlotStep | src/step.ts:7-8 | definition: one slot after `step`: the new velocity, and the position moved by it |
| StepTs.SlotUnstep | src/step.ts:7-8 | definition: the inverse of `SlotStep`, written out: the old position is the new one moved back by the new velocity |
| StepTs.SlotStepFixedPoint | src/step.ts:7-8 | a slot at rest at the origin stays there; the velocity is unchanged exactly when the position is 0 |
| StepTs.SpringPullsBack | src/step.ts:7 | the spring slows a slot at a positive position and speeds up one at a negative position |
| StepTs.SlotStepInverse | src/step.ts:7-8 | the slot update is a bijection with an explicit inverse |
| StepTs.SlotStepPreservesArea | src/step.ts:7-8 | the update preserves the position-velocity area (determinant 1) |
| StepTs.Step | src/step.ts:5-10 | every slot below `NUM_PARTICLES * DIM` is updated from its own old values; later slots are kept |
| MainTs.SlotSteps | src/main.ts:55-59 | definition: one slot after `n` calls of `step` |
| MainTs.SlotStepsInverse | src/main.ts:54-59 | any number of steps can be undone |
| MainTs.InitSimulation | src/main.ts:69-79 | positions are the scaled random values and velocities are 0; other slots are kept |
| MainTs.Driver.constructor | src/main.ts:11-14 | two arrays of `NUM_PARTICLES * DIM` filled by `initSimulation` and an empty accumulator |
| MainTs.Driver.Animate | src/main.ts:47-59 | at most `MAX_STEPS` steps; each takes `FIXED_DELTA` from the accumulator; it stops early only when less than `FIXED_DELTA` is left; every slot takes that many steps |
| MainTs.StepsAreWholeDeltas | src/main.ts:50-59 | the step count is the floor of `accumulator / FIXED_DELTA`, capped at `MAX_STEPS` |
| SimulationTs.Wall | src/simulation.ts:36-42 | definition: one pass of the wall loop: component `j` outside the box goes onto the crossed wall with its velocity negated; a component past the third is left alone |
| SimulationTs.Walls | src/simulation.ts:35-43 | definition: the wall loop after its first `k` passes |
| SimulationTs.StepParticle | src/simulation.ts:24-43 | definition: the step of one particle: gravity on `vy`, the move of x and y, then the wall loop over `0 .. dim` |
| SimulationTs.WallsPerAxis | src/simulation.ts:35-43 | the wall loop reflects each axis below its bound and leaves the others |
| SimulationTs.StepParticleAxes | src/simulation.ts:27-43 | per axis: gravity on y, a move of x and y, then reflection of the axes below `dim` |
| SimulationTs.StepParticleInBox | src/simulation.ts:35-43 | after a step every axis below `dim` is inside the box; a moved coordinate has its velocity reversed; one already inside is unchanged |
| SimulationTs.StepKeepsZ | src/simulation.ts:27-43 | in 2D the z position and velocity never change |
| SimulationTs.AdvanceParticle | src/simulation.ts:27-32 | gravity and the move of particle `i`, no other slot |
| SimulationTs.ReflectSlot | src/simulation.ts:36-42 | the wall test of one component, no other slot |
| SimulationTs.ReflectParticle | src/simulation.ts:35-43 | the wall loop of particle `i`, no other slot |
| SimulationTs.StepOne | src/simulation.ts:23-44 | one particle's step, no other slot |
| SimulationTs.Step | src/simulation.ts:22-45 | every particle takes its step; later slots are kept |
| SimulationTs.Randomize | src/simulation.ts:7-20 | components below `dim` are scaled random values; the others are zero; later slots are kept |
| SimulationTs.RandomizedRanges | src/simulation.ts:11-12 | positions lie in `[-1, 1)` and velocities in `[-0.5, 0.5)`, and the components from `dim` on are zero |
| MainArch.Interaction.constructor | src/main_arch.ts:82-88 | not dragging, at the origin, no drag force |
| MainArch.Interaction.StartDrag | src/main_arch.ts:90-93 | dragging at the pointer, the drag force kept |
| MainArch.Interaction.UpdateDrag | src/main_arch.ts:95-101 | the drag force is the pointer's displacement, and the position moves to the pointer |
| MainArch.Interaction.EndDrag | src/main_arch.ts:103-106 | not dragging and no drag force |
| MainArch.Interaction.OnMove | src/main_arch.ts:371-376 | the move handler updates the drag only while dragging, keeping the state consistent |
| MainArch.CreateParticle | src/main_arch.ts:57-66 | a new particle at `p`, at rest, no force, density and pressure 0 |
| MainArch.Densities | src/main_arch.ts:195-217 | only density and pressure change |
| MainArch.AccumulateDensity | src/main_arch.ts:202-216 | one particle's density is the sum over all particles in range, and its pressure follows from it |
| MainArch.ComputeDensityPressure | src/main_arch.ts:195-217 | `computeDensityPressure` gives every particle its density and pressure |
| MainArch.Poly6Term | src/main_arch.ts:210 | definition: the Poly6 density term `MASS POLY6 (H2 - r2)^3` |
| MainArch.Contribution | src/main_arch.ts:204-211 | definition: the density one neighbour adds: the Poly6 term when `r2 < H2`, else 0 |
| MainArch.DensityAt | src/main_arch.ts:203-212 | definition: the density at a point: the sum of the contributions of the first `n` particles, the particle itself included |
| MainArch.Poly6TermPos | src/main_arch.ts:208-210 | the Poly6 term is positive in range |
| MainArch.ContributionBounds | src/main_arch.ts:204-211 | each neighbour's contribution is non-negative, and a particle's own is the positive Poly6 value at 0 |
| MainArch.ContributionSymmetric | src/main_arch.ts:204-211 | `a` contributes to `b` what `b` contributes to `a` |
| MainArch.DensityAtLeastSelf | src/main_arch.ts:202-212 | a density includes at least the particle's own contribution |
| MainArch.DensityNonneg | src/main_arch.ts:202-212 | a density is never negative |
| MainArch.DensitiesPositive | src/main_arch.ts:195-217 | after the density pass every density is positive, so the later divisions are safe |
| MainArch.IsolatedDensity | src/main_arch.ts:202-212 | a particle with nobody in range has exactly its own contribution |
| MainArch.Forces | src/main_arch.ts:219-276 | only the force changes |
| MainArch.PairForce | src/main_arch.ts:231-256 | definition: the force of one neighbour inside the smoothing radius: pressure along the direction (zero direction at `r = 0`) plus viscosity along the velocity difference; 0 outside |
| MainArch.PairSum | src/main_arch.ts:228-257 | definition: the pair forces of the first `n` particles on particle `i`, skipping `i` itself |
| MainArch.DragForceOn | src/main_arch.ts:263-274 | definition: the drag force: only while dragging and within radius 50, `dragForce * (1 - r/50) * 500` |
| MainArch.ForceOn | src/main_arch.ts:222-274 | definition: the force on particle `i`: from zero, the pair sum, plus gravity on y, plus the drag |
| MainArch.PairForceIgnoresForce | src/main_arch.ts:228-257 | a pair force does not depend on the forces accumulated so far |
| MainArch.AddPairForce | src/main_arch.ts:228-257 | a neighbour adds its pressure and viscosity force to particle `i`, itself adds nothing, and no other particle changes |
| MainArch.ForceOnParticle | src/main_arch.ts:226-275 | particle `i`'s force is the pair sum plus gravity plus drag |
| MainArch.ApplyDrag | src/main_arch.ts:263-274 | the drag force is added to particle `i` |
| MainArch.ComputeForces | src/main_arch.ts:219-276 | `computeForces` gives every particle its force |
| MainArch.PairForceCases | src/main_arch.ts:229-256 | out of range, no force; a coincident neighbour gives only a viscosity force |
| MainArch.PairSumIsolated | src/main_arch.ts:228-257 | a particle with nobody in range gets no pair force |
| MainArch.IsolatedForce | src/main_arch.ts:226-275 | an isolated particle away from the pointer feels only gravity |
| MainArch.Bound | src/main_arch.ts:289-307 | the result is inside the walls; a clamped coordinate's velocity is multiplied by -0.5; an inside coordinate is unchanged |
| MainArch.Integrate | src/main_arch.ts:281-307 | definition: one particle after `integrateParticles`: forward Euler velocity then position, then the four wall checks |
| MainArch.IntegrateInContainer | src/main_arch.ts:278-307 | after the Euler step and the walls the particle is in the container; velocities are damped only where clamped; force, density and pressure are kept |
| MainArch.Integrated | src/main_arch.ts:278-316 | every particle is integrated |
| MainArch.IntegrateParticles | src/main_arch.ts:278-316 | `integrateParticles` integrates every particle |
| MainArch.IntegrateParticle | src/main_arch.ts:280-307 | one particle is integrated, no other |
| MainArch.StepBodies | src/main_arch.ts:318-324 | a step keeps the number of particles |
| MainArch.StepKeepsParticlesInside | src/main_arch.ts:318-324 | after a step every particle is inside the container |
| MainArch.CeilSqrt | src/main_arch.ts:165 | `Math.ceil(Math.sqrt(count))`: the least `r` with `r^2 >= count` |
| MainArch.GridPointsDistinct | src/main_arch.ts:169-170 | distinct particles get distinct (row, column) places |
| MainArch.GridOffsetBelowWidth | src/main_arch.ts:161-174 | a column offset lies within the initial region |
| MainArch.InitialPosition | src/main_arch.ts:161-176 | definition: the start-up position of particle `i`: row `i / perRow`, column `i % perRow`, spacing `WIDTH 0.4 / perRow`, plus 5 times the random jitter |
| MainArch.InitialPositionInside | src/main_arch.ts:153-176 | every start position is in the initial region (plus the jitter of 5) and inside the container |
| MainArch.InitialPositionInRegion | src/main_arch.ts:161-176 | the same for any row below the row count |
| MainArch.RowBelowPerRow | src/main_arch.ts:165-169 | with `ceil(sqrt(count))` per row, every row index is below the row count |
| MainArch.JitteredBelow | src/main_arch.ts:174-175 | an offset plus the jitter stays below the region width plus 5 |
| MainArch.Simulation.InitParticles | src/main_arch.ts:153-193 | `count` fresh particles at rest on the start-up grid; running and gravity kept |
| MainArch.Simulation.constructor | src/main_arch.ts:109-151 | running, with the given gravity, an idle interaction and the start-up particles |
| MainArch.Simulation.SimulationStep | src/main_arch.ts:318-324 | nothing when paused; otherwise density, forces and integration in that order |
| MainArch.Simulation.ToggleSimulation | src/main_arch.ts:424-427 | running flips and the new value is returned; nothing else changes |
| MainArch.Simulation.SetGravity | src/main_arch.ts:433-435 | gravity is set; nothing else changes |
| MainArch.Simulation.ResetSimulation | src/main_arch.ts:429-431 | the start-up grid again, with the same particle count |
| MainArch.Simulation.SetParticleCount | src/main_arch.ts:437-439 | the start-up grid with the new count |
| Video.FrameGenerator.constructor | crates/cli/src/video.rs:11-17 | no frames, with the given size |
| Video.FrameGenerator.AddFrame | crates/cli/src/video.rs:19-22 | the frame is appended and the earlier frames keep their order |
| Video.PixelStart | crates/cli/src/video.rs:56 | definition: the byte index `(y width + x) 3` of a pixel |
| Video.PixelInFrame | crates/cli/src/video.rs:55-59 | an in-frame pixel's three bytes lie inside the buffer |
| Video.CreatePixelFrame | crates/cli/src/video.rs:44-63 | `width * height * 3` bytes, 255 exactly on the three bytes of the in-frame pixel, 0 elsewhere; an off-frame pixel gives all black |
| Video.WhitePixelBytes | crates/cli/src/video.rs:54-60 | the white window of bytes is exactly the bytes of that pixel number |
| Video.Background | crates/cli/src/video.rs:100-104 | definition: the background byte `c` of a pixel: 20, 50, 80 |
| Video.ScreenCoord | crates/cli/src/video.rs:113-114 | definition: `((pos + 1.6) / 3.2 * size) as usize`: truncated, negatives to 0 |
| Video.Hit | crates/cli/src/video.rs:113-117 | definition: the pixel number a particle paints, or -1 when its screen coordinates are off the frame |
| Video.PaintedBySomeParticle | crates/cli/src/video.rs:107-122 | a pixel is painted exactly when some particle hits it |
| Video.PaintParticle | crates/cli/src/video.rs:113-121 | one particle whitens the three bytes of the pixel it hits, and nothing when off-frame |
| Video.RenderParticles | crates/cli/src/video.rs:94-125 | each byte is white when some particle hits its pixel, and the background colour (20, 50, 80) otherwise |
| Video.PixelsAreWhole | crates/cli/src/video.rs:116-121 | a pixel is wholly white or wholly background |
| Video.OffscreenParticlePaintsNothing | crates/cli/src/video.rs:116 | an off-frame particle does not change the frame |
| Video.BoxMapsIntoFrame | crates/cli/src/video.rs:112-114 | positions in `[-1.6, 1.6)` map inside the frame, and 1.6 maps to `size` (just outside) |
| Video.InsideParticleIsDrawn | crates/cli/src/video.rs:107-122 | every particle strictly inside the box is drawn |

## Left out

- **Floating point.** `f32`/`f64` and JavaScript numbers are exact reals, so rounding,
  NaN and infinities are not modelled. The Rust tests that exist for rounding edge cases
  (`compute_grid_floating_point_precision_edge_case`) are covered only in exact arithmetic.
- **Square roots.**
  - `Math.sqrt` in the force and drag computations of `main_arch.ts` is a function
    parameter of the model.
  - The approximate row count of `fill_arena` (`sqrt(N / (0.5 aspect))`) is a parameter
    `approxRows`.
  - `Math.ceil(Math.sqrt(count))` in `initParticles` is the exact integer `CeilSqrt`.
- **Random values.** `Math.random` values are parameters (`jitter`, `random`,
  `randomPos`, `randomVel`), in call order.
- **`fill_state`.** `State::new` calls `fill_state` (crates/sph/src/state.rs:2, 58). It is
  not defined in any file of the repository, so `SolverState.State.constructor` models
  `State::new` up to that call.
- **`update` on `State`.** `generate_fluid_animation` passes a `State` to
  `simulation::update`, which takes an `Arena`. The model keeps `update` on the arena. The
  frame loop itself (`generate_fluid_animation`), `save_frames` and the PNG encoding are
  I/O and are not modelled.
- **Aliasing.** The methods over two arrays (`StepTs.Step`, `SimulationTs.Step`,
  `SimulationTs.Randomize`, `MainTs.InitSimulation`) require the position and velocity
  arrays to be distinct. They also require them to be long enough, as the JavaScript code
  assumes without checking.
- **Array bounds.** Where Rust would panic on an index out of range, the model requires
  the index to be in range instead:
  - `SpatialHash.PopulateGrid` requires every particle's cell index to be inside the
    table.
  - `NeighborSearch.FindNeighbors` requires every index stored in a cell list to be below
    the length of `neighbors` (`IndicesBelow`), where Rust panics on `neighbors[i]`.
  - `NeighborSearch.FindNeighbors` also requires the table to have exactly one list per
    grid cell (`|cs| == Total(g)`). Rust panics on `contents[cell_index]` for a shorter
    table and ignores the extra lists of a longer one.
- **Integer width.** The grid arithmetic is over unbounded integers:
  - `SpatialHash.GetCell` takes the floor as an unbounded integer. Rust's `floor() as i32`
    saturates at the `i32` bounds.
  - `SpatialHash.Hash` adds and multiplies the cell coordinates as integers. Rust casts each
    `i32` with `as usize`, so a negative coordinate becomes `2^64 - |x|`, and the sum wraps
    in a release build and panics on overflow in a debug build. For example, `x = -1,
    y = 1` gives index `c0 - 1` in the model. The model thus describes only cells with
    non-negative coordinates faithfully. `SpatialHash.CoordinateCellInside` shows that a
    particle inside its extent always lands in such a cell, and the neighbour-search
    lemmas assume in-grid cells (`NeighborSearch.Populated`).
- **Dimension.** `SimulationTs.Randomize` requires `dim <= 3`: a larger `DIM` would write
  into the next particle's slots.
- **Zero densities.**
  - `MainArch.ComputeForces` and `MainArch.IntegrateParticles` require every density to be
    nonzero; JavaScript would divide by zero and give Infinity or NaN.
  - `MainArch.DensitiesPositive` shows that the density pass always establishes this, so
    `MainArch.Simulation.SimulationStep` has no such requirement.
- **Object identity.** The `particle === neighbor` test of `computeForces` compares object
  identity; the model compares indices, since the particles of the list are distinct
  objects.
- **Rendering and UI of `main_arch.ts`.**
  - Meshes and colours (`updateParticleMeshPosition`, `updateParticleColor`, the pressure
    colour of `integrateParticles`).
  - The Three.js scene, camera, renderer and resize handling, the animation loop, the
    mouse/touch position conversion and the UI controls.
  - The getters (`getParticleCount`, `getIsRunning`, `getGravity`), which only read a
    field.
- **Constants of `step.ts`.** `step.ts` imports `TIMESTEP`, `NUM_PARTICLES` and `DIM`
  from `src/constants.ts`, which exports none of them. `StepTs.Step` takes the three as
  parameters, and `MainTs.Driver.Animate` runs it with `main.ts`'s own `NUM_PARTICLES`
  (1000) and `DIM` (3) and a timestep parameter `dt`.
- **Rendering of `main.ts`.** The clock (its frame time is a parameter of `Animate`), the
  buffer-geometry copy and the render call.
- **`ScreenCoord`.** It models `as usize` on a float as truncation, with negatives
  becoming 0; the saturation at `usize::MAX` and NaN are not modelled.
- **Other crates.** The GPU renderer and the command-line entry point
  (`crates/cli/src/renderer.rs`, `crates/cli/src/main.rs`), the wasm bindings, and the
  hello-world crate are outside the solver core.
- **Tait fields.** The Tait equation-of-state fields of `State` (`tait_b`,
  `inv_reference_density`) and `neighbor_offsets` are only initialised by the source, and
  only their initial values are modelled.
- **Finite-difference derivative test.** The test of `kernel.rs` compares `d_kernel` with
  a finite difference. It is replaced by the exact statement
  (`Kernel.DKernelInnerIsDerivative`, `Kernel.DKernelOuterIsDerivative`) that the first
  order remainder vanishes to second order.
