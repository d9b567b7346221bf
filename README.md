# FT-ICR trap geometry for SIMION, modelled in Dafny

The repository builds SIMION potential arrays (PA) for Fourier-transform ion
cyclotron resonance (FT-ICR) Penning traps. This Dafny project models the
logic behind that work:

- **Trap classifiers.** Every trap variant decides, for a point of space,
  whether it belongs to an endcap electrode or to another electrode, and
  which voltage channel it gets. The "simple" half-space conditions are
  cut down to a shell one electrode width thick.
- **Grid geometry.** `_create_geometry` fixes the grid step and the cell
  counts. `_go_throw_volume` sweeps every voxel and `put_point` writes
  voxels. `get_voltage_for_adj` and `adjust_trap` choose the potential for
  each channel and build the fast-adjust command.
- **Electrode segmentation.** `_dfs` and `get_all_electrodes` split the
  array into 26-connected components of one channel, read through the xyz
  mirroring `(|i|, |j|, |k|)`. `expand_trap` writes the exploded view.
  `leave_surface_only` keeps only the surface voxels.
- **Field post-processing.** `_numerical_phi_cartesian` interpolates
  trilinearly. `_unbend_phi2D` mirrors a quarter plane into the full
  plane. The comet calculator has a basis of axially symmetric solid
  harmonics and the design matrix of its least-squares fit.

## How the model is built

- **The potential array.**
  - A datatype `PaGrid.Grid` is the array as it is read: its sizes, an
    electrode flag and a channel per index.
  - A class `PaGrid.PotentialArray` is the array as it is written. It holds
    a `cells` map that `WritePoint` updates in place.
  - A write outside the array is refused and changes nothing. This is the
    behaviour `expand_trap` relies on when it ignores the exception.
- **The traversals keep the source's imperative form.** `FloodFill.Dfs`,
  `Segmentation.GetAllElectrodes`, `Expand.ExpandWrite`,
  `Surface.LeaveSurfaceOnly` and `AbstractTrap.GoThrowVolume` are methods
  with loops. Each is proved against a specification function:
  - `Dfs` returns exactly the connected component of its seed;
  - `GetAllElectrodes` returns pairwise disjoint components;
  - `ExpandWrite` produces the cells that a sequence of writes yields;
  - `LeaveSurfaceOnly` writes exactly the surface voxels;
  - `GoThrowVolume` returns the truthy results in sweep order.
- **The trap variants are pure functions of explicit parameters.** These
  are sizes, the grid step and the electrode width. Points are `(x, y, z)`
  or `(r, theta, z)` with `theta` given as an input.
- **Channels.** The voltage enums are datatypes, and the integers written
  into the array are their `.value`s. The enums that
  `gen_voltage_enum(...)` generates are datatypes with one constructor per
  generated member; that function is not part of this model.
- **Arithmetic.** Reals are exact reals. Python's `int()` on a float is
  truncation toward zero (`Points.Trunc`), and `math.ceil` is `Points.Ceil`.
  `numpy.pi` is the constant `Points.Pi`.

### Notes on the source

The model follows the code in each of these cases, except the first two.
In those two the classes cannot run as written, and the model substitutes
the names and values the code evidently intends.

- **Stale names (substituted).** `cuboid_trap.py`, `cylindrical_trap.py`,
  `hyperbolic_trap.py` and `dhc_trap.py` define
  `_is_trapped_electrode_simple` but never the abstract
  `_is_endcap_electrode_simple`
  (traps/abstract_penning_with_simple_electrode_trap.py:110-111), so
  creating any of these traps raises TypeError. They and
  `closed_compesated.py` (line 35) also read `self.cell_border`, which is
  never assigned (traps/abstract_trap.py:84 stores `trap_border`), so their
  predicates would raise AttributeError. The model reads these predicates
  as the endcap conditions over the trap border.
- **Cylindrical channels (substituted).** `CylindricalTrap.NontrapType`
  returns the plain integers 1 and 3 (traps/cylindrical_trap.py:20-26).
  The base class calls `.value` on them
  (traps/abstract_penning_trap.py:45), which would raise AttributeError.
  The model writes the integers themselves as the channel values.
- **Closed compensated trap.**
  - Its channel rule never writes 2 (DETECTION). On the side sectors it
    writes 3 (TRAPPING), because it reuses the cylindrical rule.
  - Its colour table labels EXCITATION "Detection electrode" and DETECTION
    "Excitation electrode". The same swap is in
    `abstract_penning_trap._color_for_3d`. The labels are kept as written.
- **Open compensated trap.** Its COMPENSATED band is written as the
  `CompensatedVoltages` value 4. Below the band, the inherited cylindrical
  rule writes 3, which in this enum is TRAPPING.
- **Absolute widths.** `kanawati_trap.py` and `wang_trap.py` use
  `electrode_width` as an absolute length. They do not scale it by the
  grid step.
- **Kanawati overlap.** The Kanawati endcap plates overlap the inner tube.
  The endcap-first precedence of `get_electrode_type` gives such points
  the TRAPPING channel.
- **plot_trap_3d.py variants.** `get_all_electrodes` keeps every
  component, and `expand_trap` uses the fraction 0.3 for every channel.
  `Segmentation.GetAllElectrodes` takes `filterSmall = false` for this
  file, and `Expand.PlotShiftFraction` is the plot fraction.

## Model

| member | source | states |
|---|---|---|
| Points.Mirror | utils_for_trap.py:224-227 | the index read from the stored eighth is non-negative, with each coordinate the absolute value of the requested one |
| Points.AdjacentSymmetric | utils_for_trap.py:253-261 | 26-adjacency (offsets in {-1,0,1}^3) is symmetric |
| Points.NearInner | utils_for_trap.py:253-261 | the innermost generator loop yields one point per offset, in offset order |
| Points.NearMiddle | utils_for_trap.py:253-261 | the middle loop yields len(js)·len(ks) points |
| Points.NearOuter | utils_for_trap.py:253-261 | the outer loop yields len(offsets)·len(js)·len(ks) points |
| Points.NearCoords | utils_for_trap.py:253-261 | `_gen_near_coords` yields len(directions)^3 points |
| Points.NearMiddleMembers | utils_for_trap.py:253-261 | a point is yielded by the middle loop iff it combines the fixed offset with some j and k from the lists |
| Points.NearOuterMembers | utils_for_trap.py:253-261 | a point is yielded by the outer loop iff it combines offsets a, b, c drawn from the three lists |
| Points.NearCoordsMembers | plot_trap_3d.py:62-69 | a point is yielded iff it is the combination (sum, or product without delta) of the point with three directions |
| Points.Neighbourhood | utils_for_trap.py:244-245 | the neighbourhood the search expands has 27 entries |
| Points.NeighbourhoodIsAdjacency | utils_for_trap.py:244-245 | with offsets {-1,0,1} and delta the generator yields exactly the adjacent indices, the point itself included |
| Points.ReflectionsAreSignFlips | plot_trap_3d.py:62-69 | with offsets {-1,1} and no delta the generator yields exactly the eight sign flips of the point, which all have its mirror |
| Points.Trunc | utils_for_trap.py:156-158 | `int()` of a float is the integer next to it on the side of zero, less than one away |
| Points.TruncTowardZero | utils_for_trap.py:156-158 | truncation never grows the magnitude, keeps non-negative values non-negative, maps (-1,1) to 0 and differs from floor on negative non-integers |
| Points.TruncOfInteger | utils_for_trap.py:156-158 | truncating an integral value gives that integer back |
| Points.Ceil | traps/abstract_trap.py:74-78 | `math.ceil(x)` is an integer r with r-1 < x <= r |
| Points.CeilLeast | traps/abstract_trap.py:74-78 | the ceiling is the least integer not below its argument |
| Points.CeilOfInteger | traps/abstract_trap.py:74-78 | the ceiling of an integral value is that integer |
| Points.SquaresOrdered | traps/cylindrical_trap.py:10-15 | comparisons of squares of non-negative radii are comparisons of the radii, both strict and non-strict |
| Points.Abs | utils_for_trap.py:225 | the absolute value of an index, never negative and equal to the index or its negation |
| Points.Adjacent | utils_for_trap.py:244 | two indices are adjacent when they differ by at most one along every axis, as the offsets (-1, 0, 1) of the neighbour generator allow |
| Points.Combine | utils_for_trap.py:258-261 | one yielded point: the offsets added to the index with delta, multiplied into it without |
| PaGrid.MemberInBox | utils_for_trap.py:220-233 | a voxel that passes the search's tests lies in the finite box of indices whose mirror is in range |
| PaGrid.AdjacentInBox | utils_for_trap.py:244-245 | a neighbour of such a voxel lies in the box one cell wider |
| PaGrid.Reverse | utils_for_trap.py:212-250 | reversing a path keeps its length and reads it back to front |
| PaGrid.ReversePath | utils_for_trap.py:212-250 | a same-channel path from s to q reversed is one from q to s |
| PaGrid.JoinPaths | utils_for_trap.py:212-250 | paths s→m and m→q join into a path s→q |
| PaGrid.ReachableSymmetric | utils_for_trap.py:212-250 | same-channel reachability is symmetric |
| PaGrid.ReachableTransitive | utils_for_trap.py:212-250 | same-channel reachability is transitive |
| PaGrid.ReachableEnds | utils_for_trap.py:220-233 | both ends of a reachability are members of the channel and lie in the box |
| PaGrid.SeedInComponent | utils_for_trap.py:212-250 | a seed whose mirror is an in-range electrode belongs to its own component |
| PaGrid.ComponentOfMember | utils_for_trap.py:212-250 | every member of a component has the seed's channel, and its own component is the same set |
| PaGrid.ClosedSetHoldsPath | utils_for_trap.py:244-250 | a set that holds the seed and is closed under same-channel adjacency holds every voxel reachable from the seed |
| PaGrid.PotentialArray.constructor | traps/abstract_trap.py:112-133 | a fresh array has the given sizes and no written cell |
| PaGrid.PotentialArray.WritePoint | traps/abstract_trap.py:158-162 | a write inside the array sets exactly that cell; one outside is refused and changes nothing |
| PaGrid.InRange | utils_for_trap.py:227-228 | an index of the stored eighth: every coordinate at least 0 and below the axis length, the bound check of the search |
| PaGrid.SweptBefore | utils_for_trap.py:180-182 | the visit order of the segmentation sweep: k outermost, then i, then j |
| PaGrid.Channel | utils_for_trap.py:220 | the channel of an index is `int(potential_real(abs(i), abs(j), abs(k)))`, read through the mirror |
| PaGrid.Member | utils_for_trap.py:227-240 | an index the search accepts for channel t: its mirror is in range, is an electrode point and has channel t |
| PaGrid.IsPath | utils_for_trap.py:244-250 | a chain of adjacent indices, all members of one channel |
| PaGrid.PathFromTo | utils_for_trap.py:244-250 | such a chain that starts at s and ends at q |
| PaGrid.Reachable | utils_for_trap.py:212-250 | some same-channel chain joins s to q |
| PaGrid.Box | utils_for_trap.py:227-228 | the finite set of indices whose mirror lies within one step of the stored array, which holds every index the search queues |
| PaGrid.Component | utils_for_trap.py:212-250 | the electrode `_dfs` finds: every index of the box that a same-channel chain joins to the seed, in the channel read at the seed |
| PaGrid.InArray | utils_for_trap.py:159-162 | an index the new array accepts for writing: inside its three sizes, with no mirroring |
| PaGrid.PotentialArray.Accepts | utils_for_trap.py:159-162 | the array's acceptance test of a write, the refusal that `expand_trap` catches and ignores |
| FloodFill.VisitedReachable | utils_for_trap.py:236-243 | every voxel added to the visited set is reachable from the seed in its channel |
| FloodFill.QueueUnseen | utils_for_trap.py:244-250 | the gray set grows by exactly the neighbours not yet gray, and those are exactly the ones appended to the queue |
| FloodFill.VisitQueuesNeighbours | utils_for_trap.py:244-250 | after a visit every same-channel neighbour of the visited voxel is gray |
| FloodFill.GrayGrowth | utils_for_trap.py:244-250 | the gray set stays inside the box, and the number of box voxels not yet gray never grows |
| FloodFill.RelinkKeepsTrace | utils_for_trap.py:244-250 | the newly queued voxels get the visited voxel as their parent, and every gray voxel still traces back to the seed |
| FloodFill.VisitVoxel | utils_for_trap.py:236-250 | visiting a voxel adds it to the visited set, queues its unseen neighbours, keeps the search invariant and lowers the termination measure |
| FloodFill.PopKeepsState | utils_for_trap.py:232-235 | removing the head of the queue keeps the search invariant, since every gray voxel is still queued, visited or a non-member |
| FloodFill.SearchComplete | utils_for_trap.py:229-250 | when the queue is empty the visited set is exactly the seed's component |
| FloodFill.Dfs | utils_for_trap.py:212-250 | `_dfs` returns the same set for electrode and visited, and that set is exactly the 26-connected same-channel component of the seed |
| Segmentation.NewElectrodeUnvisited | utils_for_trap.py:184-189 | an unvisited seed's component shares no voxel with the visited set |
| Segmentation.ClosedAdd | utils_for_trap.py:184-189 | adding a full component keeps the visited set a union of components |
| Segmentation.AlignedKept | utils_for_trap.py:190-193 | appending a kept component keeps electrodes, types and seeds aligned |
| Segmentation.DisjointKept | utils_for_trap.py:184-193 | appending a component disjoint from the visited set keeps the electrodes pairwise disjoint |
| Segmentation.OwnedAdd | utils_for_trap.py:184-193 | every visited stored electrode voxel stays owned by a kept electrode, or by a dropped component of at most 20 voxels |
| Segmentation.KeepElectrode | utils_for_trap.py:190-193 | keeping a component keeps the sweep invariant |
| Segmentation.DropElectrode | utils_for_trap.py:190 | dropping a small component keeps the sweep invariant |
| Segmentation.SweepStep | utils_for_trap.py:180-188 | after voxel (i, j, k) every stored electrode voxel swept so far is visited |
| Segmentation.SweepVoxel | utils_for_trap.py:181-193 | one step of the sweep searches only from an unvisited electrode seed, keeps the sweep invariant, appends a seed only after every earlier one and only when no stored voxel of its electrode comes before it, and moves the swept prefix on by one voxel |
| Segmentation.GetAllElectrodes | utils_for_trap.py:166-193 | electrodes and types stay aligned; each electrode is its seed's component with the seed's channel, and has more than 20 voxels when filtering; electrodes are pairwise disjoint; every stored electrode voxel is in one unless its component was dropped as noise; the electrodes come in sweep order (k, then i, then j) of their seeds, and each seed is the first stored voxel of its electrode that the sweep reaches |
| Segmentation.Kept | utils_for_trap.py:190 | the noise filter `len(e) > 20` of the utils copy; the plot copy keeps every electrode |
| Segmentation.SweepOrdered | utils_for_trap.py:180-193 | the seeds come in sweep order, and no stored voxel of an electrode comes before its seed |
| Segmentation.FirstInSweep | utils_for_trap.py:184-188 | a search started at an unvisited electrode voxel, when every electrode voxel swept before it is visited, finds no stored voxel that the sweep reaches earlier |
| Segmentation.OrderedAppend | utils_for_trap.py:190-193 | appending a seed that comes after every earlier seed and first in its electrode keeps the list in sweep order |
| Segmentation.SweptTo | utils_for_trap.py:180-186 | the sweep has reached voxel (i, j, k): every seed so far comes before it and every stored electrode voxel before it is visited |
| Segmentation.VoxelDone | utils_for_trap.py:182-193 | sweeping one voxel moves that swept prefix on by one voxel, for the seeds and for the visited set |
| Segmentation.RowDone | utils_for_trap.py:181-182 | finishing a row of the j loop moves the swept prefix to the start of the next row |
| Segmentation.PlaneDone | utils_for_trap.py:180-181 | finishing a plane moves the swept prefix to the start of the next plane |
| Segmentation.SweepFinished | utils_for_trap.py:180-193 | after the last plane each seed lies in its electrode, no electrode has a stored voxel before its seed, and every stored electrode voxel is in a kept electrode or in one dropped as noise |
| Expand.ShiftFraction | utils_for_trap.py:137-145 | the radial fraction is the `expand_range` answer when there is one, else 0.3 |
| Expand.PlotShiftFraction | plot_trap_3d.py:147-155 | the plot variant uses 0.3 for every channel |
| Expand.PlotFractionIsDefault | plot_trap_3d.py:147-155 | the plot fraction is the utils fraction with no rule, or with a rule that answers None |
| Expand.MassCenter | utils_for_trap.py:264-266 | the mass centre is undefined exactly for an empty electrode |
| Expand.AxisSumConcat | utils_for_trap.py:264-266 | coordinate sums add over concatenation |
| Expand.AxisSumRemove | utils_for_trap.py:264-266 | removing one voxel takes its coordinate off the sum and one copy off the multiset |
| Expand.AxisSumPermutation | utils_for_trap.py:264-266 | coordinate sums depend only on the multiset of voxels |
| Expand.MassCenterOrderFree | utils_for_trap.py:264-266 | the mass centre does not depend on the order in which the set is listed |
| Expand.AxisSumLower | utils_for_trap.py:264-266 | n voxels with coordinate at least lo sum to at least n·lo |
| Expand.AxisSumUpper | utils_for_trap.py:264-266 | n voxels with coordinate at most hi sum to at most n·hi |
| Expand.MeanBounds | utils_for_trap.py:264-266 | the mean of a coordinate lies between its bounds |
| Expand.MassCenterInBox | utils_for_trap.py:264-266 | the mass centre of a non-empty electrode lies in any box that holds its voxels |
| Expand.Target | utils_for_trap.py:151-158 | a voxel is written at the truncation of its shifted coordinates, and a NaN shift leaves it in place |
| Expand.WritesOfMembers | utils_for_trap.py:153-162 | the writes for one electrode are exactly its non-negative voxels at their targets, with the electrode's channel |
| Expand.WritesUpToMembers | utils_for_trap.py:147-162 | the writes for the first n electrodes are exactly those of each of them |
| Expand.ApplyKeys | utils_for_trap.py:159-162 | after the writes a cell is set iff it was set before or some write targets it inside the array |
| Expand.ApplyUntouched | utils_for_trap.py:159-162 | a cell no write targets keeps its value |
| Expand.ApplyLastWrite | utils_for_trap.py:159-162 | a cell inside the array holds the channel of the last write to it |
| Expand.ShiftedVoxelWritten | utils_for_trap.py:147-162 | every in-array target of a non-negative electrode voxel is set in the exploded array |
| Expand.WrittenCellOrigin | utils_for_trap.py:147-162 | every set cell is in the array and holds the channel of an electrode with a voxel shifted onto it |
| Expand.WriterOf | utils_for_trap.py:147-162 | every write comes from a non-negative voxel of some electrode, with that electrode's channel |
| Expand.LastWriteTo | utils_for_trap.py:159-162 | among the writes to a cell there is a last one |
| Expand.Enumerate | utils_for_trap.py:153 | listing an electrode set visits each voxel exactly once |
| Expand.ExpandWrite | utils_for_trap.py:147-162 | the write loop leaves the array exactly as the sequence of attempted writes does, with refused writes ignored |
| Expand.Min3 | utils_for_trap.py:149 | zipping three lists runs to the shortest of them |
| Expand.EnumerateAll | utils_for_trap.py:149-153 | each electrode is listed as a permutation of its voxels |
| Expand.ExpandElectrodes | utils_for_trap.py:125-163 | the exploded array has the source's sizes, and its cells are those the writes of every electrode at its own shift produce |
| Expand.ExpandTrap | utils_for_trap.py:125-163 | `expand_trap` segments the array as `get_all_electrodes` does (aligned, filtered, pairwise disjoint, complete, in the sweep order of their seeds, each seed first in its electrode), then writes each electrode in that order, shifted by the fraction its channel selects |
| Expand.AxisSum | utils_for_trap.py:266 | the sum of one coordinate over the listed voxels, the numerator of the mean |
| Expand.ElectrodeShift | utils_for_trap.py:146-147 | the shift of one electrode is `_delta_move` of its mass centre by its fraction, and NaN when the centre is NaN |
| Expand.Displacement | utils_for_trap.py:150-151 | the shift used for writing: a NaN shift becomes (0, 0, 0) |
| Expand.Skipped | utils_for_trap.py:153-154 | a voxel with a negative index is not written |
| Expand.WritesOf | utils_for_trap.py:152-162 | the writes `point(new_i, new_j, new_k, 1, e_type)` attempted for one electrode, in iteration order |
| Expand.WritesUpTo | utils_for_trap.py:148-162 | the writes attempted for the first n electrodes, one electrode after another in list order |
| Expand.Apply | utils_for_trap.py:159-162 | the cells after a sequence of writes, where a write outside the array is refused and changes nothing |
| Surface.AnyFree | plot_trap_3d.py:174-178 | the early-return loop answers true iff some listed neighbour, mirrored, is not an electrode |
| Surface.IsPointOnSurface | plot_trap_3d.py:174-178 | a voxel is on the surface iff one of its 27 neighbours, itself included and mirrored, is not an electrode |
| Surface.SurfaceWitness | plot_trap_3d.py:174-178 | the loop's answer over the 27 listed offsets is the adjacency condition |
| Surface.FreePointIsSurface | plot_trap_3d.py:174-178 | a voxel that is not an electrode counts as on the surface, because it is its own neighbour |
| Surface.EnclosedPointIsInterior | plot_trap_3d.py:174-178 | a voxel whose 27 neighbours are all electrodes is not on the surface |
| Surface.NextRow | plot_trap_3d.py:181-189 | finishing a row moves the sweep to the next row |
| Surface.NextPlane | plot_trap_3d.py:181-189 | finishing a plane moves the sweep to the next plane |
| Surface.KeptStepWrite | plot_trap_3d.py:186-189 | writing a kept voxel with its channel extends "exactly the kept voxels so far" by one voxel |
| Surface.KeptStepSkip | plot_trap_3d.py:186-189 | skipping a voxel that is not kept extends the same property by one voxel |
| Surface.SurfaceStepWrite | plot_trap_3d.py:186-189 | writing a surface voxel keeps "written = surface voxels swept so far, with their channels" |
| Surface.SurfaceStepSkip | plot_trap_3d.py:186-189 | skipping a non-surface voxel keeps the same property |
| Surface.SurfaceVoxel | plot_trap_3d.py:185-189 | one step of the sweep keeps the sweep invariant |
| Surface.LeaveSurfaceOnly | plot_trap_3d.py:181-189 | the new array holds exactly the stored electrode voxels on the surface, each with its own channel |
| Surface.NeighboursReadable | plot_trap_3d.py:174-178 | every mirrored neighbour of the voxel lies inside the array, the bound that `_is_point_on_surface` does not check |
| Surface.SurfaceReadable | plot_trap_3d.py:181-189 | no stored electrode voxel lies on the far faces of the array, so every surface test reads inside it |
| Surface.OnStoredSurface | plot_trap_3d.py:185-186 | a stored electrode voxel on the surface, the voxels `leave_surface_only` writes |
| Interpolation.FloatIndex | utils_for_trap.py:104-110 | the float index times the step gives back each coordinate |
| Interpolation.FractionsInUnitInterval | utils_for_trap.py:75-82 | alpha, beta and gamma (index minus its floor) lie in [0, 1) |
| Interpolation.WeightsTotal | utils_for_trap.py:80-101 | the eight trilinear weights sum to 1 for any fractions |
| Interpolation.WeightsNonNegative | utils_for_trap.py:80-101 | with fractions in [0, 1] every weight is non-negative |
| Interpolation.WeightsConvex | utils_for_trap.py:80-101 | with fractions in [0, 1] the weights are a convex combination |
| Interpolation.TrilinearIsDot | utils_for_trap.py:92-101 | the source's eight-term sum is the weights applied to the eight corner values |
| Interpolation.DotNonNegative | utils_for_trap.py:92-101 | non-negative weights applied to non-negative values give a non-negative result |
| Interpolation.DotOffset | utils_for_trap.py:92-101 | shifting every corner by d shifts the weighted sum by d times the total weight |
| Interpolation.DotHeadroom | utils_for_trap.py:92-101 | the weighted sum of (d − corner) is d times the total weight minus the weighted sum |
| Interpolation.DotBetween | utils_for_trap.py:92-101 | corners within [lo, hi] and non-negative weights give a sum within [lo·total, hi·total] |
| Interpolation.TrilinearBetween | utils_for_trap.py:80-101 | the interpolated value lies between the smallest and largest corner bounds |
| Interpolation.NumericalPhiBetween | utils_for_trap.py:70-101 | `_numerical_phi_cartesian` lies within any bounds on the eight surrounding grid values |
| Interpolation.NumericalPhiAtGridPoint | utils_for_trap.py:70-101 | at an exact grid point the interpolation returns that point's value |
| Interpolation.CornersAt | utils_for_trap.py:83-90 | the eight potentials p000 … p111 of the cell whose lowest corner is (i, j, k) |
| Interpolation.Trilinear | utils_for_trap.py:92-101 | the eight-term weighted sum of the corner potentials, in the source's order |
| Interpolation.NumericalPhi | utils_for_trap.py:70-101 | `_numerical_phi_cartesian`: floor the float index, take the fractional parts as alpha, beta and gamma, and weight the eight surrounding potentials trilinearly |
| Interpolation.Weights | utils_for_trap.py:93-100 | the eight weights, products of alpha, beta, gamma or their complements |
| Unbend.SourceIndexInRange | utils_for_trap.py:113-121 | every row of the as-written unbent array reads an existing source row |
| Unbend.StackCells | utils_for_trap.py:115-116 | stacking `[-2::-1]` rows and columns gives a (2n−1)×(2m−1) array whose cells read the source at the as-written indices |
| Unbend.StackCellsNegatedColumns | utils_for_trap.py:117-118 | the same, with the values of the first m−1 columns negated (Rs) |
| Unbend.StackCellsNegatedRows | utils_for_trap.py:119-120 | the same, with the values of the first n−1 rows negated (Zs) |
| Unbend.UnbendCells | utils_for_trap.py:113-121 | `_unbend_phi2D` as written: all three outputs are (2n−1)×(2m−1) with one cell mapping, Rs negated on the left and Zs on the bottom |
| Unbend.AsWrittenRepeatsAxis | utils_for_trap.py:115-120 | as written, rows n−2 and n−1 both read source row 0 and the outer source row appears only once |
| Unbend.AsWrittenCounterexample | utils_for_trap.py:119-120 | a 3×1 axis 0, 1, 2 unbends as written to −1, 0, 0, 1, 2 |
| Unbend.AsWrittenNotIncreasing | utils_for_trap.py:119-120 | as written, the unbent z axis always repeats the value 0 on two adjacent rows |
| Unbend.MirrorCells | utils_for_trap.py:113-121 | mirroring with `[:0:-1]` gives a (2n−1)×(2m−1) array reading the source at the folded indices |
| Unbend.MirrorCellsNegatedColumns | utils_for_trap.py:117-118 | the same, with the first m−1 columns negated |
| Unbend.MirrorCellsNegatedRows | utils_for_trap.py:119-120 | the same, with the first n−1 rows negated |
| Unbend.UnbendMirroredCells | utils_for_trap.py:113-121 | the corrected unbend: three (2n−1)×(2m−1) outputs with one folded cell mapping and the sign flips |
| Unbend.UnbendMirroredSymmetric | utils_for_trap.py:113-121 | the corrected unbent potential is symmetric about the middle row |
| Unbend.UnbendMirroredOppositeZ | utils_for_trap.py:119-120 | the corrected unbent z values at mirrored rows are opposite |
| Unbend.MirroredZ | utils_for_trap.py:119-120 | a corrected z cell is the negated source above the middle row and the source itself from it on |
| Unbend.UnbendMirroredIncreasing | utils_for_trap.py:119-120 | with a z axis rising from 0, the corrected unbent z values rise strictly along every column |
| Unbend.AllButLastReversed | utils_for_trap.py:115-120 | numpy `s[-2::-1]`: every element but the last, in reverse order |
| Unbend.Negated | utils_for_trap.py:118-119 | every element negated |
| Unbend.StackRows | utils_for_trap.py:115 | `np.vstack((a[-2::-1, :], a))` |
| Unbend.StackRowsNegated | utils_for_trap.py:119 | `np.vstack((-a[-2::-1, :], a))` |
| Unbend.StackColumns | utils_for_trap.py:116 | `np.hstack((a[:, -2::-1], a))` |
| Unbend.StackColumnsNegated | utils_for_trap.py:118 | `np.hstack((-a[:, -2::-1], a))` |
| Unbend.UnbendPhi2D | utils_for_trap.py:113-121 | `_unbend_phi2D` as written: Phi stacked on both axes, Rs with negated mirrored columns, Zs with negated mirrored rows |
| Unbend.SourceIndex | utils_for_trap.py:115-120 | the source row (or column) that output row r of the as-written stacking reads |
| Unbend.Sign | utils_for_trap.py:118-119 | -1 on the mirrored first n-1 outputs and 1 on the rest |
| Unbend.AllButFirstReversed | utils_for_trap.py:115-120 | numpy `s[:0:-1]`, the slice of the corrected unbend: every element but the first, reversed |
| Unbend.MirrorRows | utils_for_trap.py:115 | the corrected row stacking `np.vstack((a[:0:-1, :], a))` |
| Unbend.MirrorRowsNegated | utils_for_trap.py:119 | the corrected `np.vstack((-a[:0:-1, :], a))` |
| Unbend.MirrorColumns | utils_for_trap.py:116 | the corrected `np.hstack((a[:, :0:-1], a))` |
| Unbend.MirrorColumnsNegated | utils_for_trap.py:118 | the corrected `np.hstack((-a[:, :0:-1], a))` |
| Unbend.UnbendMirrored | utils_for_trap.py:113-121 | the corrected unbend: the same three outputs built with `[:0:-1]` |
| Unbend.FoldIndex | utils_for_trap.py:113-121 | the source row that output row r of the corrected stacking reads: its distance from the middle row |
| Unbend.AxisFromZero | utils_for_trap.py:31-39 | a z axis that starts at 0 and rises along the rows, as `np.meshgrid` of `np.linspace(0, 1, z_pts)` scaled by max_z gives it |
| Voltages.MembersNumberedInOrder | traps/voltage_enums.py:9-47 | the members of each enum are numbered 1, 2, … in declaration order, and the lists hold every member |
| Voltages.TrappedValueRoundTrip | traps/voltage_enums.py:20-31 | value to member and back is the identity, and only 1..3 are values |
| Voltages.CompensatedValueRoundTrip | traps/voltage_enums.py:34-47 | value to member and back is the identity, and only 1..4 are values |
| Voltages.EnumsAgree | traps/voltage_enums.py:9-47 | EXCITATION and DETECTION share their values across the enums, and the to_adjust tables agree except on SimpleVoltages.EXCITATION |
| Voltages.DefaultAdjustCharges | traps/voltage_enums.py:20-47 | only TRAPPING is charged among the trapped channels; the compensated table is 0, 0, 1, 2 |
| Voltages.SimpleValue | traps/voltage_enums.py:9-11 | EXCITATION = 1 and DETECTION = 2 |
| Voltages.SimpleToAdjust | traps/voltage_enums.py:13-17 | DETECTION 0 and EXCITATION 1 |
| Voltages.TrappedValue | traps/voltage_enums.py:20-23 | EXCITATION = 1, DETECTION = 2 and TRAPPING = 3 |
| Voltages.TrappedToAdjust | traps/voltage_enums.py:25-31 | DETECTION 0, EXCITATION 0 and TRAPPING 1 |
| Voltages.CompensatedValue | traps/voltage_enums.py:34-38 | EXCITATION = 1, DETECTION = 2, TRAPPING = 3 and COMPENSATED = 4 |
| Voltages.CompensatedToAdjust | traps/voltage_enums.py:40-48 | DETECTION 0, EXCITATION 0, TRAPPING 1 and COMPENSATED 2 |
| Voltages.SimpleMembers | traps/voltage_enums.py:9-11 | the members of `SimpleVoltages` in declaration order, as iteration yields them |
| Voltages.TrappedMembers | traps/voltage_enums.py:20-23 | the members of `TrappedVoltages` in declaration order |
| Voltages.CompensatedMembers | traps/voltage_enums.py:34-38 | the members of `CompensatedVoltages` in declaration order |
| Voltages.TrappedFromValue | traps/voltage_enums.py:20-23 | `TrappedVoltages(n)`: the member with value n, or none |
| Voltages.CompensatedFromValue | traps/voltage_enums.py:34-38 | `CompensatedVoltages(n)`: the member with value n, or none |
| Voltages.AsCompensated | traps/voltage_enums.py:20-38 | a trapped member as the compensated member of the same name |
| Voltages.AsTrapped | traps/voltage_enums.py:9-23 | a simple member as the trapped member of the same name |
| AbstractTrap.CreateGeometry | traps/abstract_trap.py:48-91 | the geometry is defined unless pts or the x border is zero (division by zero), and keeps pts |
| AbstractTrap.CeilCover | traps/abstract_trap.py:74-83 | the recomputed border is at least the requested one and less than one step beyond it |
| AbstractTrap.GeometryCovers | traps/abstract_trap.py:65-83 | the x axis gets exactly pts cells and the requested x border; every axis covers its requested border within one step |
| AbstractTrap.StepDividesBorder | traps/abstract_trap.py:72-78 | the border divided by the step is exactly pts |
| AbstractTrap.DefaultGeometry | traps/abstract_trap.py:65-83 | with no model border the border is 1.5 times the trap border, within one step on every axis |
| AbstractTrap.Linspace | traps/abstract_trap.py:87-91 | `numpy.linspace` is defined for a non-negative count and returns that many points |
| AbstractTrap.LinspaceEvenlySpaced | traps/abstract_trap.py:87-91 | the points run from 0 to the stop value, evenly spaced by stop/(num−1) |
| AbstractTrap.AsWrittenAxisStretched | traps/abstract_trap.py:79-91 | the axis ends at L·step, not (L−1)·step, so its spacing is step·L/(L−1) rather than the step |
| AbstractTrap.AsWrittenAxisExample | traps/abstract_trap.py:48-91 | a unit trap with pts = 2 gets step 0.75 but the axis 0, 1.5 |
| AbstractTrap.VoxelAxis | traps/abstract_trap.py:87-91 | the voxel axis has one coordinate per cell |
| AbstractTrap.VoxelAxisIsLinspace | traps/abstract_trap.py:87-91 | the corrected axis `linspace(0, (L−1)·step, L)` is the voxel axis, spaced exactly one step |
| AbstractTrap.GetD2 | traps/abstract_trap.py:106-110 | d² is non-negative |
| AbstractTrap.GetD2Properties | traps/abstract_trap.py:106-110 | zero sizes fall back to the trap border; given sizes ignore the border; d² scales with the square of the sizes; for r0² = 2z0², d² = z0² |
| AbstractTrap.InOrderAppend | traps/abstract_trap.py:164-178 | two sweeps in order, the second entirely after the first, concatenate in order |
| AbstractTrap.PlaneCells | traps/abstract_trap.py:169-177 | one plane of the sweep visits exactly the indices of plane k, in order |
| AbstractTrap.PlaneLength | traps/abstract_trap.py:169-177 | one plane visits nx·ny indices |
| AbstractTrap.VolumeExact | traps/abstract_trap.py:164-178 | the sweep visits nz·nx·ny indices, exactly those in the box, with k outermost and j innermost |
| AbstractTrap.VolumeLength | traps/abstract_trap.py:164-178 | the sweep visits nz·nx·ny indices |
| AbstractTrap.VolumeOrdered | traps/abstract_trap.py:164-178 | the sweep visits exactly the box, in order |
| AbstractTrap.ResultsSnoc | traps/abstract_trap.py:175-177 | one more visited index appends its result when it is truthy, and nothing otherwise |
| AbstractTrap.ResultsKeepTruthy | traps/abstract_trap.py:175-177 | only truthy results are kept, never more than the indices visited, and all of them in visit order when all are truthy |
| AbstractTrap.GoThrowVolume | traps/abstract_trap.py:164-178 | `_go_throw_volume` returns the truthy results of `func` over the sweep order |
| AbstractTrap.SweepPlane | traps/abstract_trap.py:169-177 | after one pass of the i and j loops the results are those of the indices visited before, followed by plane k in order |
| AbstractTrap.SweepRow | traps/abstract_trap.py:170-177 | after one pass of the j loop the results are those of the indices visited before, followed by row (k, i) in order |
| AbstractTrap.PutPoint | traps/abstract_trap.py:158-162 | an electrode point is written with its channel, and nothing is written otherwise |
| AbstractTrap.VoltageForAdjPrecedence | traps/abstract_trap.py:193-208 | the outer rule's answer wins, otherwise the inner rule's, otherwise to_adjust; the default inner rule always gives to_adjust |
| AbstractTrap.NatToString | traps/abstract_trap.py:215 | a channel number prints as a non-empty string of digits |
| AbstractTrap.ParseNatToString | traps/abstract_trap.py:215 | reading the printed number back gives the number |
| AbstractTrap.Split | traps/abstract_trap.py:216 | splitting a string always gives at least one part |
| AbstractTrap.SplitPrefix | traps/abstract_trap.py:216 | a prefix without separators joins the first part of what follows |
| AbstractTrap.SplitJoin | traps/abstract_trap.py:216 | splitting the comma-joined parts gives the parts back when none contains a comma |
| AbstractTrap.Entries | traps/abstract_trap.py:212-215 | one `value=potential` entry per channel |
| AbstractTrap.AdjustTrap | traps/abstract_trap.py:210-216 | the command is the entries joined by commas, splits back into them, and is empty for no channels |
| AbstractTrap.EntryValue | traps/abstract_trap.py:215 | the part of an entry before '=' reads back as the channel's value |
| AbstractTrap.RequestedBorder | traps/abstract_trap.py:65-70 | the given model border, or 1.5 times the trap border when none is given |
| AbstractTrap.Cells | traps/abstract_trap.py:74-78 | the cell count `ceil(border / gridstepmm)` of one axis |
| AbstractTrap.AxisBorder | traps/abstract_trap.py:79-83 | the border moved out to a whole number of grid steps, cells times gridstepmm |
| AbstractTrap.GridAxis | traps/abstract_trap.py:87-91 | the axis `np.linspace(0, model_border, model_lenghts)` of one component |
| AbstractTrap.OrDefault | traps/abstract_trap.py:108-109 | `x if x else default`: None and 0 both fall back to the default |
| AbstractTrap.Row | traps/abstract_trap.py:170 | the indices of row i of plane k, j running fastest |
| AbstractTrap.Plane | traps/abstract_trap.py:169-170 | the rows of plane k, i after i |
| AbstractTrap.Volume | traps/abstract_trap.py:168-170 | the planes one after another: the visit order of `_go_throw_volume` |
| AbstractTrap.VisitedBefore | traps/abstract_trap.py:168-170 | the visit order on indices: by k, then by i, then by j |
| AbstractTrap.InOrder | traps/abstract_trap.py:168-170 | a list of indices in strict visit order |
| AbstractTrap.CoordsAt | traps/abstract_trap.py:172-174 | the Cartesian coordinates (x, y, z) of an index on the three axes |
| AbstractTrap.Results | traps/abstract_trap.py:175-177 | the truthy results of `func` over the listed indices, in order |
| AbstractTrap.DefaultAdjustRule | traps/abstract_trap.py:193-195 | the base `new_adjust_rule`: the channel's own `to_adjust()` |
| AbstractTrap.GetVoltageForAdj | traps/abstract_trap.py:197-208 | the caller's rule when it answers, else the trap's rule when it answers, else `to_adjust()` |
| AbstractTrap.ParseNat | traps/abstract_trap.py:215 | decimal digits read back as a number, the inverse of printing a channel value |
| AbstractTrap.Join | traps/abstract_trap.py:216 | `",".join(parts)`: the parts with one separator between each two |
| AbstractTrap.Entry | traps/abstract_trap.py:215 | the entry `f"{t.value}={potential}"` of one channel |
| CutElectrode.TriplesFrom | traps/abstract_penning_with_simple_electrode_trap.py:50-76 | the innermost loop yields the triples {a, b, d} for each later direction d |
| CutElectrode.GenCoordsForTest | traps/abstract_penning_with_simple_electrode_trap.py:50-76 | each generated point is the input moved back by the width along one picked subset of directions |
| CutElectrode.PairsSound | traps/abstract_penning_with_simple_electrode_trap.py:50-76 | every subset picked from direction a on holds a and only later directions |
| CutElectrode.PicksSound | traps/abstract_penning_with_simple_electrode_trap.py:50-76 | every picked subset is non-empty and drawn from the directions |
| CutElectrode.TriplesComplete | traps/abstract_penning_with_simple_electrode_trap.py:50-76 | every three-direction subset with later third directions is generated |
| CutElectrode.PairsComplete | traps/abstract_penning_with_simple_electrode_trap.py:50-76 | every subset led by a with later directions is generated |
| CutElectrode.PicksComplete | traps/abstract_penning_with_simple_electrode_trap.py:50-76 | every non-empty subset of the directions is generated |
| CutElectrode.PicksAreNonEmptySubsets | traps/abstract_penning_with_simple_electrode_trap.py:50-76 | for axis directions, the picked subsets are exactly the non-empty subsets |
| CutElectrode.PairsCount | traps/abstract_penning_with_simple_electrode_trap.py:50-76 | the pair loop yields one subset per choice of one or two remaining directions |
| CutElectrode.PicksCount | traps/abstract_penning_with_simple_electrode_trap.py:50-76 | the generator yields one subset per choice of one, two or three directions |
| CutElectrode.GenCount | traps/abstract_penning_with_simple_electrode_trap.py:50-76 | for at most three directions it yields 2^n − 1 points |
| CutElectrode.AnyFails | traps/abstract_penning_with_simple_electrode_trap.py:96-104 | the early-return loop is true iff the condition fails at some test point |
| CutElectrode.InCutElectrode | traps/abstract_penning_with_simple_electrode_trap.py:78-108 | the answer is −1, 0 or 1 |
| CutElectrode.InCutElectrodeCases | traps/abstract_penning_with_simple_electrode_trap.py:78-108 | −1 iff the condition fails at the point; 0 iff it holds there and fails at some point moved back along a non-empty subset; 1 iff it holds at all of them |
| CutElectrode.SingleDirectionCut | traps/abstract_penning_with_simple_electrode_trap.py:120-122 | with one direction the cut compares the point and the point one width back |
| CutElectrode.DefaultDirections | traps/abstract_penning_with_simple_electrode_trap.py:39-48 | the default directions give every non-empty axis subset, without axis 1 in cylindrical geometry |
| CutElectrode.EndcapShell | traps/abstract_penning_with_simple_electrode_trap.py:134-141 | an endcap electrode is on the endcap shell along z and not beyond the other shell |
| CutElectrode.BeyondExcludes | traps/abstract_penning_with_simple_electrode_trap.py:134-150 | a point beyond the other shell is never an endcap electrode, and one beyond the endcap shell never an other electrode |
| CutElectrode.Shift | traps/abstract_penning_with_simple_electrode_trap.py:63-75 | the point moved back by the width along every axis of the set |
| CutElectrode.PairsFrom | traps/abstract_penning_with_simple_electrode_trap.py:66-76 | the middle loop: the pair with each later direction, then its triples |
| CutElectrode.PicksFrom | traps/abstract_penning_with_simple_electrode_trap.py:62-76 | the outer loop: each direction alone, then its pairs |
| CutElectrode.Picks | traps/abstract_penning_with_simple_electrode_trap.py:60-76 | the sets of directions shifted, in the order `_gen_coords_for_test` yields them |
| CutElectrode.Width | traps/abstract_penning_with_simple_electrode_trap.py:95 | the electrode width `gridstepmm * electrode_width` |
| CutElectrode.StandardDirections | traps/abstract_penning_with_simple_electrode_trap.py:44 | `_standard_direction`: {0, 1, 2}, or {0, 2} in cylindrical geometry |
| CutElectrode.CutWithDefault | traps/abstract_penning_with_simple_electrode_trap.py:78-108 | `_in_cut_electrode` where no directions select the standard ones |
| CutElectrode.InEndcap | traps/abstract_penning_with_simple_electrode_trap.py:120-122 | `_in_electrode_endcap`: the endcap condition cut along z |
| CutElectrode.OtherDirections | traps/abstract_penning_with_simple_electrode_trap.py:124-131 | {0} in cylindrical geometry, {0, 1} otherwise |
| CutElectrode.InOther | traps/abstract_penning_with_simple_electrode_trap.py:124-132 | `_in_other_electrode`: the other condition cut along those directions |
| CutElectrode.IsEndcapElectrode | traps/abstract_penning_with_simple_electrode_trap.py:134-141 | on the endcap shell (cut 0) and not beyond the other one (cut at most 0) |
| CutElectrode.IsOtherElectrode | traps/abstract_penning_with_simple_electrode_trap.py:143-150 | on the other shell and not beyond the endcap one |
| Penning.PutPoint | traps/abstract_penning_trap.py:47-55 | endcap points get the endcap channel, other electrode points the non-trap channel, and nothing else is written |
| Penning.ElectrodeTypePrecedence | traps/abstract_penning_trap.py:35-45 | the endcap channel wins when both tests hold; the non-trap channel is used otherwise |
| Penning.DefaultChannels | traps/abstract_penning_trap.py:14-23 | default endcaps are TRAPPING (3); other electrodes are EXCITATION iff 0 ≤ θ ≤ π/4 and DETECTION otherwise, never sharing the endcap channel; θ alone decides |
| Penning.SimpleElectrodesInsideSolids | traps/abstract_penning_with_simple_electrode_trap.py:134-150 | every electrode point satisfies a simple condition; off one solid, a point is an electrode exactly on the other's shell and gets that solid's channel |
| Penning.IsElectrode | traps/abstract_penning_trap.py:35-37 | an endcap or another electrode |
| Penning.GetElectrodeType | traps/abstract_penning_trap.py:39-45 | the endcap channel when the endcap test holds, else the non-trap channel |
| Penning.InSector | traps/abstract_penning_trap.py:21 | `0 <= theta <= upper` |
| Penning.DefaultEndcapType | traps/abstract_penning_trap.py:14-16 | TRAPPING |
| Penning.DefaultNontrapType | traps/abstract_penning_trap.py:18-23 | EXCITATION when 0 <= theta <= pi/4, DETECTION elsewhere |
| Penning.DefaultRules | traps/abstract_penning_trap.py:14-45 | a trap with the given tests and the default channels, written through `.value` |
| Penning.SimpleElectrodeRules | traps/abstract_penning_with_simple_electrode_trap.py:134-150 | a trap whose two tests are the endcap and other shells cut from two simple conditions |
| CubicTrap.EndcapCut | traps/cubic_trap.py:10-12 | the endcap cut is −1 below the lid, 0 for one width above it and 1 beyond |
| CubicTrap.SideWallCut | traps/cubic_trap.py:14-16 | a point is on the side-wall shell iff it is in the walls and one width back on x and y leaves them |
| CubicTrap.BelowLidChannels | traps/cubic_trap.py:14-22 | below the lid the electrodes are the side-wall shell, DETECTION on the x walls and EXCITATION elsewhere |
| CubicTrap.CubicGeometry | traps/cubic_trap.py:24-27 | the default cubic model has pts cells a side and a border 1.5 times the size |
| CubicTrap.EndcapSimple | traps/cubic_trap.py:10-12 | z >= size |
| CubicTrap.OtherSimple | traps/cubic_trap.py:14-16 | x >= size or y >= size |
| CubicTrap.NontrapType | traps/cubic_trap.py:18-22 | DETECTION when x >= size, EXCITATION otherwise |
| CubicTrap.Shell | traps/cubic_trap.py:24-27 | Cartesian geometry with the default electrode width |
| CubicTrap.Rules | traps/cubic_trap.py:6-27 | the cube's endcap and side-wall shells with TRAPPING endcaps and its non-trap rule |
| CuboidTrap.CubeIsCuboid | traps/cuboid_trap.py:8-20 | the cuboid rules with equal half-sizes are the cubic trap's rules |
| CuboidTrap.CuboidPotentials | traps/cuboid_trap.py:26-33 | the rule answers every channel with 1.2 times its default charge, unless an outer rule answers first |
| CuboidTrap.EndcapSimple | traps/cuboid_trap.py:8-10 | z >= the z border |
| CuboidTrap.OtherSimple | traps/cuboid_trap.py:12-14 | x >= the x border or y >= the y border |
| CuboidTrap.NontrapType | traps/cuboid_trap.py:16-20 | DETECTION when x >= the x border, EXCITATION otherwise |
| CuboidTrap.AdjustRule | traps/cuboid_trap.py:26-33 | 0, 0 and 1.2 for EXCITATION, DETECTION and TRAPPING |
| CylindricalTrap.WallOutsideRadius | traps/cylindrical_trap.py:10-15 | for non-negative radii the wall condition is r ≥ a |
| CylindricalTrap.WallShell | traps/cylindrical_trap.py:10-15 | cut along r alone, the wall shell is a ≤ r < a + width |
| CylindricalTrap.SideChannels | traps/cylindrical_trap.py:20-26 | the side channel is 1 on the first and third quarter turns and 3 elsewhere, equal on opposite sides |
| CylindricalTrap.EndcapSimple | traps/cylindrical_trap.py:6-8 | z >= z0 |
| CylindricalTrap.OtherSimple | traps/cylindrical_trap.py:10-15 | false exactly when r^2 < a^2 |
| CylindricalTrap.TrapElectrodeType | traps/cylindrical_trap.py:17-18 | the endcap channel 2 |
| CylindricalTrap.NontrapType | traps/cylindrical_trap.py:20-26 | 1 on 0 <= theta <= pi/2 and on pi <= theta <= 3pi/2, 3 elsewhere |
| CylindricalTrap.Shell | traps/cylindrical_trap.py:30-31 | cylindrical geometry with the default electrode width |
| HyperbolicTrap.SolidsDisjoint | traps/hyperbolic_trap.py:21-32 | endcap and ring solids overlap only if 2z0² + a² ≤ 0, so never when a or z0 is non-zero; both hold at the centre when both are zero |
| HyperbolicTrap.SideChannelIsDefault | traps/hyperbolic_trap.py:34-40 | the override is the Penning default rule |
| HyperbolicTrap.HyperbolicPotentials | traps/hyperbolic_trap.py:42-49 | every channel gets its default charge times 3·0.223·0.988 |
| HyperbolicTrap.HyperbolicGeometry | traps/hyperbolic_trap.py:9-19 | the model border is three trap borders, and r_max is half the radial extent |
| HyperbolicTrap.ModelBorder | traps/hyperbolic_trap.py:11-16 | three times (a, a, z0) |
| HyperbolicTrap.RMax | traps/hyperbolic_trap.py:17 | r_max = 1.5a |
| HyperbolicTrap.TrappedSimple | traps/hyperbolic_trap.py:21-26 | r <= r_max and 2z^2 - r^2 >= 2z0^2 |
| HyperbolicTrap.OtherSimple | traps/hyperbolic_trap.py:28-32 | r <= r_max and r^2 - 2z^2 >= a^2 |
| HyperbolicTrap.NontrapType | traps/hyperbolic_trap.py:34-40 | EXCITATION when 0 <= theta <= pi/4, DETECTION elsewhere |
| HyperbolicTrap.AdjustRule | traps/hyperbolic_trap.py:42-49 | 0, 0 and 3·0.223·0.988 for EXCITATION, DETECTION and TRAPPING |
| DhcTrap.ElectrodeTypeFrom | traps/dhc_trap.py:60-71 | the loop gives 2 iff θ or θ+2π lies in some remaining segment, and 1 otherwise |
| DhcTrap.EndPlaneAreas | traps/dhc_trap.py:53-58 | at the end of the trap, z = z0, segment k is [2πk/N, 2π(k+1)/N] |
| DhcTrap.SectorOf | traps/dhc_trap.py:53-71 | every angle of a turn lies in one of the N equal sectors |
| DhcTrap.EndPlaneCovered | traps/dhc_trap.py:53-71 | at the end of the trap, z = z0, every angle of a turn gets type 2 |
| DhcTrap.ChannelsHavePotentials | traps/dhc_trap.py:40-71 | every channel written has a potential, and only the segments are at 1 |
| DhcTrap.TrappedSimple | traps/dhc_trap.py:10-22 | 2z^2 - r^2 >= 2z0^2 - a^2 |
| DhcTrap.OtherSimple | traps/dhc_trap.py:24-38 | false exactly when r^2 < a^2 |
| DhcTrap.TrapElectrodeType | traps/dhc_trap.py:40-41 | the endcap channel 2 |
| DhcTrap.Alpha0 | traps/dhc_trap.py:50 | alpha_0 = beta·pi / N |
| DhcTrap.PhiAreas | traps/dhc_trap.py:53-58 | segment k at height z spans its centre 2pi(k + 1/2)/N plus and minus pi/N + alpha_0((z/z0)^2 - 1) |
| DhcTrap.InArea | traps/dhc_trap.py:66-70 | theta or theta + 2pi lies in the segment, edges included |
| DhcTrap.ElectrodeType | traps/dhc_trap.py:43-45 | `_get_electrode_type` from segment 0, the non-trap channel |
| ClosedCompensatedTrap.ClosedVoltagesNumbered | traps/closed_compesated.py:6-20 | the four channels have distinct values 1..4; only TRAPPING and COMPENSATED are charged |
| ClosedCompensatedTrap.DefaultDimensions | traps/closed_compesated.py:27-31 | with the default ratios z0 = R/1.16 and dzc = 0.3·z0, strictly inside the half-height |
| ClosedCompensatedTrap.ClosedChannels | traps/closed_compesated.py:33-38 | COMPENSATED iff z ≥ z0 − dzc, the cylindrical rule below that; DETECTION is never written |
| ClosedCompensatedTrap.ColorsDistinct | traps/closed_compesated.py:40-48 | the four channels have distinct colours and distinct labels |
| ClosedCompensatedTrap.ClosedPotentials | traps/closed_compesated.py:50-59 | every channel gets the table's potential; COMPENSATED is 0.05 times TRAPPING; only charged channels are non-zero |
| ClosedCompensatedTrap.Value | traps/closed_compesated.py:6-10 | EXCITATION = 1, DETECTION = 2, TRAPPING = 3 and COMPENSATED = 4 |
| ClosedCompensatedTrap.ToAdjust | traps/closed_compesated.py:12-20 | DETECTION 0, EXCITATION 0, TRAPPING 1 and COMPENSATED 10 |
| ClosedCompensatedTrap.Z0 | traps/closed_compesated.py:28 | z0 = R / z2r_ratio |
| ClosedCompensatedTrap.Dzc | traps/closed_compesated.py:29 | dzc = z0 · dz2z_ratio |
| ClosedCompensatedTrap.NontrapChannel | traps/closed_compesated.py:33-38 | the cylindrical rule below z0 - dzc, COMPENSATED from there up |
| ClosedCompensatedTrap.ColorFor | traps/closed_compesated.py:40-48 | green, blue, red and yellow, with the labels as written |
| ClosedCompensatedTrap.AdjustRule | traps/closed_compesated.py:50-59 | 0, 0, 0.7323 and 0.7323·0.05 |
| OpenTrap.OpenGeometry | traps/open_trap.py:13-22 | the model border is 1.3·(a, a, z0 + ze), within one step |
| OpenTrap.NoEndcapElectrodes | traps/open_trap.py:24-25 | there are no endcap electrodes, and the other electrodes are the wall shell |
| OpenTrap.OpenChannels | traps/open_trap.py:27-36 | the channel depends only on z < z0 and the π/4 sector; below z0 it is the Penning default |
| OpenTrap.OpenBorder | traps/open_trap.py:16-21 | 1.3 times (a, a, z0 + ze) |
| OpenTrap.EndcapSimple | traps/open_trap.py:24-25 | never: the open trap has no endcaps |
| OpenTrap.NontrapType | traps/open_trap.py:27-36 | below z0 EXCITATION in the pi/4 sector and DETECTION elsewhere; from z0 up TRAPPING_0 in the sector and TRAPPING_1 elsewhere |
| OpenCompensatedTrap.OpenCompensatedBands | traps/open_compensated.py:26-33 | the cylindrical rule below z0 − dzc; COMPENSATED exactly in [z0 − dzc, z0]; TRAPPING above |
| OpenCompensatedTrap.OpenCompensatedPotentials | traps/open_compensated.py:35-39 | TRAPPING 1.949, COMPENSATED 0.3235, and to_adjust (0) for the others |
| OpenCompensatedTrap.EndcapSimple | traps/open_compensated.py:23-24 | never: the trap has no endcaps |
| OpenCompensatedTrap.NontrapChannel | traps/open_compensated.py:26-33 | the cylindrical rule below z0 - dzc, COMPENSATED up to z0, TRAPPING above |
| OpenCompensatedTrap.AdjustRule | traps/open_compensated.py:35-39 | 1.949 for TRAPPING, 0.3235 for COMPENSATED, none otherwise |
| TolmachovTrap.TolmachovDimensions | traps/tolmachov_trap.py:13-26 | z0 = 0.65D, zc1 = zc2 = 0.2D, ze = D, and the model border is 1.3·(a, a, z0 + ze) |
| TolmachovTrap.TolmachovBands | traps/tolmachov_trap.py:31-42 | the band boundaries rise strictly, the band grows with z, each band is its z interval, and the bottom band splits at θ = π/6 |
| TolmachovTrap.TolmachovPotentials | traps/tolmachov_trap.py:44-51 | the rule answers exactly the banded channels, with C0 < C1 < TRAPPING |
| TolmachovTrap.Dimensions | traps/tolmachov_trap.py:13-18 | D = 2a, z0 = 0.65D, zc1 = zc2 = 0.2D, ze = D |
| TolmachovTrap.ModelBorder | traps/tolmachov_trap.py:20-25 | 1.3 times (a, a, z0 + ze) |
| TolmachovTrap.EndcapSimple | traps/tolmachov_trap.py:28-29 | never: the trap has no endcaps |
| TolmachovTrap.NontrapType | traps/tolmachov_trap.py:31-42 | the sector rule with pi/6 below z0 - zc1 - zc2, then COMPENSATED_0, COMPENSATED_1 and TRAPPING bands |
| TolmachovTrap.Band | traps/tolmachov_trap.py:31-42 | the rank of a channel's band from the centre outwards |
| TolmachovTrap.AdjustRule | traps/tolmachov_trap.py:44-51 | 0.1333k, 0.3167k and k with k = 2.3, none for the two inner channels |
| BrustkernTrap.BrustkernDimensions | traps/brustkern_trap.py:13-30 | the first sector is ext_det, ze = 1.5·z0, and the fourth running sector is z0 − gap, so the last two gap tests coincide |
| BrustkernTrap.BrustkernBands | traps/brustkern_trap.py:36-52 | the sector boundaries rise strictly, the band grows with z, each gap gets its band's channel, and the bottom band splits at π/4 |
| BrustkernTrap.BrustkernPotentials | traps/brustkern_trap.py:80-89 | the rule answers exactly the banded channels; C0 = C2, with C1 < 0 < C0 < TRAPPING |
| BrustkernTrap.Dimensions | traps/brustkern_trap.py:13-22 | the lengths scaled from the article radius 31.24, z0 the sum of the bands and four gaps, ze = 1.5z0 |
| BrustkernTrap.Sector0 | traps/brustkern_trap.py:63 | the start of the first gap: z0 minus the three bands and four gaps |
| BrustkernTrap.Sector1 | traps/brustkern_trap.py:66 | the running sector after the first band |
| BrustkernTrap.Sector2 | traps/brustkern_trap.py:69 | the running sector after the second band |
| BrustkernTrap.Sector3 | traps/brustkern_trap.py:72 | the running sector after the third band |
| BrustkernTrap.InGap | traps/brustkern_trap.py:64 | sector < z < sector + gap |
| BrustkernTrap.EndcapSimple | traps/brustkern_trap.py:32-34 | z >= z0 + ze |
| BrustkernTrap.OtherSimple | traps/brustkern_trap.py:58-78 | r^2 >= a^2 and z in none of the five gaps |
| BrustkernTrap.NontrapType | traps/brustkern_trap.py:36-52 | the sector rule below the first gap (the start of the banded section), then COMPENSATED_0, COMPENSATED_1, COMPENSATED_2 and TRAPPING bands |
| BrustkernTrap.EndcapType | traps/brustkern_trap.py:54-56 | TRAPPING |
| BrustkernTrap.Band | traps/brustkern_trap.py:36-52 | the rank of a channel's band from the centre outwards |
| BrustkernTrap.AdjustRule | traps/brustkern_trap.py:80-89 | 9.608k, -7.608k, 9.608k and 35k with k = 0.06269, none for the two inner channels |
| TrappingRingTrap.RingNumberFrom | traps/trapping_ring.py:53-59 | the loop returns the first ring holding r, or −1 when none does |
| TrappingRingTrap.RingsSeparated | traps/trapping_ring.py:53-59 | with positive spacing each ring ends before any later ring starts |
| TrappingRingTrap.RingsDisjoint | traps/trapping_ring.py:53-59 | with positive spacing two rings never share a radius |
| TrappingRingTrap.RingNumberExact | traps/trapping_ring.py:53-59 | with positive spacing the ring number is i iff r lies in ring i |
| TrappingRingTrap.TrappingRingDimensions | traps/trapping_ring.py:14-24 | z0 = D/1.875, last_offset = 2 spacings, ring 0 starts inside and ring 4 ends last_offset short of the wall |
| TrappingRingTrap.RingEndcaps | traps/trapping_ring.py:26-51 | a lid point is an endcap iff it is on a ring, whose channel it takes; off the rings the type is None; lid and wall never overlap |
| TrappingRingTrap.RingPotentialsIncrease | traps/trapping_ring.py:61-72 | ring potentials rise from the inner ring outward; side channels get no rule |
| TrappingRingTrap.Dimensions | traps/trapping_ring.py:14-23 | with D = 2a: z0 = D/1.875, ring width 0.110 and spacing 0.039 times D/1.875, last offset twice the spacing |
| TrappingRingTrap.FirstOffset | traps/trapping_ring.py:54 | where ring 0 starts: a - last_offset + ring_space - 5(ring_space + ring_width) |
| TrappingRingTrap.RingStart | traps/trapping_ring.py:56 | the inner edge of ring i |
| TrappingRingTrap.InRing | traps/trapping_ring.py:56-57 | r within ring i, edges included |
| TrappingRingTrap.RingNumber | traps/trapping_ring.py:53-59 | `_get_ring_number`: the first of the five rings holding r, or -1 |
| TrappingRingTrap.EndcapSimple | traps/trapping_ring.py:26-31 | at or above z0 and on a ring |
| TrappingRingTrap.RingChannel | traps/trapping_ring.py:36-45 | TRAPPING_i for ring i, none for any other number |
| TrappingRingTrap.EndcapType | traps/trapping_ring.py:33-45 | the channel of the ring holding r, none off the rings |
| TrappingRingTrap.OtherSimple | traps/trapping_ring.py:47-51 | false at or above z0, the cylinder's wall below it |
| TrappingRingTrap.AdjustRule | traps/trapping_ring.py:61-72 | 0.2, 1.1, 2.0, 2.4 and 2.8 for the five rings, none otherwise |
| KanawatiTrap.KanawatiDimensions | traps/kanawati_trap.py:13-28 | z0 = 30a/23, ring_r = 5a/23, ring_z = 4·ring_r, and the model border is 1.3·(a, a, z0 + ring_z) |
| KanawatiTrap.KanawatiOther | traps/kanawati_trap.py:30-37 | the wall shell up to z0, the tube shell up to z0 + ring_z, nothing above |
| KanawatiTrap.KanawatiPlateMeetsTube | traps/kanawati_trap.py:30-45 | a plate point on the tube is both endcap and other, and gets TRAPPING |
| KanawatiTrap.KanawatiSectors | traps/kanawati_trap.py:47-57 | below z0, EXCITATION on [0, π/8] ∪ [3π/8, π/2], symmetric about π/4; COMPENSATED above z0 |
| KanawatiTrap.KanawatiPotentials | traps/kanawati_trap.py:59-64 | TRAPPING is 6 times COMPENSATED; the side channels fall back to 0 |
| KanawatiTrap.Dimensions | traps/kanawati_trap.py:13-20 | z0 = 30a/23, ring_r = 5a/23 and ring_z = 20a/23 |
| KanawatiTrap.ModelBorder | traps/kanawati_trap.py:22-27 | 1.3 times (a, a, z0 + ring_z) |
| KanawatiTrap.IsOther | traps/kanawati_trap.py:30-37 | the wall a <= r <= a + w up to z0, the tube ring_r <= r <= ring_r + w up to z0 + ring_z, and false above |
| KanawatiTrap.IsEndcap | traps/kanawati_trap.py:39-45 | ring_r <= r <= a and z0 <= z <= z0 + w |
| KanawatiTrap.NontrapType | traps/kanawati_trap.py:47-57 | up to z0 EXCITATION on [0, pi/8] and [3pi/8, pi/2] and DETECTION elsewhere; COMPENSATED above |
| KanawatiTrap.Rules | traps/kanawati_trap.py:9-57 | the plate and tube tests with TRAPPING plates and the non-trap rule |
| KanawatiTrap.AdjustRule | traps/kanawati_trap.py:59-64 | 6k for TRAPPING and k for COMPENSATED with k = 0.335, none otherwise |
| PseudoPotTrap.NearWireFrom | traps/pseudo_pot_trap.py:24-27 | the wire loop is true iff x is near some remaining wire |
| PseudoPotTrap.WireGrid | traps/pseudo_pot_trap.py:16-27 | a point is on the grid iff it is near one of the wire_num wires, and every wire centre is on it |
| PseudoPotTrap.PseudoPotOverlap | traps/pseudo_pot_trap.py:16-37 | endcap and wall meet only at z = z0 on the rim x² + y² = a², on a wire |
| PseudoPotTrap.WireRad | traps/pseudo_pot_trap.py:14 | wire_rad = 1.1 gridstepmm |
| PseudoPotTrap.NearWire | traps/pseudo_pot_trap.py:25 | x within wire_rad of the centre of wire i |
| PseudoPotTrap.WireStep | traps/pseudo_pot_trap.py:18 | w_step = a / wire_num |
| PseudoPotTrap.OnWire | traps/pseudo_pot_trap.py:24-27 | x near one of the wires 0 … wire_num - 1 |
| PseudoPotTrap.EndcapSimple | traps/pseudo_pot_trap.py:16-27 | z >= z0, r^2 <= a^2 and x on a wire |
| PseudoPotTrap.OtherSimple | traps/pseudo_pot_trap.py:29-37 | z <= z0 and r^2 >= a^2 |
| WangTrap.WangOther | traps/wang_trap.py:30-47 | an other electrode is the wall shell up to z0, or a wire of the grid inside the radius within the slab |
| WangTrap.WangExclusive | traps/wang_trap.py:23-47 | with δc > 0 no point is both an endcap and an other electrode |
| WangTrap.WangChannels | traps/wang_trap.py:49-56 | the wall shell takes the sector channels, never COMPENSATED; the grid inside the radius is COMPENSATED |
| WangTrap.EndcapSimple | traps/wang_trap.py:8-9 | the stub's None, which is falsy |
| WangTrap.OtherSimple | traps/wang_trap.py:11-12 | the stub's None, which is falsy |
| WangTrap.IsEndcap | traps/wang_trap.py:23-28 | r < a and z0 <= z <= z0 + w |
| WangTrap.InSlab | traps/wang_trap.py:40 | z0 - delta_c - w <= z <= z0 - delta_c |
| WangTrap.IsOther | traps/wang_trap.py:30-47 | up to z0: the wall a < r <= a + w, or a grid wire in x or y inside the slab; false elsewhere |
| WangTrap.NontrapType | traps/wang_trap.py:49-56 | the sector rule on a <= r <= a + w, COMPENSATED elsewhere |
| Harmonics.DR | comet_calculator.py:180-225 | the radial derivative of a polynomial differentiates each term |
| Harmonics.DZ | comet_calculator.py:180-225 | the axial derivative of a polynomial differentiates each term |
| Harmonics.PolynomialsMatch | comet_calculator.py:185-213 | the term lists evaluate to `_y_2`, `_y_4` and `_y_6` |
| Harmonics.ConstantMembers | comet_calculator.py:181-182 | `_y_0` and `_dY_2` are identically 1 |
| Harmonics.Parity | comet_calculator.py:185-225 | `_y_2`, `_y_4`, `_y_6`, `_dY_4` and `_dY_6` are even in R and in Z; `_y_3` is even in R and odd in Z |
| Harmonics.Homogeneity | comet_calculator.py:185-213 | `_y_k(tR, tZ) = t^k·_y_k(R, Z)` for k = 2, 3, 4, 6 |
| Harmonics.CompanionsAreRadialDerivatives | comet_calculator.py:216-225 | R·`_dY_k` is −∂`_y_k`/∂R for k = 2, 4, 6 |
| Harmonics.LaplaceOffAxis | comet_calculator.py:19 | off the axis, the axisymmetric Laplacian times R is the R-multiplied form, and it vanishes when that form does |
| Harmonics.Y2IsHarmonic | comet_calculator.py:185-189 | `_y_2` satisfies Laplace's equation |
| Harmonics.Y4Derivatives | comet_calculator.py:199-204 | the second and first derivatives of `_y_4` |
| Harmonics.Y4IsHarmonic | comet_calculator.py:199-204 | `_y_4` satisfies Laplace's equation |
| Harmonics.Y6SecondZ | comet_calculator.py:207-213 | ∂²`_y_6`/∂Z² |
| Harmonics.Y6FirstR | comet_calculator.py:207-213 | ∂`_y_6`/∂R |
| Harmonics.Y6SecondR | comet_calculator.py:207-213 | ∂²`_y_6`/∂R² |
| Harmonics.Y6IsHarmonic | comet_calculator.py:207-213 | `_y_6` satisfies Laplace's equation |
| Harmonics.FlattenLength | comet_calculator.py:20-29 | flattening a rectangular grid gives rows·columns samples |
| Harmonics.FlattenRowMajor | comet_calculator.py:20-29 | sample (i, j) sits at position i·cols + j of the flattening |
| Harmonics.DesignMatrixAligned | comet_calculator.py:20-29 | row i·cols + j of the design matrix is the basis at sample (i, j) and its right-hand side is that sample's Phi |
| Harmonics.ScaledRow | comet_calculator.py:20-29 | the design row at (dR, dZ) is [1, y2, y4, y6] at (R, Z) |
| Harmonics.CometTime | comet_calculator.py:81-82 | the formation time times the frequency spread is 2π |
| Harmonics.CometTimeSign | comet_calculator.py:81-82 | the time is positive iff max > min, and swapping the two negates it |
| Harmonics.Y0 | comet_calculator.py:181-182 | the constant 1 |
| Harmonics.Y2 | comet_calculator.py:185-189 | Z^2 - R^2/2 |
| Harmonics.Y3 | comet_calculator.py:192-196 | Z(2Z^2 - 3R^2) |
| Harmonics.Y4 | comet_calculator.py:199-204 | 8Z^4 - 24Z^2R^2 + 3R^4 |
| Harmonics.Y6 | comet_calculator.py:207-213 | 16Z^6 - 120Z^4R^2 + 90Z^2R^4 - 5R^6 |
| Harmonics.DY2 | comet_calculator.py:216-217 | the constant 1 |
| Harmonics.DY4 | comet_calculator.py:220-221 | 48Z^2 - 12R^2 |
| Harmonics.DY6 | comet_calculator.py:224-225 | 240Z^4 - 360Z^2R^2 + 30R^4 |
| Harmonics.Y2Poly | comet_calculator.py:185-189 | `_y_2` as a list of terms c R^i Z^j |
| Harmonics.Y4Poly | comet_calculator.py:199-204 | `_y_4` as a list of terms |
| Harmonics.Y6Poly | comet_calculator.py:207-213 | `_y_6` as a list of terms |
| Harmonics.Flatten | comet_calculator.py:20-21 | numpy's `flatten`: the rows one after another |
| Harmonics.DesignRow | comet_calculator.py:23-28 | one row of the design matrix: y0, y2, y4 and y6 at (R/d, Z/d) |
| Harmonics.YCoefSystem | comet_calculator.py:18-29 | the matrix A of `get_Y_coefs`, one row per flattened sample, and the flattened potential B |

## Left out

- SIMION and file I/O are not modelled. This covers PA construction, saving and loading, the refine and fast-adjust subprocess calls, and `get_electrodes_slice`. The array is the abstract `Grid` and `PotentialArray`.
- A write outside the array is modelled as refused and ignored. The SIMION library's own behaviour there is not part of this model.
- Plotting, figures, images, `combine.py` and progress bars are not modelled.
- `cart2spher`, `spher2cart`, `_delta_move` and `rotate_on_angles` are not modelled, because they use trigonometry and square roots. The displacement of each electrode is the parameter `deltaMove`, and θ and r are inputs of the trap rules.
- The azimuthal averaging (`get_averaged_phi`) is not modelled. `find_delta_omega` and `_reduced_cyclotron_freq` are not modelled either. All three are float numerics over trigonometry.
- The cylindrical `rs`/`thetas` cache of `_create_geometry` is not modelled; the voxel coordinates are the grid axes. The source fills the cache as `[j, i]` but reads it as `[i, j]`.
- `numpy.linalg.lstsq` is a foreign solver and is not modelled; `Harmonics.YCoefSystem` builds only the system it is given.
- `traps/infinity_cell.py` is not part of this model, because it uses Fourier series over sin and cos. `traps/hyperbolic_compensated.py` is not part of it either, because it uses sqrt, arctan2 and cos geometry.
- `dkdvc` and `a_k` of the open compensated trap are not modelled, because they need Bessel functions and factorials.
- The symmetry pass of `get_all_electrodes` is not modelled. It reads the channel at signed indices, which depends on SIMION's handling of negative indices.
- The `__init__` chains and abstract-method dispatch of the trap classes are not modelled. Each predicate is a function of explicit sizes.
- `gen_voltage_enum` is not part of this model. Its enums are datatypes whose members are distinct.
- The nontrap channel rule of the pseudo-potential trap is not modelled. It is the Penning default sector rule, which `Penning.DefaultChannels` covers.
- `__main__.py`, `traps/__init__.py`, `plot_3d_trap_params.py` and `traps/dump_trap.py` are not modelled.
- Channels are integers. The source reads `potential_real` as a float and truncates it with `int()`.
- The two substitutions of "Notes on the source" above (the `_is_endcap_electrode_simple` and `trap_border` names, and the plain-integer channels of `CylindricalTrap.NontrapType`) are deliberate; the TypeError and AttributeError the code as written raises are not modelled.
- WangTrap.IsOther: requires wire_num ≠ 0. With wire_num = 0, `trap_border.x / self.wire_num` (traps/wang_trap.py:31) raises ZeroDivisionError on every call; that error path is not modelled. The same requires is on WangTrap.WangOther, WangTrap.WangExclusive and WangTrap.WangChannels.
- WangTrap.WangOther: requires wire_num ≠ 0, as WangTrap.IsOther; the source raises ZeroDivisionError there.
- WangTrap.WangExclusive: requires wire_num ≠ 0, as WangTrap.IsOther; the source raises ZeroDivisionError there.
- WangTrap.WangChannels: requires wire_num ≠ 0, as WangTrap.IsOther; the source raises ZeroDivisionError there.
- PseudoPotTrap.WireStep: requires wire_num ≠ 0. With wire_num = 0, `w_step = self.trap_border.x / self.wire_num` (traps/pseudo_pot_trap.py:18) raises ZeroDivisionError on every endcap test; that error path is not modelled.
- PseudoPotTrap.OnWire: requires wire_num ≠ 0, as PseudoPotTrap.WireStep; the source raises ZeroDivisionError there.
- PseudoPotTrap.EndcapSimple: requires wire_num ≠ 0, as PseudoPotTrap.WireStep; the source raises ZeroDivisionError there (before the z test, since `w_step` is computed first).
- PseudoPotTrap.WireGrid: requires wire_num ≠ 0, as PseudoPotTrap.WireStep; the source raises ZeroDivisionError there.
- PseudoPotTrap.PseudoPotOverlap: requires wire_num ≠ 0, as PseudoPotTrap.WireStep; the source raises ZeroDivisionError there.
- ClosedCompensatedTrap.Z0: requires z2r_ratio ≠ 0. With z2r_ratio = 0, `R/z2r_ratio` (traps/closed_compesated.py:28) raises ZeroDivisionError in `__init__`, so no trap exists; that error path is not modelled.
- ClosedCompensatedTrap.Dzc: requires z2r_ratio ≠ 0, as ClosedCompensatedTrap.Z0; the source raises ZeroDivisionError in `__init__` there.
- DhcTrap.Alpha0: requires N ≠ 0. With N = 0, `beta*np.pi/N` (traps/dhc_trap.py:50) divides a Python float (`numpy.pi` is one) by 0 and raises ZeroDivisionError in `__init__`, so no trap exists; that error path is not modelled.
- DhcTrap.PhiAreas: requires N ≠ 0 (as DhcTrap.Alpha0) and z0 ≠ 0 (as DhcTrap.ElectrodeTypeFrom).
- DhcTrap.ElectrodeType: requires N ≠ 0 (as DhcTrap.Alpha0) and z0 ≠ 0 (as DhcTrap.ElectrodeTypeFrom).
- DhcTrap.EndPlaneAreas: requires N > 0 and z0 ≠ 0. N = 0 and z0 = 0 are excluded as for DhcTrap.Alpha0 and DhcTrap.ElectrodeTypeFrom. With N < 0, `range(N)` is empty, so there are no segments and every angle gets 1; the property holds only for a positive segment count.
- DhcTrap.EndPlaneCovered: requires N > 0 and z0 ≠ 0. N = 0 and z0 = 0 are excluded as for DhcTrap.Alpha0 and DhcTrap.ElectrodeTypeFrom. With N < 0, `range(N)` is empty, so there are no segments and every angle gets 1; the property holds only for a positive segment count.
- DhcTrap.ChannelsHavePotentials: requires N ≠ 0 and z0 ≠ 0, as DhcTrap.Alpha0 and DhcTrap.ElectrodeTypeFrom.
- Harmonics.CometTime: requires max_omega ≠ min_omega. There `2*np.pi/(max_omega - min_omega)` (comet_calculator.py:81-82) gives inf with a RuntimeWarning for numpy floats and raises ZeroDivisionError for Python floats; neither is modelled.
- Harmonics.CometTimeSign: requires max_omega ≠ min_omega, as Harmonics.CometTime.
- DhcTrap.ElectrodeTypeFrom: requires z0 ≠ 0 (and N ≠ 0, see DhcTrap.Alpha0), because `_get_phi_arias` divides by z0. The requires excludes no reachable call: reading `cell_border` as the trap border (see "Notes on the source"), with z0 = 0 the trap border's z is 0, `_create_geometry` gives the z axis ceil(0) = 0 cells, and the sweep never calls `_get_electrode_type`. Called directly, numpy's float division would give inf or nan with a warning rather than raise.
- Harmonics.DesignMatrixAligned: requires d ≠ 0, since the source divides the samples by d.
- Harmonics.LaplaceOffAxis: the Laplacian with its 1/R term is stated only off the axis. On the axis only the R-multiplied form is stated, through `LaplaceTimesR`.
- Surface.IsPointOnSurface: requires all 27 mirrored neighbours to be inside the array. The source does no bounds check, so a voxel on the far faces would make it read outside the array.
- Surface.LeaveSurfaceOnly: requires that no stored electrode voxel lies on the far faces, for the same reason.
- WangTrap.WangOther: the None that `is_other_electrode` returns outside the slab is modelled as false, since it is used as a falsy value.
- KanawatiTrap.KanawatiOther: the None that `is_other_electrode` returns above the tube is modelled as false, for the same reason.
- Floating-point rounding is not modelled, and all arithmetic is exact on reals.
- Points.Pi: this is `numpy.pi` as numpy prints it, 3.141592653589793; the double behind it is 3.141592653589793115997…, and the model does not carry that difference.

## Findings

| source | as written | input that shows it | evidently intended | confidence | as-written member | corrected member |
|---|---|---|---|---|---|---|
| utils_for_trap.py:115-120 | `_unbend_phi2D` mirrors with `[-2::-1]`, which starts one row before the end and runs down to row 0. It repeats the axis row and drops the outermost row from the mirrored half. | a 3×1 Zs column 0, 1, 2 unbends to −1, 0, 0, 1, 2 | mirror with `[:0:-1]`, giving −2, −1, 0, 1, 2: symmetric, with z strictly increasing | not executed | Unbend.AsWrittenCounterexample, Unbend.AsWrittenNotIncreasing | Unbend.UnbendMirroredIncreasing |
| traps/abstract_trap.py:79-91 | the axis is `linspace(0, model_border.c, model_lenghts.c)`, and the border is `model_lenghts.c · gridstepmm`. L points spanning L steps are spaced L/(L−1) steps apart, so the axis coordinate of a voxel is not its index times the step. | trap border (1, 1, 1) with pts = 2: step 0.75, but axis [0, 1.5] | `linspace(0, (L−1)·step, L)`, spaced exactly one step | not executed | AbstractTrap.AsWrittenAxisExample, AbstractTrap.AsWrittenAxisStretched | AbstractTrap.VoxelAxisIsLinspace |
