/**
 * The trap base class of traps/abstract_trap.py: the model geometry (grid
 * step, cell counts, border, coordinate axes), the characteristic size,
 * the sweep over every voxel, writing one voxel, the precedence of the
 * fast-adjust rules and the channel=potential command string.
 */
module AbstractTrap {
  import opened Wrappers
  import opened Points
  import opened PaGrid

  // ---------------------------------------------------------------------
  // Geometry
  // ---------------------------------------------------------------------

  /** By default the model is this much larger than the trap on every axis. */
  const Bigger: real := 1.5

  /** Component `c` (0, 1 or 2) of a coordinate triple. */
  function Coord(v: Vec, c: int): real
    requires 0 <= c < 3
  {
    if c == 0 then v.0 else if c == 1 then v.1 else v.2
  }

  function Count(n: Point, c: int): int
    requires 0 <= c < 3
  {
    if c == 0 then n.0 else if c == 1 then n.1 else n.2
  }

  datatype Geometry = Geometry(pts: int, gridstep: real, lengths: Point, border: Vec)

  /**
   * The border the caller asks for: the given one, or the trap border
   * scaled by `Bigger`.  A given border is a dataclass instance and so is
   * never falsy.
   */
  function RequestedBorder(trapBorder: Vec, modelBorder: Option<Vec>): Vec
  {
    match modelBorder
    case Some(b) => b
    case None => (Bigger * trapBorder.0, Bigger * trapBorder.1, Bigger * trapBorder.2)
  }

  /**
   * `_create_geometry` without the cylindrical cache: the grid step is the
   * x border over `pts`, each axis gets the ceiling of border over step
   * cells and the border is moved out to a whole number of steps.  A zero
   * `pts` or a zero x border divides by zero, here None.  The arithmetic
   * is exact.
   */
  function CreateGeometry(trapBorder: Vec, pts: int, modelBorder: Option<Vec>): (r: Option<Geometry>)
    ensures r.None? <==> pts == 0 || RequestedBorder(trapBorder, modelBorder).0 == 0.0
    ensures r.Some? ==> r.value.pts == pts
  {
    var req := RequestedBorder(trapBorder, modelBorder);
    if pts == 0 || req.0 == 0.0 then None
    else
      var step := req.0 / pts as real;
      Some(Geometry(pts, step, (Cells(req.0, step), Cells(req.1, step), Cells(req.2, step)),
                    (AxisBorder(req.0, step), AxisBorder(req.1, step), AxisBorder(req.2, step))))
  }

  /** `ceil(border / gridstepmm)`. */
  function Cells(border: real, step: real): int
    requires step != 0.0
  {
    Ceil(border / step)
  }

  /** The border moved out to a whole number of steps. */
  function AxisBorder(border: real, step: real): real
    requires step != 0.0
  {
    Cells(border, step) as real * step
  }

  /** A whole number of positive steps covers `x` with less than one step to spare. */
  lemma CeilCover(x: real, step: real)
    requires step > 0.0
    ensures x <= AxisBorder(x, step) < x + step
  {
    ScaleBetween(x / step, Cells(x, step) as real, step, x);
  }

  /** If n - 1 < q <= n and x = q step, then n step is at least x and below x + step. */
  lemma ScaleBetween(q: real, n: real, step: real, x: real)
    requires n - 1.0 < q <= n && step > 0.0 && q * step == x
    ensures x <= n * step < x + step
  {
    AtMostNextStep(q, n, step, x);
    MulNonNegative(n - q, step);
    assert (n - q) * step == n * step - q * step;
  }

  lemma AtMostNextStep(q: real, n: real, step: real, x: real)
    requires n - 1.0 < q && step > 0.0 && q * step == x
    ensures n * step < x + step
  {
    MulLess(n - 1.0, q, step);
    assert (n - 1.0) * step < x;
    assert (n - 1.0) * step == n * step - step;
  }

  lemma MulLess(a: real, b: real, c: real)
    requires a < b && c > 0.0
    ensures a * c < b * c
  {
  }

  lemma MulNonNegative(a: real, b: real)
    requires a >= 0.0 && b >= 0.0
    ensures a * b >= 0.0
  {
  }

  /**
   * The x axis gets exactly `pts` cells and keeps its border; with a
   * positive step every border is at least the requested one and less
   * than one step beyond it.
   */
  lemma GeometryCovers(trapBorder: Vec, pts: int, modelBorder: Option<Vec>)
    requires CreateGeometry(trapBorder, pts, modelBorder).Some?
    ensures var g := CreateGeometry(trapBorder, pts, modelBorder).value;
      g.lengths.0 == pts && g.border.0 == RequestedBorder(trapBorder, modelBorder).0
    ensures var g := CreateGeometry(trapBorder, pts, modelBorder).value;
      var req := RequestedBorder(trapBorder, modelBorder);
      g.gridstep > 0.0 ==>
        forall c :: 0 <= c < 3 ==> Coord(req, c) <= Coord(g.border, c) < Coord(req, c) + g.gridstep
  {
    var req := RequestedBorder(trapBorder, modelBorder);
    var g := CreateGeometry(trapBorder, pts, modelBorder).value;
    var step := req.0 / pts as real;
    assert g.gridstep == step;
    assert g.lengths == (Cells(req.0, step), Cells(req.1, step), Cells(req.2, step));
    assert g.border == (AxisBorder(req.0, step), AxisBorder(req.1, step), AxisBorder(req.2, step));
    StepDividesBorder(req.0, pts);
    CeilOfInteger(pts);
    if step > 0.0 {
      CeilCover(req.0, step);
      CeilCover(req.1, step);
      CeilCover(req.2, step);
    }
  }

  lemma StepDividesBorder(b: real, pts: int)
    requires pts != 0 && b != 0.0
    ensures b / (b / pts as real) == pts as real
  {
    var step := b / pts as real;
    assert step * pts as real == b;
  }

  /** Without a model border, a positive trap gets a model 1.5 times its size with step 1.5 x / pts. */
  lemma DefaultGeometry(trapBorder: Vec, pts: int)
    requires pts > 0 && trapBorder.0 > 0.0
    ensures CreateGeometry(trapBorder, pts, None).Some?
    ensures var g := CreateGeometry(trapBorder, pts, None).value;
      g.border.0 == Bigger * trapBorder.0 && g.gridstep == Bigger * trapBorder.0 / pts as real
    ensures var g := CreateGeometry(trapBorder, pts, None).value;
      forall c :: 0 <= c < 3 ==>
        Bigger * Coord(trapBorder, c) <= Coord(g.border, c) < Bigger * Coord(trapBorder, c) + g.gridstep
  {
    GeometryCovers(trapBorder, pts, None);
  }

  // ---------------------------------------------------------------------
  // Coordinate axes
  // ---------------------------------------------------------------------

  /** `numpy.linspace(0, stop, num)`; a negative count is an error. */
  function Linspace(stop: real, num: int): (r: Option<seq<real>>)
    ensures r.Some? <==> num >= 0
    ensures r.Some? ==> |r.value| == num
  {
    if num < 0 then None
    else if num == 1 then Some([0.0])
    else Some(seq(num, n => stop * (n as real) / ((num - 1) as real)))
  }

  /** From 0 to `stop` inclusive, with equal gaps of `stop / (num - 1)`. */
  lemma LinspaceEvenlySpaced(stop: real, num: int)
    requires num >= 2
    ensures var r := Linspace(stop, num).value;
      r[0] == 0.0 && r[num - 1] == stop &&
      forall n, n' :: 0 <= n <= n' < num ==> r[n'] - r[n] == (n' - n) as real * (stop / (num - 1) as real)
  {
    var r := Linspace(stop, num).value;
    var gap := stop / (num - 1) as real;
    forall n | 0 <= n < num
      ensures r[n] == n as real * gap
    {
    }
  }

  /** The axis `_create_geometry` builds for component `c`. */
  function GridAxis(g: Geometry, c: int): Option<seq<real>>
    requires 0 <= c < 3
  {
    Linspace(Coord(g.border, c), Count(g.lengths, c))
  }

  /**
   * As written, the axis has `L` points from 0 to `L * gridstep`, so its
   * gap is `gridstep * L / (L - 1)` and its last value lies one step
   * beyond voxel `L - 1`, which sits at `(L - 1) * gridstep`.
   */
  lemma AsWrittenAxisStretched(step: real, L: int)
    requires L >= 2 && step != 0.0
    ensures var r := Linspace(L as real * step, L).value;
      r[L - 1] == L as real * step && r[L - 1] != (L - 1) as real * step &&
      r[1] == step * L as real / (L - 1) as real && r[1] != step
  {
    LinspaceEvenlySpaced(L as real * step, L);
    var r := Linspace(L as real * step, L).value;
    assert r[1] * (L - 1) as real == step * L as real;
  }

  /** Trap border 1 with 2 cells: the model border is 1.5, the step 0.75, yet the axis is [0, 1.5]. */
  lemma AsWrittenAxisExample()
    ensures var g := CreateGeometry((1.0, 1.0, 1.0), 2, None);
      g == Some(Geometry(2, 0.75, (2, 2, 2), (1.5, 1.5, 1.5))) &&
      GridAxis(g.value, 0) == Some([0.0, 1.5])
  {
    var g := CreateGeometry((1.0, 1.0, 1.0), 2, None).value;
    assert g.gridstep == 0.75;
    CeilOfInteger(2);
    assert 1.5 / 0.75 == 2.0;
    var r := GridAxis(g, 0).value;
    assert r[0] == 0.0 && r[1] == 1.5;
    assert r == [0.0, 1.5];
  }

  /** Corrected axis: voxel `n` of the potential array lies at `n * gridstep`. */
  function VoxelAxis(step: real, L: nat): (r: seq<real>)
    ensures |r| == L
  {
    seq(L, n => n as real * step)
  }

  /**
   * The corrected axis is `numpy.linspace(0, border - gridstep, L)`: its
   * gap is exactly one grid step.
   */
  lemma VoxelAxisIsLinspace(step: real, L: int)
    requires L >= 1
    ensures Linspace((L - 1) as real * step, L) == Some(VoxelAxis(step, L))
    ensures forall n, n' :: 0 <= n <= n' < L ==> VoxelAxis(step, L)[n'] - VoxelAxis(step, L)[n] == (n' - n) as real * step
  {
    var r := Linspace((L - 1) as real * step, L).value;
    if L >= 2 {
      LinspaceEvenlySpaced((L - 1) as real * step, L);
      forall n | 0 <= n < L
        ensures r[n] == VoxelAxis(step, L)[n]
      {
        assert r[n] - r[0] == n as real * ((L - 1) as real * step / (L - 1) as real);
      }
    }
    assert r == VoxelAxis(step, L);
  }

  // ---------------------------------------------------------------------
  // Characteristic size
  // ---------------------------------------------------------------------

  /** A Python argument `r0 if r0 else default`: None and 0 both fall back. */
  function OrDefault(given: Option<real>, default: real): real
  {
    if given.Some? && given.value != 0.0 then given.value else default
  }

  /** `get_d`, squared: d^2 = (z0^2 + r0^2 / 2) / 2, with r0 and z0 defaulting to the trap's x and z borders. */
  function GetD2(trapBorder: Vec, r0: Option<real>, z0: Option<real>): (d2: real)
    ensures d2 >= 0.0
  {
    var r := OrDefault(r0, trapBorder.0);
    var z := OrDefault(z0, trapBorder.2);
    0.5 * (z * z + 0.5 * r * r)
  }

  /**
   * Zero and None fall back to the trap border alike; explicit sizes make
   * the trap border irrelevant; scaling both sizes scales d^2 by the
   * square; and a trap with r0^2 = 2 z0^2 has d = z0.
   */
  lemma GetD2Properties(trapBorder: Vec, other: Vec, r0: real, z0: real, t: real)
    ensures GetD2(trapBorder, Some(0.0), Some(0.0)) == GetD2(trapBorder, None, None)
    ensures r0 != 0.0 && z0 != 0.0 ==> GetD2(trapBorder, Some(r0), Some(z0)) == GetD2(other, Some(r0), Some(z0))
    ensures r0 != 0.0 && z0 != 0.0 && t != 0.0 ==>
      GetD2(trapBorder, Some(t * r0), Some(t * z0)) == t * t * GetD2(trapBorder, Some(r0), Some(z0))
    ensures r0 != 0.0 && z0 != 0.0 && r0 * r0 == 2.0 * z0 * z0 ==> GetD2(trapBorder, Some(r0), Some(z0)) == z0 * z0
  {
    if r0 != 0.0 && z0 != 0.0 && t != 0.0 {
      assert t * r0 != 0.0 && t * z0 != 0.0;
      calc {
        GetD2(trapBorder, Some(t * r0), Some(t * z0));
        0.5 * ((t * z0) * (t * z0) + 0.5 * (t * r0) * (t * r0));
        t * t * (0.5 * (z0 * z0 + 0.5 * r0 * r0));
      }
    }
  }

  // ---------------------------------------------------------------------
  // The voxel sweep
  // ---------------------------------------------------------------------

  /** Row `i` of plane `k`: j runs fastest. */
  function Row(k: int, i: int, ny: nat): seq<Point>
  {
    seq(ny, j => (i, j, k))
  }

  /** The first `nx` rows of plane `k`. */
  function Plane(k: int, nx: nat, ny: nat): seq<Point>
  {
    if nx == 0 then [] else Plane(k, nx - 1, ny) + Row(k, nx - 1, ny)
  }

  /** The first `nz` planes: the visit order of `_go_throw_volume`, k outermost, then i, then j. */
  function Volume(nx: nat, ny: nat, nz: nat): seq<Point>
  {
    if nz == 0 then [] else Volume(nx, ny, nz - 1) + Plane(nz - 1, nx, ny)
  }

  /** Visit order: by k, then by i, then by j. */
  predicate VisitedBefore(p: Point, q: Point)
  {
    p.2 < q.2 || (p.2 == q.2 && (p.0 < q.0 || (p.0 == q.0 && p.1 < q.1)))
  }

  predicate InOrder(s: seq<Point>)
  {
    forall a, b :: 0 <= a < b < |s| ==> VisitedBefore(s[a], s[b])
  }

  lemma InOrderAppend(s: seq<Point>, t: seq<Point>)
    requires InOrder(s) && InOrder(t)
    requires forall p, q :: p in s && q in t ==> VisitedBefore(p, q)
    ensures InOrder(s + t)
  {
    forall a, b | 0 <= a < b < |s + t|
      ensures VisitedBefore((s + t)[a], (s + t)[b])
    {
      if b < |s| {
        assert (s + t)[a] == s[a] && (s + t)[b] == s[b];
      } else if a >= |s| {
        assert (s + t)[a] == t[a - |s|] && (s + t)[b] == t[b - |s|];
      } else {
        assert (s + t)[a] in s && (s + t)[b] in t;
      }
    }
  }

  lemma {:induction false} PlaneCells(k: int, nx: nat, ny: nat)
    ensures forall p :: p in Plane(k, nx, ny) <==> 0 <= p.0 < nx && 0 <= p.1 < ny && p.2 == k
    ensures InOrder(Plane(k, nx, ny))
  {
    if nx > 0 {
      PlaneCells(k, nx - 1, ny);
      var row := Row(k, nx - 1, ny);
      assert forall p :: p in row <==> 0 <= p.1 < ny && p.0 == nx - 1 && p.2 == k by {
        forall p: Point | 0 <= p.1 < ny && p.0 == nx - 1 && p.2 == k
          ensures p in row
        {
          assert row[p.1] == p;
        }
      }
      InOrderAppend(Plane(k, nx - 1, ny), row);
    }
  }

  lemma {:induction false} PlaneLength(k: int, nx: nat, ny: nat)
    ensures |Plane(k, nx, ny)| == nx * ny
  {
    if nx > 0 {
      PlaneLength(k, nx - 1, ny);
      PredecessorProduct(nx, ny);
    }
  }

  /**
   * `_go_throw_volume` visits every index triple in range, nothing else,
   * each exactly once: the order is strict by k, then i, then j.
   */
  lemma VolumeExact(nx: nat, ny: nat, nz: nat)
    ensures |Volume(nx, ny, nz)| == nz * (nx * ny)
    ensures forall p :: p in Volume(nx, ny, nz) <==> 0 <= p.0 < nx && 0 <= p.1 < ny && 0 <= p.2 < nz
    ensures InOrder(Volume(nx, ny, nz))
  {
    VolumeLength(nx, ny, nz);
    VolumeOrdered(nx, ny, nz);
  }

  lemma PredecessorProduct(n: int, m: int)
    ensures (n - 1) * m + m == n * m
  {
  }

  lemma {:induction false} VolumeLength(nx: nat, ny: nat, nz: nat)
    ensures |Volume(nx, ny, nz)| == nz * (nx * ny)
  {
    if nz > 0 {
      VolumeLength(nx, ny, nz - 1);
      PlaneLength(nz - 1, nx, ny);
      PredecessorProduct(nz, nx * ny);
    }
  }

  lemma {:induction false} VolumeOrdered(nx: nat, ny: nat, nz: nat)
    ensures forall p :: p in Volume(nx, ny, nz) <==> 0 <= p.0 < nx && 0 <= p.1 < ny && 0 <= p.2 < nz
    ensures InOrder(Volume(nx, ny, nz))
  {
    if nz > 0 {
      VolumeOrdered(nx, ny, nz - 1);
      PlaneCells(nz - 1, nx, ny);
      InOrderAppend(Volume(nx, ny, nz - 1), Plane(nz - 1, nx, ny));
    }
  }

  /** The coordinates of voxel `p` on the given axes (Cartesian sweep); outside the axes the value is never used. */
  function CoordsAt(xs: seq<real>, ys: seq<real>, zs: seq<real>, p: Point): Vec
  {
    if 0 <= p.0 < |xs| && 0 <= p.1 < |ys| && 0 <= p.2 < |zs| then (xs[p.0], ys[p.1], zs[p.2]) else (0.0, 0.0, 0.0)
  }

  /** The truthy results of `func` over the voxels `ps`, in order. */
  function Results<R>(xs: seq<real>, ys: seq<real>, zs: seq<real>, func: (Point, Vec) -> R, truthy: R -> bool, ps: seq<Point>): seq<R>
  {
    if |ps| == 0 then []
    else
      var p := ps[|ps| - 1];
      var r := func(p, CoordsAt(xs, ys, zs, p));
      Results(xs, ys, zs, func, truthy, ps[..|ps| - 1]) + (if truthy(r) then [r] else [])
  }

  lemma ResultsSnoc<R>(xs: seq<real>, ys: seq<real>, zs: seq<real>, func: (Point, Vec) -> R, truthy: R -> bool, ps: seq<Point>, p: Point)
    ensures var r := func(p, CoordsAt(xs, ys, zs, p));
      Results(xs, ys, zs, func, truthy, ps + [p]) == Results(xs, ys, zs, func, truthy, ps) + (if truthy(r) then [r] else [])
  {
    assert (ps + [p])[..|ps|] == ps;
  }

  /**
   * Only truthy results are kept, at most one per voxel; when every call
   * is truthy, result `n` is the call on voxel `n`.
   */
  lemma {:induction false} ResultsKeepTruthy<R>(xs: seq<real>, ys: seq<real>, zs: seq<real>, func: (Point, Vec) -> R, truthy: R -> bool, ps: seq<Point>)
    ensures var res := Results(xs, ys, zs, func, truthy, ps);
      |res| <= |ps| && forall r :: r in res ==> truthy(r)
    ensures (forall p :: p in ps ==> truthy(func(p, CoordsAt(xs, ys, zs, p)))) ==>
      var res := Results(xs, ys, zs, func, truthy, ps);
      |res| == |ps| && forall n :: 0 <= n < |ps| ==> res[n] == func(ps[n], CoordsAt(xs, ys, zs, ps[n]))
  {
    if |ps| > 0 {
      var init := ps[..|ps| - 1];
      ResultsKeepTruthy(xs, ys, zs, func, truthy, init);
      assert forall p :: p in init ==> p in ps;
    }
  }

  /**
   * `_go_throw_volume` with Cartesian coordinates: call `func` on every
   * voxel with its coordinates, k outermost and j innermost, keeping the
   * truthy results.
   */
  method GoThrowVolume<R>(xs: seq<real>, ys: seq<real>, zs: seq<real>, func: (Point, Vec) -> R, truthy: R -> bool)
    returns (res: seq<R>)
    ensures res == Results(xs, ys, zs, func, truthy, Volume(|xs|, |ys|, |zs|))
  {
    res := [];
    var k := 0;
    while k < |zs|
      invariant 0 <= k <= |zs|
      invariant res == Results(xs, ys, zs, func, truthy, Volume(|xs|, |ys|, k))
    {
      res := SweepPlane(xs, ys, zs, func, truthy, k, res, Volume(|xs|, |ys|, k));
      assert Volume(|xs|, |ys|, k) + Plane(k, |xs|, |ys|) == Volume(|xs|, |ys|, k + 1);
      k := k + 1;
    }
  }

  /** The middle loop of `_go_throw_volume`: plane `k`, i ascending. */
  method SweepPlane<R>(xs: seq<real>, ys: seq<real>, zs: seq<real>, func: (Point, Vec) -> R, truthy: R -> bool,
                       k: nat, res0: seq<R>, ghost visited0: seq<Point>)
    returns (res: seq<R>)
    requires k < |zs|
    requires res0 == Results(xs, ys, zs, func, truthy, visited0)
    ensures res == Results(xs, ys, zs, func, truthy, visited0 + Plane(k, |xs|, |ys|))
  {
    res := res0;
    var i := 0;
    assert visited0 + Plane(k, 0, |ys|) == visited0;
    while i < |xs|
      invariant 0 <= i <= |xs|
      invariant res == Results(xs, ys, zs, func, truthy, visited0 + Plane(k, i, |ys|))
    {
      res := SweepRow(xs, ys, zs, func, truthy, k, i, res, visited0 + Plane(k, i, |ys|));
      assert visited0 + Plane(k, i, |ys|) + Row(k, i, |ys|) == visited0 + Plane(k, i + 1, |ys|) by {
        assert Plane(k, i + 1, |ys|) == Plane(k, i, |ys|) + Row(k, i, |ys|);
      }
      i := i + 1;
    }
  }

  /** The innermost loop of `_go_throw_volume`: row `i` of plane `k`, j ascending. */
  method SweepRow<R>(xs: seq<real>, ys: seq<real>, zs: seq<real>, func: (Point, Vec) -> R, truthy: R -> bool,
                     k: nat, i: nat, res0: seq<R>, ghost visited0: seq<Point>)
    returns (res: seq<R>)
    requires k < |zs| && i < |xs|
    requires res0 == Results(xs, ys, zs, func, truthy, visited0)
    ensures res == Results(xs, ys, zs, func, truthy, visited0 + Row(k, i, |ys|))
  {
    res := res0;
    ghost var visited := visited0;
    ghost var row := Row(k, i, |ys|);
    var j := 0;
    while j < |ys|
      invariant 0 <= j <= |ys|
      invariant visited == visited0 + row[..j]
      invariant res == Results(xs, ys, zs, func, truthy, visited)
    {
      var r := func((i, j, k), (xs[i], ys[j], zs[k]));
      ResultsSnoc(xs, ys, zs, func, truthy, visited, (i, j, k));
      if truthy(r) {
        res := res + [r];
      }
      assert row[..j + 1] == row[..j] + [(i, j, k)];
      visited := visited + [(i, j, k)];
      j := j + 1;
    }
    assert row[..|ys|] == row;
    assert visited == visited0 + Row(k, i, |ys|);
  }

  // ---------------------------------------------------------------------
  // Writing one voxel
  // ---------------------------------------------------------------------

  /** `put_point`: an electrode point is written with its type; other points leave the array alone. */
  method PutPoint(pa: PotentialArray, idx: Point, c: Vec, isElectrode: Vec -> bool, electrodeType: Vec -> int)
    requires isElectrode(c) ==> pa.Accepts(idx)
    modifies pa
    ensures pa.cells == if isElectrode(c) then old(pa.cells)[idx := electrodeType(c)] else old(pa.cells)
  {
    if isElectrode(c) {
      var accepted := pa.WritePoint(idx, electrodeType(c));
    }
  }

  // ---------------------------------------------------------------------
  // Fast-adjust potentials
  // ---------------------------------------------------------------------

  /** The base class's `new_adjust_rule`: the channel's own `to_adjust`. */
  function DefaultAdjustRule<V>(toAdjust: V -> real): V -> Option<real>
  {
    v => Some(toAdjust(v))
  }

  /** `get_voltage_for_adj`: the caller's rule, else the trap's rule, else the channel default. */
  function GetVoltageForAdj<V>(t: V, outer: Option<V -> Option<real>>, inner: V -> Option<real>, toAdjust: V -> real): real
  {
    var outerPot := if outer.Some? then outer.value(t) else None;
    var innerPot := inner(t);
    if outerPot.Some? then outerPot.value
    else if innerPot.Some? then innerPot.value
    else toAdjust(t)
  }

  /**
   * A caller's rule that answers wins whatever the trap's rule says; a
   * caller's rule that answers None is as if none were given; the result
   * is always one of the three candidates; and with the base class's rule
   * and no caller's rule the channel gets its `to_adjust`.
   */
  lemma VoltageForAdjPrecedence<V>(t: V, outer: Option<V -> Option<real>>, inner: V -> Option<real>, inner': V -> Option<real>, toAdjust: V -> real)
    ensures outer.Some? && outer.value(t).Some? ==>
      GetVoltageForAdj(t, outer, inner, toAdjust) == outer.value(t).value == GetVoltageForAdj(t, outer, inner', toAdjust)
    ensures outer.Some? && outer.value(t).None? ==>
      GetVoltageForAdj(t, outer, inner, toAdjust) == GetVoltageForAdj(t, None, inner, toAdjust)
    ensures var r := GetVoltageForAdj(t, outer, inner, toAdjust);
      (outer.Some? && outer.value(t) == Some(r)) || inner(t) == Some(r) || r == toAdjust(t)
    ensures GetVoltageForAdj(t, None, DefaultAdjustRule(toAdjust), toAdjust) == toAdjust(t)
  {
  }

  // ---------------------------------------------------------------------
  // The fast-adjust command string
  // ---------------------------------------------------------------------

  function DigitChar(d: nat): char
    requires d < 10
  {
    (48 + d) as char
  }

  function DigitValue(c: char): nat
  {
    if '0' <= c <= '9' then c as int - 48 else 0
  }

  /** Python's `str` of a non-negative int: decimal digits, no leading zeros. */
  function NatToString(n: nat): (s: string)
    ensures |s| >= 1 && forall c :: c in s ==> '0' <= c <= '9'
  {
    if n < 10 then [DigitChar(n)] else NatToString(n / 10) + [DigitChar(n % 10)]
  }

  /** Reading decimal digits back. */
  function ParseNat(s: string): nat
  {
    if |s| == 0 then 0 else ParseNat(s[..|s| - 1]) * 10 + DigitValue(s[|s| - 1])
  }

  lemma {:induction false} ParseNatToString(n: nat)
    ensures ParseNat(NatToString(n)) == n
  {
    if n >= 10 {
      var s := NatToString(n / 10);
      ParseNatToString(n / 10);
      assert (s + [DigitChar(n % 10)])[..|s|] == s;
    }
  }

  /** `sep.join(parts)`. */
  function Join(parts: seq<string>, sep: char): string
  {
    if |parts| == 0 then "" else if |parts| == 1 then parts[0] else parts[0] + [sep] + Join(parts[1..], sep)
  }

  /** `s.split(sep)`: always at least one part. */
  function Split(s: string, sep: char): (r: seq<string>)
    ensures |r| >= 1
  {
    if |s| == 0 then [""]
    else
      var rest := Split(s[1..], sep);
      if s[0] == sep then [""] + rest else [[s[0]] + rest[0]] + rest[1..]
  }

  lemma {:induction false} SplitPrefix(p: string, t: string, sep: char)
    requires sep !in p
    ensures Split(p + t, sep) == [p + Split(t, sep)[0]] + Split(t, sep)[1..]
  {
    if |p| == 0 {
      assert p + t == t;
      var parts := Split(t, sep);
      assert p + parts[0] == parts[0];
      assert parts == [parts[0]] + parts[1..];
    } else {
      assert (p + t)[1..] == p[1..] + t;
      SplitPrefix(p[1..], t, sep);
      assert (p + t)[0] == p[0];
      assert [p[0]] + (p[1..] + Split(t, sep)[0]) == p + Split(t, sep)[0];
    }
  }

  /** Splitting a join gives the parts back, when no part holds the separator. */
  lemma {:induction false} SplitJoin(parts: seq<string>, sep: char)
    requires |parts| >= 1 && forall n :: 0 <= n < |parts| ==> sep !in parts[n]
    ensures Split(Join(parts, sep), sep) == parts
  {
    if |parts| == 1 {
      SplitPrefix(parts[0], "", sep);
      assert parts[0] + "" == parts[0];
    } else {
      var rest := Join(parts[1..], sep);
      SplitJoin(parts[1..], sep);
      SplitPrefix(parts[0], [sep] + rest, sep);
      assert parts[0] + [sep] + rest == parts[0] + ([sep] + rest);
      assert ([sep] + rest)[1..] == rest;
      assert Split([sep] + rest, sep) == [""] + parts[1..];
      assert parts[0] + "" == parts[0];
      assert parts == [parts[0]] + parts[1..];
    }
  }

  /** One `value=potential` entry; `show` is how Python prints the potential. */
  function Entry<V>(v: V, value: V -> nat, potential: V -> real, show: real -> string): string
  {
    NatToString(value(v)) + "=" + show(potential(v))
  }

  /** One entry per channel, in declaration order. */
  function Entries<V>(members: seq<V>, value: V -> nat, potential: V -> real, show: real -> string): (r: seq<string>)
    ensures |r| == |members|
  {
    seq(|members|, n requires 0 <= n < |members| => Entry(members[n], value, potential, show))
  }

  /**
   * The string `adjust_trap` builds (the SIMION call that consumes it is
   * not modelled): the entries joined by commas, which split back into one
   * entry per channel in declaration order when no printed potential
   * holds a comma.
   */
  method AdjustTrap<V>(members: seq<V>, value: V -> nat, potential: V -> real, show: real -> string)
    returns (cmd: string)
    ensures cmd == Join(Entries(members, value, potential, show), ',')
    ensures |members| > 0 && (forall x :: ',' !in show(x)) ==> Split(cmd, ',') == Entries(members, value, potential, show)
    ensures |members| == 0 ==> cmd == ""
  {
    var voltages: seq<string> := [];
    var n := 0;
    while n < |members|
      invariant 0 <= n <= |members|
      invariant voltages == Entries(members[..n], value, potential, show)
    {
      assert members[..n + 1] == members[..n] + [members[n]];
      voltages := voltages + [Entry(members[n], value, potential, show)];
      n := n + 1;
    }
    assert members[..|members|] == members;
    cmd := Join(voltages, ',');
    if |members| > 0 && forall x :: ',' !in show(x) {
      forall m | 0 <= m < |voltages|
        ensures ',' !in voltages[m]
      {
        var e := voltages[m];
        assert e == NatToString(value(members[m])) + ("=" + show(potential(members[m])));
      }
      SplitJoin(voltages, ',');
    }
  }

  /** Each entry reads back as its channel's value before the `=`. */
  lemma EntryValue<V>(v: V, value: V -> nat, potential: V -> real, show: real -> string)
    ensures var parts := Split(Entry(v, value, potential, show), '=');
      ParseNat(parts[0]) == value(v)
  {
    var digits := NatToString(value(v));
    var tail := "=" + show(potential(v));
    assert Entry(v, value, potential, show) == digits + tail;
    SplitPrefix(digits, tail, '=');
    assert tail[1..] == show(potential(v));
    assert Split(tail, '=')[0] == "";
    assert digits + "" == digits;
    ParseNatToString(value(v));
  }
}
