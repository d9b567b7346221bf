/**
 * Surface extraction (plot_trap_3d.py): an electrode voxel is on the
 * surface when one of its 27 neighbours, itself included and read through
 * the xyz mirroring, is not an electrode point; `leave_surface_only`
 * copies exactly those voxels, with their channels, into a fresh array.
 */
module Surface {
  import opened Points
  import opened PaGrid

  /** Every neighbour of `p`, mirrored, can be read from the array (the source does no bounds check). */
  ghost predicate NeighboursReadable(g: Grid, p: Point)
  {
    forall q :: Adjacent(p, q) ==> InRange(g, Mirror(q))
  }

  /** The early-return loop: some cell of `qs`, mirrored, is not an electrode point. */
  function AnyFree(g: Grid, qs: seq<Point>): (r: bool)
    requires forall n :: 0 <= n < |qs| ==> InRange(g, Mirror(qs[n]))
    ensures r <==> exists n :: 0 <= n < |qs| && !g.electrode(Mirror(qs[n]))
  {
    if qs == [] then false
    else if !g.electrode(Mirror(qs[0])) then true
    else
      var rest := AnyFree(g, qs[1..]);
      assert forall n :: 1 <= n < |qs| ==> qs[n] == qs[1..][n - 1];
      rest
  }

  /**
   * `_is_point_on_surface`: true exactly when some voxel adjacent to `p`
   * (or `p` itself) is, mirrored, not an electrode point.
   */
  function IsPointOnSurface(g: Grid, p: Point): (r: bool)
    requires NeighboursReadable(g, p)
    ensures r <==> exists q :: Adjacent(p, q) && !g.electrode(Mirror(q))
  {
    var nbrs := Neighbourhood(p);
    forall n | 0 <= n < |nbrs|
      ensures Adjacent(p, nbrs[n])
    {
      NeighbourhoodIsAdjacency(p, nbrs[n]);
    }
    var r := AnyFree(g, nbrs);
    SurfaceWitness(g, p, r);
    r
  }

  lemma SurfaceWitness(g: Grid, p: Point, r: bool)
    requires NeighboursReadable(g, p)
    requires forall n :: 0 <= n < |Neighbourhood(p)| ==> InRange(g, Mirror(Neighbourhood(p)[n]))
    requires r == AnyFree(g, Neighbourhood(p))
    ensures r <==> exists q :: Adjacent(p, q) && !g.electrode(Mirror(q))
  {
    var nbrs := Neighbourhood(p);
    if exists q :: Adjacent(p, q) && !g.electrode(Mirror(q)) {
      var q :| Adjacent(p, q) && !g.electrode(Mirror(q));
      NeighbourhoodIsAdjacency(p, q);
      var n :| 0 <= n < |nbrs| && nbrs[n] == q;
    }
    if r {
      var n :| 0 <= n < |nbrs| && !g.electrode(Mirror(nbrs[n]));
      NeighbourhoodIsAdjacency(p, nbrs[n]);
    }
  }

  /** The neighbourhood includes the point itself, so a stored point that is no electrode counts as surface. */
  lemma FreePointIsSurface(g: Grid, p: Point)
    requires NeighboursReadable(g, p) && !g.electrode(Mirror(p))
    ensures IsPointOnSurface(g, p)
  {
    assert Adjacent(p, p);
  }

  /** An electrode voxel whose whole neighbourhood is electrode is interior, not surface. */
  lemma EnclosedPointIsInterior(g: Grid, p: Point)
    requires NeighboursReadable(g, p)
    requires forall q :: Adjacent(p, q) ==> g.electrode(Mirror(q))
    ensures !IsPointOnSurface(g, p)
  {
  }

  /** Every stored electrode voxel can be tested: none lies on the far faces of the array. */
  ghost predicate SurfaceReadable(g: Grid)
  {
    forall p :: InRange(g, p) && g.electrode(p) ==> NeighboursReadable(g, p)
  }

  /** A stored electrode voxel on the surface. */
  predicate OnStoredSurface(g: Grid, p: Point)
    requires SurfaceReadable(g)
  {
    InRange(g, p) && g.electrode(p) && IsPointOnSurface(g, p)
  }

  /** The cells written so far are the surface voxels swept before (k, i, j), each with its channel. */
  ghost predicate SurfaceBefore(g: Grid, cells: map<Point, int>, k: int, i: int, j: int)
    requires SurfaceReadable(g)
  {
    (forall p :: p in cells <==> OnStoredSurface(g, p) && SweptBefore(p, k, i, j)) &&
    (forall p :: p in cells ==> cells[p] == g.channel(p))
  }

  lemma NextRow(g: Grid, cells: map<Point, int>, k: int, i: int)
    requires SurfaceReadable(g) && SurfaceBefore(g, cells, k, i, g.ly)
    ensures SurfaceBefore(g, cells, k, i + 1, 0)
  {
  }

  lemma NextPlane(g: Grid, cells: map<Point, int>, k: int)
    requires SurfaceReadable(g) && SurfaceBefore(g, cells, k, g.lx, 0)
    ensures SurfaceBefore(g, cells, k + 1, 0, 0)
  {
  }

  /** The sweep invariant for an arbitrary set of voxels to keep, given by `keep`. */
  ghost predicate KeptBefore(keep: Point -> bool, chan: Point -> int, cells: map<Point, int>, k: int, i: int, j: int)
  {
    (forall p :: p in cells <==> keep(p) && SweptBefore(p, k, i, j)) &&
    (forall p :: p in cells ==> cells[p] == chan(p))
  }

  lemma KeptStepWrite(keep: Point -> bool, chan: Point -> int, cells: map<Point, int>, k: int, i: int, j: int)
    requires keep((i, j, k)) && KeptBefore(keep, chan, cells, k, i, j)
    ensures KeptBefore(keep, chan, cells[(i, j, k) := chan((i, j, k))], k, i, j + 1)
  {
    var s := (i, j, k);
    var cells' := cells[s := chan(s)];
    forall p
      ensures p in cells' <==> keep(p) && SweptBefore(p, k, i, j + 1)
    {
      if p != s {
        assert p in cells' <==> p in cells;
        assert SweptBefore(p, k, i, j + 1) <==> SweptBefore(p, k, i, j);
      }
    }
  }

  lemma KeptStepSkip(keep: Point -> bool, chan: Point -> int, cells: map<Point, int>, k: int, i: int, j: int)
    requires !keep((i, j, k)) && KeptBefore(keep, chan, cells, k, i, j)
    ensures KeptBefore(keep, chan, cells, k, i, j + 1)
  {
    forall p
      ensures p in cells <==> keep(p) && SweptBefore(p, k, i, j + 1)
    {
      if p != (i, j, k) {
        assert SweptBefore(p, k, i, j + 1) <==> SweptBefore(p, k, i, j);
      }
    }
  }

  lemma SurfaceStepWrite(g: Grid, cells: map<Point, int>, k: int, i: int, j: int)
    requires SurfaceReadable(g) && InRange(g, (i, j, k)) && OnStoredSurface(g, (i, j, k))
    requires SurfaceBefore(g, cells, k, i, j)
    ensures SurfaceBefore(g, cells[(i, j, k) := g.channel((i, j, k))], k, i, j + 1)
  {
    var keep := p => OnStoredSurface(g, p);
    assert KeptBefore(keep, g.channel, cells, k, i, j);
    KeptStepWrite(keep, g.channel, cells, k, i, j);
  }

  lemma SurfaceStepSkip(g: Grid, cells: map<Point, int>, k: int, i: int, j: int)
    requires SurfaceReadable(g) && InRange(g, (i, j, k)) && !OnStoredSurface(g, (i, j, k))
    requires SurfaceBefore(g, cells, k, i, j)
    ensures SurfaceBefore(g, cells, k, i, j + 1)
  {
    var keep := p => OnStoredSurface(g, p);
    assert KeptBefore(keep, g.channel, cells, k, i, j);
    KeptStepSkip(keep, g.channel, cells, k, i, j);
  }

  /** One step of the sweep: write voxel (i, j, k) when it is an electrode voxel on the surface. */
  method SurfaceVoxel(g: Grid, pa: PotentialArray, i: int, j: int, k: int)
    requires SurfaceReadable(g) && InRange(g, (i, j, k))
    requires pa.nx == g.lx && pa.ny == g.ly && pa.nz == g.lz
    requires SurfaceBefore(g, pa.cells, k, i, j)
    modifies pa
    ensures SurfaceBefore(g, pa.cells, k, i, j + 1)
  {
    var s := (i, j, k);
    if g.electrode(s) && IsPointOnSurface(g, s) {
      SurfaceStepWrite(g, pa.cells, k, i, j);
      var _ := pa.WritePoint(s, g.channel(s));
    } else {
      SurfaceStepSkip(g, pa.cells, k, i, j);
    }
  }

  /**
   * `leave_surface_only`: sweep the stored grid and write every electrode
   * voxel on the surface, with its channel, into a fresh array of the
   * model's size; nothing else is written.
   */
  method LeaveSurfaceOnly(g: Grid) returns (pa: PotentialArray)
    requires SurfaceReadable(g)
    ensures fresh(pa) && pa.nx == g.lx && pa.ny == g.ly && pa.nz == g.lz
    ensures forall p :: p in pa.cells <==> OnStoredSurface(g, p)
    ensures forall p :: p in pa.cells ==> pa.cells[p] == g.channel(p)
  {
    pa := new PotentialArray(g.lx, g.ly, g.lz);
    var k := 0;
    while k < g.lz
      invariant 0 <= k <= g.lz
      invariant SurfaceBefore(g, pa.cells, k, 0, 0)
    {
      var i := 0;
      while i < g.lx
        invariant 0 <= i <= g.lx
        invariant SurfaceBefore(g, pa.cells, k, i, 0)
      {
        var j := 0;
        while j < g.ly
          invariant 0 <= j <= g.ly
          invariant SurfaceBefore(g, pa.cells, k, i, j)
        {
          SurfaceVoxel(g, pa, i, j, k);
          j := j + 1;
        }
        NextRow(g, pa.cells, k, i);
        i := i + 1;
      }
      NextPlane(g, pa.cells, k);
      k := k + 1;
    }
  }
}
