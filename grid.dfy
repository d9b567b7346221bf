/**
 * The SIMION potential array as the rest of the model sees it.
 *
 * Reading: a `Grid` stores one eighth of space (indices 0 <= i < lx,
 * 0 <= j < ly, 0 <= k < lz) and answers, for each stored voxel, whether it
 * is an electrode point and which channel (integer potential) it carries.
 * Signed indices are read through `abs`, which is the xyz mirroring.
 *
 * Writing: a `PotentialArray` is a freshly created array (all points free)
 * whose `point(i, j, k, 1, v)` call marks voxel (i, j, k) as an electrode
 * of channel v, or raises when the index lies outside the array.
 */
module PaGrid {
  import opened Points

  datatype Grid = Grid(lx: nat, ly: nat, lz: nat, electrode: Point -> bool, channel: Point -> int)

  /** A stored (non-mirrored) index of the grid. */
  predicate InRange(g: Grid, p: Point)
  {
    0 <= p.0 < g.lx && 0 <= p.1 < g.ly && 0 <= p.2 < g.lz
  }

  /** Stored index p comes before (k, i, j) in the sweep order: k outermost, then i, then j. */
  predicate SweptBefore(p: Point, k: int, i: int, j: int)
  {
    p.2 < k || (p.2 == k && (p.0 < i || (p.0 == i && p.1 < j)))
  }

  /** The channel read at the mirrored index, as `int(pa.potential_real(abs(i), abs(j), abs(k)))`. */
  function Channel(g: Grid, p: Point): int
  {
    g.channel(Mirror(p))
  }

  /**
   * A voxel that the electrode search accepts for channel `t`: its mirrored
   * index is inside the model, is an electrode point and has channel `t`.
   */
  predicate Member(g: Grid, t: int, p: Point)
  {
    InRange(g, Mirror(p)) && g.electrode(Mirror(p)) && g.channel(Mirror(p)) == t
  }

  /** A chain of adjacent voxels, all of them members for channel `t`. */
  predicate IsPath(g: Grid, t: int, path: seq<Point>)
  {
    (forall n :: 0 <= n < |path| ==> Member(g, t, path[n])) &&
    (forall n :: 0 < n < |path| ==> Adjacent(path[n - 1], path[n]))
  }

  predicate PathFromTo(g: Grid, t: int, path: seq<Point>, s: Point, q: Point)
  {
    IsPath(g, t, path) && |path| > 0 && path[0] == s && path[|path| - 1] == q
  }

  ghost predicate Reachable(g: Grid, t: int, s: Point, q: Point)
  {
    exists path :: PathFromTo(g, t, path, s, q)
  }

  /** Every index whose mirror is within one step of the stored grid; the search never leaves it. */
  function Box(g: Grid): set<Point>
  {
    set i: int, j: int, k: int | -(g.lx as int) <= i <= g.lx && -(g.ly as int) <= j <= g.ly && -(g.lz as int) <= k <= g.lz :: (i, j, k)
  }

  /**
   * The electrode of `s`: every voxel reachable from `s` through adjacent
   * members of the channel read at `s`.
   */
  ghost function Component(g: Grid, s: Point): set<Point>
  {
    set q | q in Box(g) && Reachable(g, Channel(g, s), s, q)
  }

  lemma MemberInBox(g: Grid, t: int, p: Point)
    requires Member(g, t, p)
    ensures p in Box(g)
  {
  }

  lemma AdjacentInBox(g: Grid, t: int, p: Point, q: Point)
    requires Member(g, t, p) && Adjacent(p, q)
    ensures q in Box(g)
  {
  }

  function Reverse(path: seq<Point>): (r: seq<Point>)
    ensures |r| == |path|
    ensures forall n :: 0 <= n < |path| ==> r[n] == path[|path| - 1 - n]
  {
    if path == [] then [] else Reverse(path[1..]) + [path[0]]
  }

  /** A path read backwards is a path, because adjacency is symmetric. */
  lemma ReversePath(g: Grid, t: int, path: seq<Point>, s: Point, q: Point)
    requires PathFromTo(g, t, path, s, q)
    ensures PathFromTo(g, t, Reverse(path), q, s)
  {
    var r := Reverse(path);
    forall n | 0 < n < |r|
      ensures Adjacent(r[n - 1], r[n])
    {
      var m := |path| - 1 - n;
      assert r[n - 1] == path[m + 1] && r[n] == path[m];
      AdjacentSymmetric(path[m], path[m + 1]);
    }
  }

  lemma JoinPaths(g: Grid, t: int, p1: seq<Point>, p2: seq<Point>, s: Point, m: Point, q: Point)
    requires PathFromTo(g, t, p1, s, m) && PathFromTo(g, t, p2, m, q)
    ensures PathFromTo(g, t, p1 + p2[1..], s, q)
  {
    var r := p1 + p2[1..];
    forall n | 0 < n < |r|
      ensures Adjacent(r[n - 1], r[n])
    {
      if n >= |p1| {
        assert r[n] == p2[n - |p1| + 1];
        assert r[n - 1] == p2[n - |p1|];
      }
    }
  }

  lemma ReachableSymmetric(g: Grid, t: int, s: Point, q: Point)
    requires Reachable(g, t, s, q)
    ensures Reachable(g, t, q, s)
  {
    var path :| PathFromTo(g, t, path, s, q);
    ReversePath(g, t, path, s, q);
  }

  lemma ReachableTransitive(g: Grid, t: int, s: Point, m: Point, q: Point)
    requires Reachable(g, t, s, m) && Reachable(g, t, m, q)
    ensures Reachable(g, t, s, q)
  {
    var p1 :| PathFromTo(g, t, p1, s, m);
    var p2 :| PathFromTo(g, t, p2, m, q);
    JoinPaths(g, t, p1, p2, s, m, q);
  }

  /** Only members are reachable, and only from members of the same channel. */
  lemma ReachableEnds(g: Grid, t: int, s: Point, q: Point)
    requires Reachable(g, t, s, q)
    ensures Member(g, t, s) && Member(g, t, q) && q in Box(g)
  {
    var path :| PathFromTo(g, t, path, s, q);
    assert Member(g, t, path[|path| - 1]);
  }

  /** A stored electrode voxel belongs to its own electrode. */
  lemma SeedInComponent(g: Grid, s: Point)
    requires InRange(g, Mirror(s)) && g.electrode(Mirror(s))
    ensures s in Component(g, s)
  {
    assert PathFromTo(g, Channel(g, s), [s], s, s);
  }

  /** Every member of an electrode has the electrode's channel and generates the same electrode. */
  lemma ComponentOfMember(g: Grid, s: Point, q: Point)
    requires q in Component(g, s)
    ensures Member(g, Channel(g, s), q) && Channel(g, q) == Channel(g, s)
    ensures Component(g, q) == Component(g, s)
  {
    var t := Channel(g, s);
    ReachableEnds(g, t, s, q);
    ReachableSymmetric(g, t, s, q);
    forall x | x in Component(g, q)
      ensures x in Component(g, s)
    {
      ReachableTransitive(g, t, s, q, x);
    }
    forall x | x in Component(g, s)
      ensures x in Component(g, q)
    {
      ReachableTransitive(g, t, q, s, x);
    }
  }

  /**
   * A set that holds a member and is closed under adjacent members of the
   * same channel holds every voxel reachable from that member.
   */
  lemma {:induction false} ClosedSetHoldsPath(g: Grid, t: int, path: seq<Point>, s: Point, q: Point, closed: set<Point>)
    requires PathFromTo(g, t, path, s, q)
    requires s in closed
    requires forall p, x :: p in closed && Adjacent(p, x) && Member(g, t, x) ==> x in closed
    ensures q in closed
    decreases |path|
  {
    if |path| > 1 {
      var prefix := path[..|path| - 1];
      assert PathFromTo(g, t, prefix, s, path[|path| - 2]);
      ClosedSetHoldsPath(g, t, prefix, s, path[|path| - 2], closed);
      assert Adjacent(path[|path| - 2], q);
    }
  }

  // ---------------------------------------------------------------------
  // The writable array created by `create_dump_pa`
  // ---------------------------------------------------------------------

  /** An index the array accepts for writing: inside its dimensions, no mirroring. */
  predicate InArray(nx: nat, ny: nat, nz: nat, p: Point)
  {
    0 <= p.0 < nx && 0 <= p.1 < ny && 0 <= p.2 < nz
  }

  class PotentialArray {
    const nx: nat
    const ny: nat
    const nz: nat
    /** The electrode voxels written so far, each with its channel. */
    var cells: map<Point, int>

    /** A new array of the model's dimensions in which no voxel is an electrode. */
    constructor(nx: nat, ny: nat, nz: nat)
      ensures this.nx == nx && this.ny == ny && this.nz == nz
      ensures cells == map[]
    {
      this.nx, this.ny, this.nz := nx, ny, nz;
      cells := map[];
    }

    predicate Accepts(p: Point)
    {
      InArray(nx, ny, nz, p)
    }

    /** `point(i, j, k, 1, v)`: an accepted index becomes an electrode voxel of channel v; any other is refused. */
    method WritePoint(p: Point, v: int) returns (accepted: bool)
      modifies this
      ensures accepted == Accepts(p)
      ensures cells == if accepted then old(cells)[p := v] else old(cells)
    {
      accepted := Accepts(p);
      if accepted {
        cells := cells[p := v];
      }
    }
  }
}
