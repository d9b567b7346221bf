/**
 * `_dfs`: the breadth-first search that collects one electrode of the
 * potential array from a seed voxel (the same procedure appears in
 * utils_for_trap.py and in plot_trap_3d.py).
 *
 * The search keeps a FIFO queue, a "gray" set of every voxel ever queued
 * and a set of visited voxels.  A dequeued voxel is skipped when its
 * mirrored index is outside the model, is not an electrode point, was
 * visited already or carries another channel than the seed; otherwise it is
 * added to the electrode, marked visited, and its 27 neighbours that are
 * neither visited nor gray are queued.
 */
module FloodFill {
  import opened Points
  import opened PaGrid

  /** Removing one element of a finite set lowers its size by one. */
  lemma RemoveOne(a: set<Point>, x: Point)
    requires x in a
    ensures |a - {x}| == |a| - 1
  {
    var b := a - {x};
    assert a == b + {x};
  }

  /** Every visited voxel is reachable from the seed, following the ghost parent links down to the seed. */
  lemma {:induction false} VisitedReachable(g: Grid, t: int, seed: Point, visited: set<Point>, gray: set<Point>,
                                            parent: map<Point, Point>, rank: map<Point, nat>, p: Point)
    requires visited <= gray <= rank.Keys
    requires forall v :: v in visited ==> Member(g, t, v)
    requires forall q :: q in gray && q != seed ==>
      q in parent && parent[q] in visited && Adjacent(parent[q], q) && rank[parent[q]] < rank[q]
    requires p in visited
    ensures Reachable(g, t, seed, p)
    decreases rank[p]
  {
    if p == seed {
      assert PathFromTo(g, t, [p], seed, p);
    } else {
      var pp := parent[p];
      VisitedReachable(g, t, seed, visited, gray, parent, rank, pp);
      var path :| PathFromTo(g, t, path, seed, pp);
      assert PathFromTo(g, t, path + [p], seed, p);
    }
  }

  /**
   * The inner loop over the 27 neighbours: every neighbour that is neither
   * visited nor gray joins the gray set and the back of the queue, once.
   */
  method QueueUnseen(nbrs: seq<Point>, visited: set<Point>, gray0: set<Point>)
    returns (gray: set<Point>, queued: seq<Point>)
    ensures gray == gray0 + (set x | x in nbrs && x !in visited)
    ensures |queued| == |gray - gray0|
    ensures forall x :: x in queued <==> x in gray - gray0
  {
    gray, queued := gray0, [];
    var n := 0;
    while n < |nbrs|
      invariant 0 <= n <= |nbrs|
      invariant gray == gray0 + (set x | x in nbrs[..n] && x !in visited)
      invariant |queued| == |gray - gray0|
      invariant forall x :: x in queued <==> x in gray - gray0
    {
      var x := nbrs[n];
      if x !in visited && x !in gray {
        assert gray + {x} - gray0 == (gray - gray0) + {x};
        gray := gray + {x};
        queued := queued + [x];
      }
      assert nbrs[..n + 1] == nbrs[..n] + [x];
      n := n + 1;
    }
    assert nbrs[..n] == nbrs;
  }

  /**
   * What the search maintains besides its frontier: the electrode set is
   * the visited set, every visited voxel is a member, every neighbour of a
   * visited voxel has been queued at some point, the gray set stays inside
   * the finite box, and every gray voxel other than the seed has a visited
   * parent of lower rank (the ghost trace from which reachability follows).
   */
  ghost predicate SearchState(g: Grid, t: int, seed: Point, visited: set<Point>, gray: set<Point>, queue: seq<Point>,
                              parent: map<Point, Point>, rank: map<Point, nat>)
  {
    visited <= gray <= Box(g) && seed in gray && gray <= rank.Keys &&
    (forall q :: q in queue ==> q in gray) &&
    (forall p :: p in visited ==> Member(g, t, p)) &&
    (forall p, q :: p in visited && Adjacent(p, q) ==> q in gray) &&
    (forall q :: q in gray && q != seed ==>
      q in parent && parent[q] in visited && Adjacent(parent[q], q) && rank[parent[q]] < rank[q])
  }

  /** Every gray voxel except `p` is still queued, visited, or not a member. */
  ghost predicate Frontier(g: Grid, t: int, visited: set<Point>, gray: set<Point>, queue: seq<Point>, p: Point)
  {
    forall q :: q in gray && q != p ==> q in queue || q in visited || !Member(g, t, q)
  }

  /** The voxels a visit adds to the gray set are neighbours of the visited voxel, and none of its neighbours stays outside. */
  lemma VisitQueuesNeighbours(g: Grid, t: int, p: Point, visited: set<Point>, gray0: set<Point>, gray: set<Point>)
    requires Member(g, t, p) && p in visited && p in gray0 && visited <= gray0 + {p}
    requires gray == gray0 + (set x | x in Neighbourhood(p) && x !in visited)
    ensures forall x :: x in gray - gray0 ==> x in Box(g) && Adjacent(p, x)
    ensures forall q :: Adjacent(p, q) ==> q in gray
  {
    forall x | x in gray - gray0
      ensures x in Box(g) && Adjacent(p, x)
    {
      NeighbourhoodIsAdjacency(p, x);
      AdjacentInBox(g, t, p, x);
    }
    forall q | Adjacent(p, q)
      ensures q in gray
    {
      NeighbourhoodIsAdjacency(p, q);
    }
  }

  lemma GrayGrowth(box: set<Point>, gray0: set<Point>, gray: set<Point>)
    requires gray0 <= gray && gray - gray0 <= box
    ensures |box - gray| == |box - gray0| - |gray - gray0|
  {
    assert box - gray0 == (box - gray) + (gray - gray0);
  }

  /** Newly gray voxels get the visited voxel as parent, one rank above it; older links are untouched. */
  ghost function Relink(parent0: map<Point, Point>, added: set<Point>, p: Point): map<Point, Point>
  {
    map x | x in parent0.Keys + added :: if x in added then p else parent0[x]
  }

  ghost function Rerank(rank0: map<Point, nat>, added: set<Point>, p: Point): map<Point, nat>
    requires p in rank0
  {
    map x | x in rank0.Keys + added :: if x in added then rank0[p] + 1 else rank0[x]
  }

  lemma RelinkKeepsTrace(seed: Point, p: Point, visited0: set<Point>, gray0: set<Point>, gray: set<Point>,
                         parent0: map<Point, Point>, rank0: map<Point, nat>)
    requires visited0 <= gray0 <= rank0.Keys && p in gray0 && gray0 <= gray
    requires forall x :: x in gray - gray0 ==> Adjacent(p, x)
    requires forall q :: q in gray0 && q != seed ==>
      q in parent0 && parent0[q] in visited0 && Adjacent(parent0[q], q) && rank0[parent0[q]] < rank0[q]
    ensures gray <= Rerank(rank0, gray - gray0, p).Keys
    ensures forall q :: q in gray && q != seed ==>
      var parent, rank := Relink(parent0, gray - gray0, p), Rerank(rank0, gray - gray0, p);
      q in parent && parent[q] in visited0 + {p} && Adjacent(parent[q], q) && rank[parent[q]] < rank[q]
  {
  }

  /**
   * Visiting a dequeued member `p`: mark it visited and queue its unseen
   * neighbours.  The search state is kept, the frontier is whole again, and
   * the termination measure drops.
   */
  method VisitVoxel(g: Grid, t: int, seed: Point, p: Point, visited0: set<Point>, gray0: set<Point>, queue0: seq<Point>,
                    ghost parent0: map<Point, Point>, ghost rank0: map<Point, nat>)
    returns (visited: set<Point>, gray: set<Point>, queue: seq<Point>, ghost parent: map<Point, Point>, ghost rank: map<Point, nat>)
    requires SearchState(g, t, seed, visited0, gray0, queue0, parent0, rank0)
    requires Frontier(g, t, visited0, gray0, queue0, p)
    requires Member(g, t, p) && p in gray0 && p !in visited0
    ensures visited == visited0 + {p}
    ensures SearchState(g, t, seed, visited, gray, queue, parent, rank)
    ensures Frontier(g, t, visited, gray, queue, p) && p in visited
    ensures 2 * |Box(g) - gray| + |queue| <= 2 * |Box(g) - gray0| + |queue0|
  {
    visited := visited0 + {p};
    var nbrs := Neighbourhood(p);
    var queued;
    gray, queued := QueueUnseen(nbrs, visited, gray0);
    queue := queue0 + queued;
    VisitQueuesNeighbours(g, t, p, visited, gray0, gray);
    GrayGrowth(Box(g), gray0, gray);
    RelinkKeepsTrace(seed, p, visited0, gray0, gray, parent0, rank0);
    parent := Relink(parent0, gray - gray0, p);
    rank := Rerank(rank0, gray - gray0, p);
    forall q | q in queue
      ensures q in gray
    {
      if q !in queued {
        assert q in queue0;
      }
    }
  }

  /** Taking the head off the queue keeps the search state; only the head may now lack its frontier witness. */
  lemma PopKeepsState(g: Grid, t: int, seed: Point, visited: set<Point>, gray: set<Point>, queue: seq<Point>,
                      parent: map<Point, Point>, rank: map<Point, nat>)
    requires |queue| > 0
    requires SearchState(g, t, seed, visited, gray, queue, parent, rank)
    requires forall q :: q in gray ==> q in queue || q in visited || !Member(g, t, q)
    ensures SearchState(g, t, seed, visited, gray, queue[1..], parent, rank)
    ensures Frontier(g, t, visited, gray, queue[1..], queue[0])
  {
    assert queue == [queue[0]] + queue[1..];
  }

  /** When the queue is empty, the visited set is exactly the seed's electrode. */
  lemma SearchComplete(g: Grid, seed: Point, visited: set<Point>, gray: set<Point>,
                       parent: map<Point, Point>, rank: map<Point, nat>)
    requires SearchState(g, Channel(g, seed), seed, visited, gray, [], parent, rank)
    requires forall q :: q in gray ==> q in visited || !Member(g, Channel(g, seed), q)
    ensures visited == Component(g, seed)
  {
    var t := Channel(g, seed);
    forall p | p in visited
      ensures p in Component(g, seed)
    {
      VisitedReachable(g, t, seed, visited, gray, parent, rank, p);
    }
    forall q | q in Component(g, seed)
      ensures q in visited
    {
      var path :| PathFromTo(g, t, path, seed, q);
      ReachableEnds(g, t, seed, q);
      ClosedSetHoldsPath(g, t, path, seed, q, visited);
    }
  }

  /**
   * The search returns its electrode set and its visited set; both are the
   * whole electrode of the seed: every voxel reachable from the seed through
   * adjacent (26-connected) voxels whose mirrored index is an in-range
   * electrode point of the seed's channel.  The result is empty when the
   * seed itself is not an electrode point.
   */
  method Dfs(g: Grid, seed: Point) returns (electrode: set<Point>, visited: set<Point>)
    requires InRange(g, Mirror(seed))
    ensures electrode == visited
    ensures electrode == Component(g, seed)
    ensures forall p :: p in electrode ==> Member(g, Channel(g, seed), p)
  {
    var t := g.channel(Mirror(seed));
    visited := {};
    var gray := {seed};
    var queue := [seed];
    electrode := {};
    ghost var parent: map<Point, Point> := map[];
    ghost var rank: map<Point, nat> := map[seed := 0];
    while |queue| > 0
      invariant electrode == visited
      invariant SearchState(g, t, seed, visited, gray, queue, parent, rank)
      invariant forall q :: q in gray ==> q in queue || q in visited || !Member(g, t, q)
      decreases 2 * |Box(g) - gray| + |queue|
    {
      PopKeepsState(g, t, seed, visited, gray, queue, parent, rank);
      var p := queue[0];
      queue := queue[1..];
      var m := Mirror(p);
      if m.0 >= g.lx || m.1 >= g.ly || m.2 >= g.lz {
        continue;
      }
      if !g.electrode(m) {
        continue;
      }
      if p in visited {
        continue;
      }
      if g.channel(m) == t {
        electrode := electrode + {p};
      } else {
        continue;
      }
      visited, gray, queue, parent, rank := VisitVoxel(g, t, seed, p, visited, gray, queue, parent, rank);
    }
    SearchComplete(g, seed, visited, gray, parent, rank);
  }
}
