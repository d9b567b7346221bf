/**
 * `get_all_electrodes`: sweep the stored grid (k outermost, then i, then
 * j) and start an electrode search at every electrode voxel that no earlier
 * search has visited.  The copy in utils_for_trap.py keeps only electrodes
 * of more than 20 voxels (smaller ones are treated as noise, though their
 * voxels still count as visited); the copy in plot_trap_3d.py keeps every
 * electrode.  `filterSmall` selects between the two.
 */
module Segmentation {
  import opened Points
  import opened PaGrid
  import opened FloodFill

  /** Electrodes of at most this many voxels are dropped by the filtering sweep. */
  const NoiseThreshold: nat := 20

  predicate Kept(filterSmall: bool, e: set<Point>)
  {
    !filterSmall || |e| > NoiseThreshold
  }

  /** Each kept electrode is the whole, visited electrode of a stored seed, recorded with the seed's channel. */
  ghost predicate Aligned(g: Grid, filterSmall: bool, visited: set<Point>,
                          electrodes: seq<set<Point>>, types: seq<int>, seeds: seq<Point>)
  {
    |electrodes| == |types| == |seeds| &&
    forall n :: 0 <= n < |seeds| ==>
      InRange(g, seeds[n]) && g.electrode(seeds[n]) && types[n] == g.channel(seeds[n]) &&
      electrodes[n] == Component(g, seeds[n]) && Kept(filterSmall, electrodes[n]) && electrodes[n] <= visited
  }

  predicate PairwiseDisjoint(electrodes: seq<set<Point>>)
  {
    forall m, n :: 0 <= m < n < |electrodes| ==> electrodes[m] !! electrodes[n]
  }

  /** The visited set is a union of whole electrodes. */
  ghost predicate Closed(g: Grid, visited: set<Point>)
  {
    forall p, q :: p in visited && q in Component(g, p) ==> q in visited
  }

  /** Every visited voxel lies in the kept electrode its ghost owner names, or has owner -1 and a dropped electrode. */
  ghost predicate Owned(g: Grid, filterSmall: bool, visited: set<Point>, electrodes: seq<set<Point>>, owner: map<Point, int>)
  {
    forall p :: p in visited ==>
      (p in owner &&
       ((0 <= owner[p] < |electrodes| && p in electrodes[owner[p]]) ||
        (owner[p] == -1 && filterSmall && |Component(g, p)| <= NoiseThreshold)))
  }

  /** What the sweep keeps between two searches. */
  ghost predicate Segmented(g: Grid, filterSmall: bool, visited: set<Point>,
                            electrodes: seq<set<Point>>, types: seq<int>, seeds: seq<Point>, owner: map<Point, int>)
  {
    Aligned(g, filterSmall, visited, electrodes, types, seeds) && PairwiseDisjoint(electrodes) &&
    Closed(g, visited) && Owned(g, filterSmall, visited, electrodes, owner)
  }

  /** The ghost owner of every voxel of a new electrode: its index when kept, -1 when dropped. */
  ghost function Claim(owner: map<Point, int>, e: set<Point>, n: int): map<Point, int>
  {
    map x | x in owner.Keys + e :: if x in e then n else owner[x]
  }

  /** A search started at an unvisited stored electrode voxel finds only voxels that no earlier search found. */
  lemma NewElectrodeUnvisited(g: Grid, visited: set<Point>, s: Point)
    requires Closed(g, visited)
    requires InRange(g, s) && g.electrode(s) && s !in visited
    ensures s in Component(g, s)
    ensures forall x :: x in Component(g, s) ==> x !in visited && Component(g, x) == Component(g, s)
  {
    SeedInComponent(g, s);
    forall x | x in Component(g, s)
      ensures x !in visited && Component(g, x) == Component(g, s)
    {
      ComponentOfMember(g, s, x);
    }
  }

  lemma ClosedAdd(g: Grid, visited: set<Point>, s: Point)
    requires Closed(g, visited)
    requires InRange(g, s) && g.electrode(s) && s !in visited
    ensures Closed(g, visited + Component(g, s))
    ensures Component(g, s) !! visited
  {
    NewElectrodeUnvisited(g, visited, s);
  }

  lemma AlignedKept(g: Grid, filterSmall: bool, visited: set<Point>,
                    electrodes: seq<set<Point>>, types: seq<int>, seeds: seq<Point>, s: Point)
    requires Aligned(g, filterSmall, visited, electrodes, types, seeds)
    requires InRange(g, s) && g.electrode(s) && Kept(filterSmall, Component(g, s))
    ensures Aligned(g, filterSmall, visited + Component(g, s), electrodes + [Component(g, s)],
                    types + [g.channel(s)], seeds + [s])
  {
    var e := Component(g, s);
    var electrodes', seeds' := electrodes + [e], seeds + [s];
    forall n | 0 <= n < |seeds'|
      ensures electrodes'[n] <= visited + e
    {
      if n < |seeds| {
        assert electrodes'[n] == electrodes[n];
      }
    }
  }

  lemma DisjointKept(electrodes: seq<set<Point>>, visited: set<Point>, e: set<Point>)
    requires PairwiseDisjoint(electrodes)
    requires forall n :: 0 <= n < |electrodes| ==> electrodes[n] <= visited
    requires e !! visited
    ensures PairwiseDisjoint(electrodes + [e])
  {
    var electrodes' := electrodes + [e];
    forall m, n | 0 <= m < n < |electrodes'|
      ensures electrodes'[m] !! electrodes'[n]
    {
      if n == |electrodes| {
        assert electrodes'[m] <= visited;
      } else {
        assert electrodes'[m] == electrodes[m] && electrodes'[n] == electrodes[n];
      }
    }
  }

  lemma OwnedAdd(g: Grid, filterSmall: bool, visited: set<Point>, electrodes: seq<set<Point>>, owner: map<Point, int>,
                 s: Point, kept: bool)
    requires Owned(g, filterSmall, visited, electrodes, owner)
    requires forall x :: x in Component(g, s) ==> Component(g, x) == Component(g, s)
    requires !kept ==> filterSmall && |Component(g, s)| <= NoiseThreshold
    ensures kept ==> Owned(g, filterSmall, visited + Component(g, s), electrodes + [Component(g, s)],
                           Claim(owner, Component(g, s), |electrodes|))
    ensures !kept ==> Owned(g, filterSmall, visited + Component(g, s), electrodes, Claim(owner, Component(g, s), -1))
  {
    var e := Component(g, s);
    var electrodes' := if kept then electrodes + [e] else electrodes;
    var owner' := Claim(owner, e, if kept then |electrodes| else -1);
    forall p | p in visited + e
      ensures p in owner' &&
        ((0 <= owner'[p] < |electrodes'| && p in electrodes'[owner'[p]]) ||
         (owner'[p] == -1 && filterSmall && |Component(g, p)| <= NoiseThreshold))
    {
      if p in e {
        if kept {
          assert electrodes'[|electrodes|] == e;
        }
      } else {
        assert p in visited && owner'[p] == owner[p];
        if 0 <= owner[p] < |electrodes| {
          assert electrodes'[owner[p]] == electrodes[owner[p]];
        }
      }
    }
  }

  /** Keeping the electrode of an unvisited stored electrode voxel keeps the sweep's invariant. */
  lemma KeepElectrode(g: Grid, filterSmall: bool, visited: set<Point>, electrodes: seq<set<Point>>, types: seq<int>,
                      seeds: seq<Point>, owner: map<Point, int>, s: Point)
    requires Segmented(g, filterSmall, visited, electrodes, types, seeds, owner)
    requires InRange(g, s) && g.electrode(s) && s !in visited && Kept(filterSmall, Component(g, s))
    ensures Segmented(g, filterSmall, visited + Component(g, s), electrodes + [Component(g, s)], types + [g.channel(s)],
                      seeds + [s], Claim(owner, Component(g, s), |electrodes|))
  {
    ClosedAdd(g, visited, s);
    NewElectrodeUnvisited(g, visited, s);
    OwnedAdd(g, filterSmall, visited, electrodes, owner, s, true);
    AlignedKept(g, filterSmall, visited, electrodes, types, seeds, s);
    DisjointKept(electrodes, visited, Component(g, s));
  }

  /** Dropping a small electrode as noise marks it visited and keeps the sweep's invariant. */
  lemma DropElectrode(g: Grid, filterSmall: bool, visited: set<Point>, electrodes: seq<set<Point>>, types: seq<int>,
                      seeds: seq<Point>, owner: map<Point, int>, s: Point)
    requires Segmented(g, filterSmall, visited, electrodes, types, seeds, owner)
    requires InRange(g, s) && g.electrode(s) && s !in visited && !Kept(filterSmall, Component(g, s))
    ensures Segmented(g, filterSmall, visited + Component(g, s), electrodes, types, seeds, Claim(owner, Component(g, s), -1))
  {
    ClosedAdd(g, visited, s);
    NewElectrodeUnvisited(g, visited, s);
    OwnedAdd(g, filterSmall, visited, electrodes, owner, s, false);
  }

  /** Sweeping voxel (i, j, k) extends the swept prefix by that voxel. */
  lemma SweepStep(g: Grid, visited: set<Point>, k: int, i: int, j: int)
    requires forall p :: InRange(g, p) && SweptBefore(p, k, i, j) && g.electrode(p) ==> p in visited
    requires g.electrode((i, j, k)) ==> (i, j, k) in visited
    ensures forall p :: InRange(g, p) && SweptBefore(p, k, i, j + 1) && g.electrode(p) ==> p in visited
  {
    forall p | InRange(g, p) && SweptBefore(p, k, i, j + 1) && g.electrode(p)
      ensures p in visited
    {
      if p != (i, j, k) {
        assert SweptBefore(p, k, i, j);
      }
    }
  }

  /**
   * Seeds appear in sweep order, and each seed is the first stored voxel of
   * its electrode that the sweep reaches.
   */
  ghost predicate SweepOrdered(g: Grid, seeds: seq<Point>)
  {
    (forall m, n :: 0 <= m < n < |seeds| ==> SweptBefore(seeds[m], seeds[n].2, seeds[n].0, seeds[n].1)) &&
    (forall n, p :: 0 <= n < |seeds| && InRange(g, p) && p in Component(g, seeds[n]) ==>
      !SweptBefore(p, seeds[n].2, seeds[n].0, seeds[n].1))
  }

  /**
   * A search starts at an unvisited voxel only when every electrode voxel
   * swept before it is visited, so no voxel of its electrode comes earlier
   * in the sweep.
   */
  lemma FirstInSweep(g: Grid, visited: set<Point>, s: Point)
    requires Closed(g, visited)
    requires InRange(g, s) && g.electrode(s) && s !in visited
    requires forall p :: InRange(g, p) && SweptBefore(p, s.2, s.0, s.1) && g.electrode(p) ==> p in visited
    ensures forall p :: InRange(g, p) && p in Component(g, s) ==> !SweptBefore(p, s.2, s.0, s.1)
  {
    SeedInComponent(g, s);
    forall p | InRange(g, p) && p in Component(g, s)
      ensures !SweptBefore(p, s.2, s.0, s.1)
    {
      ComponentOfMember(g, s, p);
      assert s in Component(g, p);
      assert p !in visited;
    }
  }

  /** Appending a seed that comes after every earlier one, and first in its electrode, keeps the sweep order. */
  lemma OrderedAppend(g: Grid, seeds: seq<Point>, s: Point)
    requires SweepOrdered(g, seeds)
    requires forall n :: 0 <= n < |seeds| ==> SweptBefore(seeds[n], s.2, s.0, s.1)
    requires forall p :: InRange(g, p) && p in Component(g, s) ==> !SweptBefore(p, s.2, s.0, s.1)
    ensures SweepOrdered(g, seeds + [s])
  {
    var seeds' := seeds + [s];
    forall m, n | 0 <= m < n < |seeds'|
      ensures SweptBefore(seeds'[m], seeds'[n].2, seeds'[n].0, seeds'[n].1)
    {
      assert seeds'[m] == seeds[m];
      if n < |seeds| {
        assert seeds'[n] == seeds[n];
      }
    }
    forall n, p | 0 <= n < |seeds'| && InRange(g, p) && p in Component(g, seeds'[n])
      ensures !SweptBefore(p, seeds'[n].2, seeds'[n].0, seeds'[n].1)
    {
      if n < |seeds| {
        assert seeds'[n] == seeds[n];
      }
    }
  }

  /**
   * The sweep has reached stored voxel (i, j, k): every seed so far comes
   * before it, and every stored electrode voxel before it is visited.
   */
  ghost predicate SweptTo(g: Grid, visited: set<Point>, seeds: seq<Point>, k: int, i: int, j: int)
  {
    (forall n :: 0 <= n < |seeds| ==> SweptBefore(seeds[n], k, i, j)) &&
    (forall p :: InRange(g, p) && SweptBefore(p, k, i, j) && g.electrode(p) ==> p in visited)
  }

  /** Sweeping stored voxel s, which is visited afterwards if it is an electrode voxel, moves the sweep one voxel on. */
  lemma VoxelDone(g: Grid, visited0: set<Point>, seeds0: seq<Point>, visited: set<Point>, seeds: seq<Point>, s: Point)
    requires SweptTo(g, visited0, seeds0, s.2, s.0, s.1)
    requires visited0 <= visited && (seeds == seeds0 || seeds == seeds0 + [s])
    requires g.electrode(s) ==> s in visited
    ensures SweptTo(g, visited, seeds, s.2, s.0, s.1 + 1)
  {
    SweepStep(g, visited, s.2, s.0, s.1);
    forall n | 0 <= n < |seeds|
      ensures SweptBefore(seeds[n], s.2, s.0, s.1 + 1)
    {
      if n < |seeds0| {
        assert seeds[n] == seeds0[n];
      }
    }
  }

  /** Finishing row i of plane k moves the sweep to the start of row i + 1. */
  lemma RowDone(g: Grid, visited: set<Point>, seeds: seq<Point>, k: int, i: int)
    requires SweptTo(g, visited, seeds, k, i, g.ly)
    ensures SweptTo(g, visited, seeds, k, i + 1, 0)
  {
    forall p | InRange(g, p) && SweptBefore(p, k, i + 1, 0) && g.electrode(p)
      ensures p in visited
    {
      assert SweptBefore(p, k, i, g.ly);
    }
  }

  /** Finishing plane k moves the sweep to the start of plane k + 1. */
  lemma PlaneDone(g: Grid, visited: set<Point>, seeds: seq<Point>, k: int)
    requires SweptTo(g, visited, seeds, k, g.lx, 0)
    ensures SweptTo(g, visited, seeds, k + 1, 0, 0)
  {
    forall p | InRange(g, p) && SweptBefore(p, k + 1, 0, 0) && g.electrode(p)
      ensures p in visited
    {
      assert SweptBefore(p, k, g.lx, 0);
    }
  }

  /**
   * One step of the sweep at stored voxel `s`: when it is an electrode
   * point not yet visited, search its electrode, mark it visited and keep it
   * (with the channel read at `s`) unless it is filtered out as noise.
   */
  method SweepVoxel(g: Grid, filterSmall: bool, s: Point, visited0: set<Point>,
                    electrodes0: seq<set<Point>>, types0: seq<int>, ghost seeds0: seq<Point>, ghost owner0: map<Point, int>)
    returns (visited: set<Point>, electrodes: seq<set<Point>>, types: seq<int>, ghost seeds: seq<Point>, ghost owner: map<Point, int>)
    requires InRange(g, s)
    requires Segmented(g, filterSmall, visited0, electrodes0, types0, seeds0, owner0)
    requires SweepOrdered(g, seeds0) && SweptTo(g, visited0, seeds0, s.2, s.0, s.1)
    ensures Segmented(g, filterSmall, visited, electrodes, types, seeds, owner)
    ensures SweepOrdered(g, seeds) && SweptTo(g, visited, seeds, s.2, s.0, s.1 + 1)
    ensures visited0 <= visited
    ensures g.electrode(s) ==> s in visited
  {
    visited, electrodes, types, seeds, owner := visited0, electrodes0, types0, seeds0, owner0;
    if g.electrode(s) && s !in visited {
      var e, v := Dfs(g, s);
      SeedInComponent(g, s);
      if Kept(filterSmall, e) {
        FirstInSweep(g, visited, s);
        OrderedAppend(g, seeds, s);
        KeepElectrode(g, filterSmall, visited, electrodes, types, seeds, owner, s);
      } else {
        DropElectrode(g, filterSmall, visited, electrodes, types, seeds, owner, s);
      }
      visited := visited + v;
      if Kept(filterSmall, e) {
        owner := Claim(owner, e, |electrodes|);
        electrodes := electrodes + [e];
        types := types + [g.channel(s)];
        seeds := seeds + [s];
      } else {
        owner := Claim(owner, e, -1);
      }
    }
    VoxelDone(g, visited0, seeds0, visited, seeds, s);
  }

  /** After the last plane every stored electrode voxel is visited, so the invariant gives the sweep's result. */
  lemma SweepFinished(g: Grid, filterSmall: bool, visited: set<Point>, electrodes: seq<set<Point>>, types: seq<int>,
                      seeds: seq<Point>, owner: map<Point, int>)
    requires Segmented(g, filterSmall, visited, electrodes, types, seeds, owner)
    requires SweepOrdered(g, seeds) && SweptTo(g, visited, seeds, g.lz, 0, 0)
    ensures forall n :: 0 <= n < |seeds| ==> seeds[n] in electrodes[n]
    ensures forall p :: InRange(g, p) && g.electrode(p) ==>
      (exists n :: 0 <= n < |electrodes| && p in electrodes[n]) || (filterSmall && |Component(g, p)| <= NoiseThreshold)
    ensures forall n, p :: 0 <= n < |seeds| && InRange(g, p) && p in electrodes[n] ==>
      !SweptBefore(p, seeds[n].2, seeds[n].0, seeds[n].1)
  {
    forall n | 0 <= n < |seeds|
      ensures seeds[n] in electrodes[n]
    {
      SeedInComponent(g, seeds[n]);
    }
    forall p | InRange(g, p) && g.electrode(p)
      ensures (exists n :: 0 <= n < |electrodes| && p in electrodes[n]) || (filterSmall && |Component(g, p)| <= NoiseThreshold)
    {
      assert SweptBefore(p, g.lz, 0, 0);
      if owner[p] != -1 {
        assert p in electrodes[owner[p]];
      }
    }
  }

  /**
   * The sweep returns the kept electrodes with their channels (read at the
   * seed), plus, as ghost, the seed of each.  Kept electrodes are whole,
   * pairwise disjoint electrodes; every stored electrode voxel lies in one
   * of them, unless the filtering sweep dropped its electrode as noise.
   * They are listed in the order the sweep first reaches them: seeds come in
   * sweep order, and no stored voxel of an electrode precedes its seed.
   */
  method GetAllElectrodes(g: Grid, filterSmall: bool)
    returns (electrodes: seq<set<Point>>, types: seq<int>, ghost seeds: seq<Point>)
    ensures |electrodes| == |types| == |seeds|
    ensures forall n :: 0 <= n < |seeds| ==>
      InRange(g, seeds[n]) && g.electrode(seeds[n]) && types[n] == g.channel(seeds[n]) &&
      seeds[n] in electrodes[n] && electrodes[n] == Component(g, seeds[n])
    ensures filterSmall ==> forall n :: 0 <= n < |electrodes| ==> |electrodes[n]| > NoiseThreshold
    ensures forall m, n :: 0 <= m < n < |electrodes| ==> electrodes[m] !! electrodes[n]
    ensures forall p :: InRange(g, p) && g.electrode(p) ==>
      (exists n :: 0 <= n < |electrodes| && p in electrodes[n]) || (filterSmall && |Component(g, p)| <= NoiseThreshold)
    ensures forall m, n :: 0 <= m < n < |seeds| ==> SweptBefore(seeds[m], seeds[n].2, seeds[n].0, seeds[n].1)
    ensures forall n, p :: 0 <= n < |seeds| && InRange(g, p) && p in electrodes[n] ==>
      !SweptBefore(p, seeds[n].2, seeds[n].0, seeds[n].1)
  {
    var visited: set<Point> := {};
    electrodes, types, seeds := [], [], [];
    ghost var owner: map<Point, int> := map[];
    var k := 0;
    while k < g.lz
      invariant 0 <= k <= g.lz
      invariant Segmented(g, filterSmall, visited, electrodes, types, seeds, owner)
      invariant SweepOrdered(g, seeds) && SweptTo(g, visited, seeds, k, 0, 0)
    {
      var i := 0;
      while i < g.lx
        invariant 0 <= i <= g.lx
        invariant Segmented(g, filterSmall, visited, electrodes, types, seeds, owner)
        invariant SweepOrdered(g, seeds) && SweptTo(g, visited, seeds, k, i, 0)
      {
        var j := 0;
        while j < g.ly
          invariant 0 <= j <= g.ly
          invariant Segmented(g, filterSmall, visited, electrodes, types, seeds, owner)
          invariant SweepOrdered(g, seeds) && SweptTo(g, visited, seeds, k, i, j)
        {
          visited, electrodes, types, seeds, owner :=
            SweepVoxel(g, filterSmall, (i, j, k), visited, electrodes, types, seeds, owner);
          j := j + 1;
        }
        RowDone(g, visited, seeds, k, i);
        i := i + 1;
      }
      PlaneDone(g, visited, seeds, k);
      k := k + 1;
    }
    SweepFinished(g, filterSmall, visited, electrodes, types, seeds, owner);
  }
}
