/**
 * `expand_trap` (utils_for_trap.py and plot_trap_3d.py): the exploded view
 * of a trap.  Every electrode found by the segmentation is moved away from
 * the origin along the ray through its mass centre and written into a fresh
 * potential array with its channel.
 *
 * The displacement itself (`_delta_move`, spherical coordinates) is a
 * parameter `deltaMove`; a NaN displacement (`math.isnan(sh[0])`) is the
 * `NaN` shift and is replaced by (0, 0, 0).
 */
module Expand {
  import opened Wrappers
  import opened Points
  import opened PaGrid
  import opened Segmentation

  // ---------------------------------------------------------------------
  // Shift fraction per channel
  // ---------------------------------------------------------------------

  const DefaultShiftFraction: real := 0.3

  /**
   * utils_for_trap.py: the radial fraction for an electrode of channel `c`
   * is what the optional `expand_range` rule returns for `c`, or 0.3 when
   * there is no rule or the rule returns None.
   */
  function ShiftFraction(expandRange: Option<int -> Option<real>>, c: int): (r: real)
    ensures expandRange.Some? && expandRange.value(c).Some? ==> r == expandRange.value(c).value
    ensures expandRange.None? || expandRange.value(c).None? ==> r == DefaultShiftFraction
  {
    if expandRange.Some? && expandRange.value(c).Some? then expandRange.value(c).value else DefaultShiftFraction
  }

  /** plot_trap_3d.py: channels 3 and 4 have branches of their own, but every branch uses 0.3. */
  function PlotShiftFraction(c: int): (r: real)
    ensures r == DefaultShiftFraction
  {
    if c == 3 then 0.3 else if c == 4 then 0.3 else 0.3
  }

  /** Without an `expand_range` rule the two copies of `expand_trap` use the same fraction for every channel. */
  lemma PlotFractionIsDefault(c: int)
    ensures ShiftFraction(None, c) == PlotShiftFraction(c)
    ensures forall f: int -> Option<real> :: f(c) == None ==> ShiftFraction(Some(f), c) == PlotShiftFraction(c)
  {
  }

  // ---------------------------------------------------------------------
  // Mass centre (`_calculate_mass_center`)
  // ---------------------------------------------------------------------

  function Coord(p: Point, axis: nat): int
    requires axis < 3
  {
    if axis == 0 then p.0 else if axis == 1 then p.1 else p.2
  }

  function AxisSum(s: seq<Point>, axis: nat): int
    requires axis < 3
  {
    if s == [] then 0 else Coord(s[0], axis) + AxisSum(s[1..], axis)
  }

  /**
   * `np.array(list(electrode)).mean(axis=0)`: the mean of the voxel indices
   * along each axis.  numpy's mean of no rows is NaN, here `None`.
   */
  function MassCenter(s: seq<Point>): (r: Option<Vec>)
    ensures r.None? <==> s == []
  {
    if s == [] then None
    else
      var n := |s| as real;
      Some((AxisSum(s, 0) as real / n, AxisSum(s, 1) as real / n, AxisSum(s, 2) as real / n))
  }

  lemma {:induction false} AxisSumConcat(a: seq<Point>, b: seq<Point>, axis: nat)
    requires axis < 3
    ensures AxisSum(a + b, axis) == AxisSum(a, axis) + AxisSum(b, axis)
  {
    if a == [] {
      assert a + b == b;
    } else {
      assert (a + b)[0] == a[0] && (a + b)[1..] == a[1..] + b;
      AxisSumConcat(a[1..], b, axis);
    }
  }

  /** Taking one voxel out of a sequence takes its coordinate out of the sum and one copy out of the multiset. */
  lemma AxisSumRemove(t: seq<Point>, i: nat, axis: nat)
    requires axis < 3 && i < |t|
    ensures AxisSum(t, axis) == Coord(t[i], axis) + AxisSum(t[..i] + t[i + 1..], axis)
    ensures multiset(t[..i] + t[i + 1..]) == multiset(t) - multiset{t[i]}
  {
    assert t == t[..i] + ([t[i]] + t[i + 1..]);
    AxisSumConcat(t[..i], [t[i]] + t[i + 1..], axis);
    AxisSumConcat([t[i]], t[i + 1..], axis);
    AxisSumConcat(t[..i], t[i + 1..], axis);
    assert multiset(t) == multiset(t[..i]) + multiset{t[i]} + multiset(t[i + 1..]);
  }

  /** The sum along an axis does not depend on the order of the voxels. */
  lemma {:induction false} AxisSumPermutation(s: seq<Point>, t: seq<Point>, axis: nat)
    requires axis < 3
    requires multiset(s) == multiset(t)
    ensures AxisSum(s, axis) == AxisSum(t, axis)
    decreases |s|
  {
    if s == [] {
      assert |t| == |multiset(t)| == 0;
    } else {
      assert s[0] in multiset(t);
      var i :| 0 <= i < |t| && t[i] == s[0];
      AxisSumRemove(t, i, axis);
      assert s == [s[0]] + s[1..];
      assert multiset(s[1..]) == multiset(s) - multiset{s[0]};
      AxisSumPermutation(s[1..], t[..i] + t[i + 1..], axis);
    }
  }

  /**
   * Python iterates a set in an order it does not promise; the mass centre
   * is the same for every order.
   */
  lemma MassCenterOrderFree(s: seq<Point>, t: seq<Point>)
    requires multiset(s) == multiset(t)
    ensures MassCenter(s) == MassCenter(t)
  {
    AxisSumPermutation(s, t, 0);
    AxisSumPermutation(s, t, 1);
    AxisSumPermutation(s, t, 2);
    assert |s| == |multiset(s)| == |t|;
  }

  lemma {:induction false} AxisSumLower(s: seq<Point>, axis: nat, lo: int)
    requires axis < 3
    requires forall n :: 0 <= n < |s| ==> lo <= Coord(s[n], axis)
    ensures |s| * lo <= AxisSum(s, axis)
  {
    if s != [] {
      var rest := s[1..];
      assert forall n :: 0 <= n < |rest| ==> rest[n] == s[n + 1];
      AxisSumLower(rest, axis, lo);
      assert |s| * lo == |rest| * lo + lo;
    }
  }

  lemma {:induction false} AxisSumUpper(s: seq<Point>, axis: nat, hi: int)
    requires axis < 3
    requires forall n :: 0 <= n < |s| ==> Coord(s[n], axis) <= hi
    ensures AxisSum(s, axis) <= |s| * hi
  {
    if s != [] {
      var rest := s[1..];
      assert forall n :: 0 <= n < |rest| ==> rest[n] == s[n + 1];
      AxisSumUpper(rest, axis, hi);
      assert |s| * hi == |rest| * hi + hi;
    }
  }

  lemma CastProduct(n: int, x: int)
    ensures (n * x) as real == n as real * x as real
  {
  }

  /** A sum of n integers between lo and hi, divided by n, lies between lo and hi. */
  lemma IntMeanBounds(n: int, sum: int, lo: int, hi: int)
    requires n > 0 && n * lo <= sum <= n * hi
    ensures lo as real <= sum as real / n as real <= hi as real
  {
    CastProduct(n, lo);
    CastProduct(n, hi);
    DivideBounds(sum as real, n as real, lo as real, hi as real);
  }

  lemma DivideBounds(x: real, n: real, lo: real, hi: real)
    requires n > 0.0 && n * lo <= x <= n * hi
    ensures lo <= x / n <= hi
  {
    assert (x - n * lo) / n >= 0.0;
    assert (n * hi - x) / n >= 0.0;
  }

  /** The mean along one axis lies between any bounds of the voxels' coordinates on that axis. */
  lemma MeanBounds(s: seq<Point>, axis: nat, lo: int, hi: int)
    requires axis < 3 && s != []
    requires forall n :: 0 <= n < |s| ==> lo <= Coord(s[n], axis) <= hi
    ensures lo as real <= AxisSum(s, axis) as real / |s| as real <= hi as real
  {
    AxisSumLower(s, axis, lo);
    AxisSumUpper(s, axis, hi);
    IntMeanBounds(|s|, AxisSum(s, axis), lo, hi);
  }

  /** The mass centre lies in every axis-aligned box that holds all the voxels. */
  lemma MassCenterInBox(s: seq<Point>, lo: Point, hi: Point)
    requires s != []
    requires forall n :: 0 <= n < |s| ==>
      lo.0 <= s[n].0 <= hi.0 && lo.1 <= s[n].1 <= hi.1 && lo.2 <= s[n].2 <= hi.2
    ensures lo.0 as real <= MassCenter(s).value.0 <= hi.0 as real
    ensures lo.1 as real <= MassCenter(s).value.1 <= hi.1 as real
    ensures lo.2 as real <= MassCenter(s).value.2 <= hi.2 as real
  {
    MeanBounds(s, 0, lo.0, hi.0);
    MeanBounds(s, 1, lo.1, hi.1);
    MeanBounds(s, 2, lo.2, hi.2);
  }

  // ---------------------------------------------------------------------
  // Shifted writes
  // ---------------------------------------------------------------------

  /** A displacement as `_delta_move` returns it, or NaN. */
  datatype Shift = NaN | Move(dx: real, dy: real, dz: real)

  /** The displacement used for writing: a NaN one becomes (0, 0, 0). */
  function Displacement(sh: Shift): Vec
  {
    match sh
    case NaN => (0.0, 0.0, 0.0)
    case Move(dx, dy, dz) => (dx, dy, dz)
  }

  /** Only voxels of the stored eighth (no negative index) are written. */
  predicate Skipped(p: Point)
  {
    p.0 < 0 || p.1 < 0 || p.2 < 0
  }

  /**
   * The index a voxel is written to: `int(i + dx)` and so on, truncation
   * toward zero of the exactly shifted coordinate.  A NaN shift leaves the
   * voxel in place.
   */
  function Target(p: Point, sh: Shift): (q: Point)
    ensures sh.NaN? ==> q == p
    ensures var d := Displacement(sh);
      TruncatedFrom(q.0, p.0 as real + d.0) && TruncatedFrom(q.1, p.1 as real + d.1) && TruncatedFrom(q.2, p.2 as real + d.2)
  {
    var d := Displacement(sh);
    TruncOfInteger(p.0);
    TruncOfInteger(p.1);
    TruncOfInteger(p.2);
    (Trunc(p.0 as real + d.0), Trunc(p.1 as real + d.1), Trunc(p.2 as real + d.2))
  }

  /** The writes `point(new_i, new_j, new_k, 1, c)` attempted for one electrode, in iteration order. */
  function WritesOf(pts: seq<Point>, sh: Shift, c: int): seq<(Point, int)>
  {
    if pts == [] then []
    else
      var last := pts[|pts| - 1];
      WritesOf(pts[..|pts| - 1], sh, c) + (if Skipped(last) then [] else [(Target(last, sh), c)])
  }

  /** The writes attempted for the first `n` electrodes, one electrode after another. */
  function WritesUpTo(order: seq<seq<Point>>, shifts: seq<Shift>, types: seq<int>, n: nat): seq<(Point, int)>
    requires n <= |order| && n <= |shifts| && n <= |types|
  {
    if n == 0 then []
    else WritesUpTo(order, shifts, types, n - 1) + WritesOf(order[n - 1], shifts[n - 1], types[n - 1])
  }

  /** The cells after a sequence of writes; the array refuses the writes outside it and they change nothing. */
  function Apply(nx: nat, ny: nat, nz: nat, cells: map<Point, int>, ws: seq<(Point, int)>): map<Point, int>
  {
    if ws == [] then cells
    else
      var w := ws[|ws| - 1];
      var before := Apply(nx, ny, nz, cells, ws[..|ws| - 1]);
      if InArray(nx, ny, nz, w.0) then before[w.0 := w.1] else before
  }

  lemma {:induction false} WritesOfMembers(pts: seq<Point>, sh: Shift, c: int, w: (Point, int))
    ensures w in WritesOf(pts, sh, c) <==>
      w.1 == c && exists p :: p in pts && !Skipped(p) && w.0 == Target(p, sh)
  {
    if pts != [] {
      var init := pts[..|pts| - 1];
      WritesOfMembers(init, sh, c, w);
      assert pts == init + [pts[|pts| - 1]];
      if w.1 == c && exists p :: p in pts && !Skipped(p) && w.0 == Target(p, sh) {
        var p :| p in pts && !Skipped(p) && w.0 == Target(p, sh);
        if p != pts[|pts| - 1] {
          assert p in init;
        }
      }
    }
  }

  lemma {:induction false} WritesUpToMembers(order: seq<seq<Point>>, shifts: seq<Shift>, types: seq<int>, n: nat,
                                             w: (Point, int))
    requires n <= |order| && n <= |shifts| && n <= |types|
    ensures w in WritesUpTo(order, shifts, types, n) <==>
      exists i :: 0 <= i < n && w in WritesOf(order[i], shifts[i], types[i])
  {
    if n > 0 {
      WritesUpToMembers(order, shifts, types, n - 1, w);
    }
  }

  /** After a sequence of writes, a cell is set exactly when it was set before or some write inside the array targets it. */
  lemma {:induction false} ApplyKeys(nx: nat, ny: nat, nz: nat, cells: map<Point, int>, ws: seq<(Point, int)>, q: Point)
    ensures q in Apply(nx, ny, nz, cells, ws) <==>
      q in cells || (InArray(nx, ny, nz, q) && exists n :: 0 <= n < |ws| && ws[n].0 == q)
  {
    if ws != [] {
      var init := ws[..|ws| - 1];
      ApplyKeys(nx, ny, nz, cells, init, q);
      if InArray(nx, ny, nz, q) && exists n :: 0 <= n < |ws| && ws[n].0 == q {
        var n :| 0 <= n < |ws| && ws[n].0 == q;
        if n < |init| {
          assert init[n].0 == q;
        }
      }
    }
  }

  /** A cell that no write targets keeps its value. */
  lemma {:induction false} ApplyUntouched(nx: nat, ny: nat, nz: nat, cells: map<Point, int>, ws: seq<(Point, int)>, q: Point)
    requires q in cells
    requires forall n :: 0 <= n < |ws| ==> ws[n].0 != q
    ensures q in Apply(nx, ny, nz, cells, ws) && Apply(nx, ny, nz, cells, ws)[q] == cells[q]
  {
    if ws != [] {
      ApplyUntouched(nx, ny, nz, cells, ws[..|ws| - 1], q);
    }
  }

  /** The value of a cell is that of the last write to it, when that write is inside the array. */
  lemma {:induction false} ApplyLastWrite(nx: nat, ny: nat, nz: nat, cells: map<Point, int>, ws: seq<(Point, int)>, n: nat)
    requires n < |ws| && InArray(nx, ny, nz, ws[n].0)
    requires forall m :: n < m < |ws| ==> ws[m].0 != ws[n].0
    ensures ws[n].0 in Apply(nx, ny, nz, cells, ws) && Apply(nx, ny, nz, cells, ws)[ws[n].0] == ws[n].1
  {
    if n < |ws| - 1 {
      var init := ws[..|ws| - 1];
      ApplyLastWrite(nx, ny, nz, cells, init, n);
    }
  }

  /** A non-negative voxel of some electrode, shifted by that electrode's shift, lands on `q`. */
  predicate WrittenFrom(order: seq<seq<Point>>, shifts: seq<Shift>, i: int, p: Point, q: Point)
  {
    0 <= i < |order| && i < |shifts| && p in order[i] && !Skipped(p) && q == Target(p, shifts[i])
  }

  /**
   * In the array `expand_trap` produces from a fresh one, every target of a
   * non-negative electrode voxel that lies inside the array is an electrode
   * voxel.
   */
  lemma ShiftedVoxelWritten(nx: nat, ny: nat, nz: nat, order: seq<seq<Point>>, shifts: seq<Shift>, types: seq<int>,
                            i: int, p: Point, q: Point)
    requires |order| == |shifts| == |types|
    requires WrittenFrom(order, shifts, i, p, q) && InArray(nx, ny, nz, q)
    ensures q in Apply(nx, ny, nz, map[], WritesUpTo(order, shifts, types, |order|))
  {
    var ws := WritesUpTo(order, shifts, types, |order|);
    ApplyKeys(nx, ny, nz, map[], ws, q);
    WritesOfMembers(order[i], shifts[i], types[i], (q, types[i]));
    WritesUpToMembers(order, shifts, types, |order|, (q, types[i]));
    var n :| 0 <= n < |ws| && ws[n] == (q, types[i]);
  }

  /**
   * Conversely, every electrode voxel of that array lies inside it, is the
   * target of a non-negative voxel of some electrode, and carries the
   * channel of such an electrode (the last one written there).
   */
  lemma WrittenCellOrigin(nx: nat, ny: nat, nz: nat, order: seq<seq<Point>>, shifts: seq<Shift>, types: seq<int>, q: Point)
    requires |order| == |shifts| == |types|
    requires q in Apply(nx, ny, nz, map[], WritesUpTo(order, shifts, types, |order|))
    ensures InArray(nx, ny, nz, q)
    ensures exists i, p :: WrittenFrom(order, shifts, i, p, q) &&
                           Apply(nx, ny, nz, map[], WritesUpTo(order, shifts, types, |order|))[q] == types[i]
  {
    var ws := WritesUpTo(order, shifts, types, |order|);
    ApplyKeys(nx, ny, nz, map[], ws, q);
    var n :| 0 <= n < |ws| && ws[n].0 == q;
    var last := LastWriteTo(ws, q, n);
    ApplyLastWrite(nx, ny, nz, map[], ws, last);
    var i, p := WriterOf(order, shifts, types, ws[last]);
  }

  /** The electrode and voxel behind one attempted write. */
  lemma WriterOf(order: seq<seq<Point>>, shifts: seq<Shift>, types: seq<int>, w: (Point, int)) returns (i: int, p: Point)
    requires |order| == |shifts| == |types|
    requires w in WritesUpTo(order, shifts, types, |order|)
    ensures WrittenFrom(order, shifts, i, p, w.0) && w.1 == types[i]
  {
    WritesUpToMembers(order, shifts, types, |order|, w);
    i :| 0 <= i < |order| && w in WritesOf(order[i], shifts[i], types[i]);
    WritesOfMembers(order[i], shifts[i], types[i], w);
    p :| p in order[i] && !Skipped(p) && w.0 == Target(p, shifts[i]);
  }

  /** The index of the last write in `ws` that targets `q`, given one that does. */
  lemma {:induction false} LastWriteTo(ws: seq<(Point, int)>, q: Point, n: nat) returns (last: nat)
    requires n < |ws| && ws[n].0 == q
    ensures n <= last < |ws| && ws[last].0 == q
    ensures forall m :: last < m < |ws| ==> ws[m].0 != q
    decreases |ws| - n
  {
    if exists m :: n < m < |ws| && ws[m].0 == q {
      var m :| n < m < |ws| && ws[m].0 == q;
      last := LastWriteTo(ws, q, m);
    } else {
      last := n;
    }
  }

  // ---------------------------------------------------------------------
  // The write loop and the whole operation
  // ---------------------------------------------------------------------

  /** `for i, j, k in electrode`: the voxels of a set, in some order, each exactly once. */
  method Enumerate(s: set<Point>) returns (r: seq<Point>)
    ensures multiset(r) == multiset(s)
  {
    r := [];
    var rest := s;
    while rest != {}
      invariant rest <= s
      invariant multiset(r) + multiset(rest) == multiset(s)
      decreases |rest|
    {
      var x :| x in rest;
      r := r + [x];
      rest := rest - {x};
    }
  }

  /**
   * The write loop of `expand_trap`: for the electrodes zipped with their
   * shifts and channels, each non-negative voxel is written at its shifted
   * index, and a write the array refuses (`AssertionError`) is ignored.
   */
  method ExpandWrite(pa: PotentialArray, order: seq<seq<Point>>, shifts: seq<Shift>, types: seq<int>)
    modifies pa
    ensures var n := Min3(|order|, |shifts|, |types|);
      pa.cells == Apply(pa.nx, pa.ny, pa.nz, old(pa.cells), WritesUpTo(order, shifts, types, n))
  {
    var total := Min3(|order|, |shifts|, |types|);
    var n := 0;
    while n < total
      invariant 0 <= n <= total
      invariant pa.cells == Apply(pa.nx, pa.ny, pa.nz, old(pa.cells), WritesUpTo(order, shifts, types, n))
    {
      var sh, c := shifts[n], types[n];
      var pts := order[n];
      ghost var before := WritesUpTo(order, shifts, types, n);
      var m := 0;
      assert before + WritesOf(pts[..0], sh, c) == before;
      while m < |pts|
        invariant 0 <= m <= |pts|
        invariant pa.cells == Apply(pa.nx, pa.ny, pa.nz, old(pa.cells), before + WritesOf(pts[..m], sh, c))
      {
        var p := pts[m];
        assert pts[..m + 1][..m] == pts[..m];
        if !Skipped(p) {
          var _ := pa.WritePoint(Target(p, sh), c);
          assert (before + WritesOf(pts[..m + 1], sh, c))[..|before + WritesOf(pts[..m + 1], sh, c)| - 1] ==
            before + WritesOf(pts[..m], sh, c);
        } else {
          assert WritesOf(pts[..m + 1], sh, c) == WritesOf(pts[..m], sh, c);
        }
        m := m + 1;
      }
      assert pts[..m] == pts;
      n := n + 1;
    }
  }

  function Min3(a: nat, b: nat, c: nat): (r: nat)
    ensures r <= a && r <= b && r <= c && (r == a || r == b || r == c)
  {
    if a <= b && a <= c then a else if b <= c then b else c
  }

  /** Each electrode's voxels in iteration order. */
  method EnumerateAll(electrodes: seq<set<Point>>) returns (order: seq<seq<Point>>)
    ensures |order| == |electrodes|
    ensures forall m :: 0 <= m < |order| ==> multiset(order[m]) == multiset(electrodes[m])
  {
    order := [];
    var n := 0;
    while n < |electrodes|
      invariant 0 <= n <= |electrodes|
      invariant |order| == n
      invariant forall m :: 0 <= m < n ==> multiset(order[m]) == multiset(electrodes[m])
    {
      var pts := Enumerate(electrodes[n]);
      order := order + [pts];
      n := n + 1;
    }
  }

  /** The shift of one electrode: `_delta_move` of its mass centre by the fraction (NaN when the centre is NaN). */
  function ElectrodeShift(pts: seq<Point>, fraction: real, deltaMove: (Vec, real) -> Shift): Shift
  {
    match MassCenter(pts)
    case None => NaN
    case Some(c) => deltaMove(c, fraction)
  }

  /**
   * `expand_trap` after the segmentation: shift every electrode by its
   * fraction of its mass centre's radius and write it into a fresh array of
   * the model's size.
   */
  method ExpandElectrodes(g: Grid, electrodes: seq<set<Point>>, types: seq<int>, expandRange: Option<int -> Option<real>>,
                          deltaMove: (Vec, real) -> Shift)
    returns (pa: PotentialArray, order: seq<seq<Point>>, shifts: seq<Shift>)
    requires |electrodes| == |types|
    ensures fresh(pa) && pa.nx == g.lx && pa.ny == g.ly && pa.nz == g.lz
    ensures |order| == |shifts| == |electrodes|
    ensures forall n :: 0 <= n < |order| ==>
      multiset(order[n]) == multiset(electrodes[n]) &&
      shifts[n] == ElectrodeShift(order[n], ShiftFraction(expandRange, types[n]), deltaMove)
    ensures pa.cells == Apply(g.lx, g.ly, g.lz, map[], WritesUpTo(order, shifts, types, |order|))
  {
    order := EnumerateAll(electrodes);
    shifts := seq(|order|, m requires 0 <= m < |order| =>
      ElectrodeShift(order[m], ShiftFraction(expandRange, types[m]), deltaMove));
    pa := new PotentialArray(g.lx, g.ly, g.lz);
    ExpandWrite(pa, order, shifts, types);
  }

  /**
   * `expand_trap`: segment the stored array and expand its electrodes.
   * The electrodes come in the order the sweep first reaches them, and the
   * writes follow that order, so on a cell two electrodes target the later
   * electrode's channel is the one left.
   * utils_for_trap.py is `filterSmall` with its optional `expand_range`;
   * plot_trap_3d.py is no filter and no rule.
   */
  method ExpandTrap(g: Grid, filterSmall: bool, expandRange: Option<int -> Option<real>>, deltaMove: (Vec, real) -> Shift)
    returns (pa: PotentialArray, electrodes: seq<set<Point>>, types: seq<int>, order: seq<seq<Point>>, shifts: seq<Shift>,
             ghost seeds: seq<Point>)
    ensures fresh(pa) && pa.nx == g.lx && pa.ny == g.ly && pa.nz == g.lz
    ensures |electrodes| == |types| == |order| == |shifts| == |seeds|
    ensures forall n :: 0 <= n < |seeds| ==>
      InRange(g, seeds[n]) && g.electrode(seeds[n]) && types[n] == g.channel(seeds[n]) && electrodes[n] == Component(g, seeds[n])
    ensures filterSmall ==> forall n :: 0 <= n < |electrodes| ==> |electrodes[n]| > NoiseThreshold
    ensures forall m, n :: 0 <= m < n < |electrodes| ==> electrodes[m] !! electrodes[n]
    ensures forall p :: InRange(g, p) && g.electrode(p) ==>
      (exists n :: 0 <= n < |electrodes| && p in electrodes[n]) || (filterSmall && |Component(g, p)| <= NoiseThreshold)
    ensures forall m, n :: 0 <= m < n < |seeds| ==> SweptBefore(seeds[m], seeds[n].2, seeds[n].0, seeds[n].1)
    ensures forall n, p :: 0 <= n < |seeds| && InRange(g, p) && p in electrodes[n] ==>
      !SweptBefore(p, seeds[n].2, seeds[n].0, seeds[n].1)
    ensures forall n :: 0 <= n < |order| ==>
      multiset(order[n]) == multiset(electrodes[n]) &&
      shifts[n] == ElectrodeShift(order[n], ShiftFraction(expandRange, types[n]), deltaMove)
    ensures pa.cells == Apply(g.lx, g.ly, g.lz, map[], WritesUpTo(order, shifts, types, |order|))
  {
    electrodes, types, seeds := GetAllElectrodes(g, filterSmall);
    pa, order, shifts := ExpandElectrodes(g, electrodes, types, expandRange, deltaMove);
  }
}
