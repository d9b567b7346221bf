/**
 * `_unbend_phi2D` (utils_for_trap.py): the (r, z) potential map is computed
 * on one quadrant only, r >= 0 and z >= 0, with row 0 at z = 0 and column 0
 * at r = 0.  The function stacks a mirrored copy of the rows above the
 * rows, then a mirrored copy of the columns left of the columns; the r
 * coordinates are negated in the mirrored columns and the z coordinates in
 * the mirrored rows.
 *
 * Matrices are sequences of rows.  numpy's `a[-2::-1]` (every row but the
 * last, last first) is `AllButLastReversed`.
 */
module Unbend {

  /** Every row of `a` has `m` entries and there are `n` rows. */
  predicate Rect<T>(a: seq<seq<T>>, n: nat, m: nat)
  {
    |a| == n && forall i :: 0 <= i < |a| ==> |a[i]| == m
  }

  /** numpy `s[-2::-1]`: every element but the last, in reverse order. */
  function AllButLastReversed<T>(s: seq<T>): seq<T>
    requires |s| >= 1
  {
    seq(|s| - 1, i requires 0 <= i < |s| - 1 => s[|s| - 2 - i])
  }

  function Negated(s: seq<real>): seq<real>
  {
    seq(|s|, i requires 0 <= i < |s| => -s[i])
  }

  /** `np.vstack((a[-2::-1, :], a))`. */
  function StackRows<T>(a: seq<seq<T>>): seq<seq<T>>
    requires |a| >= 1
  {
    AllButLastReversed(a) + a
  }

  /** `np.vstack((-a[-2::-1, :], a))`. */
  function StackRowsNegated(a: seq<seq<real>>): seq<seq<real>>
    requires |a| >= 1
  {
    var top := AllButLastReversed(a);
    seq(|top|, i requires 0 <= i < |top| => Negated(top[i])) + a
  }

  /** `np.hstack((a[:, -2::-1], a))`. */
  function StackColumns<T>(a: seq<seq<T>>): seq<seq<T>>
    requires forall i :: 0 <= i < |a| ==> |a[i]| >= 1
  {
    seq(|a|, i requires 0 <= i < |a| => AllButLastReversed(a[i]) + a[i])
  }

  /** `np.hstack((-a[:, -2::-1], a))`. */
  function StackColumnsNegated(a: seq<seq<real>>): seq<seq<real>>
    requires forall i :: 0 <= i < |a| ==> |a[i]| >= 1
  {
    seq(|a|, i requires 0 <= i < |a| => Negated(AllButLastReversed(a[i])) + a[i])
  }

  /** The three unbent matrices. */
  datatype Unbent = Unbent(phi: seq<seq<real>>, rs: seq<seq<real>>, zs: seq<seq<real>>)

  /** `_unbend_phi2D(Phi, Rs, Zs)` as written. */
  function UnbendPhi2D(phi: seq<seq<real>>, rs: seq<seq<real>>, zs: seq<seq<real>>, n: nat, m: nat): Unbent
    requires n >= 1 && m >= 1
    requires Rect(phi, n, m) && Rect(rs, n, m) && Rect(zs, n, m)
  {
    Unbent(StackColumns(StackRows(phi)), StackColumnsNegated(StackRows(rs)), StackColumns(StackRowsNegated(zs)))
  }

  /**
   * The source index that output index `r` reads along an axis of length
   * `n`: the first n - 1 outputs count down from n - 2 to 0, the rest count
   * up from 0 to n - 1.
   */
  function SourceIndex(r: int, n: int): int
  {
    if r < n - 1 then n - 2 - r else r - (n - 1)
  }

  /** The mirrored half of an axis: the first n - 1 outputs. */
  function Sign(r: int, n: int): real
  {
    if r < n - 1 then -1.0 else 1.0
  }

  lemma SourceIndexInRange(r: int, n: int)
    requires 0 <= r < 2 * n - 1
    ensures 0 <= SourceIndex(r, n) < n
  {
  }

  /**
   * The result is (2n - 1) x (2m - 1); each output cell reads source cell
   * (SourceIndex(r, n), SourceIndex(c, m)), the same cell in all three
   * matrices, with r negated in the mirrored columns and z in the mirrored
   * rows.
   */
  lemma StackCells<T>(a: seq<seq<T>>, n: nat, m: nat)
    requires n >= 1 && m >= 1 && Rect(a, n, m)
    ensures Rect(StackColumns(StackRows(a)), 2 * n - 1, 2 * m - 1)
    ensures forall r, c :: 0 <= r < 2 * n - 1 && 0 <= c < 2 * m - 1 ==>
      StackColumns(StackRows(a))[r][c] == a[SourceIndex(r, n)][SourceIndex(c, m)]
  {
    var a1 := StackRows(a);
    assert Rect(a1, 2 * n - 1, m);
    forall r, c | 0 <= r < 2 * n - 1 && 0 <= c < 2 * m - 1
      ensures StackColumns(a1)[r][c] == a[SourceIndex(r, n)][SourceIndex(c, m)]
    {
      assert a1[r] == a[SourceIndex(r, n)];
    }
  }

  lemma StackCellsNegatedColumns(a: seq<seq<real>>, n: nat, m: nat)
    requires n >= 1 && m >= 1 && Rect(a, n, m)
    ensures Rect(StackColumnsNegated(StackRows(a)), 2 * n - 1, 2 * m - 1)
    ensures forall r, c :: 0 <= r < 2 * n - 1 && 0 <= c < 2 * m - 1 ==>
      StackColumnsNegated(StackRows(a))[r][c] == Sign(c, m) * a[SourceIndex(r, n)][SourceIndex(c, m)]
  {
    var a1 := StackRows(a);
    assert Rect(a1, 2 * n - 1, m);
    forall r, c | 0 <= r < 2 * n - 1 && 0 <= c < 2 * m - 1
      ensures StackColumnsNegated(a1)[r][c] == Sign(c, m) * a[SourceIndex(r, n)][SourceIndex(c, m)]
    {
      assert a1[r] == a[SourceIndex(r, n)];
    }
  }

  lemma StackCellsNegatedRows(a: seq<seq<real>>, n: nat, m: nat)
    requires n >= 1 && m >= 1 && Rect(a, n, m)
    ensures Rect(StackColumns(StackRowsNegated(a)), 2 * n - 1, 2 * m - 1)
    ensures forall r, c :: 0 <= r < 2 * n - 1 && 0 <= c < 2 * m - 1 ==>
      StackColumns(StackRowsNegated(a))[r][c] == Sign(r, n) * a[SourceIndex(r, n)][SourceIndex(c, m)]
  {
    var a1 := StackRowsNegated(a);
    assert Rect(a1, 2 * n - 1, m);
    forall r, c | 0 <= r < 2 * n - 1 && 0 <= c < 2 * m - 1
      ensures StackColumns(a1)[r][c] == Sign(r, n) * a[SourceIndex(r, n)][SourceIndex(c, m)]
    {
      var i := SourceIndex(r, n);
      assert a1[r] == (if r < n - 1 then Negated(a[i]) else a[i]);
    }
  }

  /**
   * The result is (2n - 1) x (2m - 1); each output cell reads source cell
   * (SourceIndex(r, n), SourceIndex(c, m)), the same cell in all three
   * matrices, with r negated in the mirrored columns and z in the mirrored
   * rows.
   */
  lemma UnbendCells(phi: seq<seq<real>>, rs: seq<seq<real>>, zs: seq<seq<real>>, n: nat, m: nat)
    requires n >= 1 && m >= 1
    requires Rect(phi, n, m) && Rect(rs, n, m) && Rect(zs, n, m)
    ensures var u := UnbendPhi2D(phi, rs, zs, n, m);
      Rect(u.phi, 2 * n - 1, 2 * m - 1) && Rect(u.rs, 2 * n - 1, 2 * m - 1) && Rect(u.zs, 2 * n - 1, 2 * m - 1)
    ensures var u := UnbendPhi2D(phi, rs, zs, n, m);
      forall r, c :: 0 <= r < 2 * n - 1 && 0 <= c < 2 * m - 1 ==>
        u.phi[r][c] == phi[SourceIndex(r, n)][SourceIndex(c, m)] &&
        u.rs[r][c] == Sign(c, m) * rs[SourceIndex(r, n)][SourceIndex(c, m)] &&
        u.zs[r][c] == Sign(r, n) * zs[SourceIndex(r, n)][SourceIndex(c, m)]
  {
    StackCells(phi, n, m);
    StackCellsNegatedColumns(rs, n, m);
    StackCellsNegatedRows(zs, n, m);
  }

  // ---------------------------------------------------------------------
  // The mirror image the stacking is meant to produce
  // ---------------------------------------------------------------------

  /**
   * As written, the axis row (source row 0) is read twice, at outputs n - 2
   * and n - 1, and the outermost source row n - 1 only once: the output is
   * not the mirror image of the quadrant.
   */
  lemma AsWrittenRepeatsAxis(n: int)
    requires n >= 2
    ensures SourceIndex(n - 2, n) == 0 && SourceIndex(n - 1, n) == 0
    ensures forall r :: 0 <= r < 2 * n - 1 && SourceIndex(r, n) == n - 1 ==> r == 2 * n - 2
  {
  }

  /** The z column 0, 1, 2 unbends to -1, 0, 0, 1, 2: zero twice, and no -2. */
  lemma AsWrittenCounterexample()
    ensures UnbendPhi2D([[0.0], [0.0], [0.0]], [[0.0], [0.0], [0.0]], [[0.0], [1.0], [2.0]], 3, 1).zs ==
      [[-1.0], [0.0], [0.0], [1.0], [2.0]]
  {
    var zs := [[0.0], [1.0], [2.0]];
    var u := UnbendPhi2D([[0.0], [0.0], [0.0]], [[0.0], [0.0], [0.0]], zs, 3, 1);
    UnbendCells([[0.0], [0.0], [0.0]], [[0.0], [0.0], [0.0]], zs, 3, 1);
    assert |u.zs| == 5;
    assert u.zs[0] == [-1.0] && u.zs[1] == [0.0] && u.zs[2] == [0.0] && u.zs[3] == [1.0] && u.zs[4] == [2.0];
  }

  /** numpy `s[:0:-1]`: every element but the first, in reverse order. */
  function AllButFirstReversed<T>(s: seq<T>): seq<T>
    requires |s| >= 1
  {
    seq(|s| - 1, i requires 0 <= i < |s| - 1 => s[|s| - 1 - i])
  }

  function MirrorRows<T>(a: seq<seq<T>>): seq<seq<T>>
    requires |a| >= 1
  {
    AllButFirstReversed(a) + a
  }

  function MirrorRowsNegated(a: seq<seq<real>>): seq<seq<real>>
    requires |a| >= 1
  {
    var top := AllButFirstReversed(a);
    seq(|top|, i requires 0 <= i < |top| => Negated(top[i])) + a
  }

  function MirrorColumns<T>(a: seq<seq<T>>): seq<seq<T>>
    requires forall i :: 0 <= i < |a| ==> |a[i]| >= 1
  {
    seq(|a|, i requires 0 <= i < |a| => AllButFirstReversed(a[i]) + a[i])
  }

  function MirrorColumnsNegated(a: seq<seq<real>>): seq<seq<real>>
    requires forall i :: 0 <= i < |a| ==> |a[i]| >= 1
  {
    seq(|a|, i requires 0 <= i < |a| => Negated(AllButFirstReversed(a[i])) + a[i])
  }

  /** The unbending with `[:0:-1]` in place of `[-2::-1]`: the mirror image about row 0 and column 0. */
  function UnbendMirrored(phi: seq<seq<real>>, rs: seq<seq<real>>, zs: seq<seq<real>>, n: nat, m: nat): Unbent
    requires n >= 1 && m >= 1
    requires Rect(phi, n, m) && Rect(rs, n, m) && Rect(zs, n, m)
  {
    Unbent(MirrorColumns(MirrorRows(phi)), MirrorColumnsNegated(MirrorRows(rs)), MirrorColumns(MirrorRowsNegated(zs)))
  }

  /** The source index read by the mirror image: the distance from the middle output. */
  function FoldIndex(r: int, n: int): int
  {
    if r < n - 1 then n - 1 - r else r - (n - 1)
  }

  lemma MirrorCells<T>(a: seq<seq<T>>, n: nat, m: nat)
    requires n >= 1 && m >= 1 && Rect(a, n, m)
    ensures Rect(MirrorColumns(MirrorRows(a)), 2 * n - 1, 2 * m - 1)
    ensures forall r, c :: 0 <= r < 2 * n - 1 && 0 <= c < 2 * m - 1 ==>
      MirrorColumns(MirrorRows(a))[r][c] == a[FoldIndex(r, n)][FoldIndex(c, m)]
  {
    var a1 := MirrorRows(a);
    assert Rect(a1, 2 * n - 1, m);
    forall r, c | 0 <= r < 2 * n - 1 && 0 <= c < 2 * m - 1
      ensures MirrorColumns(a1)[r][c] == a[FoldIndex(r, n)][FoldIndex(c, m)]
    {
      assert a1[r] == a[FoldIndex(r, n)];
    }
  }

  lemma MirrorCellsNegatedColumns(a: seq<seq<real>>, n: nat, m: nat)
    requires n >= 1 && m >= 1 && Rect(a, n, m)
    ensures Rect(MirrorColumnsNegated(MirrorRows(a)), 2 * n - 1, 2 * m - 1)
    ensures forall r, c :: 0 <= r < 2 * n - 1 && 0 <= c < 2 * m - 1 ==>
      MirrorColumnsNegated(MirrorRows(a))[r][c] == Sign(c, m) * a[FoldIndex(r, n)][FoldIndex(c, m)]
  {
    var a1 := MirrorRows(a);
    assert Rect(a1, 2 * n - 1, m);
    forall r, c | 0 <= r < 2 * n - 1 && 0 <= c < 2 * m - 1
      ensures MirrorColumnsNegated(a1)[r][c] == Sign(c, m) * a[FoldIndex(r, n)][FoldIndex(c, m)]
    {
      assert a1[r] == a[FoldIndex(r, n)];
    }
  }

  lemma MirrorCellsNegatedRows(a: seq<seq<real>>, n: nat, m: nat)
    requires n >= 1 && m >= 1 && Rect(a, n, m)
    ensures Rect(MirrorColumns(MirrorRowsNegated(a)), 2 * n - 1, 2 * m - 1)
    ensures forall r, c :: 0 <= r < 2 * n - 1 && 0 <= c < 2 * m - 1 ==>
      MirrorColumns(MirrorRowsNegated(a))[r][c] == Sign(r, n) * a[FoldIndex(r, n)][FoldIndex(c, m)]
  {
    var a1 := MirrorRowsNegated(a);
    assert Rect(a1, 2 * n - 1, m);
    forall r, c | 0 <= r < 2 * n - 1 && 0 <= c < 2 * m - 1
      ensures MirrorColumns(a1)[r][c] == Sign(r, n) * a[FoldIndex(r, n)][FoldIndex(c, m)]
    {
      var i := FoldIndex(r, n);
      assert a1[r] == (if r < n - 1 then Negated(a[i]) else a[i]);
    }
  }

  /**
   * The mirror image is (2n - 1) x (2m - 1) and each output cell reads
   * source cell (FoldIndex(r, n), FoldIndex(c, m)), with r negated in the
   * mirrored columns and z in the mirrored rows.
   */
  lemma UnbendMirroredCells(phi: seq<seq<real>>, rs: seq<seq<real>>, zs: seq<seq<real>>, n: nat, m: nat)
    requires n >= 1 && m >= 1
    requires Rect(phi, n, m) && Rect(rs, n, m) && Rect(zs, n, m)
    ensures var u := UnbendMirrored(phi, rs, zs, n, m);
      Rect(u.phi, 2 * n - 1, 2 * m - 1) && Rect(u.rs, 2 * n - 1, 2 * m - 1) && Rect(u.zs, 2 * n - 1, 2 * m - 1)
    ensures var u := UnbendMirrored(phi, rs, zs, n, m);
      forall r, c :: 0 <= r < 2 * n - 1 && 0 <= c < 2 * m - 1 ==>
        u.phi[r][c] == phi[FoldIndex(r, n)][FoldIndex(c, m)] &&
        u.rs[r][c] == Sign(c, m) * rs[FoldIndex(r, n)][FoldIndex(c, m)] &&
        u.zs[r][c] == Sign(r, n) * zs[FoldIndex(r, n)][FoldIndex(c, m)]
  {
    MirrorCells(phi, n, m);
    MirrorCellsNegatedColumns(rs, n, m);
    MirrorCellsNegatedRows(zs, n, m);
  }

  /** A z axis that starts at 0 and strictly increases along the rows. */
  predicate AxisFromZero(zs: seq<seq<real>>, n: nat, m: nat)
    requires Rect(zs, n, m)
  {
    (forall c :: 0 <= c < m && n >= 1 ==> zs[0][c] == 0.0) &&
    (forall i, i', c :: 0 <= i < i' < n && 0 <= c < m ==> zs[i][c] < zs[i'][c])
  }

  /** The mirror image is symmetric: rows r and r' with r + r' == 2n - 2 hold the same potentials. */
  lemma UnbendMirroredSymmetric(phi: seq<seq<real>>, rs: seq<seq<real>>, zs: seq<seq<real>>, n: nat, m: nat)
    requires n >= 1 && m >= 1
    requires Rect(phi, n, m) && Rect(rs, n, m) && Rect(zs, n, m)
    ensures var u := UnbendMirrored(phi, rs, zs, n, m);
      forall r, r', c :: 0 <= r < 2 * n - 1 && 0 <= r' < 2 * n - 1 && r + r' == 2 * n - 2 && 0 <= c < 2 * m - 1 ==>
        u.phi[r][c] == u.phi[r'][c]
  {
    UnbendMirroredCells(phi, rs, zs, n, m);
  }

  /** Rows r and r' with r + r' == 2n - 2 hold opposite z, once the axis row is z = 0. */
  lemma UnbendMirroredOppositeZ(phi: seq<seq<real>>, rs: seq<seq<real>>, zs: seq<seq<real>>, n: nat, m: nat)
    requires n >= 1 && m >= 1
    requires Rect(phi, n, m) && Rect(rs, n, m) && Rect(zs, n, m)
    requires AxisFromZero(zs, n, m)
    ensures var u := UnbendMirrored(phi, rs, zs, n, m);
      forall r, r', c :: 0 <= r < 2 * n - 1 && 0 <= r' < 2 * n - 1 && r + r' == 2 * n - 2 && 0 <= c < 2 * m - 1 ==>
        u.zs[r][c] == -u.zs[r'][c]
  {
    UnbendMirroredCells(phi, rs, zs, n, m);
  }

  /** Output z value at row r, column c, read through the fold. */
  lemma MirroredZ(zs: seq<seq<real>>, n: nat, m: nat, u: seq<seq<real>>, r: int, c: int)
    requires n >= 1 && m >= 1 && Rect(zs, n, m) && Rect(u, 2 * n - 1, 2 * m - 1)
    requires forall r, c :: 0 <= r < 2 * n - 1 && 0 <= c < 2 * m - 1 ==>
      u[r][c] == Sign(r, n) * zs[FoldIndex(r, n)][FoldIndex(c, m)]
    requires 0 <= r < 2 * n - 1 && 0 <= c < 2 * m - 1
    ensures u[r][c] == if r < n - 1 then -zs[n - 1 - r][FoldIndex(c, m)] else zs[r - (n - 1)][FoldIndex(c, m)]
  {
  }

  /** A z axis that starts at 0 and increases unbends to one that increases strictly over the whole output. */
  lemma UnbendMirroredIncreasing(phi: seq<seq<real>>, rs: seq<seq<real>>, zs: seq<seq<real>>, n: nat, m: nat)
    requires n >= 1 && m >= 1
    requires Rect(phi, n, m) && Rect(rs, n, m) && Rect(zs, n, m)
    requires AxisFromZero(zs, n, m)
    ensures var u := UnbendMirrored(phi, rs, zs, n, m);
      forall r, r', c :: 0 <= r < r' < 2 * n - 1 && 0 <= c < 2 * m - 1 ==> u.zs[r][c] < u.zs[r'][c]
  {
    MirrorCellsNegatedRows(zs, n, m);
    var u := UnbendMirrored(phi, rs, zs, n, m).zs;
    forall r, r', c | 0 <= r < r' < 2 * n - 1 && 0 <= c < 2 * m - 1
      ensures u[r][c] < u[r'][c]
    {
      var j := FoldIndex(c, m);
      MirroredZ(zs, n, m, u, r, c);
      MirroredZ(zs, n, m, u, r', c);
      if r' < n - 1 {
        assert zs[n - 1 - r'][j] < zs[n - 1 - r][j];
      } else if r < n - 1 {
        assert zs[0][j] < zs[n - 1 - r][j];
        assert r' == n - 1 || zs[0][j] < zs[r' - (n - 1)][j];
      } else {
        assert zs[r - (n - 1)][j] < zs[r' - (n - 1)][j];
      }
    }
  }

  /** The as-written unbending of the same kind of z axis does not increase strictly. */
  lemma AsWrittenNotIncreasing(phi: seq<seq<real>>, rs: seq<seq<real>>, zs: seq<seq<real>>, n: nat, m: nat)
    requires n >= 2 && m >= 1
    requires Rect(phi, n, m) && Rect(rs, n, m) && Rect(zs, n, m)
    requires AxisFromZero(zs, n, m)
    ensures UnbendPhi2D(phi, rs, zs, n, m).zs[n - 2][m - 1] == UnbendPhi2D(phi, rs, zs, n, m).zs[n - 1][m - 1]
  {
    UnbendCells(phi, rs, zs, n, m);
  }
}
