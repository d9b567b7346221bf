/**
 * `_numerical_phi_cartesian` and `_get_float_ind` (utils_for_trap.py): the
 * potential at a point in space, interpolated trilinearly from the eight
 * grid voxels around it.  The potential read at a voxel
 * (`pa.potential_real`) is the parameter `phi`.
 */
module Interpolation {
  import opened Points

  /** `_get_float_ind`: the coordinates in units of the grid step. */
  function FloatIndex(c: Vec, step: real): (r: Vec)
    requires step != 0.0
    ensures r.0 * step == c.0 && r.1 * step == c.1 && r.2 * step == c.2
  {
    (c.0 / step, c.1 / step, c.2 / step)
  }

  /** The potentials at the eight corners of the cell, named by their offsets along x, y and z. */
  datatype Corners = Corners(p000: real, p001: real, p010: real, p011: real,
                             p100: real, p101: real, p110: real, p111: real)

  /** The corners of the cell whose lowest corner is (i, j, k). */
  function CornersAt(phi: Point -> real, i: int, j: int, k: int): Corners
  {
    Corners(phi((i, j, k)), phi((i, j, k + 1)), phi((i, j + 1, k)), phi((i, j + 1, k + 1)),
            phi((i + 1, j, k)), phi((i + 1, j, k + 1)), phi((i + 1, j + 1, k)), phi((i + 1, j + 1, k + 1)))
  }

  /** The weighted average, term by term in the order of the source. */
  function Trilinear(alpha: real, beta: real, gamma: real, c: Corners): real
  {
    alpha * beta * gamma * c.p111
    + alpha * (1.0 - beta) * gamma * c.p101
    + alpha * beta * (1.0 - gamma) * c.p110
    + alpha * (1.0 - beta) * (1.0 - gamma) * c.p100
    + (1.0 - alpha) * beta * gamma * c.p011
    + (1.0 - alpha) * (1.0 - beta) * gamma * c.p001
    + (1.0 - alpha) * beta * (1.0 - gamma) * c.p010
    + (1.0 - alpha) * (1.0 - beta) * (1.0 - gamma) * c.p000
  }

  /** `_numerical_phi_cartesian`: floor the float index, keep the fractional parts as weights. */
  function NumericalPhi(phi: Point -> real, step: real, c: Vec): real
    requires step != 0.0
  {
    var f := FloatIndex(c, step);
    var i, j, k := f.0.Floor, f.1.Floor, f.2.Floor;
    Trilinear(f.0 - i as real, f.1 - j as real, f.2 - k as real, CornersAt(phi, i, j, k))
  }

  /** The fractional parts used as weights lie in [0, 1). */
  lemma FractionsInUnitInterval(step: real, c: Vec)
    requires step != 0.0
    ensures var f := FloatIndex(c, step);
      0.0 <= f.0 - f.0.Floor as real < 1.0 && 0.0 <= f.1 - f.1.Floor as real < 1.0 && 0.0 <= f.2 - f.2.Floor as real < 1.0
  {
  }

  /** The eight weights, one per corner. */
  function Weights(alpha: real, beta: real, gamma: real): Corners
  {
    Corners((1.0 - alpha) * (1.0 - beta) * (1.0 - gamma), (1.0 - alpha) * (1.0 - beta) * gamma,
            (1.0 - alpha) * beta * (1.0 - gamma), (1.0 - alpha) * beta * gamma,
            alpha * (1.0 - beta) * (1.0 - gamma), alpha * (1.0 - beta) * gamma,
            alpha * beta * (1.0 - gamma), alpha * beta * gamma)
  }

  function Total(w: Corners): real
  {
    w.p000 + w.p001 + w.p010 + w.p011 + w.p100 + w.p101 + w.p110 + w.p111
  }

  predicate NonNegative(w: Corners)
  {
    w.p000 >= 0.0 && w.p001 >= 0.0 && w.p010 >= 0.0 && w.p011 >= 0.0 &&
    w.p100 >= 0.0 && w.p101 >= 0.0 && w.p110 >= 0.0 && w.p111 >= 0.0
  }

  /** All eight corner potentials lie in [lo, hi]. */
  predicate Within(c: Corners, lo: real, hi: real)
  {
    lo <= c.p000 <= hi && lo <= c.p001 <= hi && lo <= c.p010 <= hi && lo <= c.p011 <= hi &&
    lo <= c.p100 <= hi && lo <= c.p101 <= hi && lo <= c.p110 <= hi && lo <= c.p111 <= hi
  }

  lemma MulNonNeg(a: real, b: real)
    requires 0.0 <= a && 0.0 <= b
    ensures 0.0 <= a * b
  {
  }

  lemma SplitOff(x: real, g: real)
    ensures x * (1.0 - g) + x * g == x
  {
  }

  /** The eight weights sum to one, whatever the fractions. */
  lemma WeightsTotal(alpha: real, beta: real, gamma: real)
    ensures Total(Weights(alpha, beta, gamma)) == 1.0
  {
    SplitOff((1.0 - alpha) * (1.0 - beta), gamma);
    SplitOff((1.0 - alpha) * beta, gamma);
    SplitOff(alpha * (1.0 - beta), gamma);
    SplitOff(alpha * beta, gamma);
    SplitOff(1.0 - alpha, beta);
    SplitOff(alpha, beta);
  }

  lemma TripleNonNeg(x: real, y: real, z: real)
    requires 0.0 <= x && 0.0 <= y && 0.0 <= z
    ensures 0.0 <= x * y * z
  {
    MulNonNeg(x, y);
    MulNonNeg(x * y, z);
  }

  /** For fractions in [0, 1] each of the eight weights is non-negative. */
  lemma WeightsNonNegative(alpha: real, beta: real, gamma: real)
    requires 0.0 <= alpha <= 1.0 && 0.0 <= beta <= 1.0 && 0.0 <= gamma <= 1.0
    ensures NonNegative(Weights(alpha, beta, gamma))
  {
    var w := Weights(alpha, beta, gamma);
    assert w.p000 >= 0.0 by { TripleNonNeg(1.0 - alpha, 1.0 - beta, 1.0 - gamma); }
    assert w.p001 >= 0.0 by { TripleNonNeg(1.0 - alpha, 1.0 - beta, gamma); }
    assert w.p010 >= 0.0 by { TripleNonNeg(1.0 - alpha, beta, 1.0 - gamma); }
    assert w.p011 >= 0.0 by { TripleNonNeg(1.0 - alpha, beta, gamma); }
    assert w.p100 >= 0.0 by { TripleNonNeg(alpha, 1.0 - beta, 1.0 - gamma); }
    assert w.p101 >= 0.0 by { TripleNonNeg(alpha, 1.0 - beta, gamma); }
    assert w.p110 >= 0.0 by { TripleNonNeg(alpha, beta, 1.0 - gamma); }
    assert w.p111 >= 0.0 by { TripleNonNeg(alpha, beta, gamma); }
  }

  /** For weights in [0, 1] the eight weights are non-negative and sum to one. */
  lemma WeightsConvex(alpha: real, beta: real, gamma: real)
    requires 0.0 <= alpha <= 1.0 && 0.0 <= beta <= 1.0 && 0.0 <= gamma <= 1.0
    ensures NonNegative(Weights(alpha, beta, gamma))
    ensures Total(Weights(alpha, beta, gamma)) == 1.0
  {
    WeightsNonNegative(alpha, beta, gamma);
    WeightsTotal(alpha, beta, gamma);
  }

  /** The weighted sum of corner values. */
  function Dot(w: Corners, c: Corners): real
  {
    w.p000 * c.p000 + w.p001 * c.p001 + w.p010 * c.p010 + w.p011 * c.p011 +
    w.p100 * c.p100 + w.p101 * c.p101 + w.p110 * c.p110 + w.p111 * c.p111
  }

  /** The source's term-by-term sum is the weighted sum with the eight weights. */
  lemma TrilinearIsDot(alpha: real, beta: real, gamma: real, c: Corners)
    ensures Trilinear(alpha, beta, gamma, c) == Dot(Weights(alpha, beta, gamma), c)
  {
    var a, b, g := 1.0 - alpha, 1.0 - beta, 1.0 - gamma;
    SumReorder(alpha * beta * gamma * c.p111, alpha * b * gamma * c.p101,
               alpha * beta * g * c.p110, alpha * b * g * c.p100,
               a * beta * gamma * c.p011, a * b * gamma * c.p001,
               a * beta * g * c.p010, a * b * g * c.p000);
  }

  lemma SumReorder(t111: real, t101: real, t110: real, t100: real, t011: real, t001: real, t010: real, t000: real)
    ensures t111 + t101 + t110 + t100 + t011 + t001 + t010 + t000 ==
      t000 + t001 + t010 + t011 + t100 + t101 + t110 + t111
  {
  }

  /** Each corner value minus `d`. */
  function Offset(c: Corners, d: real): Corners
  {
    Corners(c.p000 - d, c.p001 - d, c.p010 - d, c.p011 - d,
            c.p100 - d, c.p101 - d, c.p110 - d, c.p111 - d)
  }

  /** `d` minus each corner value. */
  function Headroom(c: Corners, d: real): Corners
  {
    Corners(d - c.p000, d - c.p001, d - c.p010, d - c.p011,
            d - c.p100, d - c.p101, d - c.p110, d - c.p111)
  }

  /** Non-negative weights of non-negative values give a non-negative sum. */
  lemma DotNonNegative(w: Corners, c: Corners)
    requires NonNegative(w) && NonNegative(c)
    ensures Dot(w, c) >= 0.0
  {
    MulNonNeg(w.p000, c.p000);
    MulNonNeg(w.p001, c.p001);
    MulNonNeg(w.p010, c.p010);
    MulNonNeg(w.p011, c.p011);
    MulNonNeg(w.p100, c.p100);
    MulNonNeg(w.p101, c.p101);
    MulNonNeg(w.p110, c.p110);
    MulNonNeg(w.p111, c.p111);
  }

  lemma DotOffset(w: Corners, c: Corners, d: real)
    ensures Dot(w, Offset(c, d)) == Dot(w, c) - d * Total(w)
  {
  }

  lemma DotHeadroom(w: Corners, c: Corners, d: real)
    ensures Dot(w, Headroom(c, d)) == d * Total(w) - Dot(w, c)
  {
  }

  /** Non-negative weights keep the weighted sum between the extreme values times the total weight. */
  lemma DotBetween(w: Corners, c: Corners, lo: real, hi: real)
    requires NonNegative(w) && Within(c, lo, hi)
    ensures lo * Total(w) <= Dot(w, c) <= hi * Total(w)
  {
    DotNonNegative(w, Offset(c, lo));
    DotOffset(w, c, lo);
    DotNonNegative(w, Headroom(c, hi));
    DotHeadroom(w, c, hi);
  }

  /**
   * With weights in [0, 1] the interpolated potential lies between any
   * lower and upper bound of the eight corner potentials.
   */
  lemma TrilinearBetween(alpha: real, beta: real, gamma: real, c: Corners, lo: real, hi: real)
    requires 0.0 <= alpha <= 1.0 && 0.0 <= beta <= 1.0 && 0.0 <= gamma <= 1.0
    requires Within(c, lo, hi)
    ensures lo <= Trilinear(alpha, beta, gamma, c) <= hi
  {
    var w := Weights(alpha, beta, gamma);
    WeightsConvex(alpha, beta, gamma);
    TrilinearIsDot(alpha, beta, gamma, c);
    DotBetween(w, c, lo, hi);
    TimesOne(lo, Total(w));
    TimesOne(hi, Total(w));
  }

  lemma TimesOne(x: real, t: real)
    requires t == 1.0
    ensures x * t == x
  {
  }

  /** The interpolated potential lies between any bounds of the eight corner potentials it reads. */
  lemma NumericalPhiBetween(phi: Point -> real, step: real, c: Vec, lo: real, hi: real)
    requires step != 0.0
    requires var f := FloatIndex(c, step); Within(CornersAt(phi, f.0.Floor, f.1.Floor, f.2.Floor), lo, hi)
    ensures lo <= NumericalPhi(phi, step, c) <= hi
  {
    var f := FloatIndex(c, step);
    FractionsInUnitInterval(step, c);
    TrilinearBetween(f.0 - f.0.Floor as real, f.1 - f.1.Floor as real, f.2 - f.2.Floor as real,
                     CornersAt(phi, f.0.Floor, f.1.Floor, f.2.Floor), lo, hi);
  }

  /** At a grid point the interpolation returns the potential stored there. */
  lemma NumericalPhiAtGridPoint(phi: Point -> real, step: real, i: int, j: int, k: int)
    requires step != 0.0
    ensures NumericalPhi(phi, step, (i as real * step, j as real * step, k as real * step)) == phi((i, j, k))
  {
    var f := FloatIndex((i as real * step, j as real * step, k as real * step), step);
    assert f.0 * step == i as real * step;
    assert f.0 == i as real;
    assert f.1 * step == j as real * step;
    assert f.1 == j as real;
    assert f.2 * step == k as real * step;
    assert f.2 == k as real;
    var c := CornersAt(phi, i, j, k);
    assert Trilinear(0.0, 0.0, 0.0, c) == c.p000;
  }
}
