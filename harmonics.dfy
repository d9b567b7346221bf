/**
 * comet_calculator.py: the even axial solid harmonics in which the
 * averaged trap potential Phi(R, Z) is expanded, their companions
 * `_dY_k`, the design matrix of the least-squares fit, and the comet
 * formation time estimate.  To give the derivatives a meaning, each
 * harmonic is also written as a polynomial, a list of terms c R^i Z^j,
 * with formal partial derivatives.
 */
module Harmonics {
  import opened Points

  // ---------------------------------------------------------------------
  // The basis as the source computes it
  // ---------------------------------------------------------------------

  /** `_y_0`. */
  function Y0(r: real, z: real): real
  {
    r * 0.0 + 1.0
  }

  /** `_y_2`. */
  function Y2(r: real, z: real): real
  {
    z * z - 0.5 * (r * r)
  }

  /** `_y_3`. */
  function Y3(r: real, z: real): real
  {
    z * (2.0 * (z * z) - 3.0 * (r * r))
  }

  /** `_y_4`. */
  function Y4(r: real, z: real): real
  {
    8.0 * (z * z * z * z) - 24.0 * (z * z) * (r * r) + 3.0 * (r * r * r * r)
  }

  /** `_y_6`. */
  function Y6(r: real, z: real): real
  {
    16.0 * (z * z * z * z * z * z) - 120.0 * (z * z * z * z) * (r * r)
      + 90.0 * (z * z) * (r * r * r * r) - 5.0 * (r * r * r * r * r * r)
  }

  /** `_dY_2`. */
  function DY2(r: real, z: real): real
  {
    r * 0.0 + 1.0
  }

  /** `_dY_4`. */
  function DY4(r: real, z: real): real
  {
    48.0 * (z * z) - 12.0 * (r * r)
  }

  /** `_dY_6`. */
  function DY6(r: real, z: real): real
  {
    240.0 * (z * z * z * z) - 360.0 * (z * z) * (r * r) + 30.0 * (r * r * r * r)
  }

  // ---------------------------------------------------------------------
  // Polynomials in R and Z and their partial derivatives
  // ---------------------------------------------------------------------

  /** The term c R^i Z^j. */
  datatype Term = Term(c: real, i: nat, j: nat)

  function Pow(x: real, n: nat): real
  {
    if n == 0 then 1.0 else x * Pow(x, n - 1)
  }

  function EvalTerm(t: Term, r: real, z: real): real
  {
    t.c * Pow(r, t.i) * Pow(z, t.j)
  }

  /** The value of a sum of terms. */
  function Eval(p: seq<Term>, r: real, z: real): real
  {
    if |p| == 0 then 0.0 else EvalTerm(p[0], r, z) + Eval(p[1..], r, z)
  }

  /** d/dR of a term: c i R^(i-1) Z^j, and zero for a term without R. */
  function DTermR(t: Term): Term
  {
    if t.i == 0 then Term(0.0, 0, 0) else Term(t.c * t.i as real, t.i - 1, t.j)
  }

  /** d/dZ of a term. */
  function DTermZ(t: Term): Term
  {
    if t.j == 0 then Term(0.0, 0, 0) else Term(t.c * t.j as real, t.i, t.j - 1)
  }

  /** The partial derivative in R, term by term. */
  function DR(p: seq<Term>): (q: seq<Term>)
    ensures |q| == |p| && forall k :: 0 <= k < |p| ==> q[k] == DTermR(p[k])
  {
    if |p| == 0 then [] else [DTermR(p[0])] + DR(p[1..])
  }

  /** The partial derivative in Z, term by term. */
  function DZ(p: seq<Term>): (q: seq<Term>)
    ensures |q| == |p| && forall k :: 0 <= k < |p| ==> q[k] == DTermZ(p[k])
  {
    if |p| == 0 then [] else [DTermZ(p[0])] + DZ(p[1..])
  }

  function Y2Poly(): seq<Term>
  {
    [Term(1.0, 0, 2), Term(-0.5, 2, 0)]
  }

  function Y4Poly(): seq<Term>
  {
    [Term(8.0, 0, 4), Term(-24.0, 2, 2), Term(3.0, 4, 0)]
  }

  function Y6Poly(): seq<Term>
  {
    [Term(16.0, 0, 6), Term(-120.0, 2, 4), Term(90.0, 4, 2), Term(-5.0, 6, 0)]
  }

  /** Powers up to six written out. */
  lemma PowSmall(x: real)
    ensures Pow(x, 0) == 1.0 && Pow(x, 1) == x && Pow(x, 2) == x * x && Pow(x, 3) == x * x * x
    ensures Pow(x, 4) == x * x * x * x && Pow(x, 5) == x * x * x * x * x
    ensures Pow(x, 6) == x * x * x * x * x * x
  {
    assert Pow(x, 1) == x * Pow(x, 0);
    assert Pow(x, 2) == x * Pow(x, 1);
    assert Pow(x, 3) == x * Pow(x, 2);
    assert Pow(x, 4) == x * Pow(x, 3);
    assert Pow(x, 5) == x * Pow(x, 4);
    assert Pow(x, 6) == x * Pow(x, 5);
  }

  /** A sum of two, three or four terms written out. */
  lemma EvalSmall(p: seq<Term>, r: real, z: real)
    requires 2 <= |p| <= 4
    ensures |p| == 2 ==> Eval(p, r, z) == EvalTerm(p[0], r, z) + EvalTerm(p[1], r, z)
    ensures |p| == 3 ==> Eval(p, r, z) == EvalTerm(p[0], r, z) + EvalTerm(p[1], r, z) + EvalTerm(p[2], r, z)
    ensures |p| == 4 ==>
      Eval(p, r, z) == EvalTerm(p[0], r, z) + EvalTerm(p[1], r, z) + EvalTerm(p[2], r, z) + EvalTerm(p[3], r, z)
  {
    var last := p[|p| - 1..];
    assert last[1..] == [];
    assert Eval(last, r, z) == EvalTerm(p[|p| - 1], r, z) + Eval([], r, z);
    if |p| >= 3 {
      assert p[|p| - 2..][1..] == last;
      assert Eval(p[|p| - 2..], r, z) == EvalTerm(p[|p| - 2], r, z) + Eval(last, r, z);
    }
    if |p| == 4 {
      assert p[1..][1..] == p[2..];
    }
  }

  // ---------------------------------------------------------------------
  // What the basis satisfies
  // ---------------------------------------------------------------------

  /** The source's harmonics are the values of the three polynomials. */
  lemma PolynomialsMatch(r: real, z: real)
    ensures Eval(Y2Poly(), r, z) == Y2(r, z)
    ensures Eval(Y4Poly(), r, z) == Y4(r, z)
    ensures Eval(Y6Poly(), r, z) == Y6(r, z)
  {
    PowSmall(r);
    PowSmall(z);
    EvalSmall(Y2Poly(), r, z);
    EvalSmall(Y4Poly(), r, z);
    EvalSmall(Y6Poly(), r, z);
  }

  /** `_y_0` and `_dY_2` are the constant 1. */
  lemma ConstantMembers(r: real, z: real)
    ensures Y0(r, z) == 1.0 && DY2(r, z) == 1.0
  {
  }

  /** Y2, Y4, Y6, dY4 and dY6 are even in R and in Z; Y3 is even in R and odd in Z. */
  lemma Parity(r: real, z: real)
    ensures Y2(-r, z) == Y2(r, z) == Y2(r, -z)
    ensures Y4(-r, z) == Y4(r, z) == Y4(r, -z)
    ensures Y6(-r, z) == Y6(r, z) == Y6(r, -z)
    ensures DY4(-r, z) == DY4(r, z) == DY4(r, -z)
    ensures DY6(-r, z) == DY6(r, z) == DY6(r, -z)
    ensures Y3(-r, z) == Y3(r, z) && Y3(r, -z) == -Y3(r, z)
  {
  }

  /** Y_k is homogeneous of degree k: scaling R and Z by t scales it by t^k. */
  lemma Homogeneity(t: real, r: real, z: real)
    ensures Y2(t * r, t * z) == Pow(t, 2) * Y2(r, z)
    ensures Y3(t * r, t * z) == Pow(t, 3) * Y3(r, z)
    ensures Y4(t * r, t * z) == Pow(t, 4) * Y4(r, z)
    ensures Y6(t * r, t * z) == Pow(t, 6) * Y6(r, z)
  {
    PowSmall(t);
  }

  /** R dY_k = -dY_k/dR: the companions are the radial derivatives divided by -R. */
  lemma CompanionsAreRadialDerivatives(r: real, z: real)
    ensures r * DY2(r, z) == -Eval(DR(Y2Poly()), r, z)
    ensures r * DY4(r, z) == -Eval(DR(Y4Poly()), r, z)
    ensures r * DY6(r, z) == -Eval(DR(Y6Poly()), r, z)
  {
    PowSmall(r);
    PowSmall(z);
    assert DR(Y2Poly()) == [Term(0.0, 0, 0), Term(-1.0, 1, 0)];
    assert DR(Y4Poly()) == [Term(0.0, 0, 0), Term(-48.0, 1, 2), Term(12.0, 3, 0)];
    assert DR(Y6Poly()) == [Term(0.0, 0, 0), Term(-240.0, 1, 4), Term(360.0, 3, 2), Term(-30.0, 5, 0)];
    EvalSmall(DR(Y2Poly()), r, z);
    EvalSmall(DR(Y4Poly()), r, z);
    EvalSmall(DR(Y6Poly()), r, z);
  }

  /** The axial Laplacian d2/dZ2 + d2/dR2 + (1/R) d/dR from the three derivatives at a point off the axis. */
  function AxialLaplace(d2z: real, d2r: real, dr: real, r: real): real
    requires r != 0.0
  {
    d2z + d2r + dr / r
  }

  /** The same sum multiplied through by R, defined on the axis too. */
  function AxialLaplaceTimesR(d2z: real, d2r: real, dr: real, r: real): real
  {
    r * (d2z + d2r) + dr
  }

  /** Axial Laplace equation of a polynomial, multiplied through by R. */
  function LaplaceTimesR(p: seq<Term>, r: real, z: real): real
  {
    AxialLaplaceTimesR(Eval(DZ(DZ(p)), r, z), Eval(DR(DR(p)), r, z), Eval(DR(p), r, z), r)
  }

  /** The Laplacian of a polynomial itself, off the axis. */
  function Laplace(p: seq<Term>, r: real, z: real): real
    requires r != 0.0
  {
    AxialLaplace(Eval(DZ(DZ(p)), r, z), Eval(DR(DR(p)), r, z), Eval(DR(p), r, z), r)
  }

  /** Off the axis the multiplied form is R times the Laplacian, so the Laplacian vanishes when it does. */
  lemma LaplaceOffAxis(d2z: real, d2r: real, dr: real, r: real)
    requires r != 0.0
    ensures AxialLaplace(d2z, d2r, dr, r) * r == AxialLaplaceTimesR(d2z, d2r, dr, r)
    ensures AxialLaplaceTimesR(d2z, d2r, dr, r) == 0.0 ==> AxialLaplace(d2z, d2r, dr, r) == 0.0
  {
    var l := AxialLaplace(d2z, d2r, dr, r);
    DivCancel(dr, r);
    assert l * r == (d2z + d2r) * r + (dr / r) * r;
    if l != 0.0 {
      NonZeroProduct(l, r);
    }
  }

  lemma NonZeroProduct(a: real, b: real)
    requires a != 0.0 && b != 0.0
    ensures a * b != 0.0
  {
  }

  /** Y2 solves the axial Laplace equation. */
  lemma Y2IsHarmonic(r: real, z: real)
    ensures LaplaceTimesR(Y2Poly(), r, z) == 0.0
    ensures r != 0.0 ==> Laplace(Y2Poly(), r, z) == 0.0
  {
    PowSmall(r);
    PowSmall(z);
    assert DZ(DZ(Y2Poly())) == [Term(2.0, 0, 0), Term(0.0, 0, 0)];
    assert DR(Y2Poly()) == [Term(0.0, 0, 0), Term(-1.0, 1, 0)];
    assert DR(DR(Y2Poly())) == [Term(0.0, 0, 0), Term(-1.0, 0, 0)];
    EvalSmall(DZ(DZ(Y2Poly())), r, z);
    EvalSmall(DR(DR(Y2Poly())), r, z);
    EvalSmall(DR(Y2Poly()), r, z);
    if r != 0.0 {
      LaplaceOffAxis(Eval(DZ(DZ(Y2Poly())), r, z), Eval(DR(DR(Y2Poly())), r, z), Eval(DR(Y2Poly()), r, z), r);
    }
  }

  /** The derivatives of Y4 that enter the Laplacian, written out. */
  lemma Y4Derivatives(r: real, z: real)
    ensures Eval(DZ(DZ(Y4Poly())), r, z) == 96.0 * (z * z) - 48.0 * (r * r)
    ensures Eval(DR(DR(Y4Poly())), r, z) == -48.0 * (z * z) + 36.0 * (r * r)
    ensures Eval(DR(Y4Poly()), r, z) == -48.0 * r * (z * z) + 12.0 * (r * r * r)
  {
    PowSmall(r);
    PowSmall(z);
    assert DZ(DZ(Y4Poly())) == [Term(96.0, 0, 2), Term(-48.0, 2, 0), Term(0.0, 0, 0)];
    assert DR(Y4Poly()) == [Term(0.0, 0, 0), Term(-48.0, 1, 2), Term(12.0, 3, 0)];
    assert DR(DR(Y4Poly())) == [Term(0.0, 0, 0), Term(-48.0, 0, 2), Term(36.0, 2, 0)];
    EvalSmall(DZ(DZ(Y4Poly())), r, z);
    EvalSmall(DR(DR(Y4Poly())), r, z);
    EvalSmall(DR(Y4Poly()), r, z);
  }

  /** Y4 solves the axial Laplace equation. */
  lemma Y4IsHarmonic(r: real, z: real)
    ensures LaplaceTimesR(Y4Poly(), r, z) == 0.0
    ensures r != 0.0 ==> Laplace(Y4Poly(), r, z) == 0.0
  {
    Y4Derivatives(r, z);
    if r != 0.0 {
      LaplaceOffAxis(Eval(DZ(DZ(Y4Poly())), r, z), Eval(DR(DR(Y4Poly())), r, z), Eval(DR(Y4Poly()), r, z), r);
    }
  }

  /** d2Y6/dZ2 written out. */
  lemma Y6SecondZ(r: real, z: real)
    ensures Eval(DZ(DZ(Y6Poly())), r, z) == 480.0 * (z * z * z * z) - 1440.0 * (r * r) * (z * z) + 180.0 * (r * r * r * r)
  {
    PowSmall(r);
    PowSmall(z);
    assert DZ(DZ(Y6Poly())) == [Term(480.0, 0, 4), Term(-1440.0, 2, 2), Term(180.0, 4, 0), Term(0.0, 0, 0)];
    EvalSmall(DZ(DZ(Y6Poly())), r, z);
  }

  /** dY6/dR written out. */
  lemma Y6FirstR(r: real, z: real)
    ensures Eval(DR(Y6Poly()), r, z) ==
      -240.0 * r * (z * z * z * z) + 360.0 * (r * r * r) * (z * z) - 30.0 * (r * r * r * r * r)
  {
    PowSmall(r);
    PowSmall(z);
    assert DR(Y6Poly()) == [Term(0.0, 0, 0), Term(-240.0, 1, 4), Term(360.0, 3, 2), Term(-30.0, 5, 0)];
    EvalSmall(DR(Y6Poly()), r, z);
  }

  /** d2Y6/dR2 written out. */
  lemma Y6SecondR(r: real, z: real)
    ensures Eval(DR(DR(Y6Poly())), r, z) ==
      -240.0 * (z * z * z * z) + 1080.0 * (r * r) * (z * z) - 150.0 * (r * r * r * r)
  {
    PowSmall(r);
    PowSmall(z);
    assert DR(DR(Y6Poly())) == [Term(0.0, 0, 0), Term(-240.0, 0, 4), Term(1080.0, 2, 2), Term(-150.0, 4, 0)];
    EvalSmall(DR(DR(Y6Poly())), r, z);
  }

  /** Y6 solves the axial Laplace equation. */
  lemma Y6IsHarmonic(r: real, z: real)
    ensures LaplaceTimesR(Y6Poly(), r, z) == 0.0
    ensures r != 0.0 ==> Laplace(Y6Poly(), r, z) == 0.0
  {
    Y6SecondZ(r, z);
    Y6FirstR(r, z);
    Y6SecondR(r, z);
    if r != 0.0 {
      LaplaceOffAxis(Eval(DZ(DZ(Y6Poly())), r, z), Eval(DR(DR(Y6Poly())), r, z), Eval(DR(Y6Poly()), r, z), r);
    }
  }

  // ---------------------------------------------------------------------
  // The least-squares system and the comet time
  // ---------------------------------------------------------------------

  /** numpy's `flatten`: the rows one after another. */
  function Flatten(m: seq<seq<real>>): (f: seq<real>)
  {
    if |m| == 0 then [] else m[0] + Flatten(m[1..])
  }

  /** Every row has `cols` entries. */
  predicate Rectangular(m: seq<seq<real>>, cols: nat)
  {
    forall i :: 0 <= i < |m| ==> |m[i]| == cols
  }

  /** One row of the design matrix of `get_Y_coefs`: [y0, y2, y4, y6] at (R/d, Z/d). */
  function DesignRow(r: real, z: real, d: real): seq<real>
    requires d != 0.0
  {
    var rr, zz := r / d, z / d;
    [Y0(rr, zz), Y2(rr, zz), Y4(rr, zz), Y6(rr, zz)]
  }

  /** The design matrix A, one row per flattened sample, and the right-hand side B, the flattened potential. */
  function YCoefSystem(rs: seq<seq<real>>, zs: seq<seq<real>>, phi: seq<seq<real>>, d: real): (ab: (seq<seq<real>>, seq<real>))
    requires d != 0.0 && |Flatten(rs)| == |Flatten(zs)|
  {
    var rf, zf := Flatten(rs), Flatten(zs);
    (seq(|rf|, k requires 0 <= k < |rf| => DesignRow(rf[k], zf[k], d)), Flatten(phi))
  }

  /** A rectangular grid of n rows flattens to n cols entries. */
  lemma {:induction false} FlattenLength(m: seq<seq<real>>, cols: nat)
    requires Rectangular(m, cols)
    ensures |Flatten(m)| == |m| * cols
    decreases |m|
  {
    if |m| > 0 {
      FlattenLength(m[1..], cols);
      assert (|m| - 1) * cols + cols == |m| * cols;
    }
  }

  /** Row-major order: entry (i, j) of a rectangular grid is entry i cols + j of its flattening. */
  lemma {:induction false} FlattenRowMajor(m: seq<seq<real>>, cols: nat, i: int, j: int)
    requires Rectangular(m, cols) && 0 <= i < |m| && 0 <= j < cols
    ensures i * cols + j < |Flatten(m)| && Flatten(m)[i * cols + j] == m[i][j]
    decreases |m|
  {
    if i > 0 {
      FlattenRowMajor(m[1..], cols, i - 1, j);
      assert m[1..][i - 1] == m[i];
      assert (i - 1) * cols + j + cols == i * cols + j;
    }
  }

  /**
   * For grids of one shape, row i cols + j of A is the basis at sample
   * (i, j) scaled by d, and entry i cols + j of B is the potential at the
   * same sample: A and B list the samples in the same order.
   */
  lemma DesignMatrixAligned(rs: seq<seq<real>>, zs: seq<seq<real>>, phi: seq<seq<real>>, d: real, cols: nat, i: int, j: int)
    requires d != 0.0 && |rs| == |zs| == |phi|
    requires Rectangular(rs, cols) && Rectangular(zs, cols) && Rectangular(phi, cols)
    requires 0 <= i < |rs| && 0 <= j < cols
    ensures |Flatten(rs)| == |Flatten(zs)|
    ensures var ab := YCoefSystem(rs, zs, phi, d);
      |ab.0| == |ab.1| == |rs| * cols && 0 <= i * cols + j < |ab.0| &&
      ab.0[i * cols + j] == DesignRow(rs[i][j], zs[i][j], d) && ab.1[i * cols + j] == phi[i][j]
  {
    FlattenLength(rs, cols);
    FlattenLength(zs, cols);
    FlattenLength(phi, cols);
    FlattenRowMajor(rs, cols, i, j);
    FlattenRowMajor(zs, cols, i, j);
    FlattenRowMajor(phi, cols, i, j);
  }

  /**
   * Scaling by d: the row of the sample (d r, d z) is the basis at
   * (r, z), so the fitted coefficients are those of the potential with
   * lengths measured in units of d.
   */
  lemma ScaledRow(r: real, z: real, d: real)
    requires d != 0.0
    ensures DesignRow(d * r, d * z, d) == [1.0, Y2(r, z), Y4(r, z), Y6(r, z)]
  {
    MulCommutes(d, r);
    MulCommutes(d, z);
    DivCancel(r, d);
    DivCancel(z, d);
    assert (d * r) / d == r && (d * z) / d == z;
  }

  lemma MulCommutes(x: real, y: real)
    ensures x * y == y * x
  {
  }

  /** `estimate_comet_time_formation`: 2 pi / (max - min), which needs the two frequencies to differ. */
  function CometTime(minOmega: real, maxOmega: real): (t: real)
    requires maxOmega != minOmega
    ensures t * (maxOmega - minOmega) == 2.0 * Pi
  {
    DivCancel(2.0 * Pi, maxOmega - minOmega);
    2.0 * Pi / (maxOmega - minOmega)
  }

  /** The time is positive exactly when the frequencies are in order, and swapping them negates it. */
  lemma CometTimeSign(minOmega: real, maxOmega: real)
    requires maxOmega != minOmega
    ensures CometTime(minOmega, maxOmega) > 0.0 <==> maxOmega > minOmega
    ensures CometTime(maxOmega, minOmega) == -CometTime(minOmega, maxOmega)
  {
    var t, t' := CometTime(minOmega, maxOmega), CometTime(maxOmega, minOmega);
    var delta := maxOmega - minOmega;
    assert t' * delta == -(2.0 * Pi);
    assert (t' + t) * delta == 0.0;
    if maxOmega > minOmega {
      MulStrict(0.0, t, delta);
    }
  }
}
