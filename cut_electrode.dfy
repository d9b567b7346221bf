/**
 * The shell electrodes of traps/abstract_penning_with_simple_electrode_trap.py.
 *
 * A trap variant describes each electrode by a "simple condition", a
 * half-space such as z >= z0 whose boundary is the inner surface.  The
 * electrode itself is only the shell of that half-space one electrode
 * width thick: a point where the condition fails is inside the trap (-1);
 * a point where it holds but fails again after stepping back by the width
 * along some non-empty set of directions is on the shell (0); any other
 * point is beyond the shell (+1).
 *
 * Directions are axis numbers 0, 1, 2 of the coordinate triple; the source
 * passes them as a Python set, which it turns into a list in increasing
 * order for the small integers used here.
 */
module CutElectrode {
  import opened Wrappers
  import opened Points

  /** The axes of a coordinate triple. */
  predicate IsAxis(a: int)
  {
    0 <= a <= 2
  }

  predicate AllAxes(ds: seq<int>)
  {
    forall n :: 0 <= n < |ds| ==> IsAxis(ds[n])
  }

  /** Every axis in `s` is one of the directions `ds`. */
  predicate Among(s: set<int>, ds: seq<int>)
  {
    forall x :: x in s ==> x in ds
  }

  /** The point with `w` subtracted along every axis of `axes`. */
  function Shift(p: Vec, axes: set<int>, w: real): Vec
  {
    (if 0 in axes then p.0 - w else p.0,
     if 1 in axes then p.1 - w else p.1,
     if 2 in axes then p.2 - w else p.2)
  }

  // ---------------------------------------------------------------------
  // _gen_coords_for_test: three nested loops over positions i < j < k
  // ---------------------------------------------------------------------

  /** The innermost loop: third direction at positions k, k+1, ... */
  function TriplesFrom(ds: seq<int>, a: int, b: int, k: nat): (r: seq<set<int>>)
    requires k <= |ds|
    ensures |r| == |ds| - k
    ensures forall n :: 0 <= n < |r| ==> r[n] == {a, b, ds[k + n]}
  {
    seq(|ds| - k, n requires 0 <= n < |ds| - k => {a, b, ds[k + n]})
  }

  /** The middle loop: the pair (a, ds[j]), then its triples, for j, j+1, ... */
  function PairsFrom(ds: seq<int>, a: int, j: nat): seq<set<int>>
    decreases |ds| - j
  {
    if j >= |ds| then []
    else [{a, ds[j]}] + TriplesFrom(ds, a, ds[j], j + 1) + PairsFrom(ds, a, j + 1)
  }

  /** The outer loop: the single ds[i], then its pairs, for i, i+1, ... */
  function PicksFrom(ds: seq<int>, i: nat): seq<set<int>>
    decreases |ds| - i
  {
    if i >= |ds| then []
    else [{ds[i]}] + PairsFrom(ds, ds[i], i + 1) + PicksFrom(ds, i + 1)
  }

  /** The sets of directions shifted, in the order the generator yields them. */
  function Picks(ds: seq<int>): seq<set<int>>
  {
    PicksFrom(ds, 0)
  }

  /** `_gen_coords_for_test(coords, directions, width)` as the sequence it yields. */
  function GenCoordsForTest(p: Vec, ds: seq<int>, w: real): (r: seq<Vec>)
    ensures |r| == |Picks(ds)|
    ensures forall n :: 0 <= n < |r| ==> r[n] == Shift(p, Picks(ds)[n], w)
  {
    var picks := Picks(ds);
    seq(|picks|, n requires 0 <= n < |picks| => Shift(p, picks[n], w))
  }

  // Soundness: every yielded set is a non-empty set of the directions.

  lemma {:induction false} PairsSound(ds: seq<int>, a: int, j: nat, s: set<int>)
    requires s in PairsFrom(ds, a, j)
    ensures a in s && forall x :: x in s && x != a ==> x in ds[j..]
    decreases |ds| - j
  {
    if j < |ds| {
      var t := TriplesFrom(ds, a, ds[j], j + 1);
      if s == {a, ds[j]} {
      } else if s in t {
        var n :| 0 <= n < |t| && t[n] == s;
        assert ds[j + 1 + n] in ds[j..];
      } else {
        PairsSound(ds, a, j + 1, s);
        assert forall x :: x in ds[j + 1..] ==> x in ds[j..];
      }
    }
  }

  lemma {:induction false} PicksSound(ds: seq<int>, i: nat, s: set<int>)
    requires s in PicksFrom(ds, i)
    ensures Inhabited(s) && forall x :: x in s ==> x in ds[i..]
    decreases |ds| - i
  {
    if i < |ds| {
      if s == {ds[i]} {
      } else if s in PairsFrom(ds, ds[i], i + 1) {
        PairsSound(ds, ds[i], i + 1, s);
        assert forall x :: x in ds[i + 1..] ==> x in ds[i..];
      } else {
        PicksSound(ds, i + 1, s);
        assert forall x :: x in ds[i + 1..] ==> x in ds[i..];
      }
    }
  }

  // Completeness: every non-empty set of the directions is yielded.

  /** `s` has an element. */
  ghost predicate Inhabited(s: set<int>)
  {
    exists x :: x in s
  }

  lemma TriplesComplete(ds: seq<int>, a: int, b: int, k: nat, c: set<int>)
    requires k <= |ds| && IsAxis(a) && IsAxis(b) && a != b
    requires Inhabited(c) && forall x :: x in c ==> IsAxis(x) && x != a && x != b && x in ds[k..]
    ensures {a, b} + c in TriplesFrom(ds, a, b, k)
  {
    var e :| e in c;
    forall x | x in c
      ensures x == e
    {
    }
    assert c == {e};
    var n :| 0 <= n < |ds[k..]| && ds[k..][n] == e;
    assert TriplesFrom(ds, a, b, k)[n] == {a, b} + c;
  }

  lemma {:induction false} PairsComplete(ds: seq<int>, a: int, j: nat, b: set<int>)
    requires j <= |ds| && IsAxis(a)
    requires Inhabited(b) && forall x :: x in b ==> IsAxis(x) && x != a && x in ds[j..]
    ensures {a} + b in PairsFrom(ds, a, j)
    decreases |ds| - j
  {
    var e :| e in b;
    assert e in ds[j..];
    var rest := PairsFrom(ds, a, j + 1);
    var t := TriplesFrom(ds, a, ds[j], j + 1);
    assert PairsFrom(ds, a, j) == [{a, ds[j]}] + t + rest;
    if ds[j] in b {
      var b' := b - {ds[j]};
      forall x | x in b'
        ensures x in ds[j + 1..]
      {
        var n :| 0 <= n < |ds[j..]| && ds[j..][n] == x;
        assert n != 0 && ds[j + 1..][n - 1] == x;
      }
      if forall x :: x in b ==> x == ds[j] {
        assert {a} + b == {a, ds[j]};
      } else {
        var x :| x in b && x != ds[j];
        assert x in b';
        TriplesComplete(ds, a, ds[j], j + 1, b');
        assert {a} + b == {a, ds[j]} + b';
      }
    } else {
      forall x | x in b
        ensures x in ds[j + 1..]
      {
        var n :| 0 <= n < |ds[j..]| && ds[j..][n] == x;
        assert n != 0 && ds[j + 1..][n - 1] == x;
      }
      PairsComplete(ds, a, j + 1, b);
    }
  }

  lemma {:induction false} PicksComplete(ds: seq<int>, i: nat, s: set<int>)
    requires i <= |ds|
    requires Inhabited(s) && forall x :: x in s ==> IsAxis(x) && x in ds[i..]
    ensures s in PicksFrom(ds, i)
    decreases |ds| - i
  {
    var e :| e in s;
    assert e in ds[i..];
    var rest := PicksFrom(ds, i + 1);
    var pairs := PairsFrom(ds, ds[i], i + 1);
    assert PicksFrom(ds, i) == [{ds[i]}] + pairs + rest;
    if ds[i] in s {
      var s' := s - {ds[i]};
      forall x | x in s'
        ensures x in ds[i + 1..]
      {
        var n :| 0 <= n < |ds[i..]| && ds[i..][n] == x;
        assert n != 0 && ds[i + 1..][n - 1] == x;
      }
      if forall x :: x in s ==> x == ds[i] {
        assert s == {ds[i]};
      } else {
        var x :| x in s && x != ds[i];
        assert x in s';
        PairsComplete(ds, ds[i], i + 1, s');
        assert s == {ds[i]} + s';
      }
    } else {
      forall x | x in s
        ensures x in ds[i + 1..]
      {
        var n :| 0 <= n < |ds[i..]| && ds[i..][n] == x;
        assert n != 0 && ds[i + 1..][n - 1] == x;
      }
      PicksComplete(ds, i + 1, s);
    }
  }

  /** The yielded sets are exactly the non-empty sets of the given directions. */
  lemma PicksAreNonEmptySubsets(ds: seq<int>, s: set<int>)
    requires AllAxes(ds)
    ensures s in Picks(ds) <==> Inhabited(s) && Among(s, ds)
  {
    if s in Picks(ds) {
      PicksSound(ds, 0, s);
      assert ds[0..] == ds;
    }
    if Inhabited(s) && Among(s, ds) {
      assert ds[0..] == ds;
      PicksComplete(ds, 0, s);
    }
  }

  // Counting: m + m(m-1)/2 + m(m-1)(m-2)/6 sets for m directions.

  function Tri(m: nat): nat
  {
    if m == 0 then 0 else m + Tri(m - 1)
  }

  function Tet(m: nat): nat
  {
    if m == 0 then 0 else 1 + Tri(m - 1) + Tet(m - 1)
  }

  lemma {:induction false} PairsCount(ds: seq<int>, a: int, j: nat)
    requires j <= |ds|
    ensures |PairsFrom(ds, a, j)| == Tri(|ds| - j)
    decreases |ds| - j
  {
    if j < |ds| {
      PairsCount(ds, a, j + 1);
    }
  }

  lemma {:induction false} PicksCount(ds: seq<int>, i: nat)
    requires i <= |ds|
    ensures |PicksFrom(ds, i)| == Tet(|ds| - i)
    decreases |ds| - i
  {
    if i < |ds| {
      PairsCount(ds, ds[i], i + 1);
      PicksCount(ds, i + 1);
    }
  }

  function Pow2(n: nat): nat
  {
    if n == 0 then 1 else 2 * Pow2(n - 1)
  }

  /** With up to three directions the generator yields 2^n - 1 points, one per non-empty subset. */
  lemma GenCount(p: Vec, ds: seq<int>, w: real)
    requires |ds| <= 3
    ensures |GenCoordsForTest(p, ds, w)| == Pow2(|ds|) - 1
  {
    PicksCount(ds, 0);
    assert Tet(1) == 1 && Tet(2) == 3 && Tet(3) == 7;
  }

  // ---------------------------------------------------------------------
  // _in_cut_electrode
  // ---------------------------------------------------------------------

  /** The early-return search of the loop: does the condition fail at some tested point? */
  function AnyFails(cond: Vec -> bool, qs: seq<Vec>): (r: bool)
    ensures r <==> exists n :: 0 <= n < |qs| && !cond(qs[n])
  {
    if qs == [] then false
    else if !cond(qs[0]) then true
    else AnyFails(cond, qs[1..])
  }

  /** The result of `_in_cut_electrode`. */
  function InCutElectrode(cond: Vec -> bool, p: Vec, ds: seq<int>, w: real): (r: int)
    ensures -1 <= r <= 1
  {
    if !cond(p) then -1
    else if AnyFails(cond, GenCoordsForTest(p, ds, w)) then 0
    else 1
  }

  /** The three results, each stated through the non-empty subsets of the directions. */
  lemma InCutElectrodeCases(cond: Vec -> bool, p: Vec, ds: seq<int>, w: real)
    requires AllAxes(ds)
    ensures InCutElectrode(cond, p, ds, w) == -1 <==> !cond(p)
    ensures InCutElectrode(cond, p, ds, w) == 0 <==>
      cond(p) && exists s :: Inhabited(s) && Among(s, ds) && !cond(Shift(p, s, w))
    ensures InCutElectrode(cond, p, ds, w) == 1 <==>
      cond(p) && forall s :: Inhabited(s) && Among(s, ds) ==> cond(Shift(p, s, w))
  {
    var qs := GenCoordsForTest(p, ds, w);
    if exists s :: Inhabited(s) && Among(s, ds) && !cond(Shift(p, s, w)) {
      var s :| Inhabited(s) && Among(s, ds) && !cond(Shift(p, s, w));
      PicksAreNonEmptySubsets(ds, s);
      var n :| 0 <= n < |Picks(ds)| && Picks(ds)[n] == s;
      assert !cond(qs[n]);
    }
    if AnyFails(cond, qs) {
      var n :| 0 <= n < |qs| && !cond(qs[n]);
      PicksAreNonEmptySubsets(ds, Picks(ds)[n]);
    }
  }

  /** A cut along one axis: -1 outside, 0 when the condition fails one width back along that axis, 1 otherwise. */
  lemma SingleDirectionCut(cond: Vec -> bool, p: Vec, a: int, w: real)
    requires IsAxis(a)
    ensures InCutElectrode(cond, p, [a], w) == if !cond(p) then -1 else if !cond(Shift(p, {a}, w)) then 0 else 1
  {
    InCutElectrodeCases(cond, p, [a], w);
    forall s | Inhabited(s) && Among(s, [a])
      ensures s == {a}
    {
      var e :| e in s;
      assert e in [a];
      assert forall x :: x in s <==> x in {a};
    }
    assert a in {a};
  }

  // ---------------------------------------------------------------------
  // The trap's shells
  // ---------------------------------------------------------------------

  /** What the electrode tests read from the trap object. */
  datatype ShellTrap = ShellTrap(gridstep: real, electrodeWidth: real, cylindrical: bool)

  /** The `electrode_width` a trap gets when it does not choose one: 1.6 grid steps. */
  const DefaultElectrodeWidth: real := 1.6

  /** `gridstepmm * electrode_width`. */
  function Width(t: ShellTrap): real
  {
    t.gridstep * t.electrodeWidth
  }

  /** `_standard_direction`, used when no directions are given. */
  function StandardDirections(t: ShellTrap): seq<int>
  {
    if t.cylindrical then [0, 2] else [0, 1, 2]
  }

  /** `_in_cut_electrode(coords, cond, directions)`, where `None` selects the standard directions. */
  function CutWithDefault(t: ShellTrap, cond: Vec -> bool, p: Vec, directions: Option<seq<int>>): int
  {
    InCutElectrode(cond, p, if directions.Some? then directions.value else StandardDirections(t), Width(t))
  }

  /** `_in_electrode_endcap`: the endcap shell is cut along z. */
  function InEndcap(t: ShellTrap, endcapSimple: Vec -> bool, p: Vec): int
  {
    CutWithDefault(t, endcapSimple, p, Some([2]))
  }

  /** `_in_other_electrode`: along r in cylindrical geometry, along x and y otherwise. */
  function OtherDirections(t: ShellTrap): seq<int>
  {
    if t.cylindrical then [0] else [0, 1]
  }

  function InOther(t: ShellTrap, otherSimple: Vec -> bool, p: Vec): int
  {
    CutWithDefault(t, otherSimple, p, Some(OtherDirections(t)))
  }

  predicate IsEndcapElectrode(t: ShellTrap, endcapSimple: Vec -> bool, otherSimple: Vec -> bool, p: Vec)
  {
    InEndcap(t, endcapSimple, p) == 0 && InOther(t, otherSimple, p) <= 0
  }

  predicate IsOtherElectrode(t: ShellTrap, endcapSimple: Vec -> bool, otherSimple: Vec -> bool, p: Vec)
  {
    InOther(t, otherSimple, p) == 0 && InEndcap(t, endcapSimple, p) <= 0
  }

  /** With no directions given, a Cartesian trap tests every non-empty subset of the three axes, a cylindrical one those of r and z. */
  lemma DefaultDirections(t: ShellTrap, s: set<int>)
    ensures s in Picks(StandardDirections(t)) <==>
      Inhabited(s) && (forall x :: x in s ==> IsAxis(x)) && (t.cylindrical ==> 1 !in s)
  {
    PicksAreNonEmptySubsets(StandardDirections(t), s);
  }

  /**
   * The endcap shell in terms of the simple conditions: the endcap
   * condition holds but fails one width lower in z, and the point is not
   * beyond the other shell.
   */
  lemma EndcapShell(t: ShellTrap, endcapSimple: Vec -> bool, otherSimple: Vec -> bool, p: Vec)
    ensures IsEndcapElectrode(t, endcapSimple, otherSimple, p) <==>
      endcapSimple(p) && !endcapSimple(Shift(p, {2}, Width(t))) &&
      !(otherSimple(p) && forall s :: Inhabited(s) && Among(s, OtherDirections(t)) ==>
                            otherSimple(Shift(p, s, Width(t))))
  {
    InCutElectrodeCases(endcapSimple, p, [2], Width(t));
    InCutElectrodeCases(otherSimple, p, OtherDirections(t), Width(t));
    if exists s :: Inhabited(s) && Among(s, [2]) && !endcapSimple(Shift(p, s, Width(t))) {
      var s :| Inhabited(s) && Among(s, [2]) && !endcapSimple(Shift(p, s, Width(t)));
      var e :| e in s;
      assert e in [2];
      assert forall x :: x in s <==> x in {2};
    }
  }

  /** A point beyond the other shell is never an endcap electrode, and one beyond the endcap shell never an other electrode. */
  lemma BeyondExcludes(t: ShellTrap, endcapSimple: Vec -> bool, otherSimple: Vec -> bool, p: Vec)
    ensures (otherSimple(p) && forall s :: Inhabited(s) && Among(s, OtherDirections(t)) ==>
               otherSimple(Shift(p, s, Width(t)))) ==> !IsEndcapElectrode(t, endcapSimple, otherSimple, p)
    ensures (endcapSimple(p) && endcapSimple(Shift(p, {2}, Width(t)))) ==> !IsOtherElectrode(t, endcapSimple, otherSimple, p)
  {
    InCutElectrodeCases(otherSimple, p, OtherDirections(t), Width(t));
    InCutElectrodeCases(endcapSimple, p, [2], Width(t));
    if endcapSimple(p) && endcapSimple(Shift(p, {2}, Width(t))) {
      forall s | Inhabited(s) && Among(s, [2])
        ensures endcapSimple(Shift(p, s, Width(t)))
      {
        var e :| e in s;
        assert e in [2];
        assert forall x :: x in s <==> x in {2};
      }
    }
  }
}
