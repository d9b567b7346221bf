/**
 * traps/dhc_trap.py: the dynamically harmonized cell.  Its wall is a
 * cylinder of radius a cut into N segments whose angular width changes
 * with z, its ends are hyperboloids, and its channels are plain integers.
 * Coordinates are cylindrical (r, theta, z).
 */
module DhcTrap {
  import opened Points

  /** `_voltages`: channel 1 at 0, channel 2 at 1. */
  const ChannelPotentials: map<int, int> := map[1 := 0, 2 := 1]

  /** The ends: 2z^2 - r^2 >= 2z0^2 - a^2. */
  predicate TrappedSimple(a: real, z0: real, c: Vec)
  {
    if 2.0 * c.2 * c.2 - c.0 * c.0 >= 2.0 * z0 * z0 - a * a then true else false
  }

  /** The wall: false exactly when r^2 < a^2. */
  predicate OtherSimple(a: real, c: Vec)
  {
    if c.0 * c.0 < a * a then false else true
  }

  /** `get_trap_electrode_type`. */
  function TrapElectrodeType(c: Vec): int
  {
    2
  }

  /** `alpha_0 = beta pi / N`. */
  function Alpha0(n: int, beta: real): real
    requires n != 0
  {
    beta * Pi / n as real
  }

  /** `_get_phi_arias(k, z)`: the angles [centre - delta, centre + delta] of segment k at height z. */
  function PhiAreas(n: int, beta: real, z0: real, k: int, z: real): (real, real)
    requires n != 0 && z0 != 0.0
  {
    var center := 2.0 * Pi * (k as real + 1.0 / 2.0) / n as real;
    var delta := Pi / n as real + Alpha0(n, beta) * ((z / z0) * (z / z0) - 1.0);
    (center - delta, center + delta)
  }

  /** The two tests of the loop body: theta, or theta one turn on, inside the segment. */
  predicate InArea(area: (real, real), theta: real)
  {
    (area.0 <= theta <= area.1) || (area.0 <= theta + 2.0 * Pi <= area.1)
  }

  /** The loop of `_get_electrode_type` from segment k on: 2 at the first segment that holds theta, else 1. */
  function ElectrodeTypeFrom(n: int, beta: real, z0: real, theta: real, z: real, k: int): (r: int)
    requires n != 0 && z0 != 0.0
    ensures r == 1 || r == 2
    ensures r == 2 <==> exists m :: k <= m < n && InArea(PhiAreas(n, beta, z0, m, z), theta)
    decreases n - k
  {
    if k >= n then 1
    else
      var (l, r) := PhiAreas(n, beta, z0, k, z);
      if l <= theta <= r then 2
      else if l <= theta + 2.0 * Pi <= r then 2
      else ElectrodeTypeFrom(n, beta, z0, theta, z, k + 1)
  }

  /** `_get_electrode_type`, which is also `calculate_nontrap_electrode_type` on (r, theta, z). */
  function ElectrodeType(n: int, beta: real, z0: real, theta: real, z: real): int
    requires n != 0 && z0 != 0.0
  {
    ElectrodeTypeFrom(n, beta, z0, theta, z, 0)
  }

  /** At the end of the trap, z = z0, the segments are the N equal sectors [2 pi k / N, 2 pi (k + 1) / N]. */
  lemma EndPlaneAreas(n: int, beta: real, z0: real, k: int)
    requires n > 0 && z0 != 0.0
    ensures PhiAreas(n, beta, z0, k, z0) == (2.0 * Pi * k as real / n as real, 2.0 * Pi * (k as real + 1.0) / n as real)
  {
    var d := n as real;
    var kk := k as real;
    var one := z0 / z0;
    assert one == 1.0 by {
      DivCancel(1.0, z0);
    }
    var delta := Pi / d + Alpha0(n, beta) * (one * one - 1.0);
    assert delta == Pi / d;
    var top := 2.0 * Pi * (kk + 1.0 / 2.0);
    DivSum(top, Pi, d);
    assert top - Pi == 2.0 * Pi * kk;
    assert top + Pi == 2.0 * Pi * (kk + 1.0);
  }

  /** The sector of a turn that holds theta: 2 pi m <= theta N <= 2 pi (m + 1) with 0 <= m < N. */
  lemma SectorOf(n: int, theta: real) returns (m: int)
    requires n > 0 && 0.0 <= theta <= 2.0 * Pi
    ensures 0 <= m < n
    ensures 2.0 * Pi * m as real <= theta * n as real <= 2.0 * Pi * (m as real + 1.0)
  {
    var d := n as real;
    MulMono(0.0, theta, d);
    MulMono(theta, 2.0 * Pi, d);
    assert 2.0 * Pi * d == (2.0 * Pi) * d;
    var turn := 2.0 * Pi;
    var u := theta * d / turn;
    DivMono(0.0, theta * d, turn);
    DivMono(theta * d, d * turn, turn);
    DivCancel(d, turn);
    DivCancel(theta * d, turn);
    m := u.Floor;
    if m >= n {
      m := n - 1;
    }
    MulMono(m as real, u, turn);
    MulMono(u, m as real + 1.0, turn);
  }

  /** At the end of the trap, z = z0, every angle of a turn falls in some segment, so the whole wall is channel 2 there. */
  lemma EndPlaneCovered(n: int, beta: real, z0: real, theta: real)
    requires n > 0 && z0 != 0.0 && 0.0 <= theta <= 2.0 * Pi
    ensures ElectrodeType(n, beta, z0, theta, z0) == 2
  {
    var d := n as real;
    var m := SectorOf(n, theta);
    DivMono(2.0 * Pi * m as real, theta * d, d);
    DivMono(theta * d, 2.0 * Pi * (m as real + 1.0), d);
    DivCancel(theta, d);
    EndPlaneAreas(n, beta, z0, m);
    assert InArea(PhiAreas(n, beta, z0, m, z0), theta);
  }

  /** Every channel the trap writes has a potential in `_voltages`, and only the segments are at 1. */
  lemma ChannelsHavePotentials(n: int, beta: real, z0: real, theta: real, z: real, c: Vec)
    requires n != 0 && z0 != 0.0
    ensures ElectrodeType(n, beta, z0, theta, z) in ChannelPotentials
    ensures TrapElectrodeType(c) in ChannelPotentials
    ensures ChannelPotentials[ElectrodeType(n, beta, z0, theta, z)] == 1 <==> ElectrodeType(n, beta, z0, theta, z) == 2
  {
  }
}
