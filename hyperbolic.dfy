/**
 * traps/hyperbolic_trap.py: a trap whose endcaps and ring are the two
 * sheets of hyperboloids 2z^2 - r^2 = 2z0^2 and r^2 - 2z^2 = a^2,
 * truncated at r_max = 1.5a, in cylindrical coordinates (r, theta, z).
 */
module HyperbolicTrap {
  import opened Wrappers
  import opened Points
  import opened Voltages
  import opened Penning
  import opened AbstractTrap

  /** `bigger = 3`: the model border is three times the trap border. */
  function ModelBorder(a: real, z0: real): Vec
  {
    (3.0 * a, 3.0 * a, 3.0 * z0)
  }

  /** `r_max`. */
  function RMax(a: real): real
  {
    1.5 * a
  }

  /** The endcaps: inside the truncation radius and beyond the hyperboloid of two sheets. */
  predicate TrappedSimple(a: real, z0: real, c: Vec)
  {
    if c.0 > RMax(a) then false else 2.0 * c.2 * c.2 - c.0 * c.0 >= 2.0 * z0 * z0
  }

  /** The ring: inside the truncation radius and beyond the hyperboloid of one sheet. */
  predicate OtherSimple(a: real, c: Vec)
  {
    if c.0 > RMax(a) then false else c.0 * c.0 - 2.0 * c.2 * c.2 >= a * a
  }

  /** `calculate_nontrap_electrode_type`. */
  function NontrapType(c: Vec): TrappedVoltage
  {
    if 0.0 <= c.1 <= Pi / 4.0 then Excitation else Detection
  }

  /** The trapping potential of `new_adjust_rule`. */
  const TrappingPotential: real := 1.0 * 3.0 * 0.223 * 0.988

  /** `new_adjust_rule`, comparing channels by value. */
  function AdjustRule(v: TrappedVoltage): Option<real>
  {
    if TrappedValue(v) == TrappedValue(Excitation) then Some(0.0)
    else if TrappedValue(v) == TrappedValue(Detection) then Some(0.0)
    else if TrappedValue(v) == TrappedValue(Trapping) then Some(TrappingPotential)
    else None
  }

  /**
   * The endcap and ring solids meet only where 2 z0^2 + a^2 <= 0, and
   * that sum is positive as soon as a or z0 is non-zero; when both are
   * zero the centre of the trap belongs to both.
   */
  lemma SolidsDisjoint(a: real, z0: real, c: Vec)
    ensures TrappedSimple(a, z0, c) && OtherSimple(a, c) ==> 2.0 * z0 * z0 + a * a <= 0.0
    ensures a != 0.0 || z0 != 0.0 ==> 2.0 * z0 * z0 + a * a > 0.0
    ensures a == 0.0 && z0 == 0.0 ==> TrappedSimple(a, z0, (0.0, c.1, 0.0)) && OtherSimple(a, (0.0, c.1, 0.0))
  {
    assert 2.0 * c.2 * c.2 == 2.0 * (c.2 * c.2) && 2.0 * z0 * z0 == 2.0 * (z0 * z0);
  }

  /** The override keeps the Penning default: the excitation sector is 0 <= theta <= pi/4. */
  lemma SideChannelIsDefault(c: Vec)
    ensures NontrapType(c) == DefaultNontrapType(c)
    ensures NontrapType(c) == Excitation <==> 0.0 <= c.1 <= Pi / 4.0
  {
  }

  /** Every channel gets a potential from the rule: the enum's default scaled by 3 x 0.223 x 0.988. */
  lemma HyperbolicPotentials(v: TrappedVoltage)
    ensures AdjustRule(v).Some?
    ensures GetVoltageForAdj(v, None, AdjustRule, v => TrappedToAdjust(v) as real) ==
      TrappingPotential * TrappedToAdjust(v) as real
  {
  }

  /**
   * With a positive radius the model spans three trap radii: the x axis
   * has `pts` cells up to 3a, the others cover three times the trap
   * border within one step, and the truncation radius is half the model's
   * radial extent.
   */
  lemma HyperbolicGeometry(a: real, z0: real, pts: int)
    requires a > 0.0 && pts > 0
    ensures CreateGeometry((a, a, z0), pts, Some(ModelBorder(a, z0))).Some?
    ensures var g := CreateGeometry((a, a, z0), pts, Some(ModelBorder(a, z0))).value;
      g.lengths.0 == pts && g.border.0 == 3.0 * a && 2.0 * RMax(a) == g.border.0 &&
      g.gridstep == 3.0 * a / pts as real &&
      3.0 * z0 <= g.border.2 < 3.0 * z0 + g.gridstep
  {
    GeometryCovers((a, a, z0), pts, Some(ModelBorder(a, z0)));
    var g := CreateGeometry((a, a, z0), pts, Some(ModelBorder(a, z0))).value;
    assert g.gridstep > 0.0;
    assert Coord(ModelBorder(a, z0), 2) <= Coord(g.border, 2) < Coord(ModelBorder(a, z0), 2) + g.gridstep;
  }
}
