/**
 * traps/cuboid_trap.py: a box with half-sizes `border` = (x0, y0, z0),
 * built like the cubic trap, with its own adjust table.
 */
module CuboidTrap {
  import opened Wrappers
  import opened Points
  import opened Voltages
  import opened AbstractTrap
  import CubicTrap

  /** The lids: `z >= cell_border.z`. */
  predicate EndcapSimple(border: Vec, c: Vec)
  {
    c.2 >= border.2
  }

  /** The side walls: `x >= cell_border.x or y >= cell_border.y`. */
  predicate OtherSimple(border: Vec, c: Vec)
  {
    c.0 >= border.0 || c.1 >= border.1
  }

  /** `calculate_nontrap_electrode_type`. */
  function NontrapType(border: Vec, c: Vec): TrappedVoltage
  {
    if c.0 >= border.0 then Detection else Excitation
  }

  /** `new_adjust_rule`, which compares channels by their values; a value it does not list gets None. */
  function AdjustRule(v: TrappedVoltage): Option<real>
  {
    if TrappedValue(v) == TrappedValue(Excitation) then Some(0.0)
    else if TrappedValue(v) == TrappedValue(Detection) then Some(0.0)
    else if TrappedValue(v) == TrappedValue(Trapping) then Some(1.2)
    else None
  }

  /** The cubic trap is the cuboid with three equal half-sizes. */
  lemma CubeIsCuboid(size: real, c: Vec)
    ensures CubicTrap.EndcapSimple(size, c) == EndcapSimple((size, size, size), c)
    ensures CubicTrap.OtherSimple(size, c) == OtherSimple((size, size, size), c)
    ensures CubicTrap.NontrapType(size, c) == NontrapType((size, size, size), c)
  {
  }

  /**
   * The rule answers for every channel, so it decides the potential
   * unless the caller's rule answers first; the potentials it gives are
   * the enum's defaults scaled by 1.2.
   */
  lemma CuboidPotentials(v: TrappedVoltage, outer: Option<TrappedVoltage -> Option<real>>)
    ensures AdjustRule(v).Some?
    ensures GetVoltageForAdj(v, None, AdjustRule, v => TrappedToAdjust(v) as real) == 1.2 * TrappedToAdjust(v) as real
    ensures (outer.None? || outer.value(v).None?) ==>
      GetVoltageForAdj(v, outer, AdjustRule, v => TrappedToAdjust(v) as real) == 1.2 * TrappedToAdjust(v) as real
  {
  }
}
