/**
 * traps/closed_compesated.py: the closed cylinder with a band of
 * compensation electrodes just below each lid.  It has its own
 * four-channel enum and takes z0 and the band height from ratios to the
 * radius R.  Coordinates are cylindrical (r, theta, z).
 */
module ClosedCompensatedTrap {
  import opened Wrappers
  import opened Points
  import opened AbstractTrap
  import CylindricalTrap

  /** `TrappedVoltagesCompensated`. */
  datatype ClosedVoltage = Excitation | Detection | Trapping | Compensated

  function Value(v: ClosedVoltage): int
  {
    match v
    case Excitation => 1
    case Detection => 2
    case Trapping => 3
    case Compensated => 4
  }

  /** `TrappedVoltagesCompensated.to_adjust`. */
  function ToAdjust(v: ClosedVoltage): int
  {
    match v
    case Detection => 0
    case Excitation => 0
    case Trapping => 1
    case Compensated => 10
  }

  /** The constructor's default ratios. */
  const DefaultDz2z: real := 0.3
  const DefaultZ2r: real := 1.16

  /** `z0 = R / z2r_ratio`. */
  function Z0(radius: real, z2r: real): real
    requires z2r != 0.0
  {
    radius / z2r
  }

  /** `dzc = z0 * dz2z_ratio`. */
  function Dzc(radius: real, dz2z: real, z2r: real): real
    requires z2r != 0.0
  {
    Z0(radius, z2r) * dz2z
  }

  /**
   * `calculate_nontrap_electrode_type` as the channel value written: the
   * cylinder's rule below the band, COMPENSATED from z0 - dzc up.
   */
  function NontrapChannel(z0: real, dzc: real, c: Vec): int
  {
    if c.2 < z0 - dzc then CylindricalTrap.NontrapType(c) else Value(Compensated)
  }

  /** `_color_for_3d`. */
  function ColorFor(v: ClosedVoltage): (string, string)
  {
    match v
    case Excitation => ("green", "Detection electrode")
    case Detection => ("blue", "Excitation electrode")
    case Trapping => ("red", "Trapping electrode")
    case Compensated => ("yellow", "Compensated electrode")
  }

  /** `new_adjust_rule`, comparing channels by value. */
  function AdjustRule(v: ClosedVoltage): Option<real>
  {
    if Value(v) == Value(Excitation) then Some(0.0)
    else if Value(v) == Value(Detection) then Some(0.0)
    else if Value(v) == Value(Trapping) then Some(0.7323)
    else if Value(v) == Value(Compensated) then Some(0.7323 * 0.05)
    else None
  }

  /** The channels are numbered 1..4 and each value names one channel; only TRAPPING and COMPENSATED are charged by default. */
  lemma ClosedVoltagesNumbered(v: ClosedVoltage, v': ClosedVoltage)
    ensures 1 <= Value(v) <= 4
    ensures Value(v) == Value(v') <==> v == v'
    ensures ToAdjust(v) != 0 <==> v == Trapping || v == Compensated
  {
  }

  /** With positive R and the default ratios, z0 = R/1.16 and the compensation band is the top 30% of the half-height. */
  lemma DefaultDimensions(radius: real)
    requires radius > 0.0
    ensures Z0(radius, DefaultZ2r) > 0.0
    ensures Dzc(radius, DefaultDz2z, DefaultZ2r) == 0.3 * Z0(radius, DefaultZ2r)
    ensures 0.0 < Z0(radius, DefaultZ2r) - Dzc(radius, DefaultDz2z, DefaultZ2r) < Z0(radius, DefaultZ2r)
    ensures Z0(radius, DefaultZ2r) * 1.16 == radius
  {
    DivCancel(radius, 1.16);
  }

  /**
   * The side channel is COMPENSATED (4) exactly from z0 - dzc up and the
   * cylinder's 1 or 3 below, so the channel DETECTION (2) is never written
   * and the value 3 of TRAPPING is written on side sectors below the band.
   */
  lemma ClosedChannels(z0: real, dzc: real, c: Vec)
    ensures NontrapChannel(z0, dzc, c) == Value(Compensated) <==> c.2 >= z0 - dzc
    ensures c.2 < z0 - dzc ==> NontrapChannel(z0, dzc, c) == CylindricalTrap.NontrapType(c)
    ensures NontrapChannel(z0, dzc, c) in {Value(Excitation), Value(Trapping), Value(Compensated)}
    ensures NontrapChannel(z0, dzc, c) != Value(Detection)
    ensures c.2 < z0 - dzc && Pi / 2.0 < c.1 < Pi ==> NontrapChannel(z0, dzc, c) == Value(Trapping)
  {
    CylindricalTrap.SideChannels(c, c);
  }

  /** The four channels are drawn with four different colours and four different labels. */
  lemma ColorsDistinct(v: ClosedVoltage, v': ClosedVoltage)
    ensures ColorFor(v).0 == ColorFor(v').0 <==> v == v'
    ensures ColorFor(v).1 == ColorFor(v').1 <==> v == v'
  {
  }

  /**
   * The rule answers for every channel, so the enum's own `to_adjust`
   * table is never used; the compensation electrodes sit at 5% of the
   * lids' potential.
   */
  lemma ClosedPotentials(v: ClosedVoltage)
    ensures AdjustRule(v).Some?
    ensures GetVoltageForAdj(v, None, AdjustRule, v => ToAdjust(v) as real) == AdjustRule(v).value
    ensures AdjustRule(Compensated).value == 0.05 * AdjustRule(Trapping).value
    ensures AdjustRule(v).value != 0.0 <==> ToAdjust(v) != 0
  {
  }
}
