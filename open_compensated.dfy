/**
 * traps/open_compensated.py: the open cylinder with a compensation band
 * of height dzc below z0 and trapping extensions above it, using the
 * compensated channel enum.  The channel below the band is the one the
 * cylinder's rule gives, a plain integer.  Coordinates are cylindrical
 * (r, theta, z).
 */
module OpenCompensatedTrap {
  import opened Wrappers
  import opened Points
  import opened Voltages
  import opened AbstractTrap
  import CylindricalTrap

  /** `_is_endcap_electrode_simple`. */
  predicate EndcapSimple(c: Vec)
  {
    false
  }

  /** `calculate_nontrap_electrode_type` as the channel value written. */
  function NontrapChannel(z0: real, dzc: real, c: Vec): int
  {
    if c.2 < z0 - dzc then CylindricalTrap.NontrapType(c)
    else if c.2 <= z0 then CompensatedValue(CompCompensated)
    else CompensatedValue(CompTrapping)
  }

  /** `new_adjust_rule`: only the trapping and compensation channels are set. */
  function AdjustRule(v: CompensatedVoltage): Option<real>
  {
    if CompensatedValue(v) == CompensatedValue(CompTrapping) then Some(1.949)
    else if CompensatedValue(v) == CompensatedValue(CompCompensated) then Some(0.3235)
    else None
  }

  /**
   * The three bands: the cylinder's channel below z0 - dzc, COMPENSATED
   * on [z0 - dzc, z0], TRAPPING above; the cylinder's channel 3 on the
   * second and fourth quarter turns is TRAPPING's value too.
   */
  lemma OpenCompensatedBands(z0: real, dzc: real, c: Vec)
    ensures c.2 < z0 - dzc ==> NontrapChannel(z0, dzc, c) == CylindricalTrap.NontrapType(c)
    ensures z0 - dzc <= c.2 <= z0 ==> NontrapChannel(z0, dzc, c) == CompensatedValue(CompCompensated)
    ensures c.2 > z0 && c.2 >= z0 - dzc ==> NontrapChannel(z0, dzc, c) == CompensatedValue(CompTrapping)
    ensures NontrapChannel(z0, dzc, c) == CompensatedValue(CompCompensated) <==> z0 - dzc <= c.2 <= z0
    ensures c.2 < z0 - dzc && Pi / 2.0 < c.1 < Pi ==> NontrapChannel(z0, dzc, c) == CompensatedValue(CompTrapping)
  {
    CylindricalTrap.SideChannels(c, c);
  }

  /**
   * The rule sets TRAPPING to 1.949 and COMPENSATED to 0.3235; for
   * EXCITATION and DETECTION it answers None, so they keep the enum's
   * `to_adjust` of 0.
   */
  lemma OpenCompensatedPotentials(v: CompensatedVoltage)
    ensures AdjustRule(v).Some? <==> v == CompTrapping || v == CompCompensated
    ensures GetVoltageForAdj(v, None, AdjustRule, v => CompensatedToAdjust(v) as real) ==
      match v
      case CompTrapping => 1.949
      case CompCompensated => 0.3235
      case _ => 0.0
  {
  }
}
