/**
 * traps/tolmachov_trap.py: an open cylinder of diameter D = 2a whose
 * wall is banded along z into excitation/detection, two compensation
 * bands and the trapping extension.  Its channels come from a generated
 * enum; they are modelled as distinct identities.  Coordinates are
 * cylindrical (r, theta, z).
 */
module TolmachovTrap {
  import opened Wrappers
  import opened Points
  import opened Penning
  import opened AbstractTrap
  import OpenTrap

  /** The generated enum with two compensation channels and one trapping channel. */
  datatype TolmachovVoltage = Excitation | Detection | Compensated0 | Compensated1 | Trapping

  /** The dimensions the constructor derives from the radius. */
  datatype Dims = Dims(a: real, z0: real, zc1: real, zc2: real, ze: real)

  function Dimensions(a: real): Dims
  {
    var d := 2.0 * a;
    Dims(a, (0.25 + 0.2 + 0.2) * d, 0.2 * d, 0.2 * d, 1.0 * d)
  }

  /** The model border 1.3 (a, a, z0 + ze). */
  function ModelBorder(a: real): Vec
  {
    var t := Dimensions(a);
    OpenTrap.OpenBorder(a, t.z0 + t.ze)
  }

  /** `_is_endcap_electrode_simple`. */
  predicate EndcapSimple(c: Vec)
  {
    false
  }

  /** `calculate_nontrap_electrode_type`. */
  function NontrapType(t: Dims, c: Vec): TolmachovVoltage
  {
    if c.2 < t.z0 - t.zc1 - t.zc2 then
      if InSector(c.1, Pi / 6.0) then Excitation else Detection
    else if c.2 <= t.z0 - t.zc2 then Compensated0
    else if c.2 <= t.z0 then Compensated1
    else Trapping
  }

  /** The order of the bands from the centre outwards. */
  function Band(v: TolmachovVoltage): int
  {
    match v
    case Excitation => 0
    case Detection => 0
    case Compensated0 => 1
    case Compensated1 => 2
    case Trapping => 3
  }

  /** `new_adjust_rule` with k = 2.3; the two inner channels get None. */
  function AdjustRule(v: TolmachovVoltage): Option<real>
  {
    var k := 2.3;
    match v
    case Compensated0 => Some(0.1333 * k)
    case Compensated1 => Some(0.3167 * k)
    case Trapping => Some(1.0 * k)
    case _ => None
  }

  /** In terms of D = 2a: z0 = 0.65 D, both compensation bands 0.2 D high, the extension D long; the border is 1.3 (a, a, 1.65 D). */
  lemma TolmachovDimensions(a: real)
    ensures var t := Dimensions(a);
      t.z0 == 0.65 * (2.0 * a) && t.zc1 == t.zc2 == 0.2 * (2.0 * a) && t.ze == 2.0 * a &&
      t.z0 - t.zc1 - t.zc2 == 0.25 * (2.0 * a)
    ensures ModelBorder(a) == (1.3 * a, 1.3 * a, 1.3 * (1.65 * (2.0 * a)))
  {
  }

  /**
   * For a > 0 the band boundaries 0.5a < 0.9a < 1.3a strictly increase,
   * so each z is in exactly one band, the bands are met in the order
   * E/D, C0, C1, TRAPPING going up, and the E/D choice is by the sector
   * 0 <= theta <= pi/6.
   */
  lemma TolmachovBands(a: real, c: Vec, c': Vec)
    requires a > 0.0
    ensures var t := Dimensions(a);
      t.z0 - t.zc1 - t.zc2 < t.z0 - t.zc2 < t.z0
    ensures var t := Dimensions(a);
      c.2 <= c'.2 ==> Band(NontrapType(t, c)) <= Band(NontrapType(t, c'))
    ensures var t := Dimensions(a);
      (Band(NontrapType(t, c)) == 0 <==> c.2 < 0.5 * a) &&
      (Band(NontrapType(t, c)) == 1 <==> 0.5 * a <= c.2 <= 0.9 * a) &&
      (Band(NontrapType(t, c)) == 2 <==> 0.9 * a < c.2 <= 1.3 * a) &&
      (Band(NontrapType(t, c)) == 3 <==> 1.3 * a < c.2)
    ensures var t := Dimensions(a);
      c.2 < 0.5 * a ==> (NontrapType(t, c) == Excitation <==> 0.0 <= c.1 <= Pi / 6.0)
  {
  }

  /**
   * The rule answers for the compensation and trapping channels, with
   * potentials increasing outwards, and leaves the two inner channels to
   * the enum's defaults.
   */
  lemma TolmachovPotentials(v: TolmachovVoltage, toAdjust: TolmachovVoltage -> real)
    ensures AdjustRule(v).Some? <==> Band(v) > 0
    ensures Band(v) > 0 ==> GetVoltageForAdj(v, None, AdjustRule, toAdjust) == AdjustRule(v).value
    ensures Band(v) == 0 ==> GetVoltageForAdj(v, None, AdjustRule, toAdjust) == toAdjust(v)
    ensures AdjustRule(Compensated0).value < AdjustRule(Compensated1).value < AdjustRule(Trapping).value
  {
  }
}
