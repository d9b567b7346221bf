/**
 * traps/brustkern_trap.py: an open cylinder scaled from a published
 * design of radius 31.24, banded along z into excitation/detection,
 * three compensation bands and trapping, with thin gaps cut out of the
 * wall between bands and flat endcaps beyond the extension.  Its
 * channels come from a generated enum; they are modelled as distinct
 * identities.  Coordinates are cylindrical (r, theta, z).
 */
module BrustkernTrap {
  import opened Wrappers
  import opened Points
  import opened Penning
  import opened AbstractTrap

  /** The generated enum with three compensation channels and one trapping channel. */
  datatype BrustkernVoltage = Excitation | Detection | Compensated0 | Compensated1 | Compensated2 | Trapping

  /** The radius of the published design. */
  const ArticleR: real := 31.24

  /** The dimensions the constructor derives from the radius. */
  datatype Dims = Dims(a: real, extDet: real, gap: real, zc1: real, zc2: real, zc3: real, z0: real, ze: real)

  function Dimensions(a: real): Dims
  {
    var extDet := 21.87 * a / ArticleR;
    var gap := 0.51 * a / ArticleR;
    var zc1 := 1.55 * a / ArticleR;
    var zc2 := 5.05 * a / ArticleR;
    var zc3 := 3.05 * a / ArticleR;
    var z0 := extDet + zc1 + zc2 + zc3 + gap * 4.0;
    Dims(a, extDet, gap, zc1, zc2, zc3, z0, z0 * 4.2 / 2.8)
  }

  /** The running `sector` of the two banded rules: the start of the first gap, and after it the start of each later gap. */
  function Sector0(t: Dims): real
  {
    t.z0 - t.zc1 - t.zc2 - t.zc3 - t.gap * 4.0
  }

  function Sector1(t: Dims): real
  {
    Sector0(t) + t.gap + t.zc1
  }

  function Sector2(t: Dims): real
  {
    Sector1(t) + t.gap + t.zc2
  }

  function Sector3(t: Dims): real
  {
    Sector2(t) + t.gap + t.zc3
  }

  /** The open gap interval (sector, sector + gap). */
  predicate InGap(sector: real, gap: real, z: real)
  {
    sector < z < sector + gap
  }

  /** `_is_endcap_electrode_simple`. */
  predicate EndcapSimple(t: Dims, c: Vec)
  {
    c.2 >= t.z0 + t.ze
  }

  /** `_is_other_electrode_simple`: outside the radius and in none of the five gap tests. */
  predicate OtherSimple(t: Dims, c: Vec)
  {
    if c.0 * c.0 < t.a * t.a then false
    else if InGap(Sector0(t), t.gap, c.2) then false
    else if InGap(Sector1(t), t.gap, c.2) then false
    else if InGap(Sector2(t), t.gap, c.2) then false
    else if InGap(Sector3(t), t.gap, c.2) then false
    else if InGap(t.z0 - t.gap, t.gap, c.2) then false
    else true
  }

  /** `calculate_nontrap_electrode_type`. */
  function NontrapType(t: Dims, c: Vec): BrustkernVoltage
  {
    if c.2 < Sector0(t) then
      if InSector(c.1, Pi / 4.0) then Excitation else Detection
    else if c.2 <= Sector1(t) then Compensated0
    else if c.2 <= Sector2(t) then Compensated1
    else if c.2 <= t.z0 - t.gap then Compensated2
    else Trapping
  }

  /** `get_endcap_electrode_type`. */
  function EndcapType(c: Vec): BrustkernVoltage
  {
    Trapping
  }

  /** The order of the bands from the centre outwards. */
  function Band(v: BrustkernVoltage): int
  {
    match v
    case Excitation => 0
    case Detection => 0
    case Compensated0 => 1
    case Compensated1 => 2
    case Compensated2 => 3
    case Trapping => 4
  }

  /** `new_adjust_rule` with k = 0.06269; the two inner channels get None. */
  function AdjustRule(v: BrustkernVoltage): Option<real>
  {
    var k := 0.06269;
    match v
    case Compensated0 => Some(9.608 * k)
    case Compensated1 => Some(-7.608 * k)
    case Compensated2 => Some(9.608 * k)
    case Trapping => Some(35.0 * k)
    case _ => None
  }

  /**
   * The first band ends where the detection electrode ends, the
   * extension is 1.5 z0 long, and the running sector after the third
   * compensation band is z0 - gap, so the fourth and fifth gap tests
   * cut out the same interval.
   */
  lemma BrustkernDimensions(a: real)
    ensures var t := Dimensions(a);
      Sector0(t) == t.extDet && t.ze == 1.5 * t.z0 && Sector3(t) == t.z0 - t.gap
    ensures var t := Dimensions(a);
      forall c: Vec :: OtherSimple(t, c) <==>
        !(c.0 * c.0 < a * a) && !InGap(Sector0(t), t.gap, c.2) && !InGap(Sector1(t), t.gap, c.2) &&
        !InGap(Sector2(t), t.gap, c.2) && !InGap(t.z0 - t.gap, t.gap, c.2)
  {
  }

  /**
   * For a > 0 the band boundaries strictly increase, so the bands are
   * met in the order E/D, C0, C1, C2, TRAPPING going up; each of the
   * first three gaps lies at the bottom of a compensation band and the
   * last at the top of the third one.
   */
  lemma BrustkernBands(a: real, c: Vec, c': Vec)
    requires a > 0.0
    ensures var t := Dimensions(a);
      0.0 < Sector0(t) < Sector1(t) < Sector2(t) < t.z0 - t.gap < t.z0 < t.z0 + t.ze
    ensures var t := Dimensions(a);
      c.2 <= c'.2 ==> Band(NontrapType(t, c)) <= Band(NontrapType(t, c'))
    ensures var t := Dimensions(a);
      (InGap(Sector0(t), t.gap, c.2) ==> NontrapType(t, c) == Compensated0) &&
      (InGap(Sector1(t), t.gap, c.2) ==> NontrapType(t, c) == Compensated1) &&
      (InGap(Sector2(t), t.gap, c.2) ==> NontrapType(t, c) == Compensated2) &&
      (InGap(t.z0 - t.gap, t.gap, c.2) ==> NontrapType(t, c) == Trapping)
    ensures var t := Dimensions(a);
      c.2 < Sector0(t) ==> (NontrapType(t, c) == Excitation <==> 0.0 <= c.1 <= Pi / 4.0)
  {
  }

  /**
   * The rule answers for the compensation and trapping channels and
   * leaves the two inner channels to the enum's defaults; the first and
   * third compensation bands share a potential and the second is
   * negative.
   */
  lemma BrustkernPotentials(v: BrustkernVoltage, toAdjust: BrustkernVoltage -> real)
    ensures AdjustRule(v).Some? <==> Band(v) > 0
    ensures Band(v) > 0 ==> GetVoltageForAdj(v, None, AdjustRule, toAdjust) == AdjustRule(v).value
    ensures Band(v) == 0 ==> GetVoltageForAdj(v, None, AdjustRule, toAdjust) == toAdjust(v)
    ensures AdjustRule(Compensated0) == AdjustRule(Compensated2)
    ensures AdjustRule(Compensated1).value < 0.0 < AdjustRule(Compensated0).value < AdjustRule(Trapping).value
  {
  }
}
