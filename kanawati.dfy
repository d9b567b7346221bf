/**
 * traps/kanawati_trap.py: a cylinder of radius a scaled from a published
 * design of radius 23, closed by flat annular plates at z0 from which an
 * inner ring tube of radius ring_r rises ring_z higher.  Unlike the other
 * cylinders it decides its electrodes directly, with the electrode width
 * as an absolute length w.  Coordinates are cylindrical (r, theta, z).
 */
module KanawatiTrap {
  import opened Wrappers
  import opened Points
  import opened Voltages
  import opened Penning
  import opened AbstractTrap
  import OpenTrap

  /** The dimensions the constructor derives from the radius. */
  datatype Dims = Dims(a: real, z0: real, ringR: real, ringZ: real)

  function Dimensions(a: real): Dims
  {
    var origR := 46.0 / 2.0;
    Dims(a, (60.0 / 2.0) * a / origR, (10.0 / 2.0) * a / origR, 20.0 * a / origR)
  }

  /** The model border 1.3 (a, a, z0 + ring_z). */
  function ModelBorder(a: real): Vec
  {
    var t := Dimensions(a);
    OpenTrap.OpenBorder(a, t.z0 + t.ringZ)
  }

  /** `is_other_electrode`: the wall up to z0, the ring tube up to z0 + ring_z, and None (false) above. */
  predicate IsOther(t: Dims, w: real, c: Vec)
  {
    var r := c.0;
    if c.2 <= t.z0 then t.a * t.a <= r * r <= (t.a + w) * (t.a + w)
    else if c.2 <= t.z0 + t.ringZ then t.ringR * t.ringR <= r * r <= (t.ringR + w) * (t.ringR + w)
    else false
  }

  /** `is_endcap_electrode`: the annulus ring_r <= r <= a of thickness w on top of z0. */
  predicate IsEndcap(t: Dims, w: real, c: Vec)
  {
    if c.0 > t.a then false
    else if c.0 < t.ringR then false
    else t.z0 <= c.2 <= t.z0 + w
  }

  /** `calculate_nontrap_electrode_type`: two excitation sectors per quarter turn up to z0, COMPENSATED above. */
  function NontrapType(t: Dims, c: Vec): CompensatedVoltage
  {
    if c.2 <= t.z0 then
      if 0.0 <= c.1 <= Pi / 8.0 then CompExcitation
      else if 3.0 * Pi / 8.0 <= c.1 <= Pi / 2.0 then CompExcitation
      else CompDetection
    else CompCompensated
  }

  /** The trap's rules: the base class's TRAPPING on the plates, the channel values elsewhere. */
  function Rules(t: Dims, w: real): PenningRules
  {
    PenningRules(c => IsEndcap(t, w, c), c => IsOther(t, w, c),
                 c => TrappedValue(DefaultEndcapType(c)), c => CompensatedValue(NontrapType(t, c)))
  }

  /** `new_adjust_rule` with k = 0.335. */
  function AdjustRule(v: CompensatedVoltage): Option<real>
  {
    var k := 0.335;
    if CompensatedValue(v) == CompensatedValue(CompTrapping) then Some(6.0 * k)
    else if CompensatedValue(v) == CompensatedValue(CompCompensated) then Some(1.0 * k)
    else None
  }

  /** For a > 0: z0 = 30a/23, ring_r = 5a/23, ring_z = 20a/23 = 4 ring_r, and 0 < ring_r < a < z0. */
  lemma KanawatiDimensions(a: real)
    requires a > 0.0
    ensures var t := Dimensions(a);
      t.z0 == 30.0 * a / 23.0 && t.ringR == 5.0 * a / 23.0 && t.ringZ == 4.0 * t.ringR &&
      0.0 < t.ringR < a < t.z0
    ensures ModelBorder(a) == (1.3 * a, 1.3 * a, 1.3 * (50.0 * a / 23.0))
  {
    var t := Dimensions(a);
    DivSum(30.0 * a, 20.0 * a, 23.0);
    DivMono(5.0 * a, 23.0 * a, 23.0);
    DivMono(23.0 * a, 30.0 * a, 23.0);
    DivCancel(a, 23.0);
    assert 23.0 * a == a * 23.0;
    DivMono(0.0, 5.0 * a, 23.0);
    assert t.ringZ == 4.0 * t.ringR by {
      ScaleDiv(4.0, 5.0 * a, 23.0);
    }
  }

  /**
   * For non-negative radii and width the squared tests are the plain
   * ones: the wall a <= r <= a + w up to z0, the tube ring_r <= r <=
   * ring_r + w up to z0 + ring_z, nothing above.
   */
  lemma KanawatiOther(t: Dims, w: real, c: Vec)
    requires t.a >= 0.0 && t.ringR >= 0.0 && w >= 0.0 && c.0 >= 0.0
    ensures c.2 <= t.z0 ==> (IsOther(t, w, c) <==> t.a <= c.0 <= t.a + w)
    ensures t.z0 < c.2 <= t.z0 + t.ringZ ==> (IsOther(t, w, c) <==> t.ringR <= c.0 <= t.ringR + w)
    ensures c.2 > t.z0 && c.2 > t.z0 + t.ringZ ==> !IsOther(t, w, c)
  {
    SquaresOrdered(t.a, c.0);
    SquaresOrdered(c.0, t.a + w);
    SquaresOrdered(t.ringR, c.0);
    SquaresOrdered(c.0, t.ringR + w);
  }

  /**
   * The plates overlap the tube's foot: for 0 < w <= ring_z the point
   * at r = ring_r, z = z0 + w passes both tests, and the endcap test
   * asked first makes it TRAPPING.
   */
  lemma KanawatiPlateMeetsTube(a: real, w: real, theta: real)
    requires a > 0.0 && 0.0 < w <= Dimensions(a).ringZ
    ensures var t := Dimensions(a);
      var c := (t.ringR, theta, t.z0 + w);
      IsEndcap(t, w, c) && IsOther(t, w, c) && GetElectrodeType(Rules(t, w), c) == TrappedValue(Trapping)
  {
    KanawatiDimensions(a);
    var t := Dimensions(a);
    KanawatiOther(t, w, (t.ringR, theta, t.z0 + w));
  }

  /**
   * Up to z0 the channel is EXCITATION exactly on [0, pi/8] and
   * [3pi/8, pi/2], so within the quarter turn it is symmetric under
   * theta -> pi/2 - theta; above z0 it is COMPENSATED.
   */
  lemma KanawatiSectors(t: Dims, c: Vec, c': Vec)
    ensures c.2 <= t.z0 ==> (NontrapType(t, c) == CompExcitation <==>
      (0.0 <= c.1 <= Pi / 8.0 || 3.0 * Pi / 8.0 <= c.1 <= Pi / 2.0))
    ensures c.2 <= t.z0 ==> NontrapType(t, c) != CompCompensated
    ensures c.2 > t.z0 ==> NontrapType(t, c) == CompCompensated
    ensures c.2 <= t.z0 && c'.2 <= t.z0 && 0.0 <= c.1 <= Pi / 2.0 && c'.1 == Pi / 2.0 - c.1 ==>
      NontrapType(t, c) == NontrapType(t, c')
  {
  }

  /** TRAPPING is set to six times COMPENSATED; EXCITATION and DETECTION keep the enum's 0. */
  lemma KanawatiPotentials(v: CompensatedVoltage)
    ensures AdjustRule(CompTrapping).value == 6.0 * AdjustRule(CompCompensated).value
    ensures AdjustRule(v).Some? <==> v == CompTrapping || v == CompCompensated
    ensures v == CompExcitation || v == CompDetection ==>
      GetVoltageForAdj(v, None, AdjustRule, v => CompensatedToAdjust(v) as real) == 0.0
  {
  }
}
