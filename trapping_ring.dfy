/**
 * traps/trapping_ring.py: a closed cylinder whose flat lids are split
 * into five concentric trapping rings, each on its own channel.  Its
 * channels come from a generated enum; they are modelled as distinct
 * identities.  Coordinates are cylindrical (r, theta, z).
 */
module TrappingRingTrap {
  import opened Wrappers
  import opened Points
  import opened AbstractTrap
  import CylindricalTrap

  /** The generated enum with five trapping channels. */
  datatype RingVoltage = Excitation | Detection | Trapping0 | Trapping1 | Trapping2 | Trapping3 | Trapping4

  /** The number of rings the search tries. */
  const RingCount: int := 5

  /** The dimensions the constructor derives from the radius: half-height, ring width and spacing, and the outer margin. */
  datatype Dims = Dims(a: real, z0: real, ringWidth: real, ringSpace: real, lastOffset: real)

  function Dimensions(a: real): Dims
  {
    var d := 2.0 * a;
    var origDiam := 1.875;
    var ringSpace := 0.039 * (d / origDiam);
    Dims(a, (2.0 / 2.0) * d / origDiam, 0.110 * (d / origDiam), ringSpace, ringSpace * 2.0)
  }

  /** `first_offset`: where ring 0 starts. */
  function FirstOffset(t: Dims): real
  {
    t.a - t.lastOffset + t.ringSpace - 5.0 * (t.ringSpace + t.ringWidth)
  }

  /** The inner edge of ring i. */
  function RingStart(t: Dims, i: int): real
  {
    FirstOffset(t) + i as real * (t.ringWidth + t.ringSpace)
  }

  /** The two tests of the loop body: r within ring i, edges included. */
  predicate InRing(t: Dims, i: int, r: real)
  {
    RingStart(t, i) <= r <= RingStart(t, i) + t.ringWidth
  }

  /** The loop of `_get_ring_number` from ring i on: the first ring that holds r, or -1. */
  function RingNumberFrom(t: Dims, r: real, i: int): (n: int)
    requires i >= 0
    ensures n == -1 || i <= n < RingCount
    ensures n != -1 ==> InRing(t, n, r) && forall m :: i <= m < n ==> !InRing(t, m, r)
    ensures n == -1 <==> forall m :: i <= m < RingCount ==> !InRing(t, m, r)
    decreases RingCount - i
  {
    if i >= RingCount then -1
    else if InRing(t, i, r) then i
    else RingNumberFrom(t, r, i + 1)
  }

  /** `_get_ring_number`. */
  function RingNumber(t: Dims, r: real): int
  {
    RingNumberFrom(t, r, 0)
  }

  /** `_is_endcap_electrode_simple`: on or above the lid and on a ring. */
  predicate EndcapSimple(t: Dims, c: Vec)
  {
    if c.2 >= t.z0 then RingNumber(t, c.0) > -1 else false
  }

  /** The trapping channel of ring i. */
  function RingChannel(i: int): Option<RingVoltage>
  {
    if i == 0 then Some(Trapping0)
    else if i == 1 then Some(Trapping1)
    else if i == 2 then Some(Trapping2)
    else if i == 3 then Some(Trapping3)
    else if i == 4 then Some(Trapping4)
    else None
  }

  /** `get_endcap_electrode_type`: the ring's channel, and None off the rings. */
  function EndcapType(t: Dims, c: Vec): Option<RingVoltage>
  {
    RingChannel(RingNumber(t, c.0))
  }

  /** `_is_other_electrode_simple`: nothing at or above the lid, the cylinder's wall below it. */
  predicate OtherSimple(t: Dims, c: Vec)
  {
    if c.2 >= t.z0 then false else CylindricalTrap.OtherSimple(t.a, c)
  }

  /** `new_adjust_rule` with k = 1. */
  function AdjustRule(v: RingVoltage): Option<real>
  {
    var k := 1.0;
    match v
    case Trapping0 => Some(0.2 * k)
    case Trapping1 => Some(1.1 * k)
    case Trapping2 => Some(2.0 * k)
    case Trapping3 => Some(2.4 * k)
    case Trapping4 => Some(2.8 * k)
    case _ => None
  }

  /** With a positive spacing and width, ring i ends before any later ring starts. */
  lemma RingsSeparated(t: Dims, i: int, j: int)
    requires t.ringSpace > 0.0
    ensures i < j && t.ringWidth >= 0.0 ==> RingStart(t, i) + t.ringWidth < RingStart(t, j)
  {
    if i < j && t.ringWidth >= 0.0 {
      var step := t.ringWidth + t.ringSpace;
      var k := (j - i) as real;
      MulMono(1.0, k, step);
      assert j as real * step == i as real * step + k * step;
    }
  }

  /** With a positive spacing two rings never overlap. */
  lemma RingsDisjoint(t: Dims, i: int, j: int, r: real)
    requires t.ringSpace > 0.0
    requires InRing(t, i, r) && InRing(t, j, r)
    ensures i == j
  {
    RingsSeparated(t, i, j);
    RingsSeparated(t, j, i);
  }

  /** With a positive spacing the search finds ring i exactly when r lies in ring i. */
  lemma RingNumberExact(t: Dims, r: real, i: int)
    requires t.ringSpace > 0.0 && i >= 0
    ensures RingNumber(t, r) == i <==> 0 <= i < RingCount && InRing(t, i, r)
  {
    var n := RingNumber(t, r);
    if 0 <= i < RingCount && InRing(t, i, r) {
      assert n != -1;
      RingsDisjoint(t, n, i, r);
    }
  }

  /**
   * For a > 0: z0 = D/1.875, the spacing is positive, ring 0 starts
   * inside the cylinder and ring 4 ends `last_offset` = 2 spacings short
   * of the wall.
   */
  lemma TrappingRingDimensions(a: real)
    requires a > 0.0
    ensures var t := Dimensions(a);
      t.z0 == 2.0 * a / 1.875 && t.lastOffset == 2.0 * t.ringSpace && t.ringSpace > 0.0 && t.ringWidth > 0.0
    ensures var t := Dimensions(a);
      0.0 < FirstOffset(t) && RingStart(t, RingCount - 1) + t.ringWidth == a - t.lastOffset
  {
    var t := Dimensions(a);
    var u := 2.0 * a / 1.875;
    DivMono(0.0, 2.0 * a, 1.875);
    assert t.ringSpace == 0.039 * u && t.ringWidth == 0.110 * u;
    assert u <= 1.1 * a by {
      DivMono(2.0 * a, 1.875 * (1.1 * a), 1.875);
      DivCancel(1.1 * a, 1.875);
    }
  }

  /**
   * A lid point is an endcap electrode exactly when it is on a ring, and
   * then its channel is that ring's; off the rings the channel is None;
   * lid and wall never overlap.
   */
  lemma RingEndcaps(t: Dims, c: Vec)
    ensures EndcapType(t, c).Some? <==> RingNumber(t, c.0) != -1
    ensures c.2 >= t.z0 ==> (EndcapSimple(t, c) <==> EndcapType(t, c).Some?)
    ensures EndcapSimple(t, c) ==> c.2 >= t.z0 && InRing(t, RingNumber(t, c.0), c.0)
    ensures !(EndcapSimple(t, c) && OtherSimple(t, c))
  {
  }

  /** The potentials rise from the innermost ring to the outermost; the side channels are left to the enum's defaults. */
  lemma RingPotentialsIncrease(i: int, j: int, v: RingVoltage)
    requires 0 <= i < j < RingCount
    ensures RingChannel(i).Some? && RingChannel(j).Some?
    ensures AdjustRule(RingChannel(i).value).value < AdjustRule(RingChannel(j).value).value
    ensures AdjustRule(v).None? <==> v == Excitation || v == Detection
  {
  }
}
