/**
 * traps/wang_trap.py: a Cartesian trap with a wall shell of width w
 * outside the radius a, flat endcap plates of thickness w at z0, and a
 * compensating grid of wires along both x and y in a slab of thickness w
 * lying delta_c below z0.  The electrode width is used as an absolute
 * length.  The radius r = sqrt(x^2 + y^2) and the angle theta the source
 * computes are taken as inputs.  Coordinates are Cartesian (x, y, z).
 */
module WangTrap {
  import opened Points
  import opened Voltages
  import opened Penning
  import PseudoPotTrap

  /** `_is_endcap_electrode_simple` and `_is_other_electrode_simple` are stubs whose None is falsy. */
  predicate EndcapSimple(c: Vec)
  {
    false
  }

  predicate OtherSimple(c: Vec)
  {
    false
  }

  /** The trap's sizes: radius, lid height, electrode width, grid depth, number of wires and wire half-thickness. */
  datatype Dims = Dims(a: real, z0: real, w: real, deltaC: real, wireNum: int, wireRad: real)

  /** `is_endcap_electrode`: inside the radius and in the plate z0 <= z <= z0 + w. */
  predicate IsEndcap(t: Dims, c: Vec, r: real)
  {
    if r >= t.a then false
    else t.z0 <= c.2 <= t.z0 + t.w
  }

  /** The compensating slab z0 - delta_c - w <= z <= z0 - delta_c. */
  predicate InSlab(t: Dims, z: real)
  {
    t.z0 - t.deltaC - t.w <= z <= t.z0 - t.deltaC
  }

  /** `is_other_electrode`, its tests in the source's order; the None outside the slab is falsy. */
  predicate IsOther(t: Dims, c: Vec, r: real)
    requires t.wireNum != 0
  {
    if c.2 > t.z0 then false
    else if r > t.a + t.w then false
    else if r > t.a then true
    else if InSlab(t, c.2) then
      if PseudoPotTrap.OnWire(t.a, t.wireNum, t.wireRad, c.0) then true
      else if PseudoPotTrap.OnWire(t.a, t.wireNum, t.wireRad, c.1) then true
      else false
    else false
  }

  /** `calculate_nontrap_electrode_type`: the sector rule on the wall shell, COMPENSATED elsewhere. */
  function NontrapType(t: Dims, r: real, theta: real): CompensatedVoltage
  {
    if t.a <= r <= t.a + t.w then
      if InSector(theta, Pi / 4.0) then CompExcitation else CompDetection
    else CompCompensated
  }

  /**
   * The other electrodes are the wall shell a < r <= a + w up to z0,
   * and inside the radius the wires of the grid in the slab.
   */
  lemma WangOther(t: Dims, c: Vec, r: real)
    requires t.wireNum != 0
    ensures IsOther(t, c, r) <==>
      c.2 <= t.z0 &&
      ((t.a < r <= t.a + t.w) ||
       (r <= t.a && InSlab(t, c.2) &&
        (PseudoPotTrap.OnWire(t.a, t.wireNum, t.wireRad, c.0) || PseudoPotTrap.OnWire(t.a, t.wireNum, t.wireRad, c.1))))
  {
  }

  /** With the grid strictly below the lid (delta_c > 0) no point is both an endcap and an other electrode. */
  lemma WangExclusive(t: Dims, c: Vec, r: real)
    requires t.wireNum != 0 && t.deltaC > 0.0
    ensures !(IsEndcap(t, c, r) && IsOther(t, c, r))
  {
  }

  /**
   * The wall shell takes the sector channels EXCITATION and DETECTION
   * and the grid inside the radius is COMPENSATED.
   */
  lemma WangChannels(t: Dims, c: Vec, r: real, theta: real)
    requires t.wireNum != 0
    ensures IsOther(t, c, r) && r > t.a ==>
      (NontrapType(t, r, theta) == CompExcitation <==> 0.0 <= theta <= Pi / 4.0) &&
      NontrapType(t, r, theta) != CompCompensated
    ensures IsOther(t, c, r) && r < t.a ==> NontrapType(t, r, theta) == CompCompensated
  {
  }
}
