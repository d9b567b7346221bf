/**
 * traps/pseudo_pot_trap.py: a Cartesian trap whose wall is the outside
 * of the cylinder x^2 + y^2 = a^2 below z0 and whose endcaps are grids
 * of wires parallel to y, spaced a / wire_num apart across the lid.
 * Coordinates are Cartesian (x, y, z).
 */
module PseudoPotTrap {
  import opened Points

  /** `wire_rad = gridstepmm * 1.1`: a wire's half-thickness. */
  function WireRad(gridstep: real): real
  {
    gridstep * 1.1
  }

  /** x within `rad` of the centre i * step of wire i. */
  predicate NearWire(step: real, rad: real, i: int, x: real)
  {
    i as real * step - rad <= x <= i as real * step + rad
  }

  /** The wire loop from wire i on: true at the first wire x is near. */
  function NearWireFrom(step: real, rad: real, x: real, i: int, n: int): (b: bool)
    ensures b <==> exists m :: i <= m < n && NearWire(step, rad, m, x)
    decreases n - i
  {
    if i >= n then false
    else if NearWire(step, rad, i, x) then true
    else NearWireFrom(step, rad, x, i + 1, n)
  }

  /** `w_step = a / wire_num`: the spacing of the wires. */
  function WireStep(a: real, wireNum: int): real
    requires wireNum != 0
  {
    a / wireNum as real
  }

  /** The wires 0 .. n-1, spaced a / n apart. */
  predicate OnWire(a: real, wireNum: int, rad: real, x: real)
    requires wireNum != 0
  {
    NearWireFrom(WireStep(a, wireNum), rad, x, 0, wireNum)
  }

  /** `_is_endcap_electrode_simple`: on or above the lid, inside the circle, on a wire. */
  predicate EndcapSimple(a: real, z0: real, wireNum: int, rad: real, c: Vec)
    requires wireNum != 0
  {
    if c.2 < z0 then false
    else if c.0 * c.0 + c.1 * c.1 > a * a then false
    else OnWire(a, wireNum, rad, c.0)
  }

  /** `_is_other_electrode_simple`: up to the lid, outside the circle. */
  predicate OtherSimple(a: real, z0: real, c: Vec)
  {
    if c.2 > z0 then false
    else if c.0 * c.0 + c.1 * c.1 < a * a then false
    else true
  }

  /** The centre of every wire is on that wire, and a point is on the grid exactly when it is near one of the n wires. */
  lemma WireGrid(a: real, wireNum: int, rad: real, x: real, i: int)
    requires wireNum != 0 && rad >= 0.0
    ensures OnWire(a, wireNum, rad, x) <==> exists m :: 0 <= m < wireNum && NearWire(WireStep(a, wireNum), rad, m, x)
    ensures 0 <= i < wireNum ==> OnWire(a, wireNum, rad, i as real * WireStep(a, wireNum))
  {
    if 0 <= i < wireNum {
      assert NearWire(WireStep(a, wireNum), rad, i, i as real * WireStep(a, wireNum));
    }
  }

  /**
   * The endcap and the wall meet only on the rim: both hold exactly
   * where z = z0, x^2 + y^2 = a^2 and x is on a wire.
   */
  lemma PseudoPotOverlap(a: real, z0: real, wireNum: int, rad: real, c: Vec)
    requires wireNum != 0
    ensures EndcapSimple(a, z0, wireNum, rad, c) && OtherSimple(a, z0, c) <==>
      c.2 == z0 && c.0 * c.0 + c.1 * c.1 == a * a && OnWire(a, wireNum, rad, c.0)
  {
  }
}
