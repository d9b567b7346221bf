/**
 * traps/cylindrical_trap.py: a closed cylinder of radius a and half-height
 * z0, in cylindrical coordinates (r, theta, z).  Its channels are plain
 * integers rather than enum members.
 */
module CylindricalTrap {
  import opened Points
  import opened CutElectrode

  /** The lids: `z >= cell_border.z`. */
  predicate EndcapSimple(z0: real, c: Vec)
  {
    c.2 >= z0
  }

  /** The wall: false exactly when r^2 < a^2. */
  predicate OtherSimple(a: real, c: Vec)
  {
    if c.0 * c.0 < a * a then false else true
  }

  /** `get_trap_electrode_type`. */
  function TrapElectrodeType(c: Vec): int
  {
    2
  }

  /** `calculate_nontrap_electrode_type`: 1 on the first and third quarter turns, 3 elsewhere. */
  function NontrapType(c: Vec): int
  {
    if 0.0 <= c.1 <= Pi / 2.0 then 1
    else if Pi <= c.1 <= Pi * 3.0 / 2.0 then 1
    else 3
  }

  /** The shell parameters: cylindrical, default electrode width. */
  function Shell(gridstep: real): ShellTrap
  {
    ShellTrap(gridstep, DefaultElectrodeWidth, true)
  }

  /** For a non-negative radius the wall condition is r >= a. */
  lemma WallOutsideRadius(a: real, c: Vec)
    requires a >= 0.0 && c.0 >= 0.0
    ensures OtherSimple(a, c) <==> c.0 >= a
  {
    SquaresOrdered(c.0, a);
  }

  /**
   * The wall is cut along r alone: with a non-negative radius and a
   * point at least one width out, the wall shell is a <= r < a + width.
   */
  lemma WallShell(a: real, gridstep: real, p: Vec)
    requires a >= 0.0 && gridstep >= 0.0 && p.0 >= Width(Shell(gridstep))
    ensures InOther(Shell(gridstep), c => OtherSimple(a, c), p) == 0 <==> a <= p.0 < a + Width(Shell(gridstep))
  {
    var w := Width(Shell(gridstep));
    SingleDirectionCut(c => OtherSimple(a, c), p, 0, w);
    WallOutsideRadius(a, p);
    WallOutsideRadius(a, Shift(p, {0}, w));
  }

  /**
   * The side channels take only the values 1 and 3, 1 exactly on the
   * first and third quarter turns, and opposite sides share a channel.
   */
  lemma SideChannels(c: Vec, c': Vec)
    ensures NontrapType(c) == 1 || NontrapType(c) == 3
    ensures NontrapType(c) == 1 <==> (0.0 <= c.1 <= Pi / 2.0 || Pi <= c.1 <= 3.0 * Pi / 2.0)
    ensures 0.0 <= c.1 < Pi && c'.1 == c.1 + Pi ==> NontrapType(c) == NontrapType(c')
  {
  }
}
