/**
 * traps/cubic_trap.py: a cube of half-size `size`.  The endcaps are the
 * planes z = size, the side walls the planes x = size and y = size, each
 * cut to a shell one electrode width thick.  Coordinates are (x, y, z).
 */
module CubicTrap {
  import opened Wrappers
  import opened Points
  import opened Voltages
  import opened CutElectrode
  import opened Penning
  import opened AbstractTrap

  /** `_is_endcap_electrode_simple`. */
  predicate EndcapSimple(size: real, c: Vec)
  {
    c.2 >= size
  }

  /** `_is_other_electrode_simple`. */
  predicate OtherSimple(size: real, c: Vec)
  {
    c.0 >= size || c.1 >= size
  }

  /** `calculate_nontrap_electrode_type`: the x walls detect, the y walls excite. */
  function NontrapType(size: real, c: Vec): TrappedVoltage
  {
    if c.0 >= size then Detection else Excitation
  }

  /** The shell parameters: Cartesian, default electrode width. */
  function Shell(gridstep: real): ShellTrap
  {
    ShellTrap(gridstep, DefaultElectrodeWidth, false)
  }

  /** The trap's rules, with the endcaps TRAPPING. */
  function Rules(size: real, gridstep: real): PenningRules
  {
    SimpleElectrodeRules(Shell(gridstep), c => EndcapSimple(size, c), c => OtherSimple(size, c),
                         c => TrappedValue(DefaultEndcapType(c)), c => TrappedValue(NontrapType(size, c)))
  }

  /** The endcap cut along z: inside below the lid, shell for one width, beyond after that. */
  lemma EndcapCut(size: real, gridstep: real, p: Vec)
    ensures InEndcap(Shell(gridstep), c => EndcapSimple(size, c), p) ==
      if p.2 < size then -1 else if p.2 < size + Width(Shell(gridstep)) then 0 else 1
  {
    SingleDirectionCut(c => EndcapSimple(size, c), p, 2, Width(Shell(gridstep)));
  }

  /**
   * The side-wall cut along x and y: a point of the solid walls is on the
   * shell exactly when moving back one width on both x and y leaves the
   * walls.
   */
  lemma SideWallCut(size: real, gridstep: real, p: Vec)
    requires gridstep >= 0.0
    ensures InOther(Shell(gridstep), c => OtherSimple(size, c), p) == 0 <==>
      (p.0 >= size || p.1 >= size) && p.0 - Width(Shell(gridstep)) < size && p.1 - Width(Shell(gridstep)) < size
  {
    var w := Width(Shell(gridstep));
    var cond := c => OtherSimple(size, c);
    InCutElectrodeCases(cond, p, [0, 1], w);
    if InOther(Shell(gridstep), cond, p) == 0 {
      var s :| Inhabited(s) && Among(s, [0, 1]) && !cond(Shift(p, s, w));
      assert Shift(p, s, w).0 >= p.0 - w && Shift(p, s, w).1 >= p.1 - w;
    }
    if (p.0 >= size || p.1 >= size) && p.0 - w < size && p.1 - w < size {
      var s := {0, 1};
      assert 0 in s && Among(s, [0, 1]);
      assert !cond(Shift(p, s, w));
    }
  }

  /**
   * Below the lids an electrode point is exactly a side-wall shell point;
   * it is written as DETECTION (2) on the x walls and as EXCITATION (1)
   * elsewhere.
   */
  lemma BelowLidChannels(size: real, gridstep: real, p: Vec)
    requires gridstep >= 0.0 && p.2 < size
    ensures var w := Width(Shell(gridstep));
      IsElectrode(Rules(size, gridstep), p) <==>
        (p.0 >= size || p.1 >= size) && p.0 - w < size && p.1 - w < size
    ensures IsElectrode(Rules(size, gridstep), p) ==>
      (GetElectrodeType(Rules(size, gridstep), p) == 2 <==> p.0 >= size) &&
      (GetElectrodeType(Rules(size, gridstep), p) == 1 <==> p.0 < size)
  {
    SideWallCut(size, gridstep, p);
    SimpleElectrodesInsideSolids(Shell(gridstep), c => EndcapSimple(size, c), c => OtherSimple(size, c),
                                 c => TrappedValue(DefaultEndcapType(c)), c => TrappedValue(NontrapType(size, c)), p);
  }

  /** The trap border is (size, size, size), so the default model is a cube of `pts` cells a side, 1.5 size long. */
  lemma CubicGeometry(size: real, pts: int)
    requires size > 0.0 && pts > 0
    ensures CreateGeometry((size, size, size), pts, None).Some?
    ensures var g := CreateGeometry((size, size, size), pts, None).value;
      g.lengths == (pts, pts, pts) && g.border == (Bigger * size, Bigger * size, Bigger * size)
  {
    GeometryCovers((size, size, size), pts, None);
  }
}
