/**
 * traps/open_trap.py: a cylinder open at the ends, with no endcap
 * electrodes; its wall is split at z0 into the cell proper and the
 * trapping extensions of length ze.  Its channels come from a generated
 * enum; they are modelled as four distinct identities.  Coordinates are
 * cylindrical (r, theta, z).
 */
module OpenTrap {
  import opened Wrappers
  import opened Points
  import Voltages
  import opened CutElectrode
  import opened Penning
  import opened AbstractTrap
  import CylindricalTrap

  /** The generated enum with no compensation channels and two trapping ones. */
  datatype OpenVoltage = Excitation | Detection | Trapping0 | Trapping1

  /** The factor `bigger` of the open traps' model borders. */
  const OpenBigger: real := 1.3

  /** The model border 1.3 (a, a, height) of the open cylinders, with height the top of their electrodes. */
  function OpenBorder(a: real, height: real): Vec
  {
    (OpenBigger * a, OpenBigger * a, OpenBigger * height)
  }

  /** `_is_endcap_electrode_simple`. */
  predicate EndcapSimple(c: Vec)
  {
    false
  }

  /** `calculate_nontrap_electrode_type`: the sector rule picks between two channels below z0 and two others above. */
  function NontrapType(z0: real, c: Vec): OpenVoltage
  {
    if c.2 < z0 then
      if InSector(c.1, Pi / 4.0) then Excitation else Detection
    else
      if InSector(c.1, Pi / 4.0) then Trapping0 else Trapping1
  }

  /**
   * The open border replaces the default 1.5 trap border: the grid has
   * `pts` cells along x and covers 1.3 a across and 1.3 height along z,
   * within one step.
   */
  lemma OpenGeometry(a: real, z0: real, height: real, pts: int)
    requires a > 0.0 && pts > 0
    ensures CreateGeometry((a, a, z0), pts, Some(OpenBorder(a, height))).Some?
    ensures var g := CreateGeometry((a, a, z0), pts, Some(OpenBorder(a, height))).value;
      g.lengths.0 == pts && g.border.0 == OpenBigger * a && g.gridstep == OpenBigger * a / pts as real &&
      OpenBigger * height <= g.border.2 < OpenBigger * height + g.gridstep
  {
    GeometryCovers((a, a, z0), pts, Some(OpenBorder(a, height)));
    DivMono(0.0, OpenBigger * a, pts as real);
    var g := CreateGeometry((a, a, z0), pts, Some(OpenBorder(a, height))).value;
    assert Coord(OpenBorder(a, height), 2) <= Coord(g.border, 2) < Coord(OpenBorder(a, height), 2) + g.gridstep;
  }

  /**
   * With the endcap condition always false there are no endcap
   * electrodes: the electrode points are exactly the wall shell.
   */
  lemma NoEndcapElectrodes(a: real, gridstep: real, p: Vec)
    ensures !IsEndcapElectrode(CylindricalTrap.Shell(gridstep), EndcapSimple, c => CylindricalTrap.OtherSimple(a, c), p)
    ensures IsOtherElectrode(CylindricalTrap.Shell(gridstep), EndcapSimple, c => CylindricalTrap.OtherSimple(a, c), p) <==>
      InOther(CylindricalTrap.Shell(gridstep), c => CylindricalTrap.OtherSimple(a, c), p) == 0
  {
    SingleDirectionCut(EndcapSimple, p, 2, Width(CylindricalTrap.Shell(gridstep)));
  }

  /**
   * Two wall points share a channel exactly when they are on the same
   * side of z0 and both or neither are in the sector 0 <= theta <= pi/4;
   * below z0 the channels follow the default sector rule.
   */
  lemma OpenChannels(z0: real, c: Vec, c': Vec)
    ensures NontrapType(z0, c) == NontrapType(z0, c') <==>
      (c.2 < z0 <==> c'.2 < z0) && (InSector(c.1, Pi / 4.0) <==> InSector(c'.1, Pi / 4.0))
    ensures NontrapType(z0, c) in {Excitation, Detection} <==> c.2 < z0
    ensures c.2 < z0 ==> (NontrapType(z0, c) == Excitation <==> DefaultNontrapType(c) == Voltages.Excitation)
  {
  }
}
