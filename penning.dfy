/**
 * traps/abstract_penning_trap.py: a Penning trap sorts electrode points
 * into endcap electrodes and other electrodes, and gives an endcap point
 * the endcap channel and any other electrode point the non-trap channel.
 * A trap is described by its four rules; the simple-electrode traps build
 * the two tests from the shells of CutElectrode.
 */
module Penning {
  import opened Points
  import opened Voltages
  import opened PaGrid
  import opened CutElectrode

  /** The four decisions a concrete trap supplies; channels are the integers written into the array. */
  datatype PenningRules = PenningRules(
    isEndcap: Vec -> bool,
    isOther: Vec -> bool,
    endcapType: Vec -> int,
    nontrapType: Vec -> int)

  /** `is_electrode`. */
  predicate IsElectrode(t: PenningRules, c: Vec)
  {
    t.isEndcap(c) || t.isOther(c)
  }

  /** `get_electrode_type`: the endcap test is asked first. */
  function GetElectrodeType(t: PenningRules, c: Vec): int
  {
    if t.isEndcap(c) then t.endcapType(c) else t.nontrapType(c)
  }

  /**
   * `put_point`: an endcap point gets the endcap channel, another
   * electrode point the non-trap channel, and anything else is not
   * written; the one voxel written is the one at `idx`.
   */
  method PutPoint(t: PenningRules, pa: PotentialArray, idx: Point, c: Vec)
    requires IsElectrode(t, c) ==> pa.Accepts(idx)
    modifies pa
    ensures t.isEndcap(c) ==> pa.cells == old(pa.cells)[idx := t.endcapType(c)]
    ensures !t.isEndcap(c) && t.isOther(c) ==> pa.cells == old(pa.cells)[idx := t.nontrapType(c)]
    ensures !IsElectrode(t, c) ==> pa.cells == old(pa.cells)
  {
    if t.isEndcap(c) {
      var accepted := pa.WritePoint(idx, t.endcapType(c));
    } else if t.isOther(c) {
      var accepted := pa.WritePoint(idx, t.nontrapType(c));
    }
  }

  /**
   * The endcap-first choice of `get_electrode_type` is the channel
   * `put_point` writes: an electrode point gets exactly one channel, and
   * a point that passes both tests gets the endcap's.
   */
  lemma ElectrodeTypePrecedence(t: PenningRules, c: Vec)
    ensures t.isEndcap(c) && t.isOther(c) ==> GetElectrodeType(t, c) == t.endcapType(c)
    ensures !t.isEndcap(c) ==> GetElectrodeType(t, c) == t.nontrapType(c)
    ensures IsElectrode(t, c) <==> t.isEndcap(c) || (!t.isEndcap(c) && t.isOther(c))
  {
  }

  // ---------------------------------------------------------------------
  // The default channels
  // ---------------------------------------------------------------------

  /** `0 <= theta <= upper`. */
  predicate InSector(theta: real, upper: real)
  {
    0.0 <= theta <= upper
  }

  /** `get_endcap_electrode_type`. */
  function DefaultEndcapType(c: Vec): TrappedVoltage
  {
    Trapping
  }

  /** `calculate_nontrap_electrode_type` on (r, theta, z). */
  function DefaultNontrapType(c: Vec): TrappedVoltage
  {
    if InSector(c.1, Pi / 4.0) then Excitation else Detection
  }

  /** The rules of a trap using the default channels, written through `.value`. */
  function DefaultRules(isEndcap: Vec -> bool, isOther: Vec -> bool): PenningRules
  {
    PenningRules(isEndcap, isOther, c => TrappedValue(DefaultEndcapType(c)), c => TrappedValue(DefaultNontrapType(c)))
  }

  /**
   * With the default channels an endcap point is always written as
   * TRAPPING (3), any other electrode point as EXCITATION (1) exactly in
   * the sector 0 <= theta <= pi/4 and as DETECTION (2) elsewhere, so the
   * two kinds never share a channel and only theta picks the side
   * electrode's channel.
   */
  lemma DefaultChannels(isEndcap: Vec -> bool, isOther: Vec -> bool, c: Vec, c': Vec)
    ensures var t := DefaultRules(isEndcap, isOther);
      (isEndcap(c) ==> GetElectrodeType(t, c) == 3) &&
      (!isEndcap(c) ==> (GetElectrodeType(t, c) == 1 <==> 0.0 <= c.1 <= Pi / 4.0)) &&
      (!isEndcap(c) ==> (GetElectrodeType(t, c) == 2 <==> !(0.0 <= c.1 <= Pi / 4.0))) &&
      (!isEndcap(c) && isEndcap(c') ==> GetElectrodeType(t, c) != GetElectrodeType(t, c'))
    ensures c.1 == c'.1 ==> DefaultNontrapType(c) == DefaultNontrapType(c')
  {
  }

  // ---------------------------------------------------------------------
  // Traps with simple electrodes
  // ---------------------------------------------------------------------

  /** A trap whose two tests are the shells cut from two simple conditions. */
  function SimpleElectrodeRules(t: ShellTrap, endcapSimple: Vec -> bool, otherSimple: Vec -> bool,
                                endcapType: Vec -> int, nontrapType: Vec -> int): PenningRules
  {
    PenningRules(
      p => IsEndcapElectrode(t, endcapSimple, otherSimple, p),
      p => IsOtherElectrode(t, endcapSimple, otherSimple, p),
      endcapType, nontrapType)
  }

  /**
   * Every electrode point of such a trap satisfies one of the simple
   * conditions; where the endcap condition fails the point is an
   * electrode exactly when it lies on the other shell, and then gets the
   * non-trap channel; where the other condition fails it is one exactly
   * when it lies on the endcap shell, and then gets the endcap channel.
   */
  lemma SimpleElectrodesInsideSolids(t: ShellTrap, endcapSimple: Vec -> bool, otherSimple: Vec -> bool,
                                     endcapType: Vec -> int, nontrapType: Vec -> int, p: Vec)
    ensures var r := SimpleElectrodeRules(t, endcapSimple, otherSimple, endcapType, nontrapType);
      (IsElectrode(r, p) ==> endcapSimple(p) || otherSimple(p)) &&
      (!endcapSimple(p) ==> (IsElectrode(r, p) <==> InOther(t, otherSimple, p) == 0)) &&
      (!endcapSimple(p) && IsElectrode(r, p) ==> GetElectrodeType(r, p) == nontrapType(p)) &&
      (!otherSimple(p) ==> (IsElectrode(r, p) <==> InEndcap(t, endcapSimple, p) == 0)) &&
      (!otherSimple(p) && IsElectrode(r, p) ==> GetElectrodeType(r, p) == endcapType(p))
  {
    InCutElectrodeCases(endcapSimple, p, [2], Width(t));
    InCutElectrodeCases(otherSimple, p, OtherDirections(t), Width(t));
  }
}
