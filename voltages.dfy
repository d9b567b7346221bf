/**
 * The channel enums of traps/voltage_enums.py.  A channel is written into
 * the potential array as its integer value; `to_adjust` is the potential
 * the fast-adjust step gives the channel unless the trap supplies its own
 * rule.
 */
module Voltages {
  import opened Wrappers

  /** `SimpleVoltages`. */
  datatype SimpleVoltage = SimpleExcitation | SimpleDetection

  function SimpleValue(v: SimpleVoltage): int
  {
    match v
    case SimpleExcitation => 1
    case SimpleDetection => 2
  }

  function SimpleToAdjust(v: SimpleVoltage): int
  {
    if v == SimpleDetection then 0 else 1
  }

  /** `TrappedVoltages`. */
  datatype TrappedVoltage = Excitation | Detection | Trapping

  function TrappedValue(v: TrappedVoltage): int
  {
    match v
    case Excitation => 1
    case Detection => 2
    case Trapping => 3
  }

  function TrappedToAdjust(v: TrappedVoltage): int
  {
    match v
    case Detection => 0
    case Excitation => 0
    case Trapping => 1
  }

  /** `CompensatedVoltages`. */
  datatype CompensatedVoltage = CompExcitation | CompDetection | CompTrapping | CompCompensated

  function CompensatedValue(v: CompensatedVoltage): int
  {
    match v
    case CompExcitation => 1
    case CompDetection => 2
    case CompTrapping => 3
    case CompCompensated => 4
  }

  function CompensatedToAdjust(v: CompensatedVoltage): int
  {
    match v
    case CompDetection => 0
    case CompExcitation => 0
    case CompTrapping => 1
    case CompCompensated => 2
  }

  // ---------------------------------------------------------------------
  // Members in declaration order, and lookup by value (`TrappedVoltages(n)`)
  // ---------------------------------------------------------------------

  function SimpleMembers(): seq<SimpleVoltage>
  {
    [SimpleExcitation, SimpleDetection]
  }

  function TrappedMembers(): seq<TrappedVoltage>
  {
    [Excitation, Detection, Trapping]
  }

  function CompensatedMembers(): seq<CompensatedVoltage>
  {
    [CompExcitation, CompDetection, CompTrapping, CompCompensated]
  }

  function TrappedFromValue(n: int): (r: Option<TrappedVoltage>)
  {
    if n == 1 then Some(Excitation) else if n == 2 then Some(Detection) else if n == 3 then Some(Trapping) else None
  }

  function CompensatedFromValue(n: int): (r: Option<CompensatedVoltage>)
  {
    if n == 1 then Some(CompExcitation) else if n == 2 then Some(CompDetection)
    else if n == 3 then Some(CompTrapping) else if n == 4 then Some(CompCompensated) else None
  }

  /** The values of each enum are 1, 2, ... in declaration order, and every member is listed. */
  lemma MembersNumberedInOrder()
    ensures forall n :: 0 <= n < |SimpleMembers()| ==> SimpleValue(SimpleMembers()[n]) == n + 1
    ensures forall n :: 0 <= n < |TrappedMembers()| ==> TrappedValue(TrappedMembers()[n]) == n + 1
    ensures forall n :: 0 <= n < |CompensatedMembers()| ==> CompensatedValue(CompensatedMembers()[n]) == n + 1
    ensures forall v: SimpleVoltage :: v in SimpleMembers()
    ensures forall v: TrappedVoltage :: v in TrappedMembers()
    ensures forall v: CompensatedVoltage :: v in CompensatedMembers()
  {
    forall v: SimpleVoltage ensures v in SimpleMembers() {
      match v
      case SimpleExcitation => assert SimpleMembers()[0] == v;
      case SimpleDetection => assert SimpleMembers()[1] == v;
    }
    forall v: TrappedVoltage ensures v in TrappedMembers() {
      match v
      case Excitation => assert TrappedMembers()[0] == v;
      case Detection => assert TrappedMembers()[1] == v;
      case Trapping => assert TrappedMembers()[2] == v;
    }
    forall v: CompensatedVoltage ensures v in CompensatedMembers() {
      match v
      case CompExcitation => assert CompensatedMembers()[0] == v;
      case CompDetection => assert CompensatedMembers()[1] == v;
      case CompTrapping => assert CompensatedMembers()[2] == v;
      case CompCompensated => assert CompensatedMembers()[3] == v;
    }
  }

  /** Looking a channel up by its value gives the channel back, and only the values 1..3 name a channel. */
  lemma TrappedValueRoundTrip(v: TrappedVoltage, n: int)
    ensures TrappedFromValue(TrappedValue(v)) == Some(v)
    ensures TrappedFromValue(n).Some? <==> 1 <= n <= 3
    ensures TrappedFromValue(n).Some? ==> TrappedValue(TrappedFromValue(n).value) == n
  {
  }

  lemma CompensatedValueRoundTrip(v: CompensatedVoltage, n: int)
    ensures CompensatedFromValue(CompensatedValue(v)) == Some(v)
    ensures CompensatedFromValue(n).Some? <==> 1 <= n <= 4
    ensures CompensatedFromValue(n).Some? ==> CompensatedValue(CompensatedFromValue(n).value) == n
  {
  }

  /** The trapped channels as members of the compensated enum. */
  function AsCompensated(v: TrappedVoltage): CompensatedVoltage
  {
    match v
    case Excitation => CompExcitation
    case Detection => CompDetection
    case Trapping => CompTrapping
  }

  function AsTrapped(v: SimpleVoltage): TrappedVoltage
  {
    if v == SimpleExcitation then Excitation else Detection
  }

  /**
   * EXCITATION = 1 and DETECTION = 2 in all three enums; the compensated
   * enum extends the trapped one with the same values and the same
   * adjust potentials; the simple enum, unlike the others, gives the
   * excitation channel potential 1.
   */
  lemma EnumsAgree(t: TrappedVoltage, s: SimpleVoltage)
    ensures CompensatedValue(AsCompensated(t)) == TrappedValue(t)
    ensures CompensatedToAdjust(AsCompensated(t)) == TrappedToAdjust(t)
    ensures TrappedValue(AsTrapped(s)) == SimpleValue(s)
    ensures SimpleToAdjust(s) != TrappedToAdjust(AsTrapped(s)) <==> s == SimpleExcitation
  {
  }

  /** Only the trapping channel is charged by default; a compensated channel gets its value less two, and never below zero. */
  lemma DefaultAdjustCharges(t: TrappedVoltage, c: CompensatedVoltage)
    ensures TrappedToAdjust(t) != 0 <==> t == Trapping
    ensures CompensatedToAdjust(c) == if CompensatedValue(c) <= 2 then 0 else CompensatedValue(c) - 2
  {
  }
}
