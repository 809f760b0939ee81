/**
 * The state a MIDI driver instance keeps between calls, as a value: the USB
 * address it was given, the number of endpoints it registered, whether
 * polling is enabled, whether a MIDI Streaming interface was ever seen, the
 * configuration value to select, and its endpoint table of five slots.
 */
module MidiState {

  /** One entry of the endpoint table: endpoint number and maximum packet size. */
  datatype EpInfo = EpInfo(epAddr: bv8, maxPktSize: bv8)

  /** Number of entries of the endpoint table. */
  const MaxEndpoints: nat := 5

  /** Slot 0 is the control endpoint; 1/2 are the MIDI Streaming bulk IN/OUT
      endpoints, 3/4 the IN/OUT endpoints of any other interface, used as a
      fallback for vendor-specific devices. */
  const EpDataInIndex: nat := 1
  const EpDataOutIndex: nat := 2
  const EpDataInIndexVSP: nat := 3
  const EpDataOutIndexVSP: nat := 4

  /** The endpoint table as the constructor leaves it: every slot zero except
      the control endpoint's maximum packet size, 8. */
  const InitialSlots: seq<EpInfo> := [EpInfo(0, 8), EpInfo(0, 0), EpInfo(0, 0), EpInfo(0, 0), EpInfo(0, 0)]

  type Slots = s: seq<EpInfo> | |s| == MaxEndpoints witness InitialSlots

  datatype DriverState = DriverState(
    address: bv8,
    numEP: bv8,
    pollEnable: bool,
    midiFound: bool,
    confNum: bv8,
    ep: Slots)

  /** The state the constructor establishes. The configuration value is not
      set by the constructor, so it is a parameter. */
  function Initial(confNum: bv8): (d: DriverState)
    ensures d.address == 0 && d.numEP == 1 && !d.pollEnable && !d.midiFound && d.confNum == confNum
    ensures d.ep[0] == EpInfo(0, 8)
    ensures forall s :: 1 <= s < MaxEndpoints ==> d.ep[s] == EpInfo(0, 0)
  {
    DriverState(0, 1, false, false, confNum, InitialSlots)
  }

  /** While no address is held, only the control endpoint is counted and
      polling is off. */
  ghost predicate Idle(d: DriverState)
  {
    d.address == 0 ==> d.numEP == 1 && !d.pollEnable
  }
}
