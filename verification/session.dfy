/**
 * The connection logic of the MIDI driver as functions of the driver state:
 * fetching and walking one configuration, scanning the configurations of a
 * device, Release, and the whole Init sequence. What the USB stack answers
 * (return codes, descriptor bytes, the address the pool hands out) is an
 * input: a `ConfFetch` per configuration and a `Device` for everything else.
 */
module Session {
  import opened MidiState
  import opened ConfigDescriptor

  /** Return codes of the USB stack used by Init. */
  const ErrOutOfAddressSpace: bv8 := 0xD2
  const ErrAddressNotFound: bv8 := 0xD4
  const ErrEpInfoIsNull: bv8 := 0xD5
  const ErrInstanceInUse: bv8 := 0xD7

  /** The answers to the two configuration descriptor requests for one
      configuration: the first reads the 4-byte header, the second the whole
      set into the 256-byte buffer. */
  datatype ConfFetch = ConfFetch(headerRcode: bv8, header: seq<bv8>, bodyRcode: bv8, buf: seq<bv8>)
  {
    ghost predicate Valid()
    {
      && |header| == 4
      && |buf| == DescBuffSize
      && (headerRcode == 0 && bodyRcode == 0 ==> WellFormed(buf, TotalLength(header), 0))
    }
  }

  /** parseConfigDescr: a failed request leaves the state as it was; otherwise
      the descriptor walk runs over the first wTotalLength (at most 256)
      bytes. It never touches the address, the polling flag or slot 0, and
      never clears isMidiFound. */
  function ParseConfig(d: DriverState, f: ConfFetch): (r: DriverState)
    requires f.Valid()
    ensures f.headerRcode != 0 || f.bodyRcode != 0 ==> r == d
    ensures r.address == d.address && r.pollEnable == d.pollEnable && r.ep[0] == d.ep[0]
    ensures d.midiFound ==> r.midiFound
  {
    if f.headerRcode != 0 then d
    else
      var total := TotalLength(f.header);
      if f.bodyRcode != 0 then d
      else
        var offs := Offsets(f.buf, total, 0);
        WalkFrame(f.buf, offs, Walker(d, false));
        WalkMidiFound(f.buf, offs, Walker(d, false));
        Walk(f.buf, total, d).st
  }

  /** The configuration loop of Init: configurations are parsed in order and
      the loop stops after the first one that leaves more than one endpoint
      counted. */
  function ScanConfigs(d: DriverState, cs: seq<ConfFetch>): (r: DriverState)
    requires forall j :: 0 <= j < |cs| ==> cs[j].Valid()
    ensures r.address == d.address && r.pollEnable == d.pollEnable && r.ep[0] == d.ep[0]
    ensures d.midiFound ==> r.midiFound
    decreases |cs|
  {
    if cs == [] then d
    else
      var d1 := ParseConfig(d, cs[0]);
      if d1.numEP > 1 then d1 else ScanConfigs(d1, cs[1..])
  }

  /** One round of the scan: parse the first configuration, then stop or go
      on with the rest. */
  lemma ScanConfigsFirst(d: DriverState, cs: seq<ConfFetch>, c: ConfFetch)
    requires forall j :: 0 <= j < |cs| ==> cs[j].Valid()
    requires |cs| >= 1 && c == cs[0]
    ensures ParseConfig(d, c).numEP > 1 ==> ScanConfigs(d, cs) == ParseConfig(d, c)
    ensures ParseConfig(d, c).numEP <= 1 ==> ScanConfigs(d, cs) == ScanConfigs(ParseConfig(d, c), cs[1..])
  {
  }

  /** All of `cs` parsed in order, with no early stop. */
  function ParseAll(d: DriverState, cs: seq<ConfFetch>): DriverState
    requires forall j :: 0 <= j < |cs| ==> cs[j].Valid()
    decreases |cs|
  {
    if cs == [] then d else ParseAll(ParseConfig(d, cs[0]), cs[1..])
  }

  /** The scan ends after the first `m` configurations: more than one
      endpoint is counted after them unless they are all of them, and after
      no shorter prefix. */
  ghost predicate StopsAfter(d: DriverState, cs: seq<ConfFetch>, m: nat)
    requires forall j :: 0 <= j < |cs| ==> cs[j].Valid()
  {
    && 1 <= m <= |cs|
    && (m < |cs| ==> ParseAll(d, cs[..m]).numEP > 1)
    && (forall j :: 1 <= j < m ==> ParseAll(d, cs[..j]).numEP <= 1)
  }

  /** The scan is the parse of a non-empty prefix of the configurations: the
      shortest one after which more than one endpoint is counted, or all of
      them. */
  lemma {:induction false} ScanStopsEarly(d: DriverState, cs: seq<ConfFetch>)
    requires forall j :: 0 <= j < |cs| ==> cs[j].Valid()
    requires |cs| >= 1
    ensures exists m: nat :: StopsAfter(d, cs, m) && ScanConfigs(d, cs) == ParseAll(d, cs[..m])
    decreases |cs|
  {
    var d1 := ParseConfig(d, cs[0]);
    if d1.numEP > 1 || |cs| == 1 {
      StopsAtFirst(d, cs);
    } else {
      var rest := cs[1..];
      ScanStopsEarly(d1, rest);
      var m: nat :| StopsAfter(d1, rest, m) && ScanConfigs(d1, rest) == ParseAll(d1, rest[..m]);
      StopsAfterFirst(d, cs, m);
    }
  }

  /** A first configuration that leaves more than one endpoint counted, or
      the only one, ends the scan. */
  lemma StopsAtFirst(d: DriverState, cs: seq<ConfFetch>)
    requires forall j :: 0 <= j < |cs| ==> cs[j].Valid()
    requires |cs| >= 1 && (ParseConfig(d, cs[0]).numEP > 1 || |cs| == 1)
    ensures StopsAfter(d, cs, 1) && ScanConfigs(d, cs) == ParseAll(d, cs[..1])
  {
    assert cs[..1] == [cs[0]];
    ParseAllSingle(d, cs[0]);
    ScanConfigsFirst(d, cs, cs[0]);
    if |cs| == 1 {
      assert cs[1..] == [];
    }
  }

  lemma ParseAllSingle(d: DriverState, c: ConfFetch)
    requires c.Valid()
    ensures ParseAll(d, [c]) == ParseConfig(d, c)
  {
    assert [c][1..] == [];
  }

  /** A first configuration that leaves at most one endpoint counted moves
      the stopping point of the rest of the scan up by one. */
  lemma StopsAfterFirst(d: DriverState, cs: seq<ConfFetch>, m: nat)
    requires forall j :: 0 <= j < |cs| ==> cs[j].Valid()
    requires |cs| >= 1 && ParseConfig(d, cs[0]).numEP <= 1
    requires StopsAfter(ParseConfig(d, cs[0]), cs[1..], m)
    ensures StopsAfter(d, cs, m + 1)
    ensures ParseAll(d, cs[..m + 1]) == ParseAll(ParseConfig(d, cs[0]), cs[1..][..m])
  {
    forall j | 1 <= j < m + 1 ensures ParseAll(d, cs[..j]).numEP <= 1 {
      ParseAllPrefix(d, cs, j - 1);
    }
    ParseAllPrefix(d, cs, 0);
    ParseAllPrefix(d, cs, m);
  }

  /** Parsing the first j + 1 configurations is parsing the first one, then j
      more. */
  lemma ParseAllPrefix(d: DriverState, cs: seq<ConfFetch>, j: nat)
    requires forall i :: 0 <= i < |cs| ==> cs[i].Valid()
    requires j < |cs|
    ensures ParseAll(d, cs[..j + 1]) == ParseAll(ParseConfig(d, cs[0]), cs[1..][..j])
  {
    assert cs[..j + 1][1..] == cs[1..][..j];
  }

  /** When no MIDI Streaming interface was found, the data slots 1/2 take
      the endpoints found for slots 3/4; nothing else changes. */
  function Promote(d: DriverState): (r: DriverState)
    ensures r.ep[EpDataInIndex] == d.ep[EpDataInIndexVSP] && r.ep[EpDataOutIndex] == d.ep[EpDataOutIndexVSP]
    ensures r.ep[0] == d.ep[0] && r.ep[3..] == d.ep[3..]
    ensures r.(ep := d.ep) == d
  {
    d.(ep := d.ep[EpDataInIndex := d.ep[EpDataInIndexVSP]][EpDataOutIndex := d.ep[EpDataOutIndexVSP]])
  }

  /** Release: the address goes back to the pool and the instance forgets it,
      counts only the control endpoint and stops polling. The endpoint table,
      isMidiFound and bConfNum are kept. */
  function ReleaseSpec(d: DriverState): (r: DriverState)
    ensures r.address == 0 && r.numEP == 1 && !r.pollEnable
    ensures r.midiFound == d.midiFound && r.confNum == d.confNum && r.ep == d.ep
  {
    d.(address := 0, numEP := 1, pollEnable := false)
  }

  /** Releasing twice is releasing once, and a released instance is Idle. */
  lemma ReleaseIdempotent(d: DriverState)
    ensures ReleaseSpec(ReleaseSpec(d)) == ReleaseSpec(d)
    ensures Idle(ReleaseSpec(d))
  {
  }

  /** The answers of the USB stack during one Init. */
  datatype Device = Device(
    pseudoDeviceFound: bool,    // the address pool has the address-0 record
    pseudoEpInfoSet: bool,      // that record has an endpoint table
    devDescrRcode: bv8,         // device descriptor request
    maxPacketSize0: bv8,        // bMaxPacketSize0 of the device descriptor
    allocatedAddress: bv8,      // what the address pool hands out, 0 when full
    setAddrRcode: bv8,          // SET_ADDRESS
    addressRecordFound: bool,   // the pool has a record for the new address
    setEpInfoRcode: bv8,        // first registration of the endpoint table
    configs: seq<ConfFetch>,    // one per configuration, bNumConfigurations of them
    lateEpInfoRcode: bv8,       // second registration of the endpoint table
    setConfRcode: bv8)          // SET_CONFIGURATION
  {
    ghost predicate Valid()
    {
      && |configs| < 256
      && forall j :: 0 <= j < |configs| ==> configs[j].Valid()
    }
  }

  datatype Outcome = Outcome(st: DriverState, rcode: bv8)

  /** The state once the device is addressed: the new address is held and
      slot 0 has the device's control packet size. */
  function Addressed(d: DriverState, dev: Device): (r: DriverState)
    ensures r.address == dev.allocatedAddress && r.ep[0].maxPktSize == dev.maxPacketSize0
    ensures r.ep[0].epAddr == d.ep[0].epAddr && r.ep[1..] == d.ep[1..]
    ensures r.(address := d.address, ep := d.ep) == d
  {
    d.(address := dev.allocatedAddress, ep := d.ep[0 := d.ep[0].(maxPktSize := dev.maxPacketSize0)])
  }

  /** Init after the device has been addressed and its endpoint table
      registered: scan, check bConfNum, promote, select the configuration.
      Polling is switched on only with a configuration value and a result of
      0; every other end releases the device; the result is 0 or the
      SET_CONFIGURATION code. */
  function Configure(d: DriverState, dev: Device): (o: Outcome)
    requires dev.Valid()
    ensures o.rcode == 0 || o.rcode == dev.setConfRcode
    ensures o.st.pollEnable ==> o.rcode == 0 && o.st.confNum != 0 && o.st.address == d.address
    ensures !o.st.pollEnable ==> o.st.address == 0 && o.st.numEP == 1
    ensures o.st.ep[0] == d.ep[0] && (d.midiFound ==> o.st.midiFound)
  {
    var scanned := ScanConfigs(d, dev.configs);
    if scanned.confNum == 0 then Outcome(ReleaseSpec(scanned), 0)
    else
      var promoted := if !scanned.midiFound then Promote(scanned) else scanned;
      if dev.setConfRcode != 0 then Outcome(ReleaseSpec(promoted), dev.setConfRcode)
      else Outcome(promoted.(pollEnable := true), 0)
  }

  /** Init, step by step as the driver runs it. The result is 0, one of the
      driver's own error codes, or the code of the request that failed; a
      result of 0 comes only from an unbound instance, and leaves it either
      polling at the allocated address or released. */
  function InitSpec(d: DriverState, dev: Device): (o: Outcome)
    requires dev.Valid()
    ensures || o.rcode == 0
            || o.rcode in {ErrInstanceInUse, ErrAddressNotFound, ErrEpInfoIsNull, ErrOutOfAddressSpace}
            || o.rcode in {dev.devDescrRcode, dev.setAddrRcode, dev.setEpInfoRcode, dev.setConfRcode}
    ensures o.rcode == 0 ==> d.address == 0 && o.st.ep[0].maxPktSize == dev.maxPacketSize0
    ensures o.rcode == 0 && o.st.pollEnable ==> o.st.address == dev.allocatedAddress && o.st.address != 0
    ensures o.rcode == 0 && !o.st.pollEnable ==> o.st.address == 0
  {
    if d.address != 0 then Outcome(d, ErrInstanceInUse)
    else if !dev.pseudoDeviceFound then Outcome(d, ErrAddressNotFound)
    else if !dev.pseudoEpInfoSet then Outcome(d, ErrEpInfoIsNull)
    else if dev.devDescrRcode != 0 then Outcome(ReleaseSpec(d), dev.devDescrRcode)
    else if dev.allocatedAddress == 0 then Outcome(d, ErrOutOfAddressSpace)
    else
      var addressed := Addressed(d, dev);
      if dev.setAddrRcode != 0 then Outcome(addressed.(address := 0), dev.setAddrRcode)
      else if !dev.addressRecordFound then Outcome(addressed, ErrAddressNotFound)
      else if dev.setEpInfoRcode != 0 then Outcome(ReleaseSpec(addressed), dev.setEpInfoRcode)
      else Configure(addressed, dev)
  }

  // ---------------------------------------------------------------------------
  // Properties of Init
  // ---------------------------------------------------------------------------

  /** An instance that holds an address refuses a second Init and changes
      nothing. */
  lemma InitRefusesWhenBound(d: DriverState, dev: Device)
    requires dev.Valid() && d.address != 0
    ensures InitSpec(d, dev) == Outcome(d, ErrInstanceInUse)
  {
  }

  /** Init succeeds (polling on) exactly when every request succeeds and the
      scan finds a non-zero configuration value; the instance then holds the
      allocated address, slot 0 has the device's control packet size, and
      without a MIDI Streaming interface slots 1/2 repeat slots 3/4. */
  lemma InitSuccess(d: DriverState, dev: Device)
    requires dev.Valid() && d.address == 0 && !d.pollEnable
    ensures var o := InitSpec(d, dev);
      o.st.pollEnable <==>
        && dev.pseudoDeviceFound && dev.pseudoEpInfoSet && dev.devDescrRcode == 0
        && dev.allocatedAddress != 0 && dev.setAddrRcode == 0 && dev.addressRecordFound
        && dev.setEpInfoRcode == 0 && ScanConfigs(Addressed(d, dev), dev.configs).confNum != 0
        && dev.setConfRcode == 0
    ensures var o := InitSpec(d, dev);
      o.st.pollEnable ==>
        && o.rcode == 0
        && o.st.address == dev.allocatedAddress && o.st.address != 0
        && o.st.ep[0].maxPktSize == dev.maxPacketSize0
        && o.st.confNum != 0
        && (!o.st.midiFound ==> o.st.ep[EpDataInIndex] == o.st.ep[EpDataInIndexVSP]
                                && o.st.ep[EpDataOutIndex] == o.st.ep[EpDataOutIndexVSP])
  {
  }

  /** A result of 0 does not mean the device is usable: when no configuration
      value was found Init releases and still reports 0, with polling off. */
  lemma InitZeroResult(d: DriverState, dev: Device)
    requires dev.Valid()
    ensures var o := InitSpec(d, dev);
      o.rcode == 0 ==> (o.st.pollEnable <==> o.st.confNum != 0)
  {
  }

  /** A configuration scan that leaves bConfNum at 0 ends Init with Release
      and result 0. */
  lemma InitDeviceNotFound(d: DriverState, dev: Device)
    requires dev.Valid() && d.address == 0
    requires dev.pseudoDeviceFound && dev.pseudoEpInfoSet && dev.devDescrRcode == 0
    requires dev.allocatedAddress != 0 && dev.setAddrRcode == 0 && dev.addressRecordFound
    requires dev.setEpInfoRcode == 0
    requires ScanConfigs(Addressed(d, dev), dev.configs).confNum == 0
    ensures InitSpec(d, dev) == Outcome(ReleaseSpec(ScanConfigs(Addressed(d, dev), dev.configs)), 0)
    ensures !InitSpec(d, dev).st.pollEnable && InitSpec(d, dev).st.address == 0
  {
  }

  /** When the pool has no record for the new address, Init returns without
      Release: the instance keeps the address. */
  lemma InitKeepsAddressWithoutRecord(d: DriverState, dev: Device)
    requires dev.Valid() && d.address == 0
    requires dev.pseudoDeviceFound && dev.pseudoEpInfoSet && dev.devDescrRcode == 0
    requires dev.allocatedAddress != 0 && dev.setAddrRcode == 0 && !dev.addressRecordFound
    ensures InitSpec(d, dev).rcode == ErrAddressNotFound
    ensures InitSpec(d, dev).st.address == dev.allocatedAddress
    ensures !InitSpec(d, dev).st.pollEnable <==> !d.pollEnable
  {
  }

  /** The result of the second endpoint-table registration is never looked
      at: it is overwritten by the SET_CONFIGURATION result. */
  lemma InitIgnoresLateEpInfo(d: DriverState, dev: Device, rc: bv8)
    requires dev.Valid()
    ensures InitSpec(d, dev.(lateEpInfoRcode := rc)) == InitSpec(d, dev)
  {
  }

  /** Init keeps an Idle instance Idle: whenever it ends without an address,
      only the control endpoint is counted and polling is off. */
  lemma InitKeepsIdle(d: DriverState, dev: Device)
    requires dev.Valid() && Idle(d)
    ensures Idle(InitSpec(d, dev).st)
  {
  }

  /** Polling is only ever enabled together with a held address. */
  lemma InitPollingNeedsAddress(d: DriverState, dev: Device)
    requires dev.Valid() && (d.pollEnable ==> d.address != 0)
    ensures InitSpec(d, dev).st.pollEnable ==> InitSpec(d, dev).st.address != 0
  {
  }

  /** Neither Init nor Release ever clears isMidiFound. */
  lemma InitKeepsMidiFound(d: DriverState, dev: Device)
    requires dev.Valid() && d.midiFound
    ensures InitSpec(d, dev).st.midiFound && ReleaseSpec(d).midiFound
  {
  }
}
