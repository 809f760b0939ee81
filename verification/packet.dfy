/**
 * USB-MIDI Event Packets (USB Device Class Definition for MIDI Devices 1.0,
 * section 4): the encoder used by SendData / SendDataMulti and the frame filter
 * used by RcvData. Each transfer to the device is modelled as one call of a
 * status oracle `outStatus`: the n-th packet handed to the transport in one
 * send operation gets the status `outStatus(n)` (0 = success).
 */
module UsbMidiPacket {

  datatype Option<T> = None | Some(value: T)

  const SysExStart: bv8 := 0xF0
  const SysExEnd: bv8 := 0xF7

  /** Code Index Number "SysEx starts or continues". */
  const CinSysExContinue: bv8 := 0x4

  /** One 4-byte event packet: byte 0 holds the cable number (high nibble) and
      the Code Index Number (low nibble), bytes 1..3 the MIDI bytes. */
  datatype EventPacket = EventPacket(header: bv8, midi0: bv8, midi1: bv8, midi2: bv8)
  {
    function Cable(): bv8 { header >> 4 }
    function Cin(): bv8 { header & 0x0F }
    function Bytes(): seq<bv8> { [header, midi0, midi1, midi2] }
    function Midi(): seq<bv8> { [midi0, midi1, midi2] }
  }

  /** Byte 0 of a packet, computed in 8 bits as the driver does: the cable
      number is shifted out of the byte when it is larger than 0xF. */
  function Header(cable: bv8, cin: bv8): (h: bv8)
    requires cin < 0x10
    ensures h >> 4 == cable & 0x0F
    ensures h & 0x0F == cin
  {
    (cable << 4) | cin
  }

  /** Number of MIDI bytes a packet with this Code Index Number carries
      (table 4-1). CIN 0x0 and 0x1 are reserved and may carry 1, 2 or 3 bytes;
      they are counted as 3 here. */
  function CinPayloadSize(cin: bv8): (n: nat)
    requires cin < 0x10
    ensures 1 <= n <= 3
  {
    if cin == 0x5 || cin == 0xF then 1
    else if cin == 0x2 || cin == 0x6 || cin == 0xC || cin == 0xD then 2
    else 3
  }

  /** The MIDI bytes a packet carries according to its Code Index Number. */
  function Payload(p: EventPacket): seq<bv8>
  {
    p.Midi()[..CinPayloadSize(p.Cin())]
  }

  /** `bytes` followed by zeros up to three bytes. */
  function Pad3(bytes: seq<bv8>): (r: seq<bv8>)
    requires |bytes| <= 3
    ensures |r| == 3 && r[..|bytes|] == bytes
    ensures forall j :: |bytes| <= j < 3 ==> r[j] == 0
  {
    bytes + seq(3 - |bytes|, _ => 0)
  }

  // ---------------------------------------------------------------------------
  // Short messages (SendData)
  // ---------------------------------------------------------------------------

  /** Length of a MIDI 1.0 message (status byte included) that starts with the
      status byte `status`; SysEx (0xF0) is not a short message. */
  function MessageLength(status: bv8): nat
    requires status >= 0x80 && status != SysExStart
  {
    if status < 0xC0 then 3        // note off, note on, poly pressure, control change
    else if status < 0xE0 then 2   // program change, channel pressure
    else if status < 0xF0 then 3   // pitch bend
    else if status == 0xF1 || status == 0xF3 then 2  // MTC quarter frame, song select
    else if status == 0xF2 then 3  // song position pointer
    else 1                         // everything else is sent as a single byte
  }

  /** Code Index Number the driver puts in front of a short message with this
      status byte. */
  function StatusCin(status: bv8): bv8
    requires status >= 0x80 && status != SysExStart
  {
    if status < 0xF0 then status >> 4
    else if status == 0xF1 || status == 0xF3 then 0x2
    else if status == 0xF2 then 0x3
    else 0xF
  }

  /** The one packet SendData builds for a message that does not start with
      0xF0. The branches follow the switch of the source with its fallthroughs
      written out: 0xF2 only changes the CIN, 0xF1/0xF3 change the CIN and then
      share the zeroing of byte 3 with 0xCn/0xDn, and every other key (including
      bytes below 0x80, masked to their high nibble) keeps only byte 1. */
  function ShortPacket(data: seq<bv8>, cable: bv8): (p: EventPacket)
    requires |data| >= 3 && data[0] != SysExStart
    ensures p.Cable() == cable & 0x0F
    ensures p.midi0 == data[0]
    ensures data[0] >= 0x80 ==> p.Cin() == StatusCin(data[0])
    ensures data[0] >= 0x80 ==> CinPayloadSize(p.Cin()) == MessageLength(data[0])
    ensures data[0] >= 0x80 ==> p.Midi() == Pad3(data[..MessageLength(data[0])])
    ensures data[0] < 0x80 ==> p.Cin() == data[0] >> 4 && p.midi1 == 0 && p.midi2 == 0
  {
    var msg := data[0];
    var packet := EventPacket((cable << 4) | (msg >> 4), data[0], data[1], data[2]);
    var key := if msg < 0xF0 then msg & 0xF0 else msg;
    if key == 0xF2 then
      packet.(header := Header(cable, 0x3))
    else if key == 0x80 || key == 0x90 || key == 0xA0 || key == 0xB0 || key == 0xE0 then
      packet
    else if key == 0xF1 || key == 0xF3 then
      packet.(header := Header(cable, 0x2), midi2 := 0)
    else if key == 0xC0 || key == 0xD0 then
      packet.(midi2 := 0)
    else
      packet.(midi1 := 0, midi2 := 0)
  }

  // ---------------------------------------------------------------------------
  // SysEx streams (SendDataMulti)
  // ---------------------------------------------------------------------------

  /** Index of the first 0xF7 in `data`. */
  function FirstEnd(data: seq<bv8>): (k: nat)
    requires SysExEnd in data
    ensures k < |data| && data[k] == SysExEnd
    ensures forall t :: 0 <= t < k ==> data[t] != SysExEnd
  {
    if data[0] == SysExEnd then 0
    else
      assert SysExEnd in data[1..] by {
        var j :| 0 <= j < |data| && data[j] == SysExEnd;
        assert data[1..][j - 1] == SysExEnd;
      }
      1 + FirstEnd(data[1..])
  }

  /** FirstEnd is the only index holding a 0xF7 with none before it. */
  lemma FirstEndUnique(data: seq<bv8>, k: nat)
    requires k < |data| && data[k] == SysExEnd
    requires forall t :: 0 <= t < k ==> data[t] != SysExEnd
    ensures FirstEnd(data) == k
  {
  }

  /** FirstEnd seen from a later starting point that is not past it. */
  lemma FirstEndSuffix(data: seq<bv8>, m: nat)
    requires SysExEnd in data && m <= FirstEnd(data)
    ensures SysExEnd in data[m..]
    ensures FirstEnd(data[m..]) == FirstEnd(data) - m
  {
    var k := FirstEnd(data);
    assert data[m..][k - m] == SysExEnd;
    FirstEndUnique(data[m..], k - m);
  }

  /** Code Index Number of the closing packet whose 0xF7 is at index `e` of
      its group: 0x4 + (e + 1). */
  function EndCin(e: nat): (cin: bv8)
    requires e < 3
    ensures cin as int == CinSysExContinue as int + e + 1
  {
    if e == 0 then 0x5 else if e == 1 then 0x6 else 0x7
  }

  /** The closing packet of a SysEx stream for the group starting at index
      `start` whose 0xF7 is at index `e` < 3 of the group: CIN 0x4 + (e + 1),
      the group's bytes through the 0xF7, then zeros. */
  function EndPacket(data: seq<bv8>, start: nat, e: nat, cable: bv8): (p: EventPacket)
    requires e < 3 && start + e < |data|
    ensures p.Cable() == cable & 0x0F && p.Cin() == EndCin(e) && p.midi0 == data[start]
  {
    EventPacket(Header(cable, EndCin(e)), data[start],
                if e >= 1 then data[start + 1] else 0,
                if e >= 2 then data[start + 2] else 0)
  }

  /** The closing packet is one: CIN 0x4 plus the number of the group's bytes
      through the 0xF7, and those bytes padded with zeros. */
  lemma EndPacketShape(data: seq<bv8>, start: nat, e: nat, cable: bv8)
    requires e < 3 && start + e < |data|
    ensures IsClosingPacket(EndPacket(data, start, e, cable), cable, data[start..start + e + 1])
  {
  }

  /** A closing packet for `bytes` (the last one is the 0xF7): CIN 0x5, 0x6
      or 0x7 for one, two or three bytes, and the bytes padded with zeros. */
  ghost predicate IsClosingPacket(p: EventPacket, cable: bv8, bytes: seq<bv8>)
  {
    && 1 <= |bytes| <= 3
    && p.Cable() == cable & 0x0F
    && p.Cin() as int == CinSysExContinue as int + |bytes|
    && p.Midi() == Pad3(bytes)
  }

  /** The packets for a stream whose first 0xF7 is at index `k`: groups of
      three bytes under CIN 0x4, then the closing packet of the group that
      holds index k. */
  function SysExGroups(data: seq<bv8>, k: nat, cable: bv8): (ps: seq<EventPacket>)
    requires k < |data|
    ensures |ps| == k / 3 + 1
    decreases k
  {
    if k < 3 then [EndPacket(data, 0, k, cable)]
    else
      [EventPacket(Header(cable, CinSysExContinue), data[0], data[1], data[2])]
        + SysExGroups(data[3..], k - 3, cable)
  }

  /** The packets SendDataMulti hands to the transport for a stream that
      contains a 0xF7. */
  function SysExPackets(data: seq<bv8>, cable: bv8): (ps: seq<EventPacket>)
    requires SysExEnd in data
    ensures |ps| == FirstEnd(data) / 3 + 1
  {
    SysExGroups(data, FirstEnd(data), cable)
  }

  /** The MIDI bytes a sequence of packets carries, each according to its CIN. */
  function Reassemble(ps: seq<EventPacket>): seq<bv8>
  {
    if ps == [] then [] else Payload(ps[0]) + Reassemble(ps[1..])
  }

  /** Every packet before the last has CIN 0x4 and carries the next three
      input bytes, in order. */
  lemma {:induction false} SysExLeadingPackets(data: seq<bv8>, k: nat, cable: bv8)
    requires k < |data|
    ensures var ps := SysExGroups(data, k, cable);
      forall j :: 0 <= j < |ps| - 1 ==>
        ps[j] == EventPacket(Header(cable, CinSysExContinue), data[3 * j], data[3 * j + 1], data[3 * j + 2])
    decreases k
  {
    var ps := SysExGroups(data, k, cable);
    if k >= 3 {
      var rest := data[3..];
      SysExLeadingPackets(rest, k - 3, cable);
      var qs := SysExGroups(rest, k - 3, cable);
      forall j | 1 <= j < |ps| - 1
        ensures ps[j] == EventPacket(Header(cable, CinSysExContinue), data[3 * j], data[3 * j + 1], data[3 * j + 2])
      {
        assert ps[j] == qs[j - 1];
        assert rest[3 * (j - 1)] == data[3 * j];
        assert rest[3 * (j - 1) + 1] == data[3 * j + 1];
        assert rest[3 * (j - 1) + 2] == data[3 * j + 2];
      }
    }
  }

  /** The last packet is the closing packet of the group that holds index k. */
  lemma {:induction false} SysExLastIsEndPacket(data: seq<bv8>, k: nat, cable: bv8)
    requires k < |data|
    ensures SysExGroups(data, k, cable)[k / 3] == EndPacket(data, 3 * (k / 3), k % 3, cable)
    decreases k
  {
    if k >= 3 {
      SysExLastIsEndPacket(data[3..], k - 3, cable);
      GroupIndexStep(k);
      EndPacketAfterGroup(SysExGroups(data, k, cable), SysExGroups(data[3..], k - 3, cable), data, k / 3, k % 3, cable);
    }
  }

  /** Prepending one CIN 0x4 packet moves the closing packet one group on. */
  lemma EndPacketAfterGroup(ps: seq<EventPacket>, qs: seq<EventPacket>, data: seq<bv8>, q: nat, e: nat, cable: bv8)
    requires |data| >= 3 && e < 3 && 1 <= q && 3 * q + e < |data|
    requires ps == [EventPacket(Header(cable, CinSysExContinue), data[0], data[1], data[2])] + qs
    requires |qs| == q && qs[q - 1] == EndPacket(data[3..], 3 * (q - 1), e, cable)
    ensures |ps| == q + 1 && ps[q] == EndPacket(data, 3 * q, e, cable)
  {
    EndPacketShift(data, 3 * (q - 1), e, cable);
  }

  lemma EndPacketShift(data: seq<bv8>, start: nat, e: nat, cable: bv8)
    requires 3 <= |data| && e < 3 && start + 3 + e < |data|
    ensures EndPacket(data[3..], start, e, cable) == EndPacket(data, start + 3, e, cable)
  {
  }

  /** Dropping one group of three moves the group index back by one and keeps
      the slot within the group. */
  lemma GroupIndexStep(k: nat)
    requires k >= 3
    ensures (k - 3) / 3 == k / 3 - 1 && (k - 3) % 3 == k % 3
  {
  }

  /** The last packet has CIN 0x4 + i, where i in {1,2,3} is the slot of the
      first 0xF7 in its group, and carries the rest of the group through the
      0xF7 followed by zeros. */
  lemma SysExLastPacket(data: seq<bv8>, cable: bv8)
    requires SysExEnd in data
    ensures var ps, k := SysExPackets(data, cable), FirstEnd(data);
      IsClosingPacket(ps[|ps| - 1], cable, data[3 * (k / 3)..k + 1])
  {
    var k := FirstEnd(data);
    SysExLastIsEndPacket(data, k, cable);
    EndPacketOfGroup(data, k, cable);
  }

  /** The closing packet of the group holding index k carries the group's
      bytes from its start through index k. */
  lemma EndPacketOfGroup(data: seq<bv8>, k: nat, cable: bv8)
    requires k < |data|
    ensures IsClosingPacket(EndPacket(data, 3 * (k / 3), k % 3, cable), cable, data[3 * (k / 3)..k + 1])
  {
    var q, e := k / 3, k % 3;
    assert 3 * q + e + 1 == k + 1;
    EndPacketShape(data, 3 * q, e, cable);
  }

  /** Round trip: the payloads of the packets, each cut to its CIN's size,
      reassemble exactly the input up to and including index k. */
  lemma {:induction false} SysExRoundTrip(data: seq<bv8>, k: nat, cable: bv8)
    requires k < |data|
    ensures Reassemble(SysExGroups(data, k, cable)) == data[..k + 1]
    decreases k
  {
    if k < 3 {
      RoundTripLast(data, k, cable);
    } else {
      SysExRoundTrip(data[3..], k - 3, cable);
      RoundTripGroup(SysExGroups(data, k, cable), SysExGroups(data[3..], k - 3, cable), data, k, cable);
    }
  }

  /** A closing packet alone carries its group through index k. */
  lemma RoundTripLast(data: seq<bv8>, k: nat, cable: bv8)
    requires k < 3 && k < |data|
    ensures Reassemble(SysExGroups(data, k, cable)) == data[..k + 1]
  {
    var ps := SysExGroups(data, k, cable);
    assert Reassemble(ps) == Payload(ps[0]) + Reassemble([]);
  }

  /** A CIN 0x4 packet in front carries its three bytes in front. */
  lemma RoundTripGroup(ps: seq<EventPacket>, qs: seq<EventPacket>, data: seq<bv8>, k: nat, cable: bv8)
    requires 3 <= k < |data|
    requires ps == [EventPacket(Header(cable, CinSysExContinue), data[0], data[1], data[2])] + qs
    requires Reassemble(qs) == data[3..][..k - 3 + 1]
    ensures Reassemble(ps) == data[..k + 1]
  {
    assert ps[1..] == qs;
    assert Payload(ps[0]) == data[..3];
    assert data[..k + 1] == data[..3] + data[3..][..k - 3 + 1];
  }

  /** The packets depend on nothing after index k. */
  lemma {:induction false} SysExGroupsPrefix(data: seq<bv8>, k: nat, n: nat, cable: bv8)
    requires k < n <= |data|
    ensures SysExGroups(data[..n], k, cable) == SysExGroups(data, k, cable)
    decreases k
  {
    if k >= 3 {
      SysExGroupsPrefix(data[3..], k - 3, n - 3, cable);
      assert data[..n][3..] == data[3..][..n - 3];
    }
  }

  /** SendDataMulti reads no byte past the first 0xF7: cutting the stream
      there changes no packet. */
  lemma SysExStopsAtEnd(data: seq<bv8>, cable: bv8)
    requires SysExEnd in data
    ensures SysExEnd in data[..FirstEnd(data) + 1]
    ensures SysExPackets(data[..FirstEnd(data) + 1], cable) == SysExPackets(data, cable)
  {
    var k := FirstEnd(data);
    assert data[..k + 1][k] == SysExEnd;
    FirstEndUnique(data[..k + 1], k);
    SysExGroupsPrefix(data, k, k + 1, cable);
  }

  /** What one send operation hands to the transport: a non-empty prefix of
      `all`, one packet per transfer, stopping after the first transfer whose
      status is not 0; `rc` is the status of the last transfer made. */
  ghost predicate Transmitted(all: seq<EventPacket>, outStatus: nat -> bv8, sent: seq<EventPacket>, rc: bv8)
  {
    && 1 <= |sent| <= |all|
    && sent == all[..|sent|]
    && (forall j :: 0 <= j < |sent| - 1 ==> outStatus(j) == 0)
    && rc == outStatus(|sent| - 1)
    && (|sent| < |all| ==> rc != 0)
  }

  /** A send operation reports 0 exactly when every packet was transferred
      and every transfer succeeded. */
  lemma TransmittedSuccess(all: seq<EventPacket>, outStatus: nat -> bv8, sent: seq<EventPacket>, rc: bv8)
    requires Transmitted(all, outStatus, sent, rc)
    ensures rc == 0 <==> sent == all && forall j :: 0 <= j < |all| ==> outStatus(j) == 0
  {
    if rc == 0 {
      forall j | 0 <= j < |all| ensures outStatus(j) == 0 {
        if j == |all| - 1 { assert j == |sent| - 1; }
      }
    }
  }

  /** One more transfer: after `sent` went through with status 0, the next
      packet of `todo` is sent with status `rc`; if that fails or was the
      last packet, the send is complete. */
  lemma TransmittedStep(all: seq<EventPacket>, outStatus: nat -> bv8, sent: seq<EventPacket>,
                        todo: seq<EventPacket>, rc: bv8)
    requires all == sent + todo && |todo| >= 1
    requires forall j :: 0 <= j < |sent| ==> outStatus(j) == 0
    requires rc == outStatus(|sent|)
    ensures rc != 0 || |todo| == 1 ==> Transmitted(all, outStatus, sent + [todo[0]], rc)
    ensures all == (sent + [todo[0]]) + todo[1..]
    ensures rc == 0 ==> forall j :: 0 <= j < |sent| + 1 ==> outStatus(j) == 0
  {
    assert sent + [todo[0]] == all[..|sent| + 1];
  }

  /** The closing branch of SendDataMulti's inner loop, entered once 0xF7 has
      been copied to buf[i]: buf[0] gets CIN 0x4 + i and the slots after i
      are zeroed. */
  method ClosePacket(buf: array<bv8>, i: int, cable: bv8)
    requires buf.Length == 4 && 1 <= i <= 3
    modifies buf
    ensures buf[0] == Header(cable, EndCin(i - 1))
    ensures forall t :: 1 <= t <= i ==> buf[t] == old(buf[t])
    ensures forall t :: i < t < 4 ==> buf[t] == 0
  {
    buf[0] := Header(cable, EndCin(i - 1));
    var j := i + 1;
    while j <= 3
      invariant i + 1 <= j <= 4
      invariant buf[0] == Header(cable, EndCin(i - 1))
      invariant forall t :: 1 <= t <= i ==> buf[t] == old(buf[t])
      invariant forall t :: i < t < j ==> buf[t] == 0
    {
      buf[j] := 0;
      j := j + 1;
    }
  }

  /** One pass of SendDataMulti's inner `for`: copies bytes of `data[start..]`
      into buf[1..4] until three are copied or 0xF7 is met; in the latter case
      buf[0] gets the closing CIN and the remaining slots are zeroed. The
      packet left in `buf` is the next one of the stream, `i` is 0xFF when it
      was the closing packet and `pos` is where the next packet starts. */
  method FillPacket(buf: array<bv8>, data: seq<bv8>, start: nat, cable: bv8) returns (i: int, pos: nat)
    requires buf.Length == 4 && start <= |data| && SysExEnd in data[start..]
    requires buf[0] == Header(cable, CinSysExContinue)
    modifies buf
    ensures i == 4 || i == 0xFF
    ensures EventPacket(buf[0], buf[1], buf[2], buf[3]) == SysExPackets(data[start..], cable)[0]
    ensures i == 0xFF <==> |SysExPackets(data[start..], cable)| == 1
    ensures i == 4 ==> buf[0] == Header(cable, CinSysExContinue)
    ensures i == 4 ==> pos == start + 3 && pos <= |data| && SysExEnd in data[pos..]
    ensures i == 4 ==> SysExPackets(data[start..], cable)[1..] == SysExPackets(data[pos..], cable)
  {
    ghost var rest := data[start..];
    ghost var e := FirstEnd(rest);
    pos := start;
    i := 1;
    while i <= 3
      invariant 1 <= i <= 4 || i == 0xFF
      invariant i <= 4 ==> i - 1 <= e && pos == start + i - 1 && buf[0] == Header(cable, CinSysExContinue)
      invariant i <= 4 ==> forall t :: 1 <= t < i ==> buf[t] == rest[t - 1]
      invariant i == 0xFF ==> e < 3 && EventPacket(buf[0], buf[1], buf[2], buf[3]) == EndPacket(rest, 0, e, cable)
    {
      buf[i] := data[pos];
      if data[pos] == SysExEnd {
        assert rest[i - 1] == SysExEnd;
        ClosePacket(buf, i, cable);
        i := 0xFE;
      } else {
        assert rest[i - 1] != SysExEnd;
        pos := pos + 1;
      }
      i := i + 1;
    }
    SysExFirstPacket(rest, cable);
    if i == 4 {
      assert rest[3..] == data[pos..];
    }
  }

  /** The first packet of a stream, and the stream that is left after it. */
  lemma SysExFirstPacket(data: seq<bv8>, cable: bv8)
    requires SysExEnd in data
    ensures var k := FirstEnd(data);
      k < 3 ==> SysExPackets(data, cable) == [EndPacket(data, 0, k, cable)]
    ensures var k := FirstEnd(data);
      k >= 3 ==> && SysExEnd in data[3..]
                 && SysExPackets(data, cable)[0] == EventPacket(Header(cable, CinSysExContinue), data[0], data[1], data[2])
                 && SysExPackets(data, cable)[1..] == SysExPackets(data[3..], cable)
  {
    var k := FirstEnd(data);
    if k >= 3 {
      FirstEndSuffix(data, 3);
      var ps := SysExPackets(data, cable);
      assert ps[1..] == SysExGroups(data[3..], k - 3, cable);
    }
  }

  /** SendDataMulti: sends the SysEx stream starting at `data` as CIN 0x4
      packets and one closing packet, one transfer per packet, stopping at the
      first failed transfer. `buf` is the 4-byte packet buffer and `pos` the
      offset of the data pointer. */
  method SendDataMulti(data: seq<bv8>, cable: bv8, outStatus: nat -> bv8)
    returns (rc: bv8, sent: seq<EventPacket>)
    requires SysExEnd in data
    ensures Transmitted(SysExPackets(data, cable), outStatus, sent, rc)
  {
    ghost var all := SysExPackets(data, cable);
    var buf := new bv8[4];
    buf[0] := Header(cable, CinSysExContinue);
    var pos: nat := 0;
    var i := 0;
    rc, sent := 0, [];
    while i < 0xFF
      invariant i == 0 || i == 4 || i == 0xFF
      invariant i == 0 <==> sent == []
      invariant i != 0xFF ==> buf[0] == Header(cable, CinSysExContinue)
      invariant i != 0xFF ==> pos <= |data| && SysExEnd in data[pos..]
      invariant i != 0xFF ==> all == sent + SysExPackets(data[pos..], cable)
      invariant i != 0xFF ==> forall j :: 0 <= j < |sent| ==> outStatus(j) == 0
      invariant i == 0xFF ==> Transmitted(all, outStatus, sent, rc) && rc == 0
      decreases 0xFF - i, |data| - pos
    {
      ghost var todo := SysExPackets(data[pos..], cable);
      i, pos := FillPacket(buf, data, pos, cable);
      var packet := EventPacket(buf[0], buf[1], buf[2], buf[3]);
      rc := outStatus(|sent|);
      TransmittedStep(all, outStatus, sent, todo, rc);
      sent := sent + [packet];
      if rc != 0 {
        break;
      }
    }
  }

  /** The packets SendData hands to the transport for one message. */
  function Encode(data: seq<bv8>, cable: bv8): seq<EventPacket>
    requires |data| >= 1
    requires data[0] == SysExStart ==> SysExEnd in data
    requires data[0] != SysExStart ==> |data| >= 3
  {
    if data[0] == SysExStart then SysExPackets(data, cable) else [ShortPacket(data, cable)]
  }

  /** SendData: a message starting with 0xF0 goes to SendDataMulti; any other
      message becomes one packet and one transfer. */
  method SendData(data: seq<bv8>, cable: bv8, outStatus: nat -> bv8)
    returns (rc: bv8, sent: seq<EventPacket>)
    requires |data| >= 1
    requires data[0] == SysExStart ==> SysExEnd in data
    requires data[0] != SysExStart ==> |data| >= 3
    ensures Transmitted(Encode(data, cable), outStatus, sent, rc)
  {
    var msg := data[0];
    if msg == SysExStart {
      rc, sent := SendDataMulti(data, cable, outStatus);
      return;
    }
    rc := outStatus(0);
    sent := [ShortPacket(data, cable)];
  }

  // ---------------------------------------------------------------------------
  // Received frames (RcvData)
  // ---------------------------------------------------------------------------

  /** What RcvData makes of the first four received bytes: nothing when all
      four are zero, otherwise bytes 1..3 (the header byte is dropped and the
      CIN is not used to cut the payload). */
  function ReceivedPayload(frame: seq<bv8>): (r: Option<seq<bv8>>)
    requires |frame| >= 4
    ensures r.None? <==> frame[0] == 0 && frame[1] == 0 && frame[2] == 0 && frame[3] == 0
    ensures r.Some? ==> |r.value| == 3 && r.value == frame[1..4]
  {
    if frame[0] == 0 && frame[1] == 0 && frame[2] == 0 && frame[3] == 0 then None
    else Some(frame[1..4])
  }

  /** Number of bytes of a short message that survive in its packet. */
  function KeptLength(status: bv8): nat
    requires status != SysExStart
  {
    if status >= 0x80 then MessageLength(status) else 1
  }

  /** Round trip: the packet SendData builds for a short message, received as
      a frame, gives back the message bytes that the packet keeps, padded with
      zeros, provided the status byte is not 0. */
  lemma ShortMessageRoundTrip(data: seq<bv8>, cable: bv8)
    requires |data| >= 3 && data[0] != SysExStart && data[0] != 0
    ensures ReceivedPayload(ShortPacket(data, cable).Bytes()) == Some(Pad3(data[..KeptLength(data[0])]))
  {
    var p := ShortPacket(data, cable);
    assert p.Bytes()[1..4] == p.Midi();
    if data[0] < 0x80 {
      assert Pad3(data[..1]) == [data[0], 0, 0];
    }
  }

  /** Every packet of a SysEx stream gets through the all-zero filter with
      its three MIDI bytes: its CIN is 0x4 to 0x7, so its header is never 0. */
  lemma SysExPacketsReceived(data: seq<bv8>, cable: bv8)
    requires SysExEnd in data
    ensures var ps := SysExPackets(data, cable);
      forall j :: 0 <= j < |ps| ==> ReceivedPayload(ps[j].Bytes()) == Some(ps[j].Midi())
  {
    var ps := SysExGroups(data, FirstEnd(data), cable);
    SysExLeadingPackets(data, FirstEnd(data), cable);
    SysExLastPacket(data, cable);
    forall j | 0 <= j < |ps|
      ensures ReceivedPayload(ps[j].Bytes()) == Some(ps[j].Midi())
    {
      if j < |ps| - 1 {
        var h := Header(cable, CinSysExContinue);
        assert ps[j] == EventPacket(h, data[3 * j], data[3 * j + 1], data[3 * j + 2]);
        assert ps[j].Cin() == h & 0x0F == CinSysExContinue;
      } else {
        ClosingCinNonZero(ps[j], cable, data[3 * (FirstEnd(data) / 3)..FirstEnd(data) + 1]);
      }
      NonZeroCinReceived(ps[j]);
    }
  }

  /** A closing packet has CIN 0x5, 0x6 or 0x7, never 0. */
  lemma ClosingCinNonZero(p: EventPacket, cable: bv8, bytes: seq<bv8>)
    requires IsClosingPacket(p, cable, bytes)
    ensures p.Cin() != 0
  {
    assert p.Cin() as int >= 5;
  }

  /** A packet with a non-zero CIN has a non-zero header byte, so the
      all-zero filter passes its three MIDI bytes. */
  lemma NonZeroCinReceived(p: EventPacket)
    requires p.Cin() != 0
    ensures ReceivedPayload(p.Bytes()) == Some(p.Midi())
  {
    assert p.header != 0;
    assert p.Bytes()[1..4] == p.Midi();
  }

  /** The all-zero heuristic cannot tell an idle read from the packet that
      SendData builds for the byte 0x00 on cable 0 (or 16, 32, ...). */
  lemma ZeroStatusPacketIsDropped(data: seq<bv8>, cable: bv8)
    requires |data| >= 3 && data[0] == 0 && cable & 0x0F == 0
    ensures ReceivedPayload(ShortPacket(data, cable).Bytes()) == None
  {
  }
}
