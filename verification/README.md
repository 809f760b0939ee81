# USB-MIDI host driver: a Dafny model

This project models the USB-MIDI class driver of a USB host shield library
(`libraries/USBH_MIDI/usbh_midi.cpp`), the `MIDI` object an Arduino sketch uses
to talk to a MIDI keyboard or synthesiser plugged into the host port, and
proves properties of the model:

- **Packet codec** (`packet.dfy`, module `UsbMidiPacket`). It holds the 4-byte
  USB-MIDI event packets (USB Device Class Definition for MIDI Devices 1.0,
  section 4, table 4-1).
  - `SendData` builds one packet for a short message, with the fall-through
    switch written out.
  - `SendDataMulti` cuts a SysEx stream into CIN 0x4 packets of three bytes plus
    one closing packet (CIN 0x5/0x6/0x7). It works in place on a 4-byte buffer
    and makes one transfer per packet.
  - `RcvData(outBuf)` filters out an all-zero frame.
- **Driver state** (`midi_state.dfy`, module `MidiState`). It holds the
  endpoint table of five slots and the fields of the `MIDI` object as one value.
- **Descriptor walk** (`descriptor.dfy`, module `ConfigDescriptor`). This is the
  cursor loop of `parseConfigDescr` over a configuration descriptor set, as a
  step function over the offsets the cursor visits. The lemmas say what the
  walk leaves in `bConfNum`, `isMidiFound`, `bNumEP` (8-bit) and each endpoint
  slot.
- **Session** (`session.dfy`, module `Session`). It holds the connection logic
  as functions of the driver state:
  - parsing one configuration;
  - the configuration loop with its early stop;
  - the vendor-specific fallback (slots 3/4 promoted to 1/2);
  - `Release`;
  - the whole `Init` sequence with every one of its exits.
- **The `MIDI` object** (`driver.dfy`, module `MidiDriver`). A class whose fields
  are the source's fields; the endpoint table is an `array`. Its constructor,
  `Init`, `parseConfigDescr` and `Release` update it in place, and each is
  proved to move the object's abstract state exactly as the corresponding
  `Session` function says. `RcvData` leaves the object alone and writes only
  the caller's `outBuf`; it is proved against the function `MidiDriver.Receive`.

The USB stack is not modelled. What it answers is an input:
- a status oracle `outStatus: nat -> bv8` gives the status of the n-th OUT
  transfer of one send operation;
- a `ConfFetch` gives the two descriptor requests of one configuration;
- a `Device` gives every other answer during `Init`: the address pool's
  records, the device descriptor, the address handed out, and the return codes
  of SET_ADDRESS, the endpoint-table registrations and SET_CONFIGURATION.

Bytes are `bv8`, so the 8-bit wrap-around of `bNumEP++` and the truncation of
`nCable << 4` happen as in the source.

The model follows the code in places where the driver's documented intent
differs:
- When no configuration value is found, `Init` calls `Release` and returns 0,
  the code of the last successful request, rather than an error.
- When SET_ADDRESS fails, the address is freed but `Release` is not called.
- When the pool has no record for the new address, `Init` returns
  `USB_ERROR_ADDRESS_NOT_FOUND_IN_POOL` and keeps the address.
- The result of the second endpoint-table registration is ignored.
- `isMidiFound`, `bConfNum` and the endpoint table are not reset at the start
  of `Init`.

## Model

| member | source | states |
|---|---|---|
| UsbMidiPacket.Header | libraries/USBH_MIDI/usbh_midi.cpp:397 | byte 0 of a packet: the cable number in the high nibble (cut to 4 bits by the 8-bit shift), the CIN in the low nibble |
| UsbMidiPacket.ShortPacket | libraries/USBH_MIDI/usbh_midi.cpp:397-437 | the packet for a non-SysEx message. It carries the cable. MIDI byte 0 is the status. For a status byte the CIN is the driver's (`StatusCin`), whose table 4-1 size is the message length, and the bytes past the message are zeroed. For a byte below 0x80 the CIN is its high nibble and bytes 2 and 3 are zeroed |
| UsbMidiPacket.FirstEnd | libraries/USBH_MIDI/usbh_midi.cpp:364-376 | the index where the stream ends: a 0xF7 with no 0xF7 before it |
| UsbMidiPacket.EndCin | libraries/USBH_MIDI/usbh_midi.cpp:368 | the closing CIN is 0x4 plus the slot (1 to 3) where 0xF7 was copied |
| UsbMidiPacket.EndPacket | libraries/USBH_MIDI/usbh_midi.cpp:367-372 | the closing packet carries the caller's cable, the closing CIN of the slot where 0xF7 was copied (EndCin) and the group's first byte |
| UsbMidiPacket.EndPacketShape | libraries/USBH_MIDI/usbh_midi.cpp:367-372 | the closing packet has CIN 0x4 plus the number of bytes of its group through 0xF7 (0x5, 0x6 or 0x7) and carries those bytes padded with zeros |
| UsbMidiPacket.SysExGroups | libraries/USBH_MIDI/usbh_midi.cpp:362-376 | a stream whose first 0xF7 is at index k takes k/3 + 1 packets |
| UsbMidiPacket.SysExPackets | libraries/USBH_MIDI/usbh_midi.cpp:362-376 | the number of packets SendDataMulti produces is FirstEnd/3 + 1 |
| UsbMidiPacket.SysExLeadingPackets | libraries/USBH_MIDI/usbh_midi.cpp:362-375 | every packet but the last is CIN 0x4 on the caller's cable and carries input bytes 3j, 3j+1, 3j+2 |
| UsbMidiPacket.SysExLastIsEndPacket | libraries/USBH_MIDI/usbh_midi.cpp:365-372 | the last packet is the closing packet of the group holding the first 0xF7 |
| UsbMidiPacket.SysExLastPacket | libraries/USBH_MIDI/usbh_midi.cpp:367-372 | the last packet has CIN 0x4 + n, where n is the number of bytes of its group through 0xF7, and carries those bytes padded with zeros |
| UsbMidiPacket.SysExRoundTrip | libraries/USBH_MIDI/usbh_midi.cpp:362-376 | round trip: each packet's payload, cut to its CIN's size from table 4-1, reassembles exactly the input through the first 0xF7 |
| UsbMidiPacket.SysExGroupsPrefix | libraries/USBH_MIDI/usbh_midi.cpp:364-376 | the packets depend on no byte after the 0xF7 |
| UsbMidiPacket.SysExStopsAtEnd | libraries/USBH_MIDI/usbh_midi.cpp:367-376 | cutting the stream just after its first 0xF7 yields the same packets: nothing past it is read |
| UsbMidiPacket.SysExFirstPacket | libraries/USBH_MIDI/usbh_midi.cpp:365-376 | one pass of the inner loop either emits the only (closing) packet or one CIN 0x4 packet followed by the packets of the stream three bytes further on |
| UsbMidiPacket.TransmittedSuccess | libraries/USBH_MIDI/usbh_midi.cpp:377-381 | a send reports 0 if and only if every packet was transferred and every transfer succeeded |
| UsbMidiPacket.TransmittedStep | libraries/USBH_MIDI/usbh_midi.cpp:377-379 | after one more transfer, a failure or the last packet completes the send, and a success extends the run of status-0 transfers |
| UsbMidiPacket.ClosePacket | libraries/USBH_MIDI/usbh_midi.cpp:367-372 | on 0xF7 at slot i: buf[0] gets CIN 0x4 + i, slots up to i are kept, slots after i are zeroed |
| UsbMidiPacket.FillPacket | libraries/USBH_MIDI/usbh_midi.cpp:365-376 | the buffer holds the next packet of the stream. i is 0xFF exactly when that packet was the last one; otherwise the data pointer moved on by 3 and the rest of the stream's packets start there |
| UsbMidiPacket.SendDataMulti | libraries/USBH_MIDI/usbh_midi.cpp:354-382 | the packets handed to the transport are, in order, a prefix of the SysEx packets, one transfer each, stopping at the first non-zero status; the result is the last status |
| UsbMidiPacket.SendData | libraries/USBH_MIDI/usbh_midi.cpp:385-439 | a message starting with 0xF0 is sent as SendDataMulti's packets, any other as the single ShortPacket, and the result is the transfer status |
| UsbMidiPacket.ReceivedPayload | libraries/USBH_MIDI/usbh_midi.cpp:343-350 | no data exactly when the first four bytes are all zero, otherwise bytes 1 to 3 |
| UsbMidiPacket.ShortMessageRoundTrip | libraries/USBH_MIDI/usbh_midi.cpp:402-437 | round trip: a short message with a non-zero first byte, sent and received, gives back the bytes its packet keeps, padded with zeros |
| UsbMidiPacket.SysExPacketsReceived | libraries/USBH_MIDI/usbh_midi.cpp:344-349 | every SysEx packet passes the all-zero filter with its three MIDI bytes |
| UsbMidiPacket.ZeroStatusPacketIsDropped | libraries/USBH_MIDI/usbh_midi.cpp:344-346 | the packet built for a first byte 0x00 on cable 0 is taken for "no data" |
| MidiState.Initial | libraries/USBH_MIDI/usbh_midi.cpp:87-108 | the constructed state: no address, one endpoint, polling off, no MIDI interface, slot 0 with packet size 8, slots 1 to 4 zero |
| ConfigDescriptor.TotalLength | libraries/USBH_MIDI/usbh_midi.cpp:256-259 | wTotalLength (little-endian bytes 2 and 3), capped at the 256-byte buffer |
| ConfigDescriptor.CutDescriptorIsWalked | libraries/USBH_MIDI/usbh_midi.cpp:256-259 | for any total length and offset: a descriptor whose read bytes are in the buffer and whose bLength carries the cursor to or past the total length is walked, even if it runs past the buffer, and it is the only offset visited from there |
| ConfigDescriptor.PathBytesOnly | libraries/USBH_MIDI/usbh_midi.cpp:274-290 | a non-Audio interface descriptor at offset 250 and an isochronous endpoint descriptor at offset 252 of the 256-byte buffer are walkable, because the subclass byte and the address and packet-size bytes are read only on the Audio and bulk/interrupt paths |
| ConfigDescriptor.Offsets | libraries/USBH_MIDI/usbh_midi.cpp:268-308 | the cursor visits offsets that start at 0, stay below the total length, are each Readable, and advance by bLength until the total is passed |
| ConfigDescriptor.EndpointSlot | libraries/USBH_MIDI/usbh_midi.cpp:291-295 | the slot is an IN slot if and only if bit 7 of the address is set, and a MIDI slot (1/2) if and only if the endpoint follows a MIDI Streaming interface |
| ConfigDescriptor.Step | libraries/USBH_MIDI/usbh_midi.cpp:269-307 | one descriptor: a configuration sets bConfNum; an interface decides isMidi and may set isMidiFound; a bulk/interrupt endpoint fills its slot and counts one endpoint; nothing else changes |
| ConfigDescriptor.WalkOn | libraries/USBH_MIDI/usbh_midi.cpp:268-308 | the cursor loop from any offset keeps the address and the polling flag, and never clears isMidiFound |
| ConfigDescriptor.WalkOnIsWalkFrom | libraries/USBH_MIDI/usbh_midi.cpp:268-308 | the cursor loop (step, then advance by bLength) computes the step function over the visited offsets in order |
| ConfigDescriptor.CursorLoopIsWalk | libraries/USBH_MIDI/usbh_midi.cpp:268-308 | from offset 0 the cursor loop computes the walk over all offsets |
| ConfigDescriptor.WalkFrame | libraries/USBH_MIDI/usbh_midi.cpp:268-308 | the walk never touches the address, the polling flag or slot 0 |
| ConfigDescriptor.WalkMidiFound | libraries/USBH_MIDI/usbh_midi.cpp:276-278 | isMidiFound ends true if and only if it was true or some visited interface is Audio/MIDI Streaming |
| ConfigDescriptor.WalkMidiImpliesFound | libraries/USBH_MIDI/usbh_midi.cpp:276-285 | the walk is inside a MIDI interface only if isMidiFound is set |
| ConfigDescriptor.WalkConfNum | libraries/USBH_MIDI/usbh_midi.cpp:272-274 | bConfNum ends as byte 5 of the last configuration descriptor visited, or unchanged when there is none |
| ConfigDescriptor.WalkNumEP | libraries/USBH_MIDI/usbh_midi.cpp:290-298 | bNumEP grows by the number of bulk/interrupt endpoint descriptors, modulo 256 |
| ConfigDescriptor.WalkContext | libraries/USBH_MIDI/usbh_midi.cpp:275-286 | isMidi follows the last interface descriptor visited |
| ConfigDescriptor.WalkSlots | libraries/USBH_MIDI/usbh_midi.cpp:288-298 | each slot 1 to 4 ends holding the endpoint number and low size byte of the last endpoint sorted into it, or its old value |
| ConfigDescriptor.WalkWithoutMidi | libraries/USBH_MIDI/usbh_midi.cpp:288-297 | with no MIDI Streaming interface, slots 1 and 2 are never written |
| Session.ParseConfig | libraries/USBH_MIDI/usbh_midi.cpp:240-309 | a failed descriptor request leaves the state unchanged; otherwise the address, polling flag and slot 0 are kept and isMidiFound is never cleared |
| Session.ScanConfigs | libraries/USBH_MIDI/usbh_midi.cpp:197-201 | the configuration loop keeps the address, polling flag and slot 0 and never clears isMidiFound |
| Session.ScanStopsEarly | libraries/USBH_MIDI/usbh_midi.cpp:197-201 | the loop's result is the parse of the shortest non-empty prefix after which more than one endpoint is counted, or of all configurations |
| Session.Promote | libraries/USBH_MIDI/usbh_midi.cpp:209-214 | slots 1/2 take slots 3/4; slot 0, slots 3/4 and every other field are unchanged |
| Session.ReleaseSpec | libraries/USBH_MIDI/usbh_midi.cpp:312-319 | address 0, one endpoint, polling off; table, isMidiFound and bConfNum kept |
| Session.ReleaseIdempotent | libraries/USBH_MIDI/usbh_midi.cpp:312-319 | releasing twice is releasing once, and a released state is idle |
| Session.Addressed | libraries/USBH_MIDI/usbh_midi.cpp:156-162 | the new address is held and slot 0 has bMaxPacketSize0; nothing else changes |
| Session.Configure | libraries/USBH_MIDI/usbh_midi.cpp:197-236 | after the scan the result is 0 or the SET_CONFIGURATION code; polling ends on only with result 0, a non-zero bConfNum and the address kept; every other end is a Release (address 0, one endpoint); slot 0 is kept and isMidiFound never cleared |
| Session.InitSpec | libraries/USBH_MIDI/usbh_midi.cpp:111-236 | the result is 0, one of the driver's four error codes, or the code of the failed request (device descriptor, SET_ADDRESS, first registration, SET_CONFIGURATION); a result of 0 comes only from an unbound instance, with slot 0 holding bMaxPacketSize0, and leaves it either polling at the allocated (non-zero) address or released at address 0 |
| Session.InitRefusesWhenBound | libraries/USBH_MIDI/usbh_midi.cpp:125-127 | an instance holding an address answers USB_ERROR_CLASS_INSTANCE_ALREADY_IN_USE and is unchanged |
| Session.InitSuccess | libraries/USBH_MIDI/usbh_midi.cpp:111-230 | polling ends on if and only if every request succeeds and bConfNum is non-zero. Then the result is 0, the allocated address is held, slot 0 has bMaxPacketSize0, and without a MIDI interface slots 1/2 equal slots 3/4 |
| Session.InitZeroResult | libraries/USBH_MIDI/usbh_midi.cpp:205-236 | a result of 0 means polling is on if and only if a configuration value was found |
| Session.InitDeviceNotFound | libraries/USBH_MIDI/usbh_midi.cpp:205-207 | a scan that leaves bConfNum 0 ends with Release and result 0 |
| Session.InitKeepsAddressWithoutRecord | libraries/USBH_MIDI/usbh_midi.cpp:177-181 | a missing pool record for the new address returns USB_ERROR_ADDRESS_NOT_FOUND_IN_POOL and keeps the address |
| Session.InitIgnoresLateEpInfo | libraries/USBH_MIDI/usbh_midi.cpp:217-222 | the result of the second endpoint-table registration has no effect on Init |
| Session.InitKeepsIdle | libraries/USBH_MIDI/usbh_midi.cpp:111-236 | if no address is held only the control endpoint is counted and polling is off, before and after Init |
| Session.InitPollingNeedsAddress | libraries/USBH_MIDI/usbh_midi.cpp:229 | after Init polling is on only with an address held |
| Session.InitKeepsMidiFound | libraries/USBH_MIDI/usbh_midi.cpp:312-318 | neither Init nor Release clears isMidiFound |
| MidiDriver.Receive | libraries/USBH_MIDI/usbh_midi.cpp:336-350 | data is delivered if and only if polling is on, the IN transfer succeeds and the frame is not all zero; it is then bytes 1 to 3 |
| MidiDriver.Midi.constructor | libraries/USBH_MIDI/usbh_midi.cpp:87-108 | the new object's state is Initial |
| MidiDriver.Midi.Release | libraries/USBH_MIDI/usbh_midi.cpp:312-319 | returns 0 and moves the state as ReleaseSpec |
| MidiDriver.Midi.ParseConfigDescr | libraries/USBH_MIDI/usbh_midi.cpp:240-309 | the object ends in ParseConfig of its old state |
| MidiDriver.Midi.ParseDescriptor | libraries/USBH_MIDI/usbh_midi.cpp:269-307 | one pass of the switch moves object and isMidi as Step |
| MidiDriver.Midi.ParseInterface | libraries/USBH_MIDI/usbh_midi.cpp:275-287 | isMidi is the Audio/MIDI Streaming test; isMidiFound is or-ed with it; nothing else changes |
| MidiDriver.Midi.ParseEndpoint | libraries/USBH_MIDI/usbh_midi.cpp:288-303 | a bulk/interrupt endpoint moves the object as Step |
| MidiDriver.Midi.Init | libraries/USBH_MIDI/usbh_midi.cpp:111-237 | the final state and result are InitSpec of the old state |
| MidiDriver.Midi.ConfigureDevice | libraries/USBH_MIDI/usbh_midi.cpp:197-236 | the final state and result are Configure of the state after registration |
| MidiDriver.Midi.ScanConfigurations | libraries/USBH_MIDI/usbh_midi.cpp:197-201 | the object ends in ScanConfigs of its old state |
| MidiDriver.Midi.ParseNextConfig | libraries/USBH_MIDI/usbh_midi.cpp:198-200 | one round parses the next configuration and reports whether the loop stops, consistent with ScanConfigs |
| MidiDriver.Midi.PromoteVendorSpecific | libraries/USBH_MIDI/usbh_midi.cpp:209-214 | the object ends in Promote of its old state |
| MidiDriver.Midi.RcvData | libraries/USBH_MIDI/usbh_midi.cpp:329-351 | the result is Receive's verdict; on success outBuf[0..2] holds bytes 1 to 3 and the rest of outBuf is unchanged; on failure outBuf is untouched |

## Left out

- The USB stack is an input, not a model. This covers the address pool
  (`GetUsbDevicePtr`, `AllocAddress`, `FreeAddress`), control transfers,
  `setEpInfoEntry`, `setConf`, `inTransfer` and `outTransfer`, modelled as the
  answers of a `Device`, a `ConfFetch` or a status oracle. What `FreeAddress`
  does inside the pool is not modelled.
- The temporary swap of the pseudo-device's endpoint pointer and its
  `lowspeed` flag during `Init` (lines 137-149, 167, 175, 182) only affects
  the pool's record. It is not modelled.
- `vid`/`pid` (lines 146-147) are computed and never used by the core, so they
  are left out.
- `RcvData(uint16_t*, uint8_t*)` (lines 322-326) is a direct call into the
  transport and is modelled only as the IN transfer's return code and frame.
  The `bytes_rcvd` length it sets is not modelled.
- The endpoint table holds `epAddr` and `maxPktSize` only. `epAttribs` and
  `bmNakPower` are set by the constructor and never read by the core, so they
  are left out.
- The device address and endpoint used by `outTransfer` are not recorded with
  the sent packets.
- Debug output (`USBTRACE`, `PrintEndpointDescriptor`) is left out.
- MidiDriver.Midi.ParseConfigDescr requires that every descriptor the cursor
  reaches before `wTotalLength` has a non-zero bLength and that the bytes the
  walk reads from it, along the path it takes, lie within the 256-byte buffer.
  Those bytes are byte 5 of a configuration descriptor. For an interface they
  are byte 5, plus byte 6 only when byte 5 is Audio. For an endpoint they are
  byte 3, plus bytes 2, 4 and 5 only when bit 1 of byte 3 is set. The
  descriptor itself may run past the buffer, as the last one of a set longer
  than 256 bytes does. On a zero-length descriptor the source loops forever,
  and when one of those bytes lies past byte 256 it reads outside the buffer;
  neither is modelled.
- UsbMidiPacket.SendDataMulti requires a 0xF7 in the data. The source has no
  such guard: without one it reads on past the caller's buffer, sending CIN 0x4
  packets until some byte in memory is 0xF7. That overrun is not modelled.
- UsbMidiPacket.SendData requires at least three bytes for a message that does
  not start with 0xF0, because the source reads `dataptr[1]` and `dataptr[2]`
  for every such message, even a one-byte one. A shorter caller buffer (an
  out-of-bounds read in the source) is not modelled, and the requirement on
  the SysEx path is the one of SendDataMulti.
- Session.ScanConfigs takes the configurations as a sequence whose length is
  bNumConfigurations, so the loop bound is that sequence's length.
- MidiDriver.Midi.constructor does not model registering the driver with the
  USB object (lines 105-107), nor the initial value of `bConfNum`, which the
  constructor never sets. That value is a parameter.
