/**
 * The MIDI driver object: its fields are updated in place by Init,
 * parseConfigDescr and Release, and each method is proved to move the
 * object's abstract state exactly as the corresponding function of the
 * Session module says. USB requests are not made: their answers come in as
 * parameters (a `Device`, a `ConfFetch`, a return code and a received frame).
 */
module MidiDriver {
  import opened MidiState
  import opened ConfigDescriptor
  import opened Session
  import opened UsbMidiPacket

  /** What RcvData(outBuf) delivers: nothing when polling is off or the IN
      transfer fails, otherwise what the all-zero filter lets through. */
  function Receive(pollEnable: bool, inRcode: bv8, frame: seq<bv8>): (r: Option<seq<bv8>>)
    requires |frame| >= 4
    ensures r.Some? <==> pollEnable && inRcode == 0 && frame[..4] != [0, 0, 0, 0]
    ensures r.Some? ==> r.value == frame[1..4]
  {
    if !pollEnable || inRcode != 0 then None
    else
      assert frame[..4] == [0, 0, 0, 0] <==> frame[0] == 0 && frame[1] == 0 && frame[2] == 0 && frame[3] == 0;
      ReceivedPayload(frame)
  }

  class Midi {
    var bAddress: bv8
    var bNumEP: bv8
    var bPollEnable: bool
    var isMidiFound: bool
    var bConfNum: bv8
    const epInfo: array<EpInfo>

    ghost predicate Valid()
      reads this
    {
      epInfo.Length == MaxEndpoints
    }

    /** The object's fields as a DriverState value. */
    function Abstract(): DriverState
      requires Valid()
      reads this, epInfo
    {
      DriverState(bAddress, bNumEP, bPollEnable, isMidiFound, bConfNum, epInfo[..])
    }

    /** A fresh driver: no address, only the control endpoint (packet size 8),
        polling off, no MIDI interface seen. bConfNum is whatever the memory
        held. */
    constructor(confNum: bv8)
      ensures Valid()
      ensures fresh(epInfo)
      ensures Abstract() == Initial(confNum)
    {
      epInfo := new EpInfo[MaxEndpoints];
      new;
      var i := 0;
      while i < MaxEndpoints
        invariant 0 <= i <= MaxEndpoints
        invariant forall j :: 0 <= j < i ==> epInfo[j] == InitialSlots[j]
      {
        epInfo[i] := EpInfo(0, if i != 0 then 0 else 8);
        assert epInfo[i] == InitialSlots[i];
        i := i + 1;
      }
      assert epInfo[..] == InitialSlots;
      bAddress := 0;
      bNumEP := 1;
      bPollEnable := false;
      isMidiFound := false;
      bConfNum := confNum;
    }

    /** Release: frees the address and resets the endpoint count and the
        polling flag; always reports 0. */
    method Release() returns (r: bv8)
      requires Valid()
      modifies this
      ensures Valid() && r == 0
      ensures Abstract() == ReleaseSpec(old(Abstract()))
    {
      bNumEP := 1;
      bAddress := 0;
      bPollEnable := false;
      return 0;
    }

    /** parseConfigDescr for one configuration: two descriptor requests, then
        the cursor loop over the fetched bytes. */
    method ParseConfigDescr(f: ConfFetch)
      requires Valid() && f.Valid()
      modifies this, epInfo
      ensures Valid()
      ensures Abstract() == ParseConfig(old(Abstract()), f)
    {
      if f.headerRcode != 0 {
        return;
      }
      var totalLength := TotalLength(f.header);
      if f.bodyRcode != 0 {
        return;
      }
      var buf := f.buf;
      var isMidi := false;
      var bufPtr: nat := 0;
      ghost var final := WalkOn(buf, totalLength, 0, Walker(old(Abstract()), false));
      while bufPtr < totalLength
        invariant Valid()
        invariant WellFormed(buf, totalLength, bufPtr)
        invariant WalkOn(buf, totalLength, bufPtr, Walker(Abstract(), isMidi)) == final
        decreases totalLength - bufPtr
      {
        WalkOnAdvance(buf, totalLength, bufPtr, Walker(Abstract(), isMidi));
        var descrLength := buf[bufPtr];
        isMidi := ParseDescriptor(buf, bufPtr, isMidi);
        bufPtr := bufPtr + descrLength as nat;
      }
      CursorLoopIsWalk(buf, totalLength, old(Abstract()));
    }

    /** One pass of parseConfigDescr's loop: the switch on bDescriptorType
        for the descriptor at `bufPtr`. */
    method ParseDescriptor(buf: seq<bv8>, bufPtr: nat, isMidi: bool) returns (isMidi': bool)
      requires Valid() && Readable(buf, bufPtr)
      modifies this, epInfo
      ensures Valid()
      ensures Walker(Abstract(), isMidi') == Step(buf, bufPtr, Walker(old(Abstract()), isMidi))
    {
      isMidi' := isMidi;
      var descrType := buf[bufPtr + 1];
      if descrType == DescConfiguration {
        bConfNum := buf[bufPtr + 5];
      } else if descrType == DescInterface {
        isMidi' := ParseInterface(buf, bufPtr);
      } else if descrType == DescEndpoint && buf[bufPtr + 3] & 0x02 == 2 {
        ParseEndpoint(buf, bufPtr, isMidi);
      }
    }

    /** The interface case of parseConfigDescr's switch: a MIDI Streaming
        interface (class 1, subclass 3) sets isMidiFound, and the answer
        says whether the endpoints that follow are MIDI ones. */
    method ParseInterface(buf: seq<bv8>, bufPtr: nat) returns (isMidi': bool)
      requires Valid() && Readable(buf, bufPtr) && buf[bufPtr + 1] == DescInterface
      modifies this
      ensures Valid()
      ensures isMidi' == IsMidiInterface(buf, bufPtr)
      ensures Abstract() == old(Abstract()).(midiFound := old(isMidiFound) || isMidi')
    {
      if buf[bufPtr + 5] == ClassAudio && buf[bufPtr + 6] == SubclassMidiStreaming {
        isMidiFound := true;
        isMidi' := true;
      } else {
        isMidi' := false;
      }
    }

    /** The endpoint case of parseConfigDescr's switch for a bulk or
        interrupt endpoint: its slot takes the endpoint number and packet
        size, and one more endpoint is counted. */
    method ParseEndpoint(buf: seq<bv8>, bufPtr: nat, isMidi: bool)
      requires Valid() && Readable(buf, bufPtr) && IsDataEndpoint(buf, bufPtr)
      modifies this, epInfo
      ensures Valid()
      ensures Abstract() == Step(buf, bufPtr, Walker(old(Abstract()), isMidi)).st
    {
      var index := EndpointSlot(isMidi, buf[bufPtr + 2]);
      epInfo[index] := epInfo[index].(epAddr := buf[bufPtr + 2] & 0x0F);
      epInfo[index] := epInfo[index].(maxPktSize := buf[bufPtr + 4]);
      bNumEP := bNumEP + 1;
    }

    /** Init: address the device, register the endpoint table, scan the
        configurations, fall back to slots 3/4, select the configuration. */
    method Init(dev: Device) returns (rcode: bv8)
      requires Valid() && dev.Valid()
      modifies this, epInfo
      ensures Valid()
      ensures Outcome(Abstract(), rcode) == InitSpec(old(Abstract()), dev)
    {
      if bAddress != 0 {
        return ErrInstanceInUse;
      }
      if !dev.pseudoDeviceFound {
        return ErrAddressNotFound;
      }
      if !dev.pseudoEpInfoSet {
        return ErrEpInfoIsNull;
      }
      rcode := dev.devDescrRcode;
      if rcode != 0 {
        var _ := Release();
        return;
      }
      bAddress := dev.allocatedAddress;
      if bAddress == 0 {
        return ErrOutOfAddressSpace;
      }
      epInfo[0] := epInfo[0].(maxPktSize := dev.maxPacketSize0);
      rcode := dev.setAddrRcode;
      if rcode != 0 {
        bAddress := 0;
        return;
      }
      if !dev.addressRecordFound {
        return ErrAddressNotFound;
      }
      rcode := dev.setEpInfoRcode;
      if rcode != 0 {
        var _ := Release();
        return;
      }
      rcode := ConfigureDevice(dev);
    }

    /** The rest of Init once the endpoint table is registered: scan the
        configurations, release when no configuration value was found, fall
        back to slots 3/4 without a MIDI Streaming interface, select the
        configuration and start polling. */
    method ConfigureDevice(dev: Device) returns (rcode: bv8)
      requires Valid() && dev.Valid()
      modifies this, epInfo
      ensures Valid()
      ensures Outcome(Abstract(), rcode) == Configure(old(Abstract()), dev)
    {
      ScanConfigurations(dev.configs);
      if bConfNum == 0 {
        // the result is still the 0 of the successful registration
        var _ := Release();
        return 0;
      }
      if !isMidiFound {
        PromoteVendorSpecific();
      }
      rcode := dev.lateEpInfoRcode;
      rcode := dev.setConfRcode;
      if rcode != 0 {
        var _ := Release();
        return;
      }
      bPollEnable := true;
      return 0;
    }

    /** The configuration loop of Init: parse configuration i for i = 0, 1,
        ... and stop once more than one endpoint is counted. */
    method ScanConfigurations(configs: seq<ConfFetch>)
      requires Valid()
      requires forall j :: 0 <= j < |configs| ==> configs[j].Valid()
      modifies this, epInfo
      ensures Valid()
      ensures Abstract() == ScanConfigs(old(Abstract()), configs)
    {
      ghost var scanned := ScanConfigs(Abstract(), configs);
      var i: nat := 0;
      while i < |configs|
        invariant Valid() && i <= |configs|
        invariant ScanConfigs(Abstract(), configs[i..]) == scanned
        decreases |configs| - i
      {
        var enough := ParseNextConfig(configs[i..]);
        if enough {
          break;
        }
        assert configs[i..][1..] == configs[i + 1..];
        i := i + 1;
      }
    }

    /** One round of the configuration loop: parse the first of `cs` and
        report whether more than one endpoint is now counted. */
    method ParseNextConfig(cs: seq<ConfFetch>) returns (enough: bool)
      requires Valid() && |cs| >= 1
      requires forall j :: 0 <= j < |cs| ==> cs[j].Valid()
      modifies this, epInfo
      ensures Valid()
      ensures enough <==> bNumEP > 1
      ensures ScanConfigs(old(Abstract()), cs) == if enough then Abstract() else ScanConfigs(Abstract(), cs[1..])
    {
      ghost var prev := Abstract();
      ParseConfigDescr(cs[0]);
      ScanConfigsFirst(prev, cs, cs[0]);
      enough := bNumEP > 1;
    }

    /** No MIDI Streaming interface: slots 1/2 take the endpoint number and
        packet size of slots 3/4. */
    method PromoteVendorSpecific()
      requires Valid()
      modifies epInfo
      ensures Valid()
      ensures Abstract() == Promote(old(Abstract()))
    {
      epInfo[EpDataInIndex] := epInfo[EpDataInIndex].(epAddr := epInfo[EpDataInIndexVSP].epAddr);
      epInfo[EpDataInIndex] := epInfo[EpDataInIndex].(maxPktSize := epInfo[EpDataInIndexVSP].maxPktSize);
      epInfo[EpDataOutIndex] := epInfo[EpDataOutIndex].(epAddr := epInfo[EpDataOutIndexVSP].epAddr);
      epInfo[EpDataOutIndex] := epInfo[EpDataOutIndex].(maxPktSize := epInfo[EpDataOutIndexVSP].maxPktSize);
    }

    /** RcvData(outBuf): one IN transfer into a 64-byte buffer; a frame whose
        first four bytes are all zero counts as no data, otherwise bytes 1..3
        go to outBuf[0..2]. */
    method RcvData(outBuf: array<bv8>, inRcode: bv8, rcvbuf: seq<bv8>) returns (ok: bool)
      requires Valid() && outBuf.Length >= 3 && |rcvbuf| == 64
      modifies outBuf
      ensures ok == Receive(bPollEnable, inRcode, rcvbuf).Some?
      ensures ok ==> outBuf[..3] == Receive(bPollEnable, inRcode, rcvbuf).value
      ensures ok ==> outBuf[3..] == old(outBuf[3..])
      ensures !ok ==> outBuf[..] == old(outBuf[..])
    {
      if !bPollEnable {
        return false;
      }
      if inRcode != 0 {
        return false;
      }
      if rcvbuf[0] == 0 && rcvbuf[1] == 0 && rcvbuf[2] == 0 && rcvbuf[3] == 0 {
        return false;
      }
      outBuf[0] := rcvbuf[1];
      outBuf[1] := rcvbuf[2];
      outBuf[2] := rcvbuf[3];
      return true;
    }
  }
}
