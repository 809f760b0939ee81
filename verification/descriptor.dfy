/**
 * The walk over a configuration descriptor set (section 9.6 of the USB 2.0
 * specification: configuration 9.6.3, interface 9.6.5, endpoint 9.6.6) that
 * records the configuration value, notices MIDI Streaming interfaces and
 * sorts bulk/interrupt endpoints into the slots of the endpoint table.
 *
 * The walk is specified on the sequence of offsets the cursor visits: the
 * state after visiting `offs` is the step function applied to each offset in
 * turn.
 */
module ConfigDescriptor {
  import opened MidiState

  /** Size of the descriptor buffer. */
  const DescBuffSize: nat := 256

  const DescConfiguration: bv8 := 0x02
  const DescInterface: bv8 := 0x04
  const DescEndpoint: bv8 := 0x05

  const ClassAudio: bv8 := 0x01
  const SubclassMidiStreaming: bv8 := 0x03

  /** wTotalLength (bytes 2 and 3, little-endian) of the configuration
      descriptor header, cut to the size of the buffer. */
  function TotalLength(header: seq<bv8>): (n: nat)
    requires |header| >= 4
    ensures n <= DescBuffSize
    ensures n < DescBuffSize ==> n == header[2] as int + 256 * header[3] as int
    ensures n == DescBuffSize ==> header[2] as int + 256 * header[3] as int >= DescBuffSize
  {
    var wTotalLength := header[2] as int + 256 * header[3] as int;
    if wTotalLength > DescBuffSize then DescBuffSize else wTotalLength
  }

  /** How many bytes from offset `o` the walk reads, along the path it takes
      through the descriptor there:
      - a configuration descriptor: through byte 5 (bConfigurationValue);
      - an interface descriptor: through byte 5 (class), and byte 6 (subclass)
        too when the class is Audio;
      - an endpoint descriptor: through byte 3 (bmAttributes), and through
        byte 5 (address, wMaxPacketSize) when bit 1 of it is set;
      - any other descriptor: bLength and bDescriptorType only.
      A byte that decides the path and lies past the buffer counts as the
      short path, which the bound then already refuses. */
  function FieldsRead(buf: seq<bv8>, o: nat): nat
    requires o + 1 < |buf|
  {
    var descrType := buf[o + 1];
    if descrType == DescConfiguration then 6
    else if descrType == DescInterface then
      (if o + 6 <= |buf| && buf[o + 5] == ClassAudio then 7 else 6)
    else if descrType == DescEndpoint then
      (if o + 4 <= |buf| && buf[o + 3] & 0x02 == 2 then 6 else 4)
    else 2
  }

  /** Every byte the walk reads from the descriptor at offset `o` lies inside
      the buffer, and its bLength moves the cursor on. The descriptor itself
      may run past the end of the buffer (a set longer than 256 bytes is cut
      there), and a bLength shorter than the fields read makes the walk read
      the bytes that follow, as the driver does. */
  predicate Readable(buf: seq<bv8>, o: nat)
  {
    && o + 1 < |buf|
    && buf[o] != 0
    && o + FieldsRead(buf, o) <= |buf|
  }

  /** Every descriptor the cursor reaches from `o` before `total` is Readable;
      this rules out the zero-length descriptor on which the walk would not
      advance. */
  ghost predicate WellFormed(buf: seq<bv8>, total: nat, o: nat)
    decreases total - o
  {
    o < total ==> Readable(buf, o) && WellFormed(buf, total, o + buf[o] as int)
  }

  /** The last descriptor of a set: one whose bLength carries the cursor to or
      past `total`, even when that runs past the end of a set cut at 256 bytes,
      is walked as long as the bytes read from it are in the buffer, and it is
      the only offset the cursor then visits. */
  lemma CutDescriptorIsWalked(buf: seq<bv8>, total: nat, o: nat)
    requires o < total && Readable(buf, o) && o + buf[o] as int >= total
    ensures WellFormed(buf, total, o)
    ensures Offsets(buf, total, o) == [o]
  {
  }

  /** Only the bytes on the path taken need be in the buffer: an interface
      descriptor that is not an Audio one and an isochronous endpoint
      descriptor, each starting near the end of a cut buffer, are walked. */
  lemma PathBytesOnly(buf: seq<bv8>)
    requires |buf| == DescBuffSize
    ensures buf[250] == 9 && buf[251] == DescInterface && buf[255] == 0xFF ==> Readable(buf, 250)
    ensures buf[252] == 7 && buf[253] == DescEndpoint && buf[255] == 0x01 ==> Readable(buf, 252)
  {
  }

  /** The offsets the cursor visits from `o`: each next one is the previous
      one plus its bLength, for as long as the cursor is below `total`. */
  function Offsets(buf: seq<bv8>, total: nat, o: nat): (offs: seq<nat>)
    requires WellFormed(buf, total, o)
    ensures o < total ==> |offs| >= 1 && offs[0] == o
    ensures o >= total ==> offs == []
    ensures forall i :: 0 <= i < |offs| ==> o <= offs[i] < total && Readable(buf, offs[i])
    ensures forall i :: 0 <= i < |offs| - 1 ==> offs[i] < |buf| && offs[i + 1] == offs[i] + buf[offs[i]] as int
    ensures |offs| >= 1 ==> offs[|offs| - 1] < |buf| && offs[|offs| - 1] + buf[offs[|offs| - 1]] as int >= total
    decreases total - o
  {
    if o >= total then [] else [o] + Offsets(buf, total, o + buf[o] as int)
  }

  /** The walk's state: the driver state and whether the last interface seen
      was a MIDI Streaming one. */
  datatype Walker = Walker(st: DriverState, isMidi: bool)

  predicate IsConfiguration(buf: seq<bv8>, o: nat)
    requires Readable(buf, o)
  {
    buf[o + 1] == DescConfiguration
  }

  predicate IsMidiInterface(buf: seq<bv8>, o: nat)
    requires Readable(buf, o)
  {
    buf[o + 1] == DescInterface && buf[o + 5] == ClassAudio && buf[o + 6] == SubclassMidiStreaming
  }

  /** An endpoint descriptor whose bmAttributes has bit 1 set: bulk (2) or
      interrupt (3). */
  predicate IsDataEndpoint(buf: seq<bv8>, o: nat)
    requires Readable(buf, o)
    ensures IsDataEndpoint(buf, o) ==> o + 6 <= |buf|
  {
    buf[o + 1] == DescEndpoint && buf[o + 3] & 0x02 == 2
  }

  /** Slot of a data endpoint: 1 (IN) or 2 (OUT) inside a MIDI Streaming
      interface, 3 (IN) or 4 (OUT) otherwise; IN is bit 7 of the address. */
  function EndpointSlot(isMidi: bool, address: bv8): (s: nat)
    ensures 1 <= s < MaxEndpoints
    ensures s == EpDataInIndex || s == EpDataInIndexVSP <==> address & 0x80 == 0x80
    ensures s == EpDataInIndex || s == EpDataOutIndex <==> isMidi
  {
    if isMidi then (if address & 0x80 == 0x80 then EpDataInIndex else EpDataOutIndex)
    else (if address & 0x80 == 0x80 then EpDataInIndexVSP else EpDataOutIndexVSP)
  }

  /** What an endpoint descriptor puts in its slot: the endpoint number and the
      low byte of wMaxPacketSize. */
  function EndpointEntry(buf: seq<bv8>, o: nat): EpInfo
    requires Readable(buf, o) && IsDataEndpoint(buf, o)
  {
    EpInfo(buf[o + 2] & 0x0F, buf[o + 4])
  }

  /** One iteration of the walk, on the descriptor at offset `o`: a
      configuration descriptor sets bConfNum, an interface descriptor decides
      whether the following endpoints are MIDI ones (and may set isMidiFound),
      a data endpoint fills one slot and counts one more endpoint; nothing
      else changes. */
  function Step(buf: seq<bv8>, o: nat, w: Walker): (r: Walker)
    requires Readable(buf, o)
    ensures r.st.address == w.st.address && r.st.pollEnable == w.st.pollEnable
    ensures r.st.confNum == if IsConfiguration(buf, o) then buf[o + 5] else w.st.confNum
    ensures r.st.midiFound == (w.st.midiFound || IsMidiInterface(buf, o))
    ensures r.isMidi == if buf[o + 1] == DescInterface then IsMidiInterface(buf, o) else w.isMidi
    ensures r.st.numEP == if IsDataEndpoint(buf, o) then w.st.numEP + 1 else w.st.numEP
    ensures forall t :: 0 <= t < MaxEndpoints ==>
      r.st.ep[t] == if IsDataEndpoint(buf, o) && t == EndpointSlot(w.isMidi, buf[o + 2])
                    then EndpointEntry(buf, o) else w.st.ep[t]
  {
    var descrType := buf[o + 1];
    if descrType == DescConfiguration then
      w.(st := w.st.(confNum := buf[o + 5]))
    else if descrType == DescInterface then
      if buf[o + 5] == ClassAudio && buf[o + 6] == SubclassMidiStreaming then
        Walker(w.st.(midiFound := true), true)
      else
        w.(isMidi := false)
    else if descrType == DescEndpoint && buf[o + 3] & 0x02 == 2 then
      var index := EndpointSlot(w.isMidi, buf[o + 2]);
      w.(st := w.st.(ep := w.st.ep[index := EndpointEntry(buf, o)], numEP := w.st.numEP + 1))
    else
      w
  }

  predicate AllReadable(buf: seq<bv8>, offs: seq<nat>)
  {
    forall i :: 0 <= i < |offs| ==> Readable(buf, offs[i])
  }

  /** Dropping the last offset keeps every offset Readable. */
  lemma PrefixReadable(buf: seq<bv8>, offs: seq<nat>)
    requires AllReadable(buf, offs) && offs != []
    ensures AllReadable(buf, offs[..|offs| - 1]) && Readable(buf, offs[|offs| - 1])
  {
    var pre := offs[..|offs| - 1];
    forall i | 0 <= i < |pre|
      ensures Readable(buf, pre[i])
    {
      assert pre[i] == offs[i];
    }
  }

  /** The walker after visiting the descriptors at `offs`, in order. */
  function WalkFrom(buf: seq<bv8>, offs: seq<nat>, w: Walker): Walker
    requires AllReadable(buf, offs)
    decreases |offs|
  {
    if offs == [] then w
    else Step(buf, offs[|offs| - 1], WalkFrom(buf, offs[..|offs| - 1], w))
  }

  /** The walk of one configuration descriptor set of `total` bytes. */
  function Walk(buf: seq<bv8>, total: nat, st: DriverState): Walker
    requires WellFormed(buf, total, 0)
  {
    WalkFrom(buf, Offsets(buf, total, 0), Walker(st, false))
  }

  /** The walk as the cursor loop performs it: step on the descriptor at
      `o`, then go on from `o + bLength` until the cursor reaches `total`. */
  function WalkOn(buf: seq<bv8>, total: nat, o: nat, w: Walker): (r: Walker)
    requires WellFormed(buf, total, o)
    ensures r.st.address == w.st.address && r.st.pollEnable == w.st.pollEnable
    ensures w.st.midiFound ==> r.st.midiFound
    decreases total - o
  {
    if o >= total then w else WalkOn(buf, total, o + buf[o] as int, Step(buf, o, w))
  }

  /** One turn of the cursor loop: the descriptor at `o` is read and the walk
      goes on from `o + bLength`. */
  lemma WalkOnAdvance(buf: seq<bv8>, total: nat, o: nat, w: Walker)
    requires o < total && WellFormed(buf, total, o)
    ensures Readable(buf, o) && WellFormed(buf, total, o + buf[o] as int)
    ensures WalkOn(buf, total, o, w) == WalkOn(buf, total, o + buf[o] as int, Step(buf, o, w))
  {
  }

  /** The cursor loop computes the walk over the visited offsets: going on
      from `o` after the offsets `pre` is the walk over `pre` followed by the
      offsets reached from `o`. */
  lemma {:induction false} WalkOnIsWalkFrom(buf: seq<bv8>, total: nat, o: nat, pre: seq<nat>, w: Walker)
    requires WellFormed(buf, total, o) && AllReadable(buf, pre)
    ensures AllReadable(buf, pre + Offsets(buf, total, o))
    ensures WalkOn(buf, total, o, WalkFrom(buf, pre, w)) == WalkFrom(buf, pre + Offsets(buf, total, o), w)
    decreases total - o
  {
    var offs := Offsets(buf, total, o);
    if o < total {
      var next := o + buf[o] as int;
      assert offs == [o] + Offsets(buf, total, next);
      assert (pre + [o])[..|pre|] == pre;
      assert AllReadable(buf, pre + [o]);
      WalkOnIsWalkFrom(buf, total, next, pre + [o], w);
      SnocConcat(pre, o, Offsets(buf, total, next));
    } else {
      assert pre + offs == pre;
    }
  }

  lemma SnocConcat(a: seq<nat>, x: nat, b: seq<nat>)
    ensures a + ([x] + b) == (a + [x]) + b
  {
  }

  /** From the start of the buffer, the cursor loop computes Walk. */
  lemma CursorLoopIsWalk(buf: seq<bv8>, total: nat, st: DriverState)
    requires WellFormed(buf, total, 0)
    ensures WalkOn(buf, total, 0, Walker(st, false)) == Walk(buf, total, st)
  {
    WalkOnIsWalkFrom(buf, total, 0, [], Walker(st, false));
    assert [] + Offsets(buf, total, 0) == Offsets(buf, total, 0);
  }

  // ---------------------------------------------------------------------------
  // Properties of the walk
  // ---------------------------------------------------------------------------

  /** The walk never touches the address, the polling flag or the control
      endpoint's slot. */
  lemma {:induction false} WalkFrame(buf: seq<bv8>, offs: seq<nat>, w: Walker)
    requires AllReadable(buf, offs)
    ensures var r := WalkFrom(buf, offs, w);
      r.st.address == w.st.address && r.st.pollEnable == w.st.pollEnable && r.st.ep[0] == w.st.ep[0]
    decreases |offs|
  {
    if offs != [] {
      WalkFrame(buf, offs[..|offs| - 1], w);
    }
  }

  /** isMidiFound ends true exactly when it was true already or one of the
      visited descriptors is a MIDI Streaming interface: it is never cleared. */
  lemma {:induction false} WalkMidiFound(buf: seq<bv8>, offs: seq<nat>, w: Walker)
    requires AllReadable(buf, offs)
    ensures WalkFrom(buf, offs, w).st.midiFound
        <==> w.st.midiFound || exists i :: 0 <= i < |offs| && IsMidiInterface(buf, offs[i])
    decreases |offs|
  {
    if offs != [] {
      var pre := offs[..|offs| - 1];
      WalkMidiFound(buf, pre, w);
      if exists i :: 0 <= i < |pre| && IsMidiInterface(buf, pre[i]) {
        var i :| 0 <= i < |pre| && IsMidiInterface(buf, pre[i]);
        assert offs[i] == pre[i];
      }
      if exists i :: 0 <= i < |offs| && IsMidiInterface(buf, offs[i]) {
        var i :| 0 <= i < |offs| && IsMidiInterface(buf, offs[i]);
        if i < |pre| {
          assert pre[i] == offs[i];
        }
      }
    }
  }

  /** The walker is inside a MIDI Streaming interface only if one was found. */
  lemma {:induction false} WalkMidiImpliesFound(buf: seq<bv8>, offs: seq<nat>, w: Walker)
    requires AllReadable(buf, offs)
    requires w.isMidi ==> w.st.midiFound
    ensures WalkFrom(buf, offs, w).isMidi ==> WalkFrom(buf, offs, w).st.midiFound
    decreases |offs|
  {
    if offs != [] {
      WalkMidiImpliesFound(buf, offs[..|offs| - 1], w);
    }
  }

  /** `v` is byte 5 (bConfigurationValue) of the last configuration descriptor
      among `offs`, or `init` when there is none. */
  ghost predicate LastConfigValue(buf: seq<bv8>, offs: seq<nat>, init: bv8, v: bv8)
    requires AllReadable(buf, offs)
  {
    || (exists i :: 0 <= i < |offs| && IsConfiguration(buf, offs[i]) && v == buf[offs[i] + 5]
          && forall j :: i < j < |offs| ==> !IsConfiguration(buf, offs[j]))
    || ((forall i :: 0 <= i < |offs| ==> !IsConfiguration(buf, offs[i])) && v == init)
  }

  /** bConfNum ends as the value of the last configuration descriptor visited. */
  lemma {:induction false} WalkConfNum(buf: seq<bv8>, offs: seq<nat>, w: Walker)
    requires AllReadable(buf, offs)
    ensures LastConfigValue(buf, offs, w.st.confNum, WalkFrom(buf, offs, w).st.confNum)
    decreases |offs|
  {
    if offs != [] {
      var n := |offs| - 1;
      var pre := offs[..n];
      WalkConfNum(buf, pre, w);
      var v := WalkFrom(buf, offs, w).st.confNum;
      if IsConfiguration(buf, offs[n]) {
        LastConfigHere(buf, offs, w.st.confNum, v);
      } else {
        LastConfigKept(buf, offs, w.st.confNum, v);
      }
    }
  }

  /** A configuration descriptor at the last offset gives the last value. */
  lemma LastConfigHere(buf: seq<bv8>, offs: seq<nat>, init: bv8, v: bv8)
    requires AllReadable(buf, offs) && offs != []
    requires IsConfiguration(buf, offs[|offs| - 1]) && v == buf[offs[|offs| - 1] + 5]
    ensures LastConfigValue(buf, offs, init, v)
  {
    var n := |offs| - 1;
    assert IsConfiguration(buf, offs[n]) && v == buf[offs[n] + 5];
  }

  /** Any other descriptor at the last offset keeps the last value. */
  lemma LastConfigKept(buf: seq<bv8>, offs: seq<nat>, init: bv8, v: bv8)
    requires AllReadable(buf, offs) && offs != []
    requires !IsConfiguration(buf, offs[|offs| - 1])
    requires LastConfigValue(buf, offs[..|offs| - 1], init, v)
    ensures LastConfigValue(buf, offs, init, v)
  {
    var n := |offs| - 1;
    var pre := offs[..n];
    if i :| 0 <= i < |pre| && IsConfiguration(buf, pre[i]) && v == buf[pre[i] + 5]
           && forall j :: i < j < |pre| ==> !IsConfiguration(buf, pre[j]) {
      forall j | i < j < n ensures !IsConfiguration(buf, offs[j]) {
        assert offs[j] == pre[j];
      }
      LastConfigBefore(buf, offs, init, v, i);
    } else {
      forall i | 0 <= i < n ensures !IsConfiguration(buf, offs[i]) {
        assert offs[i] == pre[i];
      }
      LastConfigNone(buf, offs, init, v);
    }
  }

  /** A configuration descriptor at `i` with none after it gives the last
      value. */
  lemma LastConfigBefore(buf: seq<bv8>, offs: seq<nat>, init: bv8, v: bv8, i: nat)
    requires AllReadable(buf, offs) && i < |offs| - 1
    requires IsConfiguration(buf, offs[i]) && v == buf[offs[i] + 5]
    requires forall j :: i < j < |offs| - 1 ==> !IsConfiguration(buf, offs[j])
    requires !IsConfiguration(buf, offs[|offs| - 1])
    ensures LastConfigValue(buf, offs, init, v)
  {
    assert forall j :: i < j < |offs| ==> !IsConfiguration(buf, offs[j]);
  }

  /** With no configuration descriptor the value is the initial one. */
  lemma LastConfigNone(buf: seq<bv8>, offs: seq<nat>, init: bv8, v: bv8)
    requires AllReadable(buf, offs) && offs != []
    requires forall i :: 0 <= i < |offs| - 1 ==> !IsConfiguration(buf, offs[i])
    requires !IsConfiguration(buf, offs[|offs| - 1])
    requires v == init
    ensures LastConfigValue(buf, offs, init, v)
  {
    assert forall i :: 0 <= i < |offs| ==> !IsConfiguration(buf, offs[i]);
  }

  /** Number of data endpoint descriptors among `offs`. */
  function CountDataEndpoints(buf: seq<bv8>, offs: seq<nat>): (n: nat)
    requires AllReadable(buf, offs)
    ensures n <= |offs|
    decreases |offs|
  {
    if offs == [] then 0
    else CountDataEndpoints(buf, offs[..|offs| - 1]) + (if IsDataEndpoint(buf, offs[|offs| - 1]) then 1 else 0)
  }

  /** bNumEP grows by one per data endpoint visited, in 8 bits. */
  lemma {:induction false} WalkNumEP(buf: seq<bv8>, offs: seq<nat>, w: Walker)
    requires AllReadable(buf, offs)
    ensures WalkFrom(buf, offs, w).st.numEP as int == (w.st.numEP as int + CountDataEndpoints(buf, offs)) % 256
    decreases |offs|
  {
    if offs != [] {
      PrefixReadable(buf, offs);
      WalkNumEP(buf, offs[..|offs| - 1], w);
      WalkNumEPStep(buf, offs, w);
    } else {
      Wrap8Zero(w.st.numEP);
    }
  }

  lemma Wrap8Zero(b: bv8)
    ensures b as int == (b as int + 0) % 256
  {
    assert 0 <= b as int < 256;
  }

  lemma WalkNumEPStep(buf: seq<bv8>, offs: seq<nat>, w: Walker)
    requires AllReadable(buf, offs) && offs != []
    requires WalkFrom(buf, offs[..|offs| - 1], w).st.numEP as int
      == (w.st.numEP as int + CountDataEndpoints(buf, offs[..|offs| - 1])) % 256
    ensures WalkFrom(buf, offs, w).st.numEP as int == (w.st.numEP as int + CountDataEndpoints(buf, offs)) % 256
  {
    var pre := offs[..|offs| - 1];
    Wrap8Count(WalkFrom(buf, pre, w).st.numEP, WalkFrom(buf, offs, w).st.numEP, w.st.numEP as int,
      CountDataEndpoints(buf, pre), CountDataEndpoints(buf, offs), IsDataEndpoint(buf, offs[|offs| - 1]));
  }

  /** An 8-bit counter that holds `base + count` modulo 256 still does after
      one more step that adds one exactly when the count grows by one. */
  lemma Wrap8Count(before: bv8, after: bv8, base: int, countBefore: nat, count: nat, inc: bool)
    requires before as int == (base + countBefore) % 256
    requires after == if inc then before + 1 else before
    requires count == countBefore + if inc then 1 else 0
    ensures after as int == (base + count) % 256
  {
    if inc {
      Wrap8Inc(before, base + countBefore);
    }
  }

  /** Adding one in 8 bits is adding one modulo 256. */
  lemma Wrap8Inc(b: bv8, n: int)
    requires b as int == n % 256
    ensures (b + 1) as int == (n + 1) % 256
  {
    var q := n / 256;
    assert n == 256 * q + b as int;
    if b == 0xFF {
      assert b + 1 == 0;
      Mod256(n + 1, q + 1, 0);
    } else {
      Bv8Succ(b);
      Mod256(n + 1, q, b as int + 1);
    }
  }

  /** Below 0xFF, adding one in 8 bits does not wrap. */
  lemma Bv8Succ(b: bv8)
    requires b != 0xFF
    ensures (b + 1) as int == b as int + 1
  {
  }

  /** The remainder modulo 256 of `256 * q + r` is `r`. */
  lemma Mod256(n: int, q: int, r: int)
    requires n == 256 * q + r && 0 <= r < 256
    ensures n % 256 == r
  {
  }

  /** Whether the last interface descriptor among `offs` is a MIDI Streaming
      one (`isMidi0` when there is none). */
  function MidiContext(buf: seq<bv8>, offs: seq<nat>, isMidi0: bool): bool
    requires AllReadable(buf, offs)
    decreases |offs|
  {
    if offs == [] then isMidi0
    else if buf[offs[|offs| - 1] + 1] == DescInterface then IsMidiInterface(buf, offs[|offs| - 1])
    else MidiContext(buf, offs[..|offs| - 1], isMidi0)
  }

  /** The walker's isMidi flag follows the last interface descriptor. */
  lemma {:induction false} WalkContext(buf: seq<bv8>, offs: seq<nat>, w: Walker)
    requires AllReadable(buf, offs)
    ensures WalkFrom(buf, offs, w).isMidi == MidiContext(buf, offs, w.isMidi)
    decreases |offs|
  {
    if offs != [] {
      WalkContext(buf, offs[..|offs| - 1], w);
    }
  }

  /** The descriptor at `offs[i]` is a data endpoint that the walk sorts into
      slot `s`. */
  predicate ClassifiedTo(buf: seq<bv8>, offs: seq<nat>, i: nat, isMidi0: bool, s: nat)
    requires AllReadable(buf, offs) && i < |offs|
  {
    IsDataEndpoint(buf, offs[i]) && EndpointSlot(MidiContext(buf, offs[..i], isMidi0), buf[offs[i] + 2]) == s
  }

  /** `v` is the entry of the last endpoint among `offs` sorted into slot `s`,
      or `init` when there is none. */
  ghost predicate LastInSlot(buf: seq<bv8>, offs: seq<nat>, isMidi0: bool, s: nat, init: EpInfo, v: EpInfo)
    requires AllReadable(buf, offs)
  {
    || (exists i :: 0 <= i < |offs| && ClassifiedTo(buf, offs, i, isMidi0, s) && v == EndpointEntry(buf, offs[i])
          && forall j :: i < j < |offs| ==> !ClassifiedTo(buf, offs, j, isMidi0, s))
    || ((forall i :: 0 <= i < |offs| ==> !ClassifiedTo(buf, offs, i, isMidi0, s)) && v == init)
  }

  /** Extending the visited offsets does not change how earlier endpoints
      were sorted. */
  lemma ClassifiedPrefix(buf: seq<bv8>, offs: seq<nat>, i: nat, isMidi0: bool, s: nat)
    requires AllReadable(buf, offs) && i < |offs| - 1
    ensures ClassifiedTo(buf, offs[..|offs| - 1], i, isMidi0, s) == ClassifiedTo(buf, offs, i, isMidi0, s)
  {
    assert offs[..|offs| - 1][..i] == offs[..i];
  }

  /** Every slot 1 to 4 ends holding the last endpoint sorted into it. */
  lemma {:induction false} WalkSlots(buf: seq<bv8>, offs: seq<nat>, w: Walker, s: nat)
    requires AllReadable(buf, offs) && 1 <= s < MaxEndpoints
    ensures LastInSlot(buf, offs, w.isMidi, s, w.st.ep[s], WalkFrom(buf, offs, w).st.ep[s])
    decreases |offs|
  {
    if offs != [] {
      var n := |offs| - 1;
      var pre := offs[..n];
      WalkSlots(buf, pre, w, s);
      WalkContext(buf, pre, w);
      LastInSlotStep(buf, offs, w.isMidi, s, w.st.ep[s], WalkFrom(buf, pre, w).st.ep[s], WalkFrom(buf, offs, w).st.ep[s]);
    }
  }

  /** LastInSlot for one more offset: the new descriptor either is sorted into
      slot `s` and becomes its value, or leaves the value as it was. */
  lemma LastInSlotStep(buf: seq<bv8>, offs: seq<nat>, isMidi0: bool, s: nat, init: EpInfo, v0: EpInfo, v: EpInfo)
    requires AllReadable(buf, offs) && |offs| >= 1
    requires LastInSlot(buf, offs[..|offs| - 1], isMidi0, s, init, v0)
    requires ClassifiedTo(buf, offs, |offs| - 1, isMidi0, s) ==> v == EndpointEntry(buf, offs[|offs| - 1])
    requires !ClassifiedTo(buf, offs, |offs| - 1, isMidi0, s) ==> v == v0
    ensures LastInSlot(buf, offs, isMidi0, s, init, v)
  {
    var n := |offs| - 1;
    var pre := offs[..n];
    if !ClassifiedTo(buf, offs, n, isMidi0, s) {
      if i :| 0 <= i < |pre| && ClassifiedTo(buf, pre, i, isMidi0, s) && v0 == EndpointEntry(buf, pre[i])
             && forall j :: i < j < |pre| ==> !ClassifiedTo(buf, pre, j, isMidi0, s) {
        ClassifiedPrefix(buf, offs, i, isMidi0, s);
        forall j | i < j < |offs| ensures !ClassifiedTo(buf, offs, j, isMidi0, s) {
          if j < n { ClassifiedPrefix(buf, offs, j, isMidi0, s); }
        }
      } else {
        forall i | 0 <= i < |offs| ensures !ClassifiedTo(buf, offs, i, isMidi0, s) {
          if i < n { ClassifiedPrefix(buf, offs, i, isMidi0, s); }
        }
      }
    }
  }

  /** Without a MIDI Streaming interface the walk never writes slots 1 and 2. */
  lemma {:induction false} WalkWithoutMidi(buf: seq<bv8>, offs: seq<nat>, w: Walker)
    requires AllReadable(buf, offs) && !w.isMidi
    requires forall i :: 0 <= i < |offs| ==> !IsMidiInterface(buf, offs[i])
    ensures var r := WalkFrom(buf, offs, w);
      !r.isMidi && r.st.ep[EpDataInIndex] == w.st.ep[EpDataInIndex] && r.st.ep[EpDataOutIndex] == w.st.ep[EpDataOutIndex]
    decreases |offs|
  {
    if offs != [] {
      var pre := offs[..|offs| - 1];
      assert forall i :: 0 <= i < |pre| ==> pre[i] == offs[i];
      WalkWithoutMidi(buf, pre, w);
    }
  }
}
