/** The slider bus decoder: the body of the decode loop in main.c (lines 386-441).

    A PIO sniffer watches the two-wire bus between the controller's MCU and its
    slider peripheral and hands the firmware one event per bus condition: START,
    STOP, or a DATA byte. The decoder latches the first byte after START as the
    transaction's address byte (section 3.1.10 of the I2C-bus specification,
    NXP UM10204: the 7-bit device address followed by the R/W bit), so 0x58 is a
    write to device 0x2C (the read request, whose data byte picks the slider
    half) and 0x59 a read from it (the nine-byte reply). Reply bytes 1, 4, 7 and
    2, 5, 8 carry the 18 zone nibbles that are expanded into the 32-bit slider
    word through the tables of ZoneTables. */
module SliderDecoder {
  import opened Optional
  import opened Bits
  import opened ZoneTables

  /** Address byte of a write to the slider (device 0x2C): the read request. */
  const ReadRequestAddr: bv8 := 0x58
  /** Address byte of a read from the slider (device 0x2C): the read reply. */
  const ReadReplyAddr: bv8 := 0x59
  const SliderDevice: bv8 := 0x2C

  /** A bus event as the sniffer reports it (section 3.1.4 of UM10204 for START and STOP). */
  datatype Event = Start | Stop | Data(byte: bv8)

  /** The event codes EV_START, EV_STOP and EV_DATA of the sniffer program.
      Their values are defined by the PIO program, which is not part of this
      model, so they are a parameter. */
  datatype EventCodes = EventCodes(start: bv32, stop: bv32, data: bv32)

  /** Codes that fit the two code bits and are pairwise different. */
  predicate WellFormedCodes(c: EventCodes) {
    c.start < 4 && c.stop < 4 && c.data < 4
    && c.start != c.stop && c.start != c.data && c.stop != c.data
  }

  /** The address byte of a transfer to `device` (section 3.1.10 of UM10204). */
  function AddressByte(device: bv8, read: bool): (b: bv8)
    requires device < 0x80
    ensures b >> 1 == device && (b & 1 == 1) == read
  {
    (device << 1) | (if read then 1 else 0)
  }

  /** The request and reply addresses are the write and the read of device 0x2C. */
  lemma SliderAddresses()
    ensures AddressByte(SliderDevice, false) == ReadRequestAddr
    ensures AddressByte(SliderDevice, true) == ReadReplyAddr
  {
  }

  /** The event a raw sniffer word stands for (main.c:392-393): the event code
      is bits 10-11 of the word, the data byte bits 1-8. A word whose code is
      none of the three falls through every branch of the loop (None). */
  function Classify(codes: EventCodes, word: bv32): (e: Option<Event>)
    ensures e == Some(Start) <==> (word >> 10) & 3 == codes.start
    ensures e == Some(Stop) ==> (word >> 10) & 3 == codes.stop
    ensures e.Some? && e.value.Data? ==>
      (word >> 10) & 3 == codes.data && e.value.byte as bv32 == (word >> 1) & 0xFF
    ensures e == None <==>
      (word >> 10) & 3 !in {codes.start, codes.stop, codes.data}
  {
    var evCode := (word >> 10) & 0x03;
    var data := ((word >> 1) & 0xFF) as bv8;
    if evCode == codes.start then Some(Start)
    else if evCode == codes.stop then Some(Stop)
    else if evCode == codes.data then Some(Data(data))
    else None
  }

  /** A sniffer word for an event: code in bits 10-11, data in bits 1-8, ACK bit 0 clear. */
  function EncodeWord(codes: EventCodes, e: Event): bv32
    requires WellFormedCodes(codes)
  {
    match e
    case Start => codes.start << 10
    case Stop => codes.stop << 10
    case Data(b) => (codes.data << 10) | ((b as bv32) << 1)
  }

  /** Classify recovers every event from its sniffer word. */
  lemma ClassifyEncode(codes: EventCodes, e: Event)
    requires WellFormedCodes(codes)
    ensures Classify(codes, EncodeWord(codes, e)) == Some(e)
  {
    match e
    case Start => CodeField(codes.start, 0);
    case Stop => CodeField(codes.stop, 0);
    case Data(b) => CodeField(codes.data, b); DataField(codes.data, b);
  }

  /** The code bits of a sniffer word hold the code it was built from. */
  lemma CodeField(code: bv32, b: bv8)
    requires code < 4
    ensures (((code << 10) | ((b as bv32) << 1)) >> 10) & 3 == code
    ensures ((code << 10) >> 10) & 3 == code
  {
  }

  /** The data bits of a sniffer word hold the byte it was built from. */
  lemma DataField(code: bv32, b: bv8)
    requires code < 4
    ensures ((((code << 10) | ((b as bv32) << 1)) >> 1) & 0xFF) as bv8 == b
  {
  }

  /** A uint8_t counter, kept as an integer; its wrap-around is written out. */
  type Uint8 = x: int | 0 <= x < 256

  /** `x++` on a uint8_t: 255 wraps to 0. */
  function Inc8(x: Uint8): Uint8 {
    if x == 255 then 0 else x + 1
  }

  /** Inc8 is addition modulo 256. */
  lemma Inc8Wraps(x: Uint8)
    ensures Inc8(x) == (x + 1) % 256
  {
  }

  /** The decode loop's local variables and the shared slider word. */
  datatype DecoderState = DecoderState(
    justStarted: bool,  // a START was seen and the address byte is pending
    addr: bv8,          // address byte of the current transaction, 0 when idle
    readIdx: Uint8,     // index of the next data byte in the transaction
    currHalf: bv8,      // last data byte of a read request
    offset: Uint8,      // table offset of the half being read: 0 or 8
    slider: bv32)       // g_full_slider

  predicate ValidOffset(s: DecoderState) {
    s.offset == 0 || s.offset == 8
  }

  /** The values the decode loop starts from (main.c:113, 355-359). */
  const Initial := DecoderState(false, 0, 0, 0, 0, 0)

  /** Whether the nibble a zone is reported in is nonzero. */
  predicate NibbleSet(data: bv8, high: bool) {
    if high then data & 0xF0 != 0 else data & 0x0F != 0
  }

  /** The tab0f entry the low nibble of reply byte readIdx drives, if any:
      cases 1, 4 and 7 of the switch at main.c:416-425. */
  function LowLookup(readIdx: Uint8, offset: Uint8): Option<bv32>
    requires offset == 0 || offset == 8
  {
    if LowNibbleByte(readIdx) then Some(Tab0f[readIdx + offset]) else None
  }

  /** The tabf0 entry the high nibble of reply byte readIdx drives, if any:
      cases 2, 5 and 8, and 1, 4 and 7 by fallthrough (main.c:426-434). */
  function HighLookup(readIdx: Uint8, offset: Uint8): Option<bv32>
    requires offset == 0 || offset == 8
  {
    if HighNibbleByte(readIdx) then Some(Tabf0[readIdx + offset]) else None
  }

  /** The lookups a reply byte makes are the table entries of ZoneTables:
      the low nibble's for bytes 1, 4, 7, the high nibble's for 1, 2, 4, 5, 7, 8. */
  lemma LookupsAreEntries(readIdx: Uint8, offset: Uint8)
    requires offset == 0 || offset == 8
    ensures LowLookup(readIdx, offset).Some? <==> LowNibbleByte(readIdx)
    ensures LowNibbleByte(readIdx) ==> LowLookup(readIdx, offset).value == Entry(ZoneRef(false, readIdx, offset))
    ensures HighLookup(readIdx, offset).Some? <==> HighNibbleByte(readIdx)
    ensures HighNibbleByte(readIdx) ==> HighLookup(readIdx, offset).value == Entry(ZoneRef(true, readIdx, offset))
  {
  }

  /** Set or clear the bits of a looked-up entry; no lookup, no change. */
  function Drive(x: bv32, entry: Option<bv32>, on: bool): bv32 {
    if entry.Some? then SetOrClear(x, entry.value, on) else x
  }

  /** The switch of main.c:416-438: one reply byte sets or clears the bits its
      nibbles report, the low nibble's entry first and then, falling through,
      the high nibble's. */
  function ApplyReplyByte(slider: bv32, readIdx: Uint8, offset: Uint8, data: bv8): bv32
    requires offset == 0 || offset == 8
  {
    Drive(Drive(slider, LowLookup(readIdx, offset), NibbleSet(data, false)),
      HighLookup(readIdx, offset), NibbleSet(data, true))
  }

  lemma DriveHit(x: bv32, m: bv32, on: bool)
    ensures Follows(Drive(x, Some(m), on), m, on)
  {
    SetOrClearInside(x, m, on);
  }

  lemma DriveMiss(x: bv32, entry: Option<bv32>, on: bool, k: bv32)
    requires entry.Some? ==> entry.value & k == 0
    ensures Keeps(Drive(x, entry, on), x, k)
  {
    if entry.Some? {
      SetOrClearOutside(x, entry.value, k, on);
    }
  }

  /** Reply locality, one table lookup at a time: a reply byte rewrites the bits
      of the lookups its own nibbles make (all set when the nibble is nonzero,
      all clear otherwise) and leaves the bits of every other lookup as they
      were. Bytes other than 1, 2, 4, 5, 7 and 8 make no lookup. */
  lemma ReplyByteEntry(slider: bv32, readIdx: Uint8, offset: Uint8, data: bv8, r: ZoneRef)
    requires offset == 0 || offset == 8
    requires Reachable(r)
    ensures r.readIdx == readIdx && r.offset == offset ==>
      Follows(ApplyReplyByte(slider, readIdx, offset, data), Entry(r), NibbleSet(data, r.high))
    ensures !(r.readIdx == readIdx && r.offset == offset) ==>
      Keeps(ApplyReplyByte(slider, readIdx, offset, data), slider, Entry(r))
  {
    if r == ZoneRef(false, readIdx, offset) {
      ReplyHitLow(slider, readIdx, offset, data);
    } else if r == ZoneRef(true, readIdx, offset) {
      ReplyHitHigh(slider, readIdx, offset, data);
    } else {
      ReplyMiss(slider, readIdx, offset, data, r);
    }
  }

  /** Bytes 1, 4, 7: the low nibble drives its tab0f entry, and the fallthrough
      into the tabf0 update does not disturb it. */
  lemma ReplyHitLow(slider: bv32, readIdx: Uint8, offset: Uint8, data: bv8)
    requires offset == 0 || offset == 8
    requires LowNibbleByte(readIdx)
    ensures var e := Entry(ZoneRef(false, readIdx, offset));
      Follows(ApplyReplyByte(slider, readIdx, offset, data), e, NibbleSet(data, false))
  {
    var e := Entry(ZoneRef(false, readIdx, offset));
    var mid := Drive(slider, Some(e), NibbleSet(data, false));
    var hi := HighLookup(readIdx, offset);
    DriveHit(slider, e, NibbleSet(data, false));
    EntriesDisjoint(ZoneRef(true, readIdx, offset), ZoneRef(false, readIdx, offset));
    DriveMiss(mid, hi, NibbleSet(data, true), e);
    FollowsAcross(mid, Drive(mid, hi, NibbleSet(data, true)), e, NibbleSet(data, false));
  }

  /** Bytes 1, 2, 4, 5, 7, 8: the high nibble drives its tabf0 entry. */
  lemma ReplyHitHigh(slider: bv32, readIdx: Uint8, offset: Uint8, data: bv8)
    requires offset == 0 || offset == 8
    requires HighNibbleByte(readIdx)
    ensures var e := Entry(ZoneRef(true, readIdx, offset));
      Follows(ApplyReplyByte(slider, readIdx, offset, data), e, NibbleSet(data, true))
  {
    var mid := Drive(slider, LowLookup(readIdx, offset), NibbleSet(data, false));
    DriveHit(mid, Entry(ZoneRef(true, readIdx, offset)), NibbleSet(data, true));
  }

  /** A lookup the byte does not make keeps its bits. */
  lemma ReplyMiss(slider: bv32, readIdx: Uint8, offset: Uint8, data: bv8, r: ZoneRef)
    requires offset == 0 || offset == 8
    requires Reachable(r) && r != ZoneRef(false, readIdx, offset) && r != ZoneRef(true, readIdx, offset)
    ensures Keeps(ApplyReplyByte(slider, readIdx, offset, data), slider, Entry(r))
  {
    var mid := Drive(slider, LowLookup(readIdx, offset), NibbleSet(data, false));
    LowMiss(slider, readIdx, offset, NibbleSet(data, false), r);
    HighMiss(mid, readIdx, offset, NibbleSet(data, true), r);
    KeepsTrans(slider, mid, Drive(mid, HighLookup(readIdx, offset), NibbleSet(data, true)), Entry(r));
  }

  lemma LowMiss(x: bv32, readIdx: Uint8, offset: Uint8, on: bool, r: ZoneRef)
    requires offset == 0 || offset == 8
    requires Reachable(r) && r != ZoneRef(false, readIdx, offset)
    ensures Keeps(Drive(x, LowLookup(readIdx, offset), on), x, Entry(r))
  {
    if LowNibbleByte(readIdx) {
      EntriesDisjoint(ZoneRef(false, readIdx, offset), r);
    }
    DriveMiss(x, LowLookup(readIdx, offset), on, Entry(r));
  }

  lemma HighMiss(x: bv32, readIdx: Uint8, offset: Uint8, on: bool, r: ZoneRef)
    requires offset == 0 || offset == 8
    requires Reachable(r) && r != ZoneRef(true, readIdx, offset)
    ensures Keeps(Drive(x, HighLookup(readIdx, offset), on), x, Entry(r))
  {
    if HighNibbleByte(readIdx) {
      EntriesDisjoint(ZoneRef(true, readIdx, offset), r);
    }
    DriveMiss(x, HighLookup(readIdx, offset), on, Entry(r));
  }

  /** One trip through the decode loop for one event (main.c:396-441). */
  function Next(s: DecoderState, e: Event): (t: DecoderState)
    requires ValidOffset(s)
    ensures ValidOffset(t)
  {
    match e
    case Start => s.(justStarted := true)
    case Stop => s.(addr := 0)
    case Data(b) =>
      var handled :=
        if s.justStarted then s.(addr := b, readIdx := 0, justStarted := false)
        else if s.addr == ReadRequestAddr then s.(currHalf := b, offset := if b == 1 then 0 else 8)
        else if s.addr == ReadReplyAddr then s.(slider := ApplyReplyByte(s.slider, s.readIdx, s.offset, b))
        else s;
      handled.(readIdx := Inc8(handled.readIdx))
  }

  /** The decode loop over a finite prefix of the event stream. */
  function Run(s: DecoderState, events: seq<Event>): (t: DecoderState)
    requires ValidOffset(s)
    ensures ValidOffset(t)
    decreases |events|
  {
    if events == [] then s else Run(Next(s, events[0]), events[1..])
  }

  /** Running two stretches of the stream is running their concatenation. */
  lemma {:induction false} RunAppend(s: DecoderState, a: seq<Event>, b: seq<Event>)
    requires ValidOffset(s)
    ensures Run(s, a + b) == Run(Run(s, a), b)
    decreases |a|
  {
    if a == [] {
      assert a + b == b;
    } else {
      assert (a + b)[0] == a[0];
      assert (a + b)[1..] == a[1..] + b;
      RunAppend(Next(s, a[0]), a[1..], b);
    }
  }

  lemma {:induction false} RunOne(s: DecoderState, e: Event)
    requires ValidOffset(s)
    ensures Run(s, [e]) == Next(s, e)
  {
    assert [e][1..] == [];
  }

  // ---- Framing (main.c:396-413, 440) ----

  /** START arms the address byte and changes nothing else. */
  lemma StartArms(s: DecoderState)
    requires ValidOffset(s)
    ensures Next(s, Start) == s.(justStarted := true)
  {
  }

  /** STOP returns to idle (address 0) but leaves a pending START armed and
      every other part of the context, the slider included, as it was. */
  lemma StopIdles(s: DecoderState)
    requires ValidOffset(s)
    ensures Next(s, Stop) == s.(addr := 0)
    ensures Next(s, Stop).justStarted == s.justStarted
  {
  }

  /** The first byte after START is latched as the address; the byte count
      restarts, so the next byte has index 1. */
  lemma AddressLatched(s: DecoderState, b: bv8)
    requires ValidOffset(s) && s.justStarted
    ensures Next(s, Data(b)) == s.(addr := b, readIdx := 1, justStarted := false)
  {
  }

  /** A read-request byte selects the low half (offset 0) iff it is 1, and the
      high half (offset 8) otherwise. */
  lemma RequestSelectsHalf(s: DecoderState, b: bv8)
    requires ValidOffset(s) && !s.justStarted && s.addr == ReadRequestAddr
    ensures Next(s, Data(b)).offset == (if b == 1 then 0 else 8)
    ensures Next(s, Data(b)).currHalf == b
    ensures Next(s, Data(b)).slider == s.slider
  {
  }

  /** Every data byte after the address byte advances the byte index, wrapping
      modulo 256 like the uint8_t it is. */
  lemma DataAdvancesIndex(s: DecoderState, b: bv8)
    requires ValidOffset(s) && !s.justStarted
    ensures Next(s, Data(b)).readIdx == (s.readIdx + 1) % 256
  {
  }

  /** Only bytes of a read reply touch the slider word. */
  lemma OnlyRepliesTouchSlider(s: DecoderState, e: Event)
    requires ValidOffset(s)
    requires !(e.Data? && !s.justStarted && s.addr == ReadReplyAddr)
    ensures Next(s, e).slider == s.slider
  {
  }

  /** A reply byte with an index outside {1, 2, 4, 5, 7, 8} changes nothing but the index. */
  lemma IgnoredReplyByte(s: DecoderState, b: bv8)
    requires ValidOffset(s) && !s.justStarted && s.addr == ReadReplyAddr
    requires !HighNibbleByte(s.readIdx)
    ensures Next(s, Data(b)) == s.(readIdx := Inc8(s.readIdx))
  {
  }

  /** After START and an address byte the address, readidx and the START flag
      no longer depend on what came before, so a malformed or foreign
      transaction cannot disturb the framing of the next one; curr_half, the
      offset and the slider word carry over. */
  lemma {:induction false} Resynchronise(s: DecoderState, a: bv8)
    requires ValidOffset(s)
    ensures var t := Run(s, [Start, Data(a)]);
      t == s.(addr := a, readIdx := 1, justStarted := false)
  {
    RunAppend(s, [Start], [Data(a)]);
    assert [Start] + [Data(a)] == [Start, Data(a)];
    RunOne(s, Start);
    RunOne(Next(s, Start), Data(a));
  }

  // ---- Reconstruction of the slider word from a whole reply ----

  /** Data events for a run of bytes. */
  function DataEvents(bytes: seq<bv8>): seq<Event>
  {
    seq(|bytes|, i requires 0 <= i < |bytes| => Data(bytes[i]))
  }

  /** Reply bytes applied in order from byte index readIdx on. */
  function FoldReply(slider: bv32, readIdx: Uint8, offset: Uint8, bytes: seq<bv8>): bv32
    requires offset == 0 || offset == 8
    decreases |bytes|
  {
    if bytes == [] then slider
    else FoldReply(ApplyReplyByte(slider, readIdx, offset, bytes[0]), Inc8(readIdx), offset, bytes[1..])
  }

  /** Inside a read reply, each data byte goes through ApplyReplyByte at its index. */
  lemma {:induction false} RunReplyBytes(s: DecoderState, bytes: seq<bv8>)
    requires ValidOffset(s) && !s.justStarted && s.addr == ReadReplyAddr
    ensures var t := Run(s, DataEvents(bytes));
      t == s.(slider := FoldReply(s.slider, s.readIdx, s.offset, bytes), readIdx := t.readIdx)
    decreases |bytes|
  {
    if bytes != [] {
      var evs := DataEvents(bytes);
      assert evs[0] == Data(bytes[0]);
      assert evs[1..] == DataEvents(bytes[1..]);
      RunReplyBytes(Next(s, Data(bytes[0])), bytes[1..]);
    }
  }

  /** The reply bytes from index readIdx on make the lookup r iff r is in the
      half being read and its byte index is among theirs. */
  predicate Covers(readIdx: Uint8, offset: Uint8, count: nat, r: ZoneRef) {
    r.offset == offset && readIdx <= r.readIdx < readIdx + count
  }

  /** A run of reply bytes keeps the bits of every lookup none of them makes. */
  lemma {:induction false} FoldReplyKeeps(slider: bv32, readIdx: Uint8, offset: Uint8, bytes: seq<bv8>, r: ZoneRef)
    requires offset == 0 || offset == 8
    requires readIdx + |bytes| <= 256
    requires Reachable(r) && !Covers(readIdx, offset, |bytes|, r)
    ensures Keeps(FoldReply(slider, readIdx, offset, bytes), slider, Entry(r))
    decreases |bytes|
  {
    if bytes != [] {
      var s1 := ApplyReplyByte(slider, readIdx, offset, bytes[0]);
      var next := Inc8(readIdx);
      assert |bytes| == 1 || next == readIdx + 1;
      ReplyByteEntry(slider, readIdx, offset, bytes[0], r);
      FoldReplyKeeps(s1, next, offset, bytes[1..], r);
      KeepsTrans(slider, s1, FoldReply(s1, next, offset, bytes[1..]), Entry(r));
    }
  }

  /** A run of reply bytes sets or clears each lookup it makes by the nibble
      that reports it. */
  lemma {:induction false} FoldReplyFollows(slider: bv32, readIdx: Uint8, offset: Uint8, bytes: seq<bv8>, r: ZoneRef)
    requires offset == 0 || offset == 8
    requires readIdx + |bytes| <= 256
    requires Reachable(r) && Covers(readIdx, offset, |bytes|, r)
    ensures Follows(FoldReply(slider, readIdx, offset, bytes), Entry(r), NibbleSet(bytes[r.readIdx - readIdx], r.high))
  {
    FoldReplyFollowsAt(slider, readIdx, offset, bytes, r, r.readIdx - readIdx);
  }

  /** The same, for the lookup r made by byte k of the run. */
  lemma {:induction false} FoldReplyFollowsAt(slider: bv32, readIdx: Uint8, offset: Uint8, bytes: seq<bv8>, r: ZoneRef, k: nat)
    requires offset == 0 || offset == 8
    requires readIdx + |bytes| <= 256
    requires Reachable(r) && r.offset == offset && k < |bytes| && r.readIdx == readIdx + k
    ensures Follows(FoldReply(slider, readIdx, offset, bytes), Entry(r), NibbleSet(bytes[k], r.high))
    decreases k, 1
  {
    if k == 0 {
      FoldReplyFollowsFirst(slider, readIdx, offset, bytes, r);
    } else {
      FoldReplyFollowsLater(slider, readIdx, offset, bytes, r, k);
    }
  }

  /** A lookup past the first byte of the run is made by the rest of the run. */
  lemma {:induction false} FoldReplyFollowsLater(slider: bv32, readIdx: Uint8, offset: Uint8, bytes: seq<bv8>, r: ZoneRef, k: nat)
    requires offset == 0 || offset == 8
    requires readIdx + |bytes| <= 256
    requires Reachable(r) && r.offset == offset && 0 < k < |bytes| && r.readIdx == readIdx + k
    ensures Follows(FoldReply(slider, readIdx, offset, bytes), Entry(r), NibbleSet(bytes[k], r.high))
    decreases k, 0
  {
    FoldReplyFollowsAt(ApplyReplyByte(slider, readIdx, offset, bytes[0]), readIdx + 1, offset, bytes[1..], r, k - 1);
  }

  /** The first byte of a run drives the lookup at its index, and the rest of
      the run leaves it alone. */
  lemma {:induction false} FoldReplyFollowsFirst(slider: bv32, readIdx: Uint8, offset: Uint8, bytes: seq<bv8>, r: ZoneRef)
    requires offset == 0 || offset == 8
    requires readIdx + |bytes| <= 256 && bytes != []
    requires Reachable(r) && r.offset == offset && r.readIdx == readIdx
    ensures Follows(FoldReply(slider, readIdx, offset, bytes), Entry(r), NibbleSet(bytes[0], r.high))
  {
    var s1 := ApplyReplyByte(slider, readIdx, offset, bytes[0]);
    var next := Inc8(readIdx);
    assert |bytes| == 1 || next == readIdx + 1;
    ReplyByteEntry(slider, readIdx, offset, bytes[0], r);
    FoldReplyKeeps(s1, next, offset, bytes[1..], r);
    FollowsAcross(s1, FoldReply(s1, next, offset, bytes[1..]), Entry(r), NibbleSet(bytes[0], r.high));
  }

  /** The reply byte, counted from 0, that reports zone z. */
  function ReplyByteFor(z: nat): (j: nat)
    requires z < ZoneCount
    ensures j < 9
  {
    ZoneSource(z).readIdx - 1
  }

  /** What a zone holds after a complete reply: the zones of the half that was
      read follow their nibbles, the others keep their bits. */
  predicate Reconstructed(before: bv32, after: bv32, offset: Uint8, bytes: seq<bv8>, z: nat)
    requires |bytes| == 9 && z < ZoneCount
  {
    if ZoneSource(z).offset == offset
    then Follows(after, ZoneMask(z), NibbleSet(bytes[ReplyByteFor(z)], ZoneSource(z).high))
    else Keeps(after, before, ZoneMask(z))
  }

  /** Slider reconstruction: a complete nine-byte reply for the half at `offset`
      sets every zone of that half iff the nibble reporting it is nonzero and
      clears it otherwise; the zones of the other half keep their bits. */
  lemma {:induction false} ReplyReconstructs(slider: bv32, offset: Uint8, bytes: seq<bv8>, z: nat)
    requires offset == 0 || offset == 8
    requires |bytes| == 9 && z < ZoneCount
    ensures Reconstructed(slider, FoldReply(slider, 1, offset, bytes), offset, bytes, z)
  {
    if ZoneSource(z).offset == offset {
      ZoneRead(slider, offset, bytes, z);
    } else {
      ZoneNotRead(slider, offset, bytes, z);
    }
  }

  /** A zone of the half that was read follows its nibble. */
  lemma {:induction false} ZoneRead(slider: bv32, offset: Uint8, bytes: seq<bv8>, z: nat)
    requires offset == 0 || offset == 8
    requires |bytes| == 9 && z < ZoneCount && ZoneSource(z).offset == offset
    ensures Follows(FoldReply(slider, 1, offset, bytes), ZoneMask(z), NibbleSet(bytes[ReplyByteFor(z)], ZoneSource(z).high))
  {
    var r := ZoneSource(z);
    ZoneMaskIsEntry(z);
    WholeReplyFollows(slider, offset, bytes, r);
  }

  /** A zone of the other half keeps its bits. */
  lemma {:induction false} ZoneNotRead(slider: bv32, offset: Uint8, bytes: seq<bv8>, z: nat)
    requires offset == 0 || offset == 8
    requires |bytes| == 9 && z < ZoneCount && ZoneSource(z).offset != offset
    ensures Keeps(FoldReply(slider, 1, offset, bytes), slider, ZoneMask(z))
  {
    var r := ZoneSource(z);
    ZoneMaskIsEntry(z);
    WholeReplyKeeps(slider, offset, bytes, r);
  }

  /** A whole reply sets or clears each lookup of the half it reads. */
  lemma {:induction false} WholeReplyFollows(slider: bv32, offset: Uint8, bytes: seq<bv8>, r: ZoneRef)
    requires offset == 0 || offset == 8
    requires |bytes| == 9 && Reachable(r) && r.offset == offset
    ensures Follows(FoldReply(slider, 1, offset, bytes), Entry(r), NibbleSet(bytes[r.readIdx - 1], r.high))
  {
    FoldReplyFollows(slider, 1, offset, bytes, r);
  }

  /** A whole reply keeps the lookups of the other half. */
  lemma {:induction false} WholeReplyKeeps(slider: bv32, offset: Uint8, bytes: seq<bv8>, r: ZoneRef)
    requires offset == 0 || offset == 8
    requires |bytes| == 9 && Reachable(r) && r.offset != offset
    ensures Keeps(FoldReply(slider, 1, offset, bytes), slider, Entry(r))
  {
    FoldReplyKeeps(slider, 1, offset, bytes, r);
  }

  /** The offset a read-request byte selects. */
  function HalfOffset(half: bv8): (o: Uint8)
    ensures o == 0 || o == 8
  {
    if half == 1 then 0 else 8
  }

  /** The events of one slider poll: a read request for `half`, then a read
      reply carrying `bytes`. */
  function PollEvents(half: bv8, bytes: seq<bv8>): seq<Event> {
    [Start, Data(ReadRequestAddr), Data(half), Stop, Start, Data(ReadReplyAddr)]
    + DataEvents(bytes) + [Stop]
  }

  /** A whole poll, from any decoder state: the decoder ends idle (address 0,
      nothing pending), with the offset the request selected, and its slider
      word holds the reconstruction of the reply over the previous word. */
  lemma {:induction false} PollUpdatesSlider(s: DecoderState, half: bv8, bytes: seq<bv8>)
    requires ValidOffset(s)
    requires |bytes| == 9
    ensures var t := Run(s, PollEvents(half, bytes));
      && t.addr == 0 && !t.justStarted
      && t.offset == HalfOffset(half)
      && t.slider == FoldReply(s.slider, 1, HalfOffset(half), bytes)
  {
    var request := [Start, Data(ReadRequestAddr), Data(half), Stop];
    var open := [Start, Data(ReadReplyAddr)];
    var body := DataEvents(bytes);
    assert PollEvents(half, bytes) == request + (open + (body + [Stop]));
    RunAppend(s, request, open + (body + [Stop]));
    var s1 := Run(s, request);
    assert request == [Start, Data(ReadRequestAddr)] + [Data(half)] + [Stop];
    RunAppend(s, [Start, Data(ReadRequestAddr)] + [Data(half)], [Stop]);
    RunAppend(s, [Start, Data(ReadRequestAddr)], [Data(half)]);
    Resynchronise(s, ReadRequestAddr);
    var s0 := Run(s, [Start, Data(ReadRequestAddr)]);
    RunOne(s0, Data(half));
    RunOne(Next(s0, Data(half)), Stop);
    assert s1.offset == HalfOffset(half) && s1.slider == s.slider && s1.addr == 0;
    RunAppend(s1, open, body + [Stop]);
    Resynchronise(s1, ReadReplyAddr);
    var s2 := Run(s1, open);
    RunAppend(s2, body, [Stop]);
    RunReplyBytes(s2, bytes);
    RunOne(Run(s2, body), Stop);
  }

  /** The slider word is rebuilt from the zones that a poll reports: after a
      poll of one half, each zone of that half is set iff its nibble is nonzero
      and each zone of the other half is as it was. */
  lemma {:induction false} PollReconstructsZones(s: DecoderState, half: bv8, bytes: seq<bv8>, z: nat)
    requires ValidOffset(s)
    requires |bytes| == 9 && z < ZoneCount
    ensures Reconstructed(s.slider, Run(s, PollEvents(half, bytes)).slider, HalfOffset(half), bytes, z)
  {
    PollUpdatesSlider(s, half, bytes);
    ReplyReconstructs(s.slider, HalfOffset(half), bytes, z);
  }

  /** `if (nibble) slider |= entry; else slider &= ~entry;`, the statement each
      case of the switch at main.c:416-438 runs. */
  method SetOrClearEntry(slider: bv32, entry: bv32, on: bool) returns (s: bv32)
    ensures Follows(s, entry, on)
    ensures s == SetOrClear(slider, entry, on)
  {
    if on {
      s := slider | entry;
    } else {
      s := slider & !entry;
    }
    SetOrClearInside(slider, entry, on);
  }

  /** Cases 1, 4, 7 of the switch at main.c:416-425: the low nibble sets or
      clears its tab0f entry (control then falls through to the high nibble). */
  method UpdateLow(slider: bv32, readIdx: Uint8, offset: Uint8, data: bv8) returns (s: bv32)
    requires offset == 0 || offset == 8
    ensures s == Drive(slider, LowLookup(readIdx, offset), NibbleSet(data, false))
  {
    s := slider;
    if LowNibbleByte(readIdx) {
      s := SetOrClearEntry(slider, Tab0f[readIdx + offset], NibbleSet(data, false));
    }
  }

  /** Cases 2, 5, 8 of the switch at main.c:426-434, reached from 1, 4, 7 by
      fallthrough: the high nibble sets or clears its tabf0 entry. */
  method UpdateHigh(slider: bv32, readIdx: Uint8, offset: Uint8, data: bv8) returns (s: bv32)
    requires offset == 0 || offset == 8
    ensures s == Drive(slider, HighLookup(readIdx, offset), NibbleSet(data, true))
  {
    s := slider;
    if HighNibbleByte(readIdx) {
      s := SetOrClearEntry(slider, Tabf0[readIdx + offset], NibbleSet(data, true));
    }
  }

  /** The decode loop as the firmware runs it, over the fields it keeps. */
  class Decoder {
    var justStarted: bool
    var addr: bv8
    var readIdx: Uint8
    var currHalf: bv8
    var offset: Uint8
    var slider: bv32  // g_full_slider

    predicate Valid()
      reads this
    {
      offset == 0 || offset == 8
    }

    function State(): (s: DecoderState)
      reads this
    {
      DecoderState(justStarted, addr, readIdx, currHalf, offset, slider)
    }

    constructor ()
      ensures Valid() && State() == Initial
    {
      justStarted, addr, readIdx, currHalf, offset, slider := false, 0, 0, 0, 0, 0;
    }

    /** One event through the loop body (main.c:396-441). */
    method Step(e: Event)
      requires Valid()
      modifies this
      ensures Valid() && State() == Next(old(State()), e)
    {
      match e
      case Start =>
        justStarted := true;
      case Stop =>
        addr := 0;
      case Data(data) =>
        if justStarted {
          addr := data;
          readIdx := 0;
          justStarted := false;
        } else if addr == ReadRequestAddr {
          currHalf := data;
          if currHalf == 1 {
            offset := 0;
          } else {
            offset := 8;
          }
        } else if addr == ReadReplyAddr {
          ApplyReply(data);
        }
        readIdx := Inc8(readIdx);
    }

    /** The switch on the reply byte index (main.c:416-438). */
    method ApplyReply(data: bv8)
      requires Valid()
      modifies this
      ensures Valid()
      ensures State() == old(State()).(slider := ApplyReplyByte(old(slider), readIdx, offset, data))
    {
      var s := UpdateLow(slider, readIdx, offset, data);
      s := UpdateHigh(s, readIdx, offset, data);
      slider := s;
    }

    /** A raw sniffer word through the loop body (main.c:392-441): words with an
        unknown event code change nothing. */
    method StepWord(codes: EventCodes, word: bv32)
      requires Valid()
      modifies this
      ensures Valid()
      ensures State() == match Classify(codes, word)
        case Some(e) => Next(old(State()), e)
        case None => old(State())
    {
      var ev := Classify(codes, word);
      if ev.Some? {
        Step(ev.value);
      }
    }

    /** The decode loop over a finite stretch of the event stream. */
    method Decode(events: seq<Event>)
      requires Valid()
      modifies this
      ensures Valid() && State() == Run(old(State()), events)
    {
      ghost var start := State();
      var i := 0;
      while i < |events|
        invariant 0 <= i <= |events|
        invariant Valid() && State() == Run(start, events[..i])
      {
        RunAppend(start, events[..i], [events[i]]);
        RunOne(Run(start, events[..i]), events[i]);
        assert events[..i + 1] == events[..i] + [events[i]];
        Step(events[i]);
        i := i + 1;
      }
      assert events[..i] == events;
    }
  }
}
