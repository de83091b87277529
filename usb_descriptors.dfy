/** The descriptor callbacks of usb_descriptors.c: the string descriptor
    serialiser tud_descriptor_string_cb, which writes an ASCII string as a USB
    string descriptor (section 9.6.7 of the USB 2.0 specification) into the
    static 64-word buffer _desc_str, and the device, configuration and HID
    report callbacks, which choose between the gamepad and the keyboard
    descriptors on g_kb_mode. */
module UsbDescriptors {
  import opened Optional
  import Keyboard

  type u8 = x: int | 0 <= x < 0x100
  type u16 = x: int | 0 <= x < 0x1_0000

  // ---- String descriptors (usb_descriptors.c:46-95) ----

  /** TUSB_DESC_STRING, the STRING descriptor type (Table 9-5 of USB 2.0). */
  const DescString: nat := 3

  /** The 64 slots of _desc_str: one header word and at most 63 characters. */
  const BufferSlots: nat := 64
  const MaxChars: nat := 63

  /** string_desc_arr (usb_descriptors.c:46-53). Entry 0 is the two bytes of
      LANGID 0x0409 (English, United States) in little-endian order, with no
      terminator; the others are NUL-terminated ASCII strings. */
  const StringDescArr: seq<string> := [
    [9 as char, 4 as char],
    "CrazyRedMachine",
    "Ipega Diva Deluxe",
    "MNDVA",
    "Ipega Diva Deluxe (KB)",
    "MNDVAKB"
  ]

  /** string_desc_size (usb_descriptors.c:56). */
  const StringDescSize: nat := 6

  /** Every character fits the 8-bit C char it stands for. */
  predicate Narrow(s: string) {
    forall i :: 0 <= i < |s| ==> s[i] as int < 0x100
  }

  /** chr_count for a string of the table: strlen stored into a uint8_t, then
      capped at 63 (usb_descriptors.c:81-83). */
  function ChrCount(s: string): (n: nat)
    ensures n <= MaxChars && n <= |s|
    ensures |s| <= MaxChars ==> n == |s|
  {
    var truncated := |s| % 0x100;
    if truncated > MaxChars then MaxChars else truncated
  }

  /** The header word `(TUSB_DESC_STRING << 8) | (2 * chr_count + 2)`; the low
      byte is below 0x100, so the OR is an addition. */
  function Header(chrCount: nat): u16
    requires chrCount <= MaxChars
  {
    DescString * 0x100 + (2 * chrCount + 2)
  }

  /** Each char zero-extended to a uint16_t (usb_descriptors.c:86-88). */
  function Widen(s: string): (w: seq<u16>)
    requires Narrow(s)
    ensures |w| == |s|
  {
    seq(|s|, i requires 0 <= i < |s| => s[i] as int)
  }

  /** The descriptor of a text string: header, then the first chr_count chars. */
  function Encode(s: string): seq<u16>
    requires Narrow(s)
  {
    [Header(ChrCount(s))] + Widen(s[..ChrCount(s)])
  }

  /** The word memcpy puts in slot 1 for index 0: the two bytes of entry 0
      read as a little-endian uint16_t. */
  const LangId: u16 := StringDescArr[0][0] as int + 0x100 * StringDescArr[0][1] as int

  /** The descriptor tud_descriptor_string_cb returns for an index: None where
      it returns NULL. */
  function Descriptor(index: u8): Option<seq<u16>> {
    if index == 0 then Some([Header(1), LangId])
    else if index >= StringDescSize then None
    else
      TableNarrow(index);
      Some(Encode(StringDescArr[index]))
  }

  lemma TableNarrow(k: nat)
    requires k < StringDescSize
    ensures Narrow(StringDescArr[k])
  {
  }

  /** What a host reads out of a string descriptor: bLength is the low byte of
      the header, the type its high byte, and (bLength - 2) / 2 UTF-16 code
      units follow. */
  function DecodeString(d: seq<u16>): Option<seq<u16>> {
    if |d| == 0 || d[0] / 0x100 != DescString then None
    else
      var len := d[0] % 0x100;
      if len < 2 || len % 2 != 0 || len / 2 > |d| then None
      else Some(d[1..len / 2])
  }

  /** A string descriptor announces its own length: the low byte of the header
      is the descriptor's length in bytes, the high byte the STRING type, and
      the whole fits the 64-word buffer. */
  lemma DescriptorHeader(index: u8)
    requires Descriptor(index).Some?
    ensures var d := Descriptor(index).value;
      |d| <= BufferSlots && d[0] / 0x100 == DescString && d[0] % 0x100 == 2 * |d| && 2 * |d| <= 128
  {
    if index != 0 {
      TableNarrow(index);
      var s := StringDescArr[index];
      assert |Encode(s)| == ChrCount(s) + 1;
    }
  }

  /** Index 0 is the language table: bLength 4, type 3, and the LANGID copied
      from entry 0 of the table is 0x0409. */
  lemma LanguageDescriptor()
    ensures Descriptor(0) == Some([0x0304, 0x0409])
  {
  }

  /** Decoding an encoded string gives back its first chr_count characters. */
  lemma EncodeDecode(s: string)
    requires Narrow(s)
    ensures DecodeString(Encode(s)) == Some(Widen(s[..ChrCount(s)]))
  {
    var d := Encode(s);
    var n := ChrCount(s);
    assert d[0] % 0x100 == 2 * n + 2;
    assert d[0] / 0x100 == DescString;
    assert d[1..n + 1] == Widen(s[..n]);
  }

  /** Widening loses nothing: different strings give different code units. */
  lemma WidenInjective(s: string, t: string)
    requires Narrow(s) && Narrow(t) && Widen(s) == Widen(t)
    ensures s == t
  {
    forall i | 0 <= i < |s|
      ensures s[i] == t[i]
    {
      assert Widen(s)[i] == Widen(t)[i];
    }
  }

  /** Every text string of the table is short enough to come back whole. */
  lemma TableRoundTrip(index: u8)
    requires 1 <= index < StringDescSize
    ensures DecodeString(Descriptor(index).value) == Some(Widen(StringDescArr[index]))
  {
    TableNarrow(index);
    var s := StringDescArr[index];
    EncodeDecode(s);
    assert s[..ChrCount(s)] == s;
  }

  /** _desc_str, the static buffer the string callback fills and returns. */
  class StringDescriptorBuffer {
    var descStr: array<u16>

    predicate Valid()
      reads this
    {
      descStr.Length == BufferSlots
    }

    /** `static uint16_t _desc_str[64];`, zero-initialised. */
    constructor ()
      ensures Valid() && fresh(descStr) && descStr[..] == seq(BufferSlots, _ => 0)
    {
      descStr := new u16[BufferSlots](_ => 0);
    }

    /** tud_descriptor_string_cb (usb_descriptors.c:61-95). The result says
        whether the buffer is returned (true) or NULL (false); langid is
        ignored. Only the header and the chr_count character slots are
        written: the later slots keep what an earlier call left there. */
    method DescriptorStringCb(index: u8, langid: u16) returns (found: bool)
      requires Valid()
      modifies descStr
      ensures found <==> index < StringDescSize
      ensures found == Descriptor(index).Some?
      ensures !found ==> descStr[..] == old(descStr[..])
      ensures found ==> var d := Descriptor(index).value;
        |d| <= BufferSlots && descStr[..|d|] == d && descStr[|d|..] == old(descStr[..])[|d|..]
    {
      if index == 0 {
        WriteLanguage();
        return true;
      }
      if !(index < StringDescSize) {
        return false;
      }
      TableNarrow(index);
      WriteString(StringDescArr[index]);
      found := true;
    }

    /** The index 0 branch (usb_descriptors.c:68-70, 92): the LANGID word in
        slot 1, chr_count 1, then the header. */
    method WriteLanguage()
      requires Valid()
      modifies descStr
      ensures descStr[..2] == [Header(1), LangId] && descStr[2..] == old(descStr[..])[2..]
    {
      descStr[1] := LangId;
      var chrCount := 1;
      descStr[0] := Header(chrCount);
    }

    /** A text string (usb_descriptors.c:78-92): chr_count from strlen, the
        characters, then the header. */
    method WriteString(str: string)
      requires Valid() && Narrow(str)
      modifies descStr
      ensures descStr[..|Encode(str)|] == Encode(str)
      ensures descStr[|Encode(str)|..] == old(descStr[..])[|Encode(str)|..]
    {
      var chrCount := |str| % 0x100;
      if chrCount > MaxChars {
        chrCount := MaxChars;
      }
      CopyChars(str, chrCount);
      descStr[0] := Header(chrCount);
      assert |Encode(str)| == chrCount + 1;
    }

    /** The conversion loop (usb_descriptors.c:86-88): slot 1 + i receives
        str[i] for i below chr_count; every other slot is kept. */
    method CopyChars(str: string, chrCount: nat)
      requires Valid() && Narrow(str) && chrCount <= MaxChars && chrCount <= |str|
      modifies descStr
      ensures descStr[1..chrCount + 1] == Widen(str[..chrCount])
      ensures forall j :: 0 <= j < BufferSlots && !(1 <= j <= chrCount) ==> descStr[j] == old(descStr[j])
    {
      for i := 0 to chrCount
        invariant forall j :: 1 <= j <= i ==> descStr[j] == str[j - 1] as int
        invariant forall j :: 0 <= j < BufferSlots && !(1 <= j <= i) ==> descStr[j] == old(descStr[j])
      {
        descStr[1 + i] := str[i] as int;
      }
    }
  }

  // ---- Device, configuration and report descriptors (usb_descriptors.c:97-278) ----

  /** VID and PID (usb_descriptors.c:30-31). */
  const Vid: u16 := 0x0F0D
  const KbVid: u16 := 0xCAFE
  const Pid: u16 := 0x00FB

  /** The fields of tusb_desc_device_t the source sets to its own values. */
  datatype DeviceDescriptor = DeviceDescriptor(
    bcdUSB: u16, idVendor: u16, idProduct: u16, bcdDevice: u16,
    iManufacturer: u8, iProduct: u8, iSerialNumber: u8, bNumConfigurations: u8)

  /** desc_device (usb_descriptors.c:213-230) and desc_device_kb (usb_descriptors.c:232-249). */
  const DescDevice: DeviceDescriptor := DeviceDescriptor(0x0200, Vid, Pid, 0x0100, 1, 2, 3, 1)
  const DescDeviceKb: DeviceDescriptor := DeviceDescriptor(0x0200, KbVid, Pid, 0x0100, 1, 4, 5, 1)

  /** The two HID report descriptors. */
  datatype ReportKind = JoyReportDescriptor | KbReportDescriptor

  /** ITF_NUM_HID, the one interface (usb_descriptors.c:181). */
  const ItfNumHid: u8 := 0
  const ItfNumTotal: u8 := 1

  /** What TUD_CONFIG_DESCRIPTOR and TUD_HID_DESCRIPTOR are given. */
  datatype ConfigurationDescriptor = ConfigurationDescriptor(
    configNumber: u8, numInterfaces: u8, iConfiguration: u8, remoteWakeup: bool, maxPowerMa: nat,
    interfaceNumber: u8, iInterface: u8, report: ReportKind, endpointIn: u8, pollInterval: u8)

  /** desc_configuration (usb_descriptors.c:185-196) and desc_configuration_kb
      (usb_descriptors.c:198-208): they differ in the interface string and in
      the report descriptor whose size they carry. */
  const DescConfiguration: ConfigurationDescriptor :=
    ConfigurationDescriptor(1, ItfNumTotal, 0, true, 500, ItfNumHid, 2, JoyReportDescriptor, 0x81, 1)
  const DescConfigurationKb: ConfigurationDescriptor :=
    ConfigurationDescriptor(1, ItfNumTotal, 0, true, 500, ItfNumHid, 4, KbReportDescriptor, 0x81, 1)

  /** tud_descriptor_device_cb (usb_descriptors.c:253-255). */
  function DeviceCb(kbMode: bool): (d: DeviceDescriptor)
    ensures d.idProduct == Pid
  {
    if kbMode then DescDeviceKb else DescDevice
  }

  /** tud_descriptor_configuration_cb (usb_descriptors.c:264-268); the index is ignored. */
  function ConfigurationCb(kbMode: bool, index: u8): (c: ConfigurationDescriptor)
    ensures c.numInterfaces == 1 && c.interfaceNumber == ItfNumHid
  {
    if kbMode then DescConfigurationKb else DescConfiguration
  }

  /** tud_hid_descriptor_report_cb (usb_descriptors.c:273-278): None is NULL. */
  function ReportCb(kbMode: bool, itf: u8): Option<ReportKind> {
    if itf == ItfNumHid then Some(if kbMode then KbReportDescriptor else JoyReportDescriptor)
    else None
  }

  /** The report descriptor is served exactly for the interface the
      configuration declares, and it is the one whose size the configuration
      carries. */
  lemma ReportMatchesConfiguration(kbMode: bool, index: u8, itf: u8)
    ensures ReportCb(kbMode, itf).Some? <==> itf == ConfigurationCb(kbMode, index).interfaceNumber
    ensures ReportCb(kbMode, itf).Some? ==> ReportCb(kbMode, itf).value == ConfigurationCb(kbMode, index).report
  {
  }

  /** The two modes present themselves as two devices (the vendor IDs differ)
      with the same product ID, and each names its own product. */
  lemma ModesDistinct()
    ensures DeviceCb(true).idVendor == KbVid && DeviceCb(false).idVendor == Vid
    ensures DeviceCb(true).idVendor != DeviceCb(false).idVendor
    ensures DeviceCb(true).iProduct != DeviceCb(false).iProduct
    ensures DeviceCb(true).iSerialNumber != DeviceCb(false).iSerialNumber
  {
  }

  /** Every string index a descriptor refers to resolves: the manufacturer,
      product, serial and interface strings all come back as text, and the
      interface string is the product string of the same mode. */
  lemma ReferencedStrings(kbMode: bool, index: u8)
    ensures var d := DeviceCb(kbMode);
      DecodeString(Descriptor(d.iManufacturer).value) == Some(Widen("CrazyRedMachine"))
      && DecodeString(Descriptor(d.iProduct).value)
        == Some(Widen(if kbMode then "Ipega Diva Deluxe (KB)" else "Ipega Diva Deluxe"))
      && DecodeString(Descriptor(d.iSerialNumber).value) == Some(Widen(if kbMode then "MNDVAKB" else "MNDVA"))
    ensures ConfigurationCb(kbMode, index).iInterface == DeviceCb(kbMode).iProduct
  {
    var d := DeviceCb(kbMode);
    TableRoundTrip(d.iManufacturer);
    TableRoundTrip(d.iProduct);
    TableRoundTrip(d.iSerialNumber);
  }

  // ---- Report layouts (usb_descriptors.c:97-174) ----

  datatype Direction = In | Out

  /** One main item of a report descriptor with the global and local items in
      force for it: report size and count, and the usages its fields report
      (empty for a constant padding field). */
  datatype ReportField = ReportField(dir: Direction, size: nat, count: nat, usages: seq<nat>)

  /** Usages lo .. hi, a USAGE_MIN / USAGE_MAX pair. */
  function UsageRange(lo: nat, hi: nat): seq<nat>
    requires lo <= hi
  {
    seq(hi - lo + 1, i => lo + i)
  }

  /** A USAGE_MIN / USAGE_MAX pair reports every usage of the range once, in
      increasing order, and nothing outside it. */
  lemma UsageRangeSpan(lo: nat, hi: nat)
    requires lo <= hi
    ensures |UsageRange(lo, hi)| == hi - lo + 1
    ensures forall u: nat :: u in UsageRange(lo, hi) <==> lo <= u <= hi
    ensures forall i, j :: 0 <= i < j < |UsageRange(lo, hi)| ==> UsageRange(lo, hi)[i] < UsageRange(lo, hi)[j]
  {
    var r := UsageRange(lo, hi);
    forall u: nat | lo <= u <= hi
      ensures u in r
    {
      assert r[u - lo] == u;
    }
  }

  /** desc_hid_report_joy: 16 buttons, the HAT nibble, a constant nibble, the
      X, Y, Z and Rz axes, one vendor byte and eight output bytes. */
  const JoyFields: seq<ReportField> := [
    ReportField(In, 1, 16, UsageRange(1, 16)),
    ReportField(In, 4, 1, [57]),
    ReportField(In, 4, 1, []),
    ReportField(In, 8, 4, [48, 49, 50, 53]),
    ReportField(In, 8, 1, [32]),
    ReportField(Out, 8, 8, [9761])
  ]

  /** desc_hid_report_kb: the eight modifier bits (usages 224-231), then one
      bit for each of the usages 0 .. 31 * 8 - 1. */
  const KbFields: seq<ReportField> := [
    ReportField(In, 1, 8, UsageRange(224, 231)),
    ReportField(In, 1, 31 * 8, UsageRange(0, 31 * 8 - 1))
  ]

  /** joy_report_t (main.c:103-111): one uint16_t and six uint8_t, 8 bytes. */
  const JoyReportBytes: nat := 8

  /** The bits of the input report the fields lay out. */
  function InputBits(fields: seq<ReportField>): nat
    decreases |fields|
  {
    if fields == [] then 0
    else (if fields[0].dir == In then fields[0].size * fields[0].count else 0) + InputBits(fields[1..])
  }

  /** The usage the input report's bit pos reports, for one-bit fields. */
  function UsageAt(fields: seq<ReportField>, pos: nat): Option<nat>
    decreases |fields|
  {
    if fields == [] then None
    else
      var f := fields[0];
      var width := if f.dir == In then f.size * f.count else 0;
      if pos < width then
        (if f.size == 1 && pos < |f.usages| then Some(f.usages[pos]) else None)
      else UsageAt(fields[1..], pos - width)
  }

  /** The gamepad input report is joy_report_t, 8 bytes. */
  lemma JoyLayoutSize()
    ensures InputBits(JoyFields) == 8 * JoyReportBytes
  {
    assert JoyFields[1..][1..][1..][1..][1..][1..] == [];
  }

  /** The keyboard input report is nkro_report, 32 bytes. */
  lemma KbLayoutSize()
    ensures InputBits(KbFields) == 8 * Keyboard.ReportSize
  {
    assert KbFields[1..][1..] == [];
  }

  /** Bit pos of the keyboard report: bits 0-7 are the modifiers 224-231, bit
      8 + c is usage c. */
  lemma KbUsageAt(pos: nat)
    requires pos < 8 * Keyboard.ReportSize
    ensures UsageAt(KbFields, pos) == Some(if pos < 8 then 224 + pos else pos - 8)
  {
    if pos >= 8 {
      assert UsageAt(KbFields, pos) == UsageAt(KbFields[1..], pos - 8);
    }
  }

  /** Where prepare_report_kb sets a key (byte c / 8 + 1, bit c % 8) is the
      bit the descriptor gives usage c, for every code below 240 (all the
      codes of SW_KEYCODE and SLIDER_KEYCODE); every usage of the bitmap,
      0 .. 247, has a byte. */
  lemma KeyByteMatchesDescriptor(c: nat)
    requires c < 240
    ensures Keyboard.KeyByte(c).Some?
    ensures var b := Keyboard.KeyByte(c).value; UsageAt(KbFields, 8 * b + c % 8) == Some(c)
  {
    KbUsageAt(8 * (c / 8 + 1) + c % 8);
  }

  /** The codes 240-247 that the code routes to byte 0 land on the modifier
      bits of the descriptor, usages 224-231: the range check and the
      descriptor disagree. No key table holds such a code. */
  lemma ModifierRangeMismatch(c: nat)
    requires 240 <= c <= 247
    ensures Keyboard.KeyByte(c) == Some(0)
    ensures UsageAt(KbFields, c % 8) == Some(c - 16)
  {
    KbUsageAt(c % 8);
  }
}
