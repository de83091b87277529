# IpegaDivaPlus core, modelled in Dafny

The IpegaDivaPlus firmware runs on a Raspberry Pi Pico wired into an Ipega arcade
controller. It listens passively to the two-wire bus between the controller's
microcontroller and its touch slider. From the read replies it rebuilds an
18-zone slider position as a 32-bit word. It samples and debounces the button
pins. It then reports everything over USB, either as a Switch-style HID gamepad
or as an NKRO keyboard, depending on the mode switch.

This project models the core of `main.c` and `usb_descriptors.c`. Its modules are:

- `ZoneTables` holds the tables `tabf0` and `tab0f`. They map each reply nibble
  to the bits of one of the 18 zones. Proved: every table lookup the decoder
  can make is exactly one zone; the zones are disjoint; together they cover all
  32 bits; the end zones have one bit each and the interior zones two adjacent
  bits.
- `SliderDecoder` holds the body of the bus-decode loop. It is a pure
  transition function `Next`, plus the class `Decoder` whose `Step` method
  updates the loop's variables in place and is proved to match `Next`.
  Proved properties:
  - framing: START arms, STOP idles, the address byte is latched, and the
    request byte selects a half;
  - reply locality: a reply byte rewrites only the bits of its own nibbles;
  - a complete poll (request, then a nine-byte reply) leaves every zone of the
    half it read following its nibble, and the other half unchanged.
- `Gamepad` holds `update_state_joy`, which fills the 22-slot `buttonStatus`
  array in place (`PadState`), and `generate_report_joy`. Proved: the
  `order` permutation; the HAT against an independent compass reference; one
  distinct bit per logical button; the axes as slider lanes XORed with 0x80.
- `Keyboard` holds `prepare_report_kb` over the 32-byte `nkro_report` array
  (`NkroReport`). Proved: the bit of key code `c`, at byte `c / 8 + 1` and bit
  `c % 8`, is set exactly when its switch or slider window is active.
- `Inputs` holds `update_inputs`, with `last_change` and `prev_state` as
  fields of `InputSampler`. Proved: the debounce countdown, the press-hold
  window of 499 calls, and the exact bits of the rebuilt button mask.
- `UsbDescriptors` holds the string-descriptor serialiser over the 64-word
  `_desc_str` buffer (`StringDescriptorBuffer`), the descriptor selectors, and
  the field layout of the two HID report descriptors.
- `Bits` and `Optional` are shared helpers.

## Model

| member | source | states |
|---|---|---|
| ZoneTables.Tabf0 | main.c:364 | definition: the 17 entries of tabf0, the bits each high nibble drives |
| ZoneTables.Tab0f | main.c:365 | definition: the 16 entries of tab0f, the bits each low nibble drives |
| ZoneTables.ZoneSource | main.c:416-435 | each of the 18 zones is reported by a reachable lookup (a nibble of reply byte 1, 2, 4, 5, 7 or 8 at offset 0 or 8) |
| ZoneTables.ZoneOf | main.c:416-435 | every reachable lookup reports a zone, and ZoneOf is the inverse of ZoneSource |
| ZoneTables.ZoneSourceInjective | main.c:416-435 | no two zones are reported by the same nibble |
| ZoneTables.ZoneMaskIsEntry | main.c:364-365 | the tabf0/tab0f entry of each zone's lookup is that zone's bit mask |
| ZoneTables.ZonesCoverSlider | main.c:362-365 | the 18 zone masks together cover all 32 bits of g_full_slider |
| ZoneTables.ZoneWidths | main.c:362-363 | the two zones at each end have one bit and the 14 interior zones two adjacent bits |
| ZoneTables.ZoneBelow | main.c:363-365 | zone z + 1 lies entirely below zone z, so zones run from bit 31 down to bit 0 |
| ZoneTables.Descend | main.c:363-365 | in a run of nonempty masks that each lie below every bit of the one before, every mask lies below every bit of every earlier one |
| ZoneTables.ZonesDisjoint | main.c:364-365 | no two zones share a bit |
| ZoneTables.EntriesDisjoint | main.c:416-435 | two different lookups the decoder can make never drive a common bit (table coverage) |
| SliderDecoder.AddressByte | main.c:407-414 | an address byte carries the 7-bit device in bits 1-7 and the read flag in bit 0 |
| SliderDecoder.SliderAddresses | main.c:407-414 | 0x58 is the write to device 0x2C (the read request) and 0x59 the read from it (the reply) |
| SliderDecoder.Classify | main.c:392-400 | the event code is bits 10-11 of the sniffer word and the data byte bits 1-8; a word with an unknown code is no event |
| SliderDecoder.ClassifyEncode | main.c:392-393 | classifying the sniffer word of an event gives back that event |
| SliderDecoder.Inc8Wraps | main.c:440 | the uint8_t readidx++ is addition modulo 256 |
| SliderDecoder.LookupsAreEntries | main.c:416-435 | reply bytes 1, 4, 7 look up tab0f and bytes 1, 2, 4, 5, 7, 8 look up tabf0, at the ZoneTables entry for the byte and offset |
| SliderDecoder.ApplyReplyByte | main.c:416-438 | definition: the switch on readidx, the low nibble's tab0f entry first and then, falling through, the high nibble's tabf0 entry |
| SliderDecoder.ReplyByteEntry | main.c:416-438 | a reply byte sets or clears the bits of its own lookups by their nibble and keeps the bits of every other lookup (reply locality) |
| SliderDecoder.ReplyHitLow | main.c:417-435 | on bytes 1, 4, 7 the low nibble drives its tab0f entry, and the fallthrough into the tabf0 update leaves that entry alone |
| SliderDecoder.ReplyHitHigh | main.c:427-435 | on bytes 1, 2, 4, 5, 7, 8 the high nibble drives its tabf0 entry |
| SliderDecoder.ReplyMiss | main.c:416-438 | a lookup the byte does not make keeps its bits |
| SliderDecoder.Next | main.c:396-441 | one loop iteration keeps the half offset at 0 or 8 |
| SliderDecoder.Run | main.c:368-442 | the loop over a finite stretch of events keeps the half offset at 0 or 8 |
| SliderDecoder.RunAppend | main.c:368-442 | running two stretches of events is running their concatenation |
| SliderDecoder.StartArms | main.c:396-397 | START sets just_started and changes nothing else |
| SliderDecoder.StopIdles | main.c:398-399 | STOP sets the address to 0 and changes nothing else: a pending START stays armed and the slider is kept |
| SliderDecoder.AddressLatched | main.c:401-440 | the first byte after START becomes the address, and the next byte has index 1 |
| SliderDecoder.RequestSelectsHalf | main.c:407-413 | a read-request byte selects offset 0 exactly when it is 1 (otherwise 8), is stored as curr_half, and keeps the slider |
| SliderDecoder.DataAdvancesIndex | main.c:440 | every data byte after the address byte advances readidx modulo 256 |
| SliderDecoder.OnlyRepliesTouchSlider | main.c:396-441 | only data bytes of a 0x59 transaction change g_full_slider |
| SliderDecoder.IgnoredReplyByte | main.c:416-437 | a reply byte whose index is outside 1, 2, 4, 5, 7, 8 changes only the index |
| SliderDecoder.Resynchronise | main.c:396-406 | after START and an address byte, the address is that byte, readidx is 1 and no START is pending; only curr_half, the offset and the slider word carry over from before |
| SliderDecoder.RunReplyBytes | main.c:414-440 | inside a reply, each data byte goes through the switch at its own index |
| SliderDecoder.FoldReplyKeeps | main.c:416-440 | a run of reply bytes keeps the bits of every lookup none of them makes |
| SliderDecoder.FoldReplyFollows | main.c:416-440 | a run of reply bytes sets or clears each lookup it makes by the nibble that reports it |
| SliderDecoder.ReplyReconstructs | main.c:414-440 | a nine-byte reply sets each zone of the half read iff its nibble is nonzero and keeps the zones of the other half |
| SliderDecoder.PollUpdatesSlider | main.c:396-441 | a whole poll ends idle with no START pending, at the offset the request chose, with the slider rebuilt from the reply |
| SliderDecoder.PollReconstructsZones | main.c:396-441 | after a poll of one half, each zone of that half is set iff its nibble is nonzero and the other half is unchanged |
| SliderDecoder.SetOrClearEntry | main.c:420-435 | `slider \|= entry` or `slider &= ~entry` leaves the entry's bits all set or all clear as the nibble says |
| SliderDecoder.UpdateLow | main.c:417-425 | cases 1, 4, 7 set or clear their tab0f entry and change nothing on other bytes |
| SliderDecoder.UpdateHigh | main.c:427-435 | cases 2, 5, 8 (and 1, 4, 7 by fallthrough) set or clear their tabf0 entry |
| SliderDecoder.Decoder.constructor | main.c:355-359 | the decoder starts with every variable and the slider at 0 |
| SliderDecoder.Decoder.Step | main.c:396-441 | the in-place update of just_started, addr, readidx, curr_half, offset and g_full_slider is the transition Next |
| SliderDecoder.Decoder.ApplyReply | main.c:416-438 | the switch rewrites g_full_slider as one reply byte does and changes nothing else |
| SliderDecoder.Decoder.StepWord | main.c:392-441 | a raw sniffer word acts as its classified event, and a word with an unknown code changes nothing |
| SliderDecoder.Decoder.Decode | main.c:368-442 | the loop over a stretch of events ends in the state Run gives |
| Gamepad.Order | main.c:117 | definition: the buttonStatus slot each mask bit drives, in the order of `order[]` |
| Gamepad.OrderThenSlot | main.c:117 | every mask bit drives a slot, and SlotButton maps that slot back to the bit |
| Gamepad.SlotThenOrder | main.c:117 | every slot some bit drives is that bit's order entry |
| Gamepad.OrderInjective | main.c:117 | no two buttons share a buttonStatus slot |
| Gamepad.OrderAvoidsAxesAndCapture | main.c:117 | no button writes an axis slot or the CAPTURE slot |
| Gamepad.JoyStatus | main.c:115-129 | the table keeps its 22 slots (definition of buttonStatus after update_state_joy) |
| Gamepad.JoyStatusButton | main.c:120-124 | after update_state_joy, slot order[i] holds 1 if bit i of the mask is set and 0 otherwise |
| Gamepad.JoyStatusKeepsCapture | main.c:117-128 | update_state_joy never writes the CAPTURE slot |
| Gamepad.SliderAtRestCentresAxes | main.c:126-128 | a slider word of 0 puts all four axes at the centre value 0x80 |
| Gamepad.XorLane | main.c:126-128 | XORing the word with 0x80808080 flips bit 7 of each of its four little-endian lanes |
| Gamepad.Hat | main.c:135-143 | definition: the HAT if/else chain, diagonals first, then up, down, left, right |
| Gamepad.HatRange | main.c:135-143 | the HAT is at most 8, and it is 8 exactly when no direction is pressed |
| Gamepad.HatIsCompass | main.c:135-143 | without opposite directions, the HAT is the HID compass value of the pad direction |
| Gamepad.HatOpposites | main.c:135-143 | with up+down alone the HAT is 0 (up) and with left+right alone it is 6 (left); with three directions pressed, the first diagonal of the chain that matches wins: up+down+right gives 1, left+right+down without up gives 3, up+down+left without right gives 5, and left+right+up without down gives 1 |
| Gamepad.MaskIsSingle | main.c:53-66 | each logical button's mask is a single bit below bit 14 |
| Gamepad.MasksDistinctBits | main.c:152-165 | no two logical buttons share a bit of the button field |
| Gamepad.MaskShape | main.c:53-66 | no mask is empty, and none reaches bit 14 or 15 |
| Gamepad.ContributionMasked | main.c:152-165 | one test shows under another button's mask exactly when it is that button's own test and its slot is set |
| Gamepad.ButtonFieldUpToBit | main.c:152-165 | after the first n tests, button k's bit is set iff k was among them and its slot is nonzero |
| Gamepad.ButtonFieldBit | main.c:133-165 | a button's bit is set in the field iff its buttonStatus slot is nonzero |
| Gamepad.ButtonFieldTopBitsClear | main.c:133-165 | bits 14 and 15 of the button field are never set |
| Gamepad.GenerateReportJoy | main.c:132-166 | the memset leaves VendorSpec at 0 |
| Gamepad.ReportButtonDriven | main.c:152-164 | the slot of each logical button other than CAPTURE is driven by a mask bit and is not an axis |
| Gamepad.PadReportButton | main.c:115-171 | in the report built from a mask, every button other than CAPTURE has its bit set iff the mask bit that drives its slot is set |
| Gamepad.PadReportNoCapture | main.c:115-171 | CAPTURE is never reported while its slot holds 0 |
| Gamepad.PadReportHat | main.c:115-171 | the HAT of the report follows mask bits 13 (up), 15 (down), 16 (left) and 14 (right) |
| Gamepad.PadReportAxes | main.c:126-149 | the four axes of the report are the slider's lanes XORed with 0x80 |
| Gamepad.PadState.constructor | main.c:101 | buttonStatus starts as 22 zeros |
| Gamepad.PadState.UpdateStateJoy | main.c:115-129 | the in-place loop and the axis store leave buttonStatus as JoyStatus of the old table, and CAPTURE stays 0 |
| Gamepad.PadState.PrepareReport | main.c:168-171 | prepare_report updates the table, then encodes it |
| Gamepad.StoreAxes | main.c:126-128 | the 32-bit store through the uint8_t table writes the XORed word's four lanes into slots 14-17 and nothing else |
| Gamepad.ButtonsUpToStep | main.c:120-124 | one loop iteration writes slot order[n] and nothing else |
| Gamepad.JoyStatusInTwoSteps | main.c:120-128 | the button loop followed by the axis store gives JoyStatus |
| Keyboard.SwKeycode | main.c:96 | definition: SW_KEYCODE, the keys Q, W, O, P |
| Keyboard.SliderKeycode | main.c:97 | definition: SLIDER_KEYCODE, the keys 1-9, 0, minus and equal |
| Keyboard.KbReport | main.c:181-226 | the report is 32 bytes (definition of nkro_report after prepare_report_kb) |
| Keyboard.KeyByte | main.c:185-191 | a key lands in byte 0 or in a byte below 32, never outside nkro_report |
| Keyboard.ApplyKeysStep | main.c:183-225 | the report after k + 1 tests is the report after k tests with test k applied |
| Keyboard.SwIndexInverse | main.c:96 | SwIndex undoes SW_KEYCODE, and no switch key is a slider key |
| Keyboard.SliderIndexInverse | main.c:97 | SliderIndex undoes SLIDER_KEYCODE, and no slider key is a switch key |
| Keyboard.NoModifierKeys | main.c:187-191 | no key of either table is in 224-231 or 240-247, so every key goes to byte c / 8 + 1 (between 1 and 31) |
| Keyboard.ApplyKeyOn | main.c:185-191 | one pressed ordinary key turns on exactly its own bit |
| Keyboard.ApplyKeysOn | main.c:183-225 | a run of ordinary keys turns on exactly the bits of the keys pressed |
| Keyboard.TopWindow | main.c:195 | `(slider >> 29) & 7` is nonzero iff one of bits 29-31 is set |
| Keyboard.BottomWindow | main.c:217 | `slider & 7` is nonzero iff one of bits 0-2 is set |
| Keyboard.TestsPress | main.c:183-225 | the 18 tests press key c iff c's switch is held or c's slider window is active |
| Keyboard.KbReportBits | main.c:181-226 | bit c % 8 of byte c / 8 + 1 of the report is set iff the key of code c is held |
| Keyboard.KbReportModifiersClear | main.c:182-188 | byte 0, the modifier byte, stays 0 |
| Keyboard.SwitchKey | main.c:183-193 | switch i (mask bit i) holds key Q, W, O or P |
| Keyboard.SliderKey | main.c:195-225 | slider window i holds SLIDER_KEYCODE[i] |
| Keyboard.SliderKeyWindows | main.c:195-217 | key 0 is any of bits 27, 29, 30 or 31; key i from 1 to 10 is bit 27 - 2i; key 11 is any of bits 0, 1, 2 or 5 |
| Keyboard.NkroReport.constructor | main.c:180 | nkro_report starts as 32 zeros |
| Keyboard.NkroReport.Clear | main.c:182 | the memset leaves 32 zeros |
| Keyboard.NkroReport.SetKey | main.c:185-191 | the report after the byte/bit computation and the guarded OR is SetKeyBits of the old report |
| Keyboard.NkroReport.PrepareReportKb | main.c:181-226 | nkro_report ends as KbReport of the mask and the slider word |
| Keyboard.NkroReport.PressSwitchKeys | main.c:183-193 | the switch loop applies tests 0-3 |
| Keyboard.NkroReport.PressSliderKeys | main.c:195-225 | the top window, the slider loop and the bottom window apply tests 4-17 |
| Keyboard.NkroReport.PressSliderLoop | main.c:205-215 | the loop over the twelve slider bits applies tests 5-16 |
| Keyboard.NkroReport.Press | main.c:184-192 | one `if` of prepare_report_kb applies one test to the report |
| Inputs.Debounce | main.c:242-260 | definition: BOUNCE_CAN_UPDATE, the conditional pin read and the re-arm on press, for one line |
| Inputs.DebounceIdle | main.c:239-251 | with the countdown at 0 the pin is read, and a press re-arms the countdown to 500 |
| Inputs.DebounceBusy | main.c:239-254 | with the countdown above 1 the pin is not read: the line repeats its previous level and the countdown drops by one |
| Inputs.DebounceBounded | main.c:240-250 | the countdown never exceeds 500, so the uint16_t never wraps |
| Inputs.HeldWhileCounting | main.c:239-260 | a line that reported pressed with countdown c keeps reporting pressed for the next c - 1 calls |
| Inputs.PressHolds | main.c:239-260 | a committed press holds for the next 499 calls, whatever the pin does |
| Inputs.ReleaseSeenAfterCountdown | main.c:239-247 | at countdown 1 the call reads the pin again, so a release is seen |
| Inputs.MaskUpToBit | main.c:256-271 | bit i of the mask is set iff line i is among the first n lines and pressed |
| Inputs.MaskUpToHighClear | main.c:236-271 | bits 17-31 of the mask stay 0 |
| Inputs.ButtonState | main.c:235-275 | definition: g_button_state after one call, the mask of the pressed lines |
| Inputs.ButtonStateBits | main.c:235-275 | bit i of g_button_state is the inverted debounced level for i < 4, the inverted raw level for 4 <= i < 17, and 0 above |
| Inputs.ButtonStateHighClear | main.c:235-275 | g_button_state has no bit above bit 16 |
| Inputs.UpToStep | main.c:243-261 | handling line n updates entry n of last_change and prev_state and nothing else |
| Inputs.MarkLine | main.c:256-271 | `button_state \|= 1 << i` on a press extends the mask by line i |
| Inputs.RawLines | main.c:263-272 | the loop over lines 4-16 adds their inverted raw levels to the mask |
| Inputs.InputSampler.constructor | main.c:240-241 | last_change and prev_state start at 0 |
| Inputs.InputSampler.UpdateInputs | main.c:235-275 | the countdowns and previous levels are updated line by line in place, stay at most 500, and the result is ButtonState of the old state and the pin levels |
| Inputs.InputSampler.DebounceLine | main.c:244-255 | BOUNCE_CAN_UPDATE and the conditional pin read update last_change[i] as Debounce does, and return its level |
| UsbDescriptors.ChrCount | usb_descriptors.c:81-83 | chr_count is at most 63 and at most strlen, and equals strlen for strings of up to 63 characters |
| UsbDescriptors.Descriptor | usb_descriptors.c:61-95 | definition: the words tud_descriptor_string_cb returns for an index, or None for NULL |
| UsbDescriptors.DescriptorHeader | usb_descriptors.c:68-92 | every descriptor returned has type 3 in its header's high byte and its own length in bytes in the low byte (at most 128), and fits the 64-word buffer |
| UsbDescriptors.LanguageDescriptor | usb_descriptors.c:46-92 | index 0 gives the words 0x0304 and 0x0409, the LANGID read little-endian from entry 0 of string_desc_arr |
| UsbDescriptors.EncodeDecode | usb_descriptors.c:78-92 | decoding the descriptor of a string gives back its first chr_count characters, zero-extended |
| UsbDescriptors.WidenInjective | usb_descriptors.c:86-88 | zero-extending the characters loses nothing |
| UsbDescriptors.TableRoundTrip | usb_descriptors.c:46-92 | every text string of string_desc_arr comes back whole |
| UsbDescriptors.StringDescriptorBuffer.constructor | usb_descriptors.c:55 | _desc_str starts as 64 zeros |
| UsbDescriptors.StringDescriptorBuffer.DescriptorStringCb | usb_descriptors.c:61-95 | NULL exactly for an index of 6 or more, with the buffer untouched; otherwise the buffer starts with the descriptor, and later slots keep their old contents |
| UsbDescriptors.StringDescriptorBuffer.WriteLanguage | usb_descriptors.c:68-92 | slot 1 gets LANGID 0x0409 and slot 0 the header for one character; the rest is kept |
| UsbDescriptors.StringDescriptorBuffer.WriteString | usb_descriptors.c:78-92 | the buffer starts with the string's descriptor and keeps the rest |
| UsbDescriptors.StringDescriptorBuffer.CopyChars | usb_descriptors.c:86-88 | slot 1 + i receives str[i] for each i below chr_count, and every other slot is kept |
| UsbDescriptors.DeviceCb | usb_descriptors.c:253-255 | both device descriptors carry PID 0x00FB |
| UsbDescriptors.ConfigurationCb | usb_descriptors.c:264-268 | both configurations declare one interface, ITF_NUM_HID (0) |
| UsbDescriptors.ReportCb | usb_descriptors.c:273-278 | definition: the mode's report descriptor for interface 0, None for any other |
| UsbDescriptors.ReportMatchesConfiguration | usb_descriptors.c:264-278 | a report descriptor is served exactly for the interface the configuration declares, and it is the one whose size the configuration carries |
| UsbDescriptors.ModesDistinct | usb_descriptors.c:213-255 | keyboard mode has VID 0xCAFE and gamepad mode VID 0x0F0D; the product and serial strings differ between the modes |
| UsbDescriptors.ReferencedStrings | usb_descriptors.c:193-247 | every string index the descriptors use resolves to its text, and the interface string is the product string of the same mode |
| UsbDescriptors.UsageRangeSpan | usb_descriptors.c:160-171 | a USAGE_MIN/USAGE_MAX pair reports hi - lo + 1 usages, strictly increasing, and a usage is among them exactly when it lies in lo..hi |
| UsbDescriptors.JoyLayoutSize | usb_descriptors.c:97-151 | the gamepad input report laid out by desc_hid_report_joy is 64 bits, the 8 bytes of joy_report_t |
| UsbDescriptors.KbLayoutSize | usb_descriptors.c:153-174 | the keyboard input report is 256 bits, the 32 bytes of nkro_report |
| UsbDescriptors.KbUsageAt | usb_descriptors.c:157-172 | bits 0-7 of the keyboard report are usages 224-231 and bit 8 + c is usage c |
| UsbDescriptors.KeyByteMatchesDescriptor | main.c:185-191 | every code below 240 has a byte, and prepare_report_kb sets the bit the descriptor gives that usage |
| UsbDescriptors.ModifierRangeMismatch | main.c:187-188 | codes 240-247 would land on the descriptor's modifier bits, usages 224-231 |

## Left out

- The PIO sniffer set-up and the blocking event read (main.c:325-350, 386) are hardware calls. The decoder takes its events as a sequence (`Decoder.Decode`) or one sniffer word at a time (`Decoder.StepWord`). The clock divider is floating point.
- The values of EV_START, EV_STOP and EV_DATA are defined in the PIO program, which is not part of this model. They are the `EventCodes` parameter, and `ClassifyEncode` requires them to be distinct and two bits wide.
- The mode-switch supervisor (main.c:367-384) is left out. It resets core 1, retries `tud_disconnect`, sleeps, and counts down `cooldown`, so it is concurrency and foreign USB-stack calls.
- `core1_usbtask` (main.c:277-292) is left out: an endless second-core loop throttled by `time_us_64`.
- `send_hid` and `send_hid_kb` (main.c:173-178, 228-233) are left out. They only hand the report to the USB stack.
- Board bring-up and the bootloader entry (main.c:294-321) are left out.
- The stub HID callbacks `tud_hid_set_report_cb` and `tud_hid_get_report_cb` (main.c:448-471) are left out. They do nothing.
- Cross-core sharing of the `volatile` globals g_full_slider, g_button_state and g_kb_mode is left out. They are plain parameters of the encoders; torn or stale reads are not modelled.
- The pins are read through `gpio_get`. `UpdateInputs` takes the 17 levels as a parameter, read once per call. The source reads a debounced pin only when its countdown allows, but reading a pin has no side effect.
- Gamepad.StoreAxes: the store through the `uint32_t *` into `buttonStatus[14..17]` is modelled as one write of the XORed word's four little-endian lanes. The source's store followed by an in-place XOR is not modelled step by step, and neither is the alignment of that pointer.
- Inputs.InputSampler: `last_change` is a `uint16_t` and is modelled as a `nat` that `Valid` keeps at or below 500, so it cannot wrap. `prev_state` (`uint8_t`) holds only 0 or 1 and is modelled as `bool`.
- The byte encoding of the device, configuration and HID report descriptors (usb_descriptors.c:97-249) is left out: the tinyusb macros that build them are not part of this model. The model keeps only the fields the source sets (`DeviceDescriptor`, `ConfigurationDescriptor`) and, for each report field, its direction, size, count and usages (`ReportField`). `bMaxPacketSize0` comes from a configuration macro and is not modelled.
- UsbDescriptors.DescriptorStringCb: `strlen` is the length of the Dafny string, since the table strings contain no NUL. The C `char` is taken as unsigned, as on the RP2040's ARM target, so zero-extension is the character's code. `langid` is ignored, as in the source.
- Behaviours of the code that a reader might not expect, which the model keeps as written:
  - The HAT chain (main.c:135-143) tests the diagonals first and has no case for opposite directions, so up+down gives 0 (up) and left+right gives 6 (left) (`HatOpposites`).
  - Each extreme slider key fires when any one of its three window bits is set, since the test is `(slider >> 29) & 7` or `slider & 7` (main.c:195, main.c:217).
  - STOP clears only the address (main.c:398-399). A pending START, readidx and the offset are kept (`StopIdles`).
  - The event code is read from bits 10-11 of the sniffer word (main.c:392), not bits 11-12 as the comment above it says.
- `prepare_report_kb` treats codes 240-247 as modifiers, but the report descriptor places the modifiers at 224-231 (`ModifierRangeMismatch`). No key table holds such a code (`NoModifierKeys`), so that branch never runs. The model keeps the range check as written.
