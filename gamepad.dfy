/** The gamepad encoder of main.c: update_state_joy (main.c:115-128) copies the
    button mask and the slider word into the 22-slot buttonStatus table, and
    generate_report_joy (main.c:131-166) turns that table into the 8-byte
    joystick report (a Nintendo-Switch-style HID pad: a 16-bit button field, a
    HAT switch and four 8-bit axes). */
module Gamepad {
  import opened Optional
  import opened Bits

  // ---- Slots of buttonStatus (main.c:70-92) ----

  const Up: nat := 0
  const Down: nat := 1
  const Left: nat := 2
  const Right: nat := 3
  const ButtonA: nat := 4
  const ButtonB: nat := 5
  const ButtonX: nat := 6
  const ButtonY: nat := 7
  const ButtonLB: nat := 8
  const ButtonRB: nat := 9
  const ButtonLT: nat := 10
  const ButtonRT: nat := 11
  const ButtonStart: nat := 12
  const ButtonSelect: nat := 13
  const AxisLX: nat := 14
  const AxisLY: nat := 15
  const AxisRX: nat := 16
  const AxisRY: nat := 17
  const ButtonL3: nat := 18
  const ButtonR3: nat := 19
  const ButtonHome: nat := 20
  const ButtonCapture: nat := 21

  const SlotCount: nat := 22

  /** Number of physical buttons, one bit each in the button mask (NUM_BUTTONS). */
  const ButtonCount: nat := 17

  /** order[i]: the slot that bit i of the button mask drives (main.c:117). Bit i
      is the i-th pin of g_but_pin: triangle, square, cross, circle, L1, R1, L2,
      R2, share, options, home, R3, L3, up, right, down, left. */
  const Order: seq<nat> := [ButtonX, ButtonY, ButtonB, ButtonA, ButtonLB, ButtonRB, ButtonLT,
    ButtonRT, ButtonSelect, ButtonStart, ButtonHome, ButtonR3, ButtonL3, Up, Right, Down, Left]

  /** The mask bit that drives a slot, if any: the inverse of Order. */
  function SlotButton(j: nat): (i: Option<nat>)
  {
    if j == Up then Some(13) else if j == Down then Some(15)
    else if j == Left then Some(16) else if j == Right then Some(14)
    else if j == ButtonA then Some(3) else if j == ButtonB then Some(2)
    else if j == ButtonX then Some(0) else if j == ButtonY then Some(1)
    else if j == ButtonLB then Some(4) else if j == ButtonRB then Some(5)
    else if j == ButtonLT then Some(6) else if j == ButtonRT then Some(7)
    else if j == ButtonStart then Some(9) else if j == ButtonSelect then Some(8)
    else if j == ButtonL3 then Some(12) else if j == ButtonR3 then Some(11)
    else if j == ButtonHome then Some(10) else None
  }

  /** SlotButton undoes Order. */
  lemma OrderThenSlot(i: nat)
    requires i < ButtonCount
    ensures Order[i] < SlotCount && SlotButton(Order[i]) == Some(i)
  {
  }

  /** Order undoes SlotButton: a slot some bit drives is that bit's slot. */
  lemma SlotThenOrder(j: nat)
    requires j < SlotCount && SlotButton(j).Some?
    ensures SlotButton(j).value < ButtonCount && Order[SlotButton(j).value] == j
  {
  }

  /** No two buttons share a slot. */
  lemma OrderInjective(i1: nat, i2: nat)
    requires i1 < ButtonCount && i2 < ButtonCount && Order[i1] == Order[i2]
    ensures i1 == i2
  {
    OrderThenSlot(i1);
    OrderThenSlot(i2);
  }

  /** No button drives an axis slot or the CAPTURE slot. */
  lemma OrderAvoidsAxesAndCapture(i: nat)
    requires i < ButtonCount
    ensures !(AxisLX <= Order[i] <= AxisRY) && Order[i] != ButtonCapture
  {
  }

  /** The value update_state_joy stores for a button: 1 when pressed, 0 otherwise. */
  function Flag(pressed: bool): bv8 {
    if pressed then 1 else 0
  }

  /** buttonStatus after update_state_joy: every slot some mask bit drives holds
      that bit, the axis slots hold the slider lanes re-centred by flipping their
      top bit (each axis is 0x80 at rest), and the other slots (CAPTURE) keep
      their value. */
  function JoyStatus(prev: seq<bv8>, buttons: bv32, slider: bv32): (s: seq<bv8>)
    requires |prev| == SlotCount
    ensures |s| == SlotCount
  {
    seq(SlotCount, j requires 0 <= j < SlotCount =>
      if AxisLX <= j <= AxisRY then Lane(slider, j - AxisLX) ^ 0x80
      else if SlotButton(j).Some? then Flag(Bit(buttons, SlotButton(j).value))
      else prev[j])
  }

  /** Slot order[i] holds bit i of the mask (main.c:120-124). */
  lemma JoyStatusButton(prev: seq<bv8>, buttons: bv32, slider: bv32, i: nat)
    requires |prev| == SlotCount && i < ButtonCount
    ensures JoyStatus(prev, buttons, slider)[Order[i]] == Flag(Bit(buttons, i))
  {
    OrderThenSlot(i);
    OrderAvoidsAxesAndCapture(i);
  }

  /** The CAPTURE slot is never written. */
  lemma JoyStatusKeepsCapture(prev: seq<bv8>, buttons: bv32, slider: bv32)
    requires |prev| == SlotCount
    ensures JoyStatus(prev, buttons, slider)[ButtonCapture] == prev[ButtonCapture]
  {
  }

  /** A slider at rest (0) gives all four axes the centre value 0x80. */
  lemma SliderAtRestCentresAxes(prev: seq<bv8>, buttons: bv32, k: nat)
    requires |prev| == SlotCount && k < 4
    ensures JoyStatus(prev, buttons, 0)[AxisLX + k] == 0x80
  {
    LaneOfZero(k);
  }

  lemma LaneOfZero(k: nat)
    requires k < 4
    ensures Lane(0, k) == 0
  {
  }

  /** Flipping bit 7 of every byte of the word flips bit 7 of each lane: the
      single 32-bit XOR of main.c:127 re-centres all four axes. */
  lemma XorLane(x: bv32, k: nat)
    requires k < 4
    ensures Lane(x ^ 0x8080_8080, k) == Lane(x, k) ^ 0x80
  {
    // One lemma per lane, each with k fixed by its requires, keeps every
    // bit-vector obligation small.
    if k == 0 {
      XorLane0(x, k);
    } else if k == 1 {
      XorLane1(x, k);
    } else if k == 2 {
      XorLane2(x, k);
    } else {
      XorLane3(x, k);
    }
  }

  lemma XorLane0(x: bv32, k: nat)
    requires k == 0
    ensures Lane(x ^ 0x8080_8080, k) == Lane(x, k) ^ 0x80
  {
  }

  lemma XorLane1(x: bv32, k: nat)
    requires k == 1
    ensures Lane(x ^ 0x8080_8080, k) == Lane(x, k) ^ 0x80
  {
  }

  lemma XorLane2(x: bv32, k: nat)
    requires k == 2
    ensures Lane(x ^ 0x8080_8080, k) == Lane(x, k) ^ 0x80
  {
  }

  lemma XorLane3(x: bv32, k: nat)
    requires k == 3
    ensures Lane(x ^ 0x8080_8080, k) == Lane(x, k) ^ 0x80
  {
  }

  // ---- The HAT switch (main.c:135-143) ----

  const HatUp: bv8 := 0
  const HatUpRight: bv8 := 1
  const HatRight: bv8 := 2
  const HatDownRight: bv8 := 3
  const HatDown: bv8 := 4
  const HatDownLeft: bv8 := 5
  const HatLeft: bv8 := 6
  const HatUpLeft: bv8 := 7
  const HatNothing: bv8 := 8

  /** The HAT value as the if/else chain computes it: diagonals first, then the
      four directions in the order up, down, left, right. */
  function Hat(up: bool, down: bool, left: bool, right: bool): bv8 {
    if up && right then HatUpRight
    else if down && right then HatDownRight
    else if down && left then HatDownLeft
    else if up && left then HatUpLeft
    else if up then HatUp
    else if down then HatDown
    else if left then HatLeft
    else if right then HatRight
    else HatNothing
  }

  /** The HID hat-switch convention, an independent reference: the eight
      compass directions numbered clockwise from north, 8 for centred. dx is +1
      for east, dy +1 for north. */
  function Compass(dx: int, dy: int): bv8
    requires -1 <= dx <= 1 && -1 <= dy <= 1
  {
    if dx == 0 && dy == 1 then 0
    else if dx == 1 && dy == 1 then 1
    else if dx == 1 && dy == 0 then 2
    else if dx == 1 && dy == -1 then 3
    else if dx == 0 && dy == -1 then 4
    else if dx == -1 && dy == -1 then 5
    else if dx == -1 && dy == 0 then 6
    else if dx == -1 && dy == 1 then 7
    else 8
  }

  function Axis(plus: bool, minus: bool): int {
    (if plus then 1 else 0) - (if minus then 1 else 0)
  }

  /** The HAT is always a valid hat-switch value, and it is centred exactly
      when no direction is pressed. */
  lemma HatRange(up: bool, down: bool, left: bool, right: bool)
    ensures Hat(up, down, left, right) <= HatNothing
    ensures Hat(up, down, left, right) == HatNothing <==> !(up || down || left || right)
  {
  }

  /** Without opposite directions pressed together, the HAT is the compass
      direction of the pad. */
  lemma HatIsCompass(up: bool, down: bool, left: bool, right: bool)
    requires !(up && down) && !(left && right)
    ensures Hat(up, down, left, right) == Compass(Axis(right, left), Axis(up, down))
  {
  }

  /** Opposite directions: up wins over down and left over right, while a
      perpendicular direction still gives its diagonal (the order of the chain). */
  lemma HatOpposites(up: bool, down: bool, left: bool, right: bool)
    ensures up && down && !left && !right ==> Hat(up, down, left, right) == HatUp
    ensures left && right && !up && !down ==> Hat(up, down, left, right) == HatLeft
    ensures up && down && right ==> Hat(up, down, left, right) == HatUpRight
    ensures left && right && down && !up ==> Hat(up, down, left, right) == HatDownRight
    ensures up && down && left && !right ==> Hat(up, down, left, right) == HatDownLeft
    ensures left && right && up && !down ==> Hat(up, down, left, right) == HatUpRight
  {
  }

  // ---- The button field (main.c:152-165) ----

  /** A logical button of the report: the buttonStatus slot it reads and the bit
      it sets in the 16-bit button field. */
  datatype ReportButton = ReportButton(slot: nat, mask: bv16)

  /** The buttons in the order generate_report_joy tests them (main.c:53-66). */
  const ReportButtons: seq<ReportButton> := [
    ReportButton(ButtonA, 0x04), ReportButton(ButtonB, 0x02), ReportButton(ButtonX, 0x08),
    ReportButton(ButtonY, 0x01), ReportButton(ButtonLB, 0x10), ReportButton(ButtonRB, 0x20),
    ReportButton(ButtonLT, 0x40), ReportButton(ButtonRT, 0x80), ReportButton(ButtonStart, 0x200),
    ReportButton(ButtonSelect, 0x100), ReportButton(ButtonHome, 0x1000), ReportButton(ButtonL3, 0x400),
    ReportButton(ButtonR3, 0x800), ReportButton(ButtonCapture, 0x2000)]

  const CaptureIndex: nat := 13

  /** `if (buttonStatus[slot]) Button |= mask;` as a value. */
  function Contribution(status: seq<bv8>, b: ReportButton): bv16
    requires b.slot < |status|
  {
    if status[b.slot] != 0 then b.mask else 0
  }

  /** The button field after the first n tests of generate_report_joy, starting
      from the zeroed report. */
  function ButtonFieldUpTo(status: seq<bv8>, n: nat): bv16
    requires |status| == SlotCount && n <= |ReportButtons|
  {
    if n == 0 then 0
    else ButtonFieldUpTo(status, n - 1) | Contribution(status, ReportButtons[n - 1])
  }

  function ButtonField(status: seq<bv8>): bv16
    requires |status| == SlotCount
  {
    ButtonFieldUpTo(status, |ReportButtons|)
  }

  /** The bit of the field each logical button sets. */
  function MaskBit(k: nat): nat
    requires k < |ReportButtons|
  {
    if k == 0 then 2 else if k == 1 then 1 else if k == 2 then 3 else if k == 3 then 0
    else if k == 4 then 4 else if k == 5 then 5 else if k == 6 then 6 else if k == 7 then 7
    else if k == 8 then 9 else if k == 9 then 8 else if k == 10 then 12 else if k == 11 then 10
    else if k == 12 then 11 else 13
  }

  /** The 16-bit word with only bit b set, written as a chain of literals
      rather than `1 << b` like Bits.BitMask: with the position fixed, each
      button-field obligation stays a constant fold instead of a symbolic shift. */
  function Single(b: nat): bv16
    requires b < 16
  {
    if b == 0 then 0x1 else if b == 1 then 0x2 else if b == 2 then 0x4 else if b == 3 then 0x8
    else if b == 4 then 0x10 else if b == 5 then 0x20 else if b == 6 then 0x40 else if b == 7 then 0x80
    else if b == 8 then 0x100 else if b == 9 then 0x200 else if b == 10 then 0x400 else if b == 11 then 0x800
    else if b == 12 then 0x1000 else if b == 13 then 0x2000 else if b == 14 then 0x4000 else 0x8000
  }

  /** Every mask is a single bit below bit 14. */
  lemma MaskIsSingle(k: nat)
    requires k < |ReportButtons|
    ensures MaskBit(k) < 14 && ReportButtons[k].mask == Single(MaskBit(k))
  {
  }

  lemma MaskBitInjective(k1: nat, k2: nat)
    requires k1 < |ReportButtons| && k2 < |ReportButtons| && k1 != k2
    ensures MaskBit(k1) != MaskBit(k2)
  {
  }

  lemma SinglesDisjoint(a: nat, b: nat)
    requires a < 16 && b < 16 && a != b
    ensures Single(a) & Single(b) == 0
  {
  }

  lemma SingleShape(b: nat)
    requires b < 14
    ensures Single(b) != 0 && Single(b) & 0xC000 == 0
  {
  }

  /** Each logical button has a bit of its own. */
  lemma MasksDistinctBits(k1: nat, k2: nat)
    requires k1 < |ReportButtons| && k2 < |ReportButtons| && k1 != k2
    ensures ReportButtons[k1].mask & ReportButtons[k2].mask == 0
  {
    MaskIsSingle(k1);
    MaskIsSingle(k2);
    MaskBitInjective(k1, k2);
    SinglesDisjoint(MaskBit(k1), MaskBit(k2));
  }

  /** No mask is empty, and none reaches bit 14 or 15. */
  lemma MaskShape(k: nat)
    requires k < |ReportButtons|
    ensures ReportButtons[k].mask != 0 && ReportButtons[k].mask & 0xC000 == 0
  {
    MaskIsSingle(k);
    SingleShape(MaskBit(k));
  }

  lemma OrMasked(x: bv16, c: bv16, m: bv16)
    ensures ((x | c) & m != 0) == (x & m != 0 || c & m != 0)
  {
  }

  /** A set slot contributes its mask, a clear slot nothing. */
  lemma ContributionOwn(status: seq<bv8>, b: ReportButton)
    requires b.slot < |status| && b.mask != 0
    ensures (Contribution(status, b) & b.mask != 0) == (status[b.slot] != 0)
  {
  }

  /** Nothing shows under a mask disjoint from the button's own. */
  lemma ContributionOther(status: seq<bv8>, b: ReportButton, m: bv16)
    requires b.slot < |status| && b.mask & m == 0
    ensures Contribution(status, b) & m == 0
  {
  }

  /** The contribution of button k2 shows under the mask of button k exactly
      when k2 is k and its slot is nonzero. */
  lemma ContributionMasked(status: seq<bv8>, k2: nat, k: nat)
    requires |status| == SlotCount && k2 < |ReportButtons| && k < |ReportButtons|
    ensures (Contribution(status, ReportButtons[k2]) & ReportButtons[k].mask != 0)
      == (k2 == k && status[ReportButtons[k].slot] != 0)
  {
    if k2 == k {
      MaskShape(k);
      ContributionOwn(status, ReportButtons[k]);
    } else {
      MasksDistinctBits(k2, k);
      ContributionOther(status, ReportButtons[k2], ReportButtons[k].mask);
    }
  }

  /** After the first n tests, button k's bit is set iff k was among them and
      its slot is nonzero. */
  lemma {:induction false} ButtonFieldUpToBit(status: seq<bv8>, n: nat, k: nat)
    requires |status| == SlotCount && n <= |ReportButtons| && k < |ReportButtons|
    ensures (ButtonFieldUpTo(status, n) & ReportButtons[k].mask != 0)
      == (k < n && status[ReportButtons[k].slot] != 0)
  {
    if n > 0 {
      ButtonFieldUpToBit(status, n - 1, k);
      OrMasked(ButtonFieldUpTo(status, n - 1), Contribution(status, ReportButtons[n - 1]), ReportButtons[k].mask);
      ContributionMasked(status, n - 1, k);
    }
  }

  /** A button's bit is set in the field iff its slot is nonzero. */
  lemma ButtonFieldBit(status: seq<bv8>, k: nat)
    requires |status| == SlotCount && k < |ReportButtons|
    ensures ButtonField(status) & ReportButtons[k].mask != 0 <==> status[ReportButtons[k].slot] != 0
  {
    ButtonFieldUpToBit(status, |ReportButtons|, k);
  }

  lemma OrTopClear(x: bv16, c: bv16)
    requires x & 0xC000 == 0 && c & 0xC000 == 0
    ensures (x | c) & 0xC000 == 0
  {
  }

  /** Bits 14 and 15 of the field are never set. */
  lemma {:induction false} ButtonFieldTopBitsClear(status: seq<bv8>, n: nat)
    requires |status| == SlotCount && n <= |ReportButtons|
    ensures ButtonFieldUpTo(status, n) & 0xC000 == 0
  {
    if n > 0 {
      ButtonFieldTopBitsClear(status, n - 1);
      MaskShape(n - 1);
      OrTopClear(ButtonFieldUpTo(status, n - 1), Contribution(status, ReportButtons[n - 1]));
    }
  }

  // ---- The report (main.c:100-108, 131-166) ----

  /** joy_report_t: Button, HAT, LX, LY, RX, RY, VendorSpec. */
  datatype JoyReport = JoyReport(button: bv16, hat: bv8, lx: bv8, ly: bv8, rx: bv8, ry: bv8, vendorSpec: bv8)

  /** generate_report_joy over a buttonStatus table. The memset leaves
      VendorSpec at 0; nothing writes it afterwards. */
  function GenerateReportJoy(status: seq<bv8>): (r: JoyReport)
    requires |status| == SlotCount
    ensures r.vendorSpec == 0
  {
    JoyReport(
      ButtonField(status),
      Hat(status[Up] != 0, status[Down] != 0, status[Left] != 0, status[Right] != 0),
      status[AxisLX], status[AxisLY], status[AxisRX], status[AxisRY],
      0)
  }

  /** The slot each logical button other than CAPTURE reads is driven by a mask
      bit, and it is not an axis slot. */
  lemma ReportButtonDriven(k: nat)
    requires k < |ReportButtons| && k != CaptureIndex
    ensures ReportButtons[k].slot < SlotCount && SlotButton(ReportButtons[k].slot).Some?
    ensures !(AxisLX <= ReportButtons[k].slot <= AxisRY)
  {
  }

  /** The report a poll produces from the button mask and the slider word: every
      logical button other than CAPTURE has its bit set iff the mask bit that
      drives its slot is set. */
  lemma PadReportButton(prev: seq<bv8>, buttons: bv32, slider: bv32, k: nat)
    requires |prev| == SlotCount && k < |ReportButtons| && k != CaptureIndex
    ensures ReportButtons[k].slot < SlotCount && SlotButton(ReportButtons[k].slot).Some?
    ensures GenerateReportJoy(JoyStatus(prev, buttons, slider)).button & ReportButtons[k].mask != 0
      <==> Bit(buttons, SlotButton(ReportButtons[k].slot).value)
  {
    ReportButtonDriven(k);
    ButtonFieldBit(JoyStatus(prev, buttons, slider), k);
  }

  /** CAPTURE is never reported while its slot holds 0, as it always does (see
      PadState). */
  lemma PadReportNoCapture(prev: seq<bv8>, buttons: bv32, slider: bv32)
    requires |prev| == SlotCount && prev[ButtonCapture] == 0
    ensures GenerateReportJoy(JoyStatus(prev, buttons, slider)).button & ReportButtons[CaptureIndex].mask == 0
  {
    ButtonFieldBit(JoyStatus(prev, buttons, slider), CaptureIndex);
  }

  /** The HAT of that report follows mask bits 13 (up), 15 (down), 16 (left)
      and 14 (right). */
  lemma PadReportHat(prev: seq<bv8>, buttons: bv32, slider: bv32)
    requires |prev| == SlotCount
    ensures GenerateReportJoy(JoyStatus(prev, buttons, slider)).hat
      == Hat(Bit(buttons, 13), Bit(buttons, 15), Bit(buttons, 16), Bit(buttons, 14))
  {
  }

  /** Its axes are the slider lanes with their top bit flipped. */
  lemma PadReportAxes(prev: seq<bv8>, buttons: bv32, slider: bv32)
    requires |prev| == SlotCount
    ensures var r := GenerateReportJoy(JoyStatus(prev, buttons, slider));
      && r.lx == Lane(slider, 0) ^ 0x80 && r.ly == Lane(slider, 1) ^ 0x80
      && r.rx == Lane(slider, 2) ^ 0x80 && r.ry == Lane(slider, 3) ^ 0x80
  {
  }

  /** buttonStatus, the table update_state_joy fills in place. The CAPTURE slot
      starts at 0 and no mask bit drives it, so it stays 0. */
  class PadState {
    var buttonStatus: array<bv8>

    predicate Valid()
      reads this, buttonStatus
    {
      buttonStatus.Length == SlotCount && buttonStatus[ButtonCapture] == 0
    }

    /** `static uint8_t buttonStatus[22] = {0};` */
    constructor ()
      ensures Valid() && fresh(buttonStatus)
      ensures buttonStatus[..] == seq(SlotCount, _ => 0)
    {
      buttonStatus := new bv8[SlotCount](_ => 0);
    }

    /** update_state_joy (main.c:115-128). */
    method UpdateStateJoy(buttons: bv32, slider: bv32)
      requires Valid()
      modifies buttonStatus
      ensures Valid()
      ensures buttonStatus[..] == JoyStatus(old(buttonStatus[..]), buttons, slider)
    {
      ghost var prev := buttonStatus[..];
      for i := 0 to ButtonCount
        invariant buttonStatus.Length == SlotCount
        invariant buttonStatus[..] == ButtonsUpTo(prev, buttons, i)
      {
        ghost var before := buttonStatus[..];
        OrderThenSlot(i);
        ButtonsUpToStep(prev, buttons, i);
        if Bit(buttons, i) {
          buttonStatus[Order[i]] := 1;
        } else {
          buttonStatus[Order[i]] := 0;
        }
        assert buttonStatus[..] == before[Order[i] := Flag(Bit(buttons, i))];
      }
      StoreAxes(buttonStatus, slider);
      JoyStatusInTwoSteps(prev, buttons, slider);
    }

    /** prepare_report (main.c:168-171): update the table, then encode it. */
    method PrepareReport(buttons: bv32, slider: bv32) returns (r: JoyReport)
      requires Valid()
      modifies buttonStatus
      ensures Valid()
      ensures buttonStatus[..] == JoyStatus(old(buttonStatus[..]), buttons, slider)
      ensures r == GenerateReportJoy(buttonStatus[..])
    {
      UpdateStateJoy(buttons, slider);
      r := GenerateReportJoy(buttonStatus[..]);
    }
  }

  /** `*(uint32_t *)&buttonStatus[AXISLX] = g_full_slider; *axis ^= 0x80808080;`:
      the four axis bytes receive the little-endian lanes of the XORed word. */
  method StoreAxes(a: array<bv8>, slider: bv32)
    requires a.Length == SlotCount
    modifies a
    ensures a[..] == WithAxes(old(a[..]), slider ^ 0x8080_8080)
  {
    var axes := slider ^ 0x8080_8080;
    a[AxisLX] := Lane(axes, 0);
    a[AxisLY] := Lane(axes, 1);
    a[AxisRX] := Lane(axes, 2);
    a[AxisRY] := Lane(axes, 3);
  }

  /** buttonStatus after the first n iterations of the button loop. */
  function ButtonsUpTo(prev: seq<bv8>, buttons: bv32, n: nat): (s: seq<bv8>)
    requires |prev| == SlotCount
    ensures |s| == SlotCount
  {
    seq(SlotCount, j requires 0 <= j < SlotCount =>
      if SlotButton(j).Some? && SlotButton(j).value < n then Flag(Bit(buttons, SlotButton(j).value))
      else prev[j])
  }

  /** One more iteration writes slot order[n] and nothing else. */
  lemma ButtonsUpToStep(prev: seq<bv8>, buttons: bv32, n: nat)
    requires |prev| == SlotCount && n < ButtonCount
    ensures Order[n] < SlotCount
    ensures ButtonsUpTo(prev, buttons, n + 1) == ButtonsUpTo(prev, buttons, n)[Order[n] := Flag(Bit(buttons, n))]
  {
    OrderThenSlot(n);
    var a := ButtonsUpTo(prev, buttons, n + 1);
    var b := ButtonsUpTo(prev, buttons, n)[Order[n] := Flag(Bit(buttons, n))];
    forall j | 0 <= j < SlotCount
      ensures a[j] == b[j]
    {
      if j != Order[n] && SlotButton(j).Some? {
        SlotThenOrder(j);
      }
    }
  }

  /** The table with the axis slots replaced by the lanes of a word. */
  function WithAxes(s: seq<bv8>, axes: bv32): (t: seq<bv8>)
    requires |s| == SlotCount
    ensures |t| == SlotCount
  {
    s[AxisLX := Lane(axes, 0)][AxisLY := Lane(axes, 1)][AxisRX := Lane(axes, 2)][AxisRY := Lane(axes, 3)]
  }

  /** The loop over the mask bits followed by the 32-bit store of the XORed
      slider word yields JoyStatus. */
  lemma JoyStatusInTwoSteps(prev: seq<bv8>, buttons: bv32, slider: bv32)
    requires |prev| == SlotCount
    ensures JoyStatus(prev, buttons, slider) == WithAxes(ButtonsUpTo(prev, buttons, ButtonCount), slider ^ 0x8080_8080)
  {
    forall j | 0 <= j < SlotCount
      ensures JoyStatus(prev, buttons, slider)[j] == WithAxes(ButtonsUpTo(prev, buttons, ButtonCount), slider ^ 0x8080_8080)[j]
    {
      if AxisLX <= j <= AxisRY {
        InTwoStepsAxis(prev, buttons, slider, j);
      } else {
        InTwoStepsButton(prev, buttons, slider, j);
      }
    }
  }

  lemma InTwoStepsAxis(prev: seq<bv8>, buttons: bv32, slider: bv32, j: nat)
    requires |prev| == SlotCount && AxisLX <= j <= AxisRY
    ensures JoyStatus(prev, buttons, slider)[j] == WithAxes(ButtonsUpTo(prev, buttons, ButtonCount), slider ^ 0x8080_8080)[j]
  {
    WithAxesAxis(ButtonsUpTo(prev, buttons, ButtonCount), slider ^ 0x8080_8080, j);
    XorLane(slider, j - AxisLX);
  }

  /** The axis slots of WithAxes hold the lanes in order. */
  lemma WithAxesAxis(s: seq<bv8>, axes: bv32, j: nat)
    requires |s| == SlotCount && AxisLX <= j <= AxisRY
    ensures WithAxes(s, axes)[j] == Lane(axes, j - AxisLX)
  {
  }

  lemma InTwoStepsButton(prev: seq<bv8>, buttons: bv32, slider: bv32, j: nat)
    requires |prev| == SlotCount && j < SlotCount && !(AxisLX <= j <= AxisRY)
    ensures JoyStatus(prev, buttons, slider)[j] == WithAxes(ButtonsUpTo(prev, buttons, ButtonCount), slider ^ 0x8080_8080)[j]
  {
    if SlotButton(j).Some? {
      SlotThenOrder(j);
    }
  }
}
