/** The NKRO keyboard encoder of main.c: prepare_report_kb (main.c:181-226)
    clears the 32-byte nkro_report and sets one bit per pressed key, key code c
    going to byte c / 8 + 1, bit c % 8 (byte 0 holds the modifier bits). The
    four switches press Q, W, O and P; the twelve windows of the raw slider word
    press 1 to 0, '-' and '='. */
module Keyboard {
  import opened Optional
  import opened Bits

  /** Key codes of the Keyboard/Keypad page (0x07) of the HID Usage Tables. */
  const KeyQ: nat := 0x14
  const KeyW: nat := 0x1A
  const KeyO: nat := 0x12
  const KeyP: nat := 0x13

  /** SW_KEYCODE (main.c:96): the keys of the first four buttons. */
  const SwKeycode: seq<nat> := [KeyQ, KeyW, KeyO, KeyP]

  /** SLIDER_KEYCODE (main.c:97): HID_KEY_1 .. HID_KEY_9 are 0x1E .. 0x26,
      HID_KEY_0 is 0x27, HID_KEY_MINUS 0x2D and HID_KEY_EQUAL 0x2E. */
  const SliderKeycode: seq<nat> := [0x1E, 0x1F, 0x20, 0x21, 0x22, 0x23, 0x24, 0x25, 0x26, 0x27, 0x2D, 0x2E]

  const ReportSize: nat := 32

  // ---- One key (main.c:185-192) ----

  /** The byte of nkro_report a key code lands in: 0 for the codes the code
      treats as modifiers (240-247), c / 8 + 1 when that is at most 31, and
      nowhere otherwise. */
  function KeyByte(c: nat): (b: Option<nat>)
    requires c < 256
    ensures b.Some? ==> b.value < ReportSize
  {
    if 240 <= c <= 247 then Some(0)
    else if 0 < c / 8 + 1 <= 31 then Some(c / 8 + 1)
    else None
  }

  /** The byte with only bit t set, `1 << bit`, written as a chain of literals
      rather than a shift like Bits.BitMask: with the position fixed, each
      report-byte obligation stays a constant fold instead of a symbolic shift. */
  function ByteSingle(t: nat): bv8
    requires t < 8
  {
    if t == 0 then 0x01 else if t == 1 then 0x02 else if t == 2 then 0x04 else if t == 3 then 0x08
    else if t == 4 then 0x10 else if t == 5 then 0x20 else if t == 6 then 0x40 else 0x80
  }

  /** Bit t of a report byte is set. */
  predicate KeyOn(x: bv8, t: nat)
    requires t < 8
  {
    x & ByteSingle(t) != 0
  }

  /** The report after `nkro_report[byte] |= (1 << bit)` for key code c. */
  function SetKeyBits(s: seq<bv8>, c: nat): (r: seq<bv8>)
    requires |s| == ReportSize && c < 256
    ensures |r| == ReportSize
  {
    match KeyByte(c)
    case None => s
    case Some(b) => s[b := s[b] | ByteSingle(c % 8)]
  }

  /** One test of prepare_report_kb: a key code and whether its condition held. */
  datatype KeyTest = KeyTest(code: nat, pressed: bool)

  predicate WellCoded(tests: seq<KeyTest>) {
    forall j :: 0 <= j < |tests| ==> tests[j].code < 240
  }

  function ApplyKey(s: seq<bv8>, test: KeyTest): (r: seq<bv8>)
    requires |s| == ReportSize && test.code < 256
    ensures |r| == ReportSize
  {
    if test.pressed then SetKeyBits(s, test.code) else s
  }

  /** The report after the tests in order, starting from s. */
  function ApplyKeys(s: seq<bv8>, tests: seq<KeyTest>): (r: seq<bv8>)
    requires |s| == ReportSize && WellCoded(tests)
    ensures |r| == ReportSize
    decreases |tests|
  {
    if tests == [] then s
    else ApplyKey(ApplyKeys(s, tests[..|tests| - 1]), tests[|tests| - 1])
  }

  lemma ApplyKeysStep(s: seq<bv8>, tests: seq<KeyTest>, k: nat)
    requires |s| == ReportSize && WellCoded(tests) && k < |tests|
    ensures ApplyKeys(s, tests[..k + 1]) == ApplyKey(ApplyKeys(s, tests[..k]), tests[k])
  {
    assert tests[..k + 1][..k] == tests[..k];
  }

  /** Some test presses key code c. */
  predicate AnyCode(tests: seq<KeyTest>, c: nat)
    decreases |tests|
  {
    tests != [] && ((tests[|tests| - 1].pressed && tests[|tests| - 1].code == c) || AnyCode(tests[..|tests| - 1], c))
  }

  // ---- The tests prepare_report_kb makes (main.c:183-225) ----

  /** `(g_full_slider >> 29) & 7` (main.c:195). */
  predicate TopWindowSet(slider: bv32) {
    (slider >> 29) & 7 != 0
  }

  /** `g_full_slider & 7` (main.c:217). */
  predicate BottomWindowSet(slider: bv32) {
    slider & 7 != 0
  }

  /** The 32 bits of a word, bit i at index i. */
  function BitsOf(x: bv32): (b: seq<bool>)
    ensures |b| == 32
  {
    seq(32, i requires 0 <= i < 32 => Bit(x, i))
  }

  /** What prepare_report_kb reads of its inputs: the bits of the button mask,
      the bits of the raw slider word, and its two window tests. */
  datatype KeyInputs = KeyInputs(buttons: seq<bool>, slider: seq<bool>, top: bool, bottom: bool)

  predicate WellFormed(v: KeyInputs) {
    |v.buttons| == 32 && |v.slider| == 32
  }

  function InputsOf(buttons: bv32, slider: bv32): (v: KeyInputs)
    ensures WellFormed(v)
  {
    KeyInputs(BitsOf(buttons), BitsOf(slider), TopWindowSet(slider), BottomWindowSet(slider))
  }

  /** Test k of the 18 prepare_report_kb makes, in source order: the four
      switches, the top window of key 0, the twelve single-bit tests
      `(g_full_slider >> (27 - 2 * i)) & 1`, the bottom window of key 11. */
  function KeyTestAt(v: KeyInputs, k: nat): (test: KeyTest)
    requires WellFormed(v) && k < 18
    ensures test.code < 240
  {
    if k < 4 then KeyTest(SwKeycode[k], v.buttons[k])
    else if k == 4 then KeyTest(SliderKeycode[0], v.top)
    else if k < 17 then KeyTest(SliderKeycode[k - 5], v.slider[27 - 2 * (k - 5)])
    else KeyTest(SliderKeycode[11], v.bottom)
  }

  function KeyTests(v: KeyInputs): (tests: seq<KeyTest>)
    requires WellFormed(v)
    ensures |tests| == 18 && WellCoded(tests)
  {
    seq(18, k requires 0 <= k < 18 => KeyTestAt(v, k))
  }

  function Zeros(): (s: seq<bv8>)
    ensures |s| == ReportSize
  {
    seq(ReportSize, _ => 0)
  }

  /** nkro_report after prepare_report_kb. */
  function KbReport(buttons: bv32, slider: bv32): (s: seq<bv8>)
    ensures |s| == ReportSize
  {
    ApplyKeys(Zeros(), KeyTests(InputsOf(buttons, slider)))
  }

  // ---- The reference: which key each code stands for ----

  /** The switch whose key is c, if any: the inverse of SW_KEYCODE. */
  function SwIndex(c: nat): Option<nat> {
    if c == KeyQ then Some(0) else if c == KeyW then Some(1)
    else if c == KeyO then Some(2) else if c == KeyP then Some(3) else None
  }

  /** The slider key whose code is c, if any: the inverse of SLIDER_KEYCODE. */
  function SliderIndex(c: nat): Option<nat> {
    if 0x1E <= c <= 0x27 then Some(c - 0x1E)
    else if c == 0x2D then Some(10) else if c == 0x2E then Some(11) else None
  }

  /** The slider window of key i: key 0 is bit 27 (the loop) or any of bits
      29-31 (main.c:195); key 11 is bit 5 (the loop) or any of bits 0-2
      (main.c:217); key i in between is bit 27 - 2i alone (main.c:206). */
  predicate SliderKeyPressed(slider: seq<bool>, i: nat)
    requires |slider| == 32 && i < 12
  {
    if i == 0 then slider[27] || slider[29] || slider[30] || slider[31]
    else if i == 11 then slider[0] || slider[1] || slider[2] || slider[5]
    else slider[27 - 2 * i]
  }

  /** Whether key code c should be reported as held. */
  predicate KeyPressed(v: KeyInputs, c: nat)
    requires WellFormed(v)
  {
    (SwIndex(c).Some? && SwIndex(c).value < 4 && v.buttons[SwIndex(c).value])
    || (SliderIndex(c).Some? && SliderIndex(c).value < 12 && SliderKeyPressed(v.slider, SliderIndex(c).value))
  }

  /** The window tests read the bits they cover. */
  predicate WindowsAgree(v: KeyInputs)
    requires WellFormed(v)
  {
    && v.top == (v.slider[29] || v.slider[30] || v.slider[31])
    && v.bottom == (v.slider[0] || v.slider[1] || v.slider[2])
  }

  lemma SwIndexInverse(i: nat)
    requires i < 4
    ensures SwIndex(SwKeycode[i]) == Some(i) && SliderIndex(SwKeycode[i]) == None
  {
  }

  lemma SliderIndexInverse(i: nat)
    requires i < 12
    ensures SliderIndex(SliderKeycode[i]) == Some(i) && SwIndex(SliderKeycode[i]) == None
  {
  }

  /** No key of either table falls in the modifier range 224-231 of the report
      descriptor nor in the range 240-247 the code tests for: the modifier
      branch of main.c:187 is never taken, and byte 0 is never written. */
  lemma NoModifierKeys(c: nat)
    requires SwIndex(c).Some? || SliderIndex(c).Some?
    ensures c < 224 && !(240 <= c <= 247) && KeyByte(c) == Some(c / 8 + 1) && 1 <= c / 8 + 1 <= 31
  {
  }

  // ---- Bit-level facts ----

  lemma OrSingleOn(x: bv8, u: nat, t: nat)
    requires u < 8 && t < 8
    ensures KeyOn(x | ByteSingle(u), t) == (KeyOn(x, t) || u == t)
  {
    if u == t {
      SingleOnItself(x, t);
    } else {
      SinglesApart(x, u, t);
    }
  }

  lemma SingleOnItself(x: bv8, t: nat)
    requires t < 8
    ensures KeyOn(x | ByteSingle(t), t)
  {
  }

  lemma SinglesApart(x: bv8, u: nat, t: nat)
    requires u < 8 && t < 8 && u != t
    ensures KeyOn(x | ByteSingle(u), t) == KeyOn(x, t)
  {
  }

  /** A byte with none of its eight bits set is 0. */
  lemma NoBitsIsZero(x: bv8)
    requires !KeyOn(x, 0) && !KeyOn(x, 1) && !KeyOn(x, 2) && !KeyOn(x, 3)
    requires !KeyOn(x, 4) && !KeyOn(x, 5) && !KeyOn(x, 6) && !KeyOn(x, 7)
    ensures x == 0
  {
  }

  /** The position of a code in the report: byte b >= 1, bit t. */
  function CodeAt(b: nat, t: nat): nat
    requires 1 <= b
  {
    (b - 1) * 8 + t
  }

  /** One pressed ordinary key turns on exactly its own bit. */
  lemma ApplyKeyOn(s: seq<bv8>, test: KeyTest, b: nat, t: nat)
    requires |s| == ReportSize && test.code < 240 && b < ReportSize && t < 8
    ensures KeyOn(ApplyKey(s, test)[b], t)
      == (KeyOn(s[b], t) || (1 <= b && test.pressed && test.code == CodeAt(b, t)))
  {
    if test.pressed {
      var c := test.code;
      assert KeyByte(c) == Some(c / 8 + 1);
      if b == c / 8 + 1 {
        OrSingleOn(s[b], c % 8, t);
      }
    }
  }

  /** A run of ordinary keys turns on exactly the bits of the keys pressed. */
  lemma {:induction false} ApplyKeysOn(s: seq<bv8>, tests: seq<KeyTest>, b: nat, t: nat)
    requires |s| == ReportSize && WellCoded(tests) && b < ReportSize && t < 8
    ensures KeyOn(ApplyKeys(s, tests)[b], t) == (KeyOn(s[b], t) || (1 <= b && AnyCode(tests, CodeAt(b, t))))
    decreases |tests|
  {
    if tests != [] {
      var init := tests[..|tests| - 1];
      ApplyKeysOn(s, init, b, t);
      ApplyKeyOn(ApplyKeys(s, init), tests[|tests| - 1], b, t);
    }
  }

  lemma ZerosOff(b: nat, t: nat)
    requires b < ReportSize && t < 8
    ensures !KeyOn(Zeros()[b], t)
  {
  }

  /** `(x >> 29) & 7` is nonzero iff one of bits 29-31 is set. */
  lemma TopWindow(x: bv32)
    ensures TopWindowSet(x) == (Bit(x, 29) || Bit(x, 30) || Bit(x, 31))
  {
  }

  /** `x & 7` is nonzero iff one of bits 0-2 is set. */
  lemma BottomWindow(x: bv32)
    ensures BottomWindowSet(x) == (Bit(x, 0) || Bit(x, 1) || Bit(x, 2))
  {
  }

  lemma InputsAgree(buttons: bv32, slider: bv32)
    ensures WindowsAgree(InputsOf(buttons, slider))
  {
    TopWindow(slider);
    BottomWindow(slider);
  }

  /** The tests press exactly the keys KeyPressed names. */
  lemma TestsPress(v: KeyInputs, c: nat)
    requires WellFormed(v) && WindowsAgree(v)
    ensures AnyCode(KeyTests(v), c) == KeyPressed(v, c)
  {
    var tests := KeyTests(v);
    AnyCodeExists(tests, c);
    if KeyPressed(v, c) {
      var k := KeyHasTest(v, c);
      assert tests[k].pressed && tests[k].code == c;
    }
    if AnyCode(tests, c) {
      var k :| 0 <= k < |tests| && tests[k].pressed && tests[k].code == c;
      PressedTestIsKey(v, k);
    }
  }

  /** Every test that fires presses a held key. */
  lemma PressedTestIsKey(v: KeyInputs, k: nat)
    requires WellFormed(v) && WindowsAgree(v) && k < 18 && KeyTestAt(v, k).pressed
    ensures KeyPressed(v, KeyTestAt(v, k).code)
  {
    if k < 4 {
      SwIndexInverse(k);
    } else if k == 4 {
      SliderIndexInverse(0);
    } else if k < 17 {
      SliderIndexInverse(k - 5);
    } else {
      SliderIndexInverse(11);
    }
  }

  /** Every held key has a test that fires for it; k is that test. */
  lemma KeyHasTest(v: KeyInputs, c: nat) returns (k: nat)
    requires WellFormed(v) && WindowsAgree(v) && KeyPressed(v, c)
    ensures k < 18 && KeyTestAt(v, k) == KeyTest(c, true)
  {
    if SwIndex(c).Some? && SwIndex(c).value < 4 && v.buttons[SwIndex(c).value] {
      k := SwIndex(c).value;
    } else {
      var i := SliderIndex(c).value;
      if i == 0 {
        k := if v.slider[27] then 5 else 4;
      } else if i == 11 {
        k := if v.slider[5] then 16 else 17;
      } else {
        k := 5 + i;
      }
    }
  }

  lemma {:induction false} AnyCodeExists(tests: seq<KeyTest>, c: nat)
    ensures AnyCode(tests, c) == exists j :: 0 <= j < |tests| && tests[j].pressed && tests[j].code == c
    decreases |tests|
  {
    if tests != [] {
      var init := tests[..|tests| - 1];
      AnyCodeExists(init, c);
      assert forall j :: 0 <= j < |init| ==> init[j] == tests[j];
    }
  }

  /** The keyboard report: the bit of code c, at byte c / 8 + 1 and bit c % 8,
      is set iff the key of c is held. */
  lemma KbReportBits(buttons: bv32, slider: bv32, b: nat, t: nat)
    requires 1 <= b < ReportSize && t < 8
    ensures KeyOn(KbReport(buttons, slider)[b], t) == KeyPressed(InputsOf(buttons, slider), CodeAt(b, t))
  {
    var v := InputsOf(buttons, slider);
    ApplyKeysOn(Zeros(), KeyTests(v), b, t);
    ZerosOff(b, t);
    InputsAgree(buttons, slider);
    TestsPress(v, CodeAt(b, t));
  }

  /** Byte 0, the modifier byte, stays 0. */
  lemma KbReportModifiersClear(buttons: bv32, slider: bv32)
    ensures KbReport(buttons, slider)[0] == 0
  {
    forall t | 0 <= t < 8
      ensures !KeyOn(KbReport(buttons, slider)[0], t)
    {
      ApplyKeysOn(Zeros(), KeyTests(InputsOf(buttons, slider)), 0, t);
      ZerosOff(0, t);
    }
    NoBitsIsZero(KbReport(buttons, slider)[0]);
  }

  /** Switch i (a bit of the button mask) holds its key Q, W, O or P. */
  lemma SwitchKey(buttons: bv32, slider: bv32, i: nat)
    requires i < 4
    ensures var c := SwKeycode[i];
      KeyOn(KbReport(buttons, slider)[c / 8 + 1], c % 8) == Bit(buttons, i)
  {
    var c := SwKeycode[i];
    NoModifierKeys(c);
    KbReportBits(buttons, slider, c / 8 + 1, c % 8);
    SwIndexInverse(i);
  }

  /** Slider window i holds key SLIDER_KEYCODE[i]. */
  lemma SliderKey(buttons: bv32, slider: bv32, i: nat)
    requires i < 12
    ensures var c := SliderKeycode[i];
      KeyOn(KbReport(buttons, slider)[c / 8 + 1], c % 8) == SliderKeyPressed(BitsOf(slider), i)
  {
    var c := SliderKeycode[i];
    NoModifierKeys(c);
    KbReportBits(buttons, slider, c / 8 + 1, c % 8);
    SliderIndexInverse(i);
  }

  /** The windows on the raw word: key 0 is any of bits 27, 29, 30, 31, key i
      (1..10) is bit 27 - 2i, key 11 is any of bits 0, 1, 2, 5. */
  lemma SliderKeyWindows(slider: bv32, i: nat)
    requires i < 12
    ensures i == 0 ==> (SliderKeyPressed(BitsOf(slider), i)
      == (Bit(slider, 27) || Bit(slider, 29) || Bit(slider, 30) || Bit(slider, 31)))
    ensures 0 < i < 11 ==> SliderKeyPressed(BitsOf(slider), i) == Bit(slider, 27 - 2 * i)
    ensures i == 11 ==> (SliderKeyPressed(BitsOf(slider), i)
      == (Bit(slider, 0) || Bit(slider, 1) || Bit(slider, 2) || Bit(slider, 5)))
  {
  }

  /** nkro_report, the 32-byte buffer prepare_report_kb fills in place. */
  class NkroReport {
    var report: array<bv8>

    predicate Valid()
      reads this
    {
      report.Length == ReportSize
    }

    /** `uint8_t nkro_report[32] = {0};` */
    constructor ()
      ensures Valid() && fresh(report) && report[..] == Zeros()
    {
      report := new bv8[ReportSize](_ => 0);
    }

    /** `memset(nkro_report, 0, 32);` */
    method Clear()
      requires Valid()
      modifies report
      ensures report[..] == Zeros()
    {
      for i := 0 to ReportSize
        invariant forall j :: 0 <= j < i ==> report[j] == 0
      {
        report[i] := 0;
      }
    }

    /** The body of every `if` of prepare_report_kb: compute byte and bit, then
        set the bit in byte 0 for a modifier code or in byte c / 8 + 1. */
    method SetKey(c: nat)
      requires Valid() && c < 256
      modifies report
      ensures report[..] == SetKeyBits(old(report[..]), c)
    {
      var bit := c % 8;
      var byte := c / 8 + 1;
      if 240 <= c <= 247 {
        report[0] := report[0] | ByteSingle(bit);
      } else if 0 < byte <= 31 {
        report[byte] := report[byte] | ByteSingle(bit);
      }
    }

    /** prepare_report_kb (main.c:181-226). */
    method PrepareReportKb(buttons: bv32, slider: bv32)
      requires Valid()
      modifies report
      ensures report[..] == KbReport(buttons, slider)
    {
      Clear();
      ghost var tests := KeyTests(InputsOf(buttons, slider));
      assert tests[..0] == [];
      PressSwitchKeys(buttons, tests);
      PressSliderKeys(slider, tests);
      assert tests[..18] == tests;
    }

    /** The loop over the four switches (main.c:183-193). */
    method PressSwitchKeys(buttons: bv32, ghost tests: seq<KeyTest>)
      requires Valid() && |tests| == 18 && WellCoded(tests)
      requires forall k :: 0 <= k < 4 ==> tests[k] == KeyTest(SwKeycode[k], Bit(buttons, k))
      requires report[..] == ApplyKeys(Zeros(), tests[..0])
      modifies report
      ensures report[..] == ApplyKeys(Zeros(), tests[..4])
    {
      for i := 0 to 4
        invariant report[..] == ApplyKeys(Zeros(), tests[..i])
      {
        Press(tests, i, SwKeycode[i], Bit(buttons, i));
      }
    }

    /** The top window, the loop over the twelve slider keys and the bottom
        window (main.c:195-225). */
    method PressSliderKeys(slider: bv32, ghost tests: seq<KeyTest>)
      requires Valid() && |tests| == 18 && WellCoded(tests)
      requires tests[4] == KeyTest(SliderKeycode[0], TopWindowSet(slider))
      requires forall k :: 5 <= k < 17 ==> tests[k] == KeyTest(SliderKeycode[k - 5], Bit(slider, 27 - 2 * (k - 5)))
      requires tests[17] == KeyTest(SliderKeycode[11], BottomWindowSet(slider))
      requires report[..] == ApplyKeys(Zeros(), tests[..4])
      modifies report
      ensures report[..] == ApplyKeys(Zeros(), tests[..18])
    {
      Press(tests, 4, SliderKeycode[0], TopWindowSet(slider));
      PressSliderLoop(slider, tests);
      Press(tests, 17, SliderKeycode[11], BottomWindowSet(slider));
    }

    /** The loop over the twelve slider keys (main.c:205-215). */
    method PressSliderLoop(slider: bv32, ghost tests: seq<KeyTest>)
      requires Valid() && |tests| == 18 && WellCoded(tests)
      requires forall k :: 5 <= k < 17 ==> tests[k] == KeyTest(SliderKeycode[k - 5], Bit(slider, 27 - 2 * (k - 5)))
      requires report[..] == ApplyKeys(Zeros(), tests[..5])
      modifies report
      ensures report[..] == ApplyKeys(Zeros(), tests[..17])
    {
      for i := 0 to 12
        invariant report[..] == ApplyKeys(Zeros(), tests[..5 + i])
      {
        Press(tests, 5 + i, SliderKeycode[i], Bit(slider, 27 - 2 * i));
      }
    }

    /** One `if` of prepare_report_kb: when the condition holds, set the key. */
    method Press(ghost tests: seq<KeyTest>, ghost k: nat, c: nat, pressed: bool)
      requires Valid() && WellCoded(tests) && k < |tests| && tests[k] == KeyTest(c, pressed)
      requires report[..] == ApplyKeys(Zeros(), tests[..k])
      modifies report
      ensures report[..] == ApplyKeys(Zeros(), tests[..k + 1])
    {
      ApplyKeysStep(Zeros(), tests, k);
      if pressed {
        SetKey(c);
      }
    }
  }
}
