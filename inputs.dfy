/** The button sampler of main.c: update_inputs (main.c:235-275) reads the 17
    button pins (active low, pulled up) into the mask g_button_state. The first
    four lines, the ones the keyboard mode maps to keys, are debounced on press:
    a press is committed at once and then held for DEBOUNCE_CYCLES calls. */
module Inputs {
  import opened Bits

  /** DEBOUNCE_CYCLES (main.c:19). */
  const DebounceCycles: nat := 500

  /** NUM_BUTTONS (main.c:39). */
  const LineCount: nat := 17

  /** The lines with a countdown: last_change[4], prev_state[4]. */
  const DebouncedCount: nat := 4

  /** What one call makes of a debounced line: its new countdown and the
      level it reports (true is released: the pins are pulled up). */
  datatype LineStep = LineStep(count: nat, input: bool)

  /** One debounced line (main.c:242-260). BOUNCE_CAN_UPDATE(x), that is
      `!x || !(--x)`, decrements a nonzero countdown and lets the pin be read
      when the countdown is (or has just become) 0; a press read then re-arms
      the countdown. Otherwise the line repeats prev_state. */
  function Debounce(count: nat, prev: bool, level: bool): (r: LineStep)
  {
    var left := if count == 0 then 0 else count - 1;
    if left == 0 then LineStep(if !level then DebounceCycles else 0, level)
    else LineStep(left, prev)
  }

  /** With the countdown at 0 the line reads the pin, and a press re-arms
      the countdown to DEBOUNCE_CYCLES. */
  lemma DebounceIdle(prev: bool, level: bool)
    ensures Debounce(0, prev, level).input == level
    ensures Debounce(0, prev, level).count == if level then 0 else DebounceCycles
  {
  }

  /** While the countdown is above 1 the pin is not read: the line repeats its
      previous level and the countdown drops by one. */
  lemma DebounceBusy(count: nat, prev: bool, level: bool)
    requires count > 1
    ensures Debounce(count, prev, level) == LineStep(count - 1, prev)
  {
  }

  /** The countdown never exceeds DEBOUNCE_CYCLES, so the uint16_t never wraps. */
  lemma DebounceBounded(count: nat, prev: bool, level: bool)
    requires count <= DebounceCycles
    ensures Debounce(count, prev, level).count <= DebounceCycles
  {
  }

  /** The levels a debounced line reports over successive calls. */
  function Reported(count: nat, prev: bool, levels: seq<bool>): (r: seq<bool>)
    ensures |r| == |levels|
    decreases |levels|
  {
    if levels == [] then []
    else
      var step := Debounce(count, prev, levels[0]);
      [step.input] + Reported(step.count, step.input, levels[1..])
  }

  /** A line whose countdown is c and that last reported pressed keeps
      reporting pressed for the next c - 1 calls, whatever the pin does. */
  lemma {:induction false} HeldWhileCounting(count: nat, levels: seq<bool>)
    requires |levels| < count
    ensures forall k :: 0 <= k < |levels| ==> !Reported(count, false, levels)[k]
  {
    if levels != [] {
      HeldWhileCounting(count - 1, levels[1..]);
    }
  }

  /** A press committed by one call holds for the next DEBOUNCE_CYCLES - 1
      calls (499), whatever the pin does. */
  lemma PressHolds(prev: bool, levels: seq<bool>)
    requires |levels| == DebounceCycles - 1
    ensures forall k :: 0 <= k < |levels| ==> !Reported(Debounce(0, prev, false).count, false, levels)[k]
  {
    HeldWhileCounting(DebounceCycles, levels);
  }

  /** The call after those reads the pin again, so a release is seen. */
  lemma ReleaseSeenAfterCountdown(prev: bool, level: bool)
    ensures Debounce(1, prev, level).input == level
  {
  }

  // ---- The mask ----

  /** The mask with bit i set for every i < n with pressed[i]. */
  function MaskUpTo(pressed: seq<bool>, n: nat): bv32
    requires n <= |pressed| && n <= 32
  {
    if n == 0 then 0
    else MaskUpTo(pressed, n - 1) | (if pressed[n - 1] then BitMask(n - 1) else 0)
  }

  /** Bit i of the mask is set iff line i is among the first n and pressed. */
  lemma {:induction false} MaskUpToBit(pressed: seq<bool>, n: nat, i: nat)
    requires n <= |pressed| && n <= 32 && i < 32
    ensures Bit(MaskUpTo(pressed, n), i) == (i < n && pressed[i])
  {
    if n == 0 {
      NoBitOfZero(i);
    } else {
      MaskUpToBit(pressed, n - 1, i);
      MaskStepBit(pressed, n, i);
    }
  }

  /** Step n of the mask adds bit n - 1 when that line is pressed. */
  lemma MaskStepBit(pressed: seq<bool>, n: nat, i: nat)
    requires 0 < n <= |pressed| && n <= 32 && i < 32
    ensures Bit(MaskUpTo(pressed, n), i) == (Bit(MaskUpTo(pressed, n - 1), i) || (pressed[n - 1] && i == n - 1))
  {
    if pressed[n - 1] {
      OrBit(MaskUpTo(pressed, n - 1), i, n - 1);
    } else {
      OrZero(MaskUpTo(pressed, n - 1));
    }
  }

  /** Step n of the mask as the loop body performs it. */
  lemma MaskStep(pressed: seq<bool>, n: nat)
    requires n < |pressed| && n < 32
    ensures MaskUpTo(pressed, n + 1) == if pressed[n] then MaskUpTo(pressed, n) | BitMask(n) else MaskUpTo(pressed, n)
  {
    OrZero(MaskUpTo(pressed, n));
  }

  lemma OrZero(x: bv32)
    ensures x | 0 == x
  {
  }

  lemma HighClear(x: bv32, j: nat)
    requires j < LineCount && x & 0xFFFE_0000 == 0
    ensures (x | BitMask(j)) & 0xFFFE_0000 == 0
  {
  }

  /** Only the 17 line bits can be set: bits 17-31 stay 0. */
  lemma {:induction false} MaskUpToHighClear(pressed: seq<bool>, n: nat)
    requires n <= |pressed| && n <= LineCount
    ensures MaskUpTo(pressed, n) & 0xFFFE_0000 == 0
  {
    if n > 0 {
      MaskUpToHighClear(pressed, n - 1);
      if pressed[n - 1] {
        HighClear(MaskUpTo(pressed, n - 1), n - 1);
      }
    }
  }

  /** Which lines one call of update_inputs reports as pressed: the debounced
      level of lines 0-3 and the raw level of lines 4-16, inverted. */
  function Pressed(counts: seq<nat>, prevs: seq<bool>, levels: seq<bool>): (p: seq<bool>)
    requires |counts| == DebouncedCount && |prevs| == DebouncedCount && |levels| == LineCount
    ensures |p| == LineCount
  {
    seq(LineCount, i requires 0 <= i < LineCount =>
      if i < DebouncedCount then !Debounce(counts[i], prevs[i], levels[i]).input else !levels[i])
  }

  /** last_change after one call. */
  function NewCounts(counts: seq<nat>, prevs: seq<bool>, levels: seq<bool>): (r: seq<nat>)
    requires |counts| == DebouncedCount && |prevs| == DebouncedCount && |levels| == LineCount
    ensures |r| == DebouncedCount
  {
    seq(DebouncedCount, i requires 0 <= i < DebouncedCount => Debounce(counts[i], prevs[i], levels[i]).count)
  }

  /** prev_state after one call. */
  function NewPrevs(counts: seq<nat>, prevs: seq<bool>, levels: seq<bool>): (r: seq<bool>)
    requires |counts| == DebouncedCount && |prevs| == DebouncedCount && |levels| == LineCount
    ensures |r| == DebouncedCount
  {
    seq(DebouncedCount, i requires 0 <= i < DebouncedCount => Debounce(counts[i], prevs[i], levels[i]).input)
  }

  /** last_change once the loop has handled the first n lines. */
  function CountsUpTo(counts: seq<nat>, prevs: seq<bool>, levels: seq<bool>, n: nat): (r: seq<nat>)
    requires |counts| == DebouncedCount && |prevs| == DebouncedCount && |levels| == LineCount
    ensures |r| == DebouncedCount
  {
    seq(DebouncedCount, i requires 0 <= i < DebouncedCount =>
      if i < n then Debounce(counts[i], prevs[i], levels[i]).count else counts[i])
  }

  /** prev_state once the loop has handled the first n lines. */
  function PrevsUpTo(counts: seq<nat>, prevs: seq<bool>, levels: seq<bool>, n: nat): (r: seq<bool>)
    requires |counts| == DebouncedCount && |prevs| == DebouncedCount && |levels| == LineCount
    ensures |r| == DebouncedCount
  {
    seq(DebouncedCount, i requires 0 <= i < DebouncedCount =>
      if i < n then Debounce(counts[i], prevs[i], levels[i]).input else prevs[i])
  }

  /** Handling line n updates entry n of both arrays and nothing else; before
      it, entry n still holds its old values. */
  lemma UpToStep(counts: seq<nat>, prevs: seq<bool>, levels: seq<bool>, n: nat)
    requires |counts| == DebouncedCount && |prevs| == DebouncedCount && |levels| == LineCount
    requires n < DebouncedCount
    ensures CountsUpTo(counts, prevs, levels, n)[n] == counts[n]
    ensures PrevsUpTo(counts, prevs, levels, n)[n] == prevs[n]
    ensures CountsUpTo(counts, prevs, levels, n + 1)
      == CountsUpTo(counts, prevs, levels, n)[n := Debounce(counts[n], prevs[n], levels[n]).count]
    ensures PrevsUpTo(counts, prevs, levels, n + 1)
      == PrevsUpTo(counts, prevs, levels, n)[n := Debounce(counts[n], prevs[n], levels[n]).input]
  {
  }

  /** `if (!input) button_state |= 1 << i;` */
  method MarkLine(state0: bv32, i: nat, on: bool, ghost pressed: seq<bool>) returns (state: bv32)
    requires i < |pressed| && i < 32 && pressed[i] == on && state0 == MaskUpTo(pressed, i)
    ensures state == MaskUpTo(pressed, i + 1)
  {
    MaskStep(pressed, i);
    state := state0;
    if on {
      state := state | BitMask(i);
    }
  }

  /** The lines without a countdown (main.c:264-272). */
  method RawLines(levels: seq<bool>, ghost pressed: seq<bool>, state0: bv32) returns (state: bv32)
    requires |levels| == LineCount && |pressed| == LineCount
    requires forall i :: DebouncedCount <= i < LineCount ==> pressed[i] == !levels[i]
    requires state0 == MaskUpTo(pressed, DebouncedCount)
    ensures state == MaskUpTo(pressed, LineCount)
  {
    state := state0;
    for i := DebouncedCount to LineCount
      invariant state == MaskUpTo(pressed, i)
    {
      state := MarkLine(state, i, !levels[i], pressed);
    }
  }

  /** g_button_state after one call. */
  function ButtonState(counts: seq<nat>, prevs: seq<bool>, levels: seq<bool>): bv32
    requires |counts| == DebouncedCount && |prevs| == DebouncedCount && |levels| == LineCount
  {
    MaskUpTo(Pressed(counts, prevs, levels), LineCount)
  }

  /** The mask is rebuilt from scratch on every call: bit i is line i's
      inverted (debounced for i < 4) level, and bits 17-31 are 0. */
  lemma ButtonStateBits(counts: seq<nat>, prevs: seq<bool>, levels: seq<bool>, i: nat)
    requires |counts| == DebouncedCount && |prevs| == DebouncedCount && |levels| == LineCount
    requires i < 32
    ensures i < DebouncedCount ==> (Bit(ButtonState(counts, prevs, levels), i)
      <==> !Debounce(counts[i], prevs[i], levels[i]).input)
    ensures DebouncedCount <= i < LineCount ==> (Bit(ButtonState(counts, prevs, levels), i) <==> !levels[i])
    ensures LineCount <= i ==> !Bit(ButtonState(counts, prevs, levels), i)
  {
    MaskUpToBit(Pressed(counts, prevs, levels), LineCount, i);
  }

  lemma ButtonStateHighClear(counts: seq<nat>, prevs: seq<bool>, levels: seq<bool>)
    requires |counts| == DebouncedCount && |prevs| == DebouncedCount && |levels| == LineCount
    ensures ButtonState(counts, prevs, levels) & 0xFFFE_0000 == 0
  {
    MaskUpToHighClear(Pressed(counts, prevs, levels), LineCount);
  }

  /** The static state of update_inputs: `uint16_t last_change[4]` and
      `uint8_t prev_state[4]`. */
  class InputSampler {
    var lastChange: seq<nat>
    var prevState: seq<bool>

    predicate Valid()
      reads this
    {
      && |lastChange| == DebouncedCount && |prevState| == DebouncedCount
      && forall i :: 0 <= i < DebouncedCount ==> lastChange[i] <= DebounceCycles
    }

    /** `= {0}` for both arrays. */
    constructor ()
      ensures Valid()
      ensures lastChange == [0, 0, 0, 0] && prevState == [false, false, false, false]
    {
      lastChange := [0, 0, 0, 0];
      prevState := [false, false, false, false];
    }

    /** update_inputs (main.c:235-275); levels[i] is gpio_get(g_but_pin[i]). */
    method UpdateInputs(levels: seq<bool>) returns (state: bv32)
      requires Valid() && |levels| == LineCount
      modifies this
      ensures Valid()
      ensures lastChange == NewCounts(old(lastChange), old(prevState), levels)
      ensures prevState == NewPrevs(old(lastChange), old(prevState), levels)
      ensures state == ButtonState(old(lastChange), old(prevState), levels)
    {
      ghost var counts := lastChange;
      ghost var prevs := prevState;
      ghost var pressed := Pressed(counts, prevs, levels);
      state := 0;
      for i := 0 to DebouncedCount
        invariant Valid()
        invariant state == MaskUpTo(pressed, i)
        invariant lastChange == CountsUpTo(counts, prevs, levels, i)
        invariant prevState == PrevsUpTo(counts, prevs, levels, i)
      {
        UpToStep(counts, prevs, levels, i);
        DebounceBounded(lastChange[i], prevState[i], levels[i]);
        var input := DebounceLine(i, levels[i]);
        state := MarkLine(state, i, !input, pressed);
        prevState := prevState[i := input];
      }
      state := RawLines(levels, pressed, state);
    }

    /** The countdown of line i, BOUNCE_CAN_UPDATE and the conditional pin
        read (main.c:244-255); returns the level the line reports. */
    method DebounceLine(i: nat, level: bool) returns (input: bool)
      requires Valid() && i < DebouncedCount
      modifies this
      ensures prevState == old(prevState)
      ensures lastChange == old(lastChange)[i := Debounce(old(lastChange[i]), prevState[i], level).count]
      ensures input == Debounce(old(lastChange[i]), prevState[i], level).input
    {
      var canUpdate := lastChange[i] == 0;
      if !canUpdate {
        lastChange := lastChange[i := lastChange[i] - 1];
        canUpdate := lastChange[i] == 0;
      }
      if canUpdate {
        input := level;
        if !input {
          lastChange := lastChange[i := DebounceCycles];
        }
      } else {
        input := prevState[i];
      }
    }
  }
}
