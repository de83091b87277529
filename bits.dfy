/** Bit-level views of the fixed-width words the firmware packs its state into
    (uint32_t masks such as g_button_state and g_full_slider, uint8_t report bytes). */
module Bits {
  /** Bit i of x, `(x >> i) & 1` in the C code. */
  predicate Bit(x: bv32, i: nat)
    requires i < 32
  {
    (x >> (i as bv5)) & 1 == 1
  }

  /** The word with only bit i set, `1 << i` in the C code. */
  function BitMask(i: nat): bv32
    requires i < 32
  {
    1 << (i as bv5)
  }

  /** Byte k of a 32-bit word in little-endian order: what a uint8_t view of a
      uint32_t reads at offset k on the target. */
  function Lane(x: bv32, k: nat): bv8
    requires k < 4
  {
    if k == 0 then (x & 0xFF) as bv8
    else if k == 1 then ((x >> 8) & 0xFF) as bv8
    else if k == 2 then ((x >> 16) & 0xFF) as bv8
    else (x >> 24) as bv8
  }

  /** The C statement `if (c) x |= m; else x &= ~m;`. */
  function SetOrClear(x: bv32, m: bv32, c: bool): bv32 {
    if c then x | m else x & !m
  }

  // ---- small bit-vector facts, each kept to one shape so the solver can blast it ----

  lemma SetKeepsMasked(x: bv32, m: bv32)
    ensures (x | m) & m == m
  {
  }

  lemma ClearKeepsMasked(x: bv32, m: bv32)
    ensures (x & !m) & m == 0
  {
  }

  lemma SetKeepsOthers(x: bv32, m: bv32, k: bv32)
    requires m & k == 0
    ensures (x | m) & k == x & k
  {
  }

  lemma ClearKeepsOthers(x: bv32, m: bv32, k: bv32)
    requires m & k == 0
    ensures (x & !m) & k == x & k
  {
  }

  /** The bits of x under m are all set when `on` holds and all clear otherwise. */
  predicate Follows(x: bv32, m: bv32, on: bool) {
    (on ==> x & m == m) && (!on ==> x & m == 0)
  }

  /** x and y agree on the bits under m. */
  predicate Keeps(x: bv32, y: bv32, m: bv32) {
    x & m == y & m
  }

  /** The bits under m end up all set or all clear, as the condition says. */
  lemma SetOrClearInside(x: bv32, m: bv32, c: bool)
    ensures Follows(SetOrClear(x, m, c), m, c)
  {
    if c { SetKeepsMasked(x, m); } else { ClearKeepsMasked(x, m); }
  }

  /** Bits outside m are not touched. */
  lemma SetOrClearOutside(x: bv32, m: bv32, k: bv32, c: bool)
    requires m & k == 0
    ensures Keeps(SetOrClear(x, m, c), x, k)
  {
    if c { SetKeepsOthers(x, m, k); } else { ClearKeepsOthers(x, m, k); }
  }

  /** Follows carries over to a word that agrees on the same bits. */
  lemma FollowsAcross(x: bv32, y: bv32, m: bv32, on: bool)
    requires Follows(x, m, on) && Keeps(y, x, m)
    ensures Follows(y, m, on)
  {
  }

  lemma KeepsTrans(x: bv32, y: bv32, z: bv32, m: bv32)
    requires Keeps(z, y, m) && Keeps(y, x, m)
    ensures Keeps(z, x, m)
  {
  }

  // ---- single bits at a variable position ----

  /** A bit position survives the round trip through a 5-bit shift amount. */
  lemma CastBack(i: nat)
    requires i < 32
    ensures (i as bv5) as int == i
  {
  }

  lemma OrBitBv(x: bv32, i: bv5, j: bv5)
    ensures ((x | (1 << j)) >> i) & 1 == 1 <==> ((x >> i) & 1 == 1 || i == j)
  {
  }

  /** Setting bit j sets bit j and leaves every other bit as it was. */
  lemma OrBit(x: bv32, i: nat, j: nat)
    requires i < 32 && j < 32
    ensures Bit(x | BitMask(j), i) <==> Bit(x, i) || i == j
  {
    OrBitBv(x, i as bv5, j as bv5);
    if i != j {
      CastBack(i);
      CastBack(j);
    }
  }

  lemma NoBitOfZero(i: nat)
    requires i < 32
    ensures !Bit(0, i)
  {
  }
}
