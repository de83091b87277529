/** The zone-expansion tables of the slider decoder (main.c:361-365).

    The slider peripheral has 18 sensing zones; the decoder spreads them over the
    32 bits of g_full_slider so that the four 8-bit axis lanes built from it
    cover their whole range. The two zones at each end keep one bit; the 14
    interior zones get two adjacent bits each (1 + 1 + 2*14 + 1 + 1 = 32).

    A read reply reports each zone in one nibble of one reply byte. The entry
    for reply byte `readIdx` of the half selected by `offset` (0 or 8) is
    `Tab0f[readIdx + offset]` for the low nibble and `Tabf0[readIdx + offset]`
    for the high nibble. */
module ZoneTables {
  /** tabf0: the bits driven by the high nibble of the reply byte with
      readIdx + offset == k, entry by entry as main.c:364 lists them. */
  const Tabf0: seq<bv32> := [0, 1 << 31, 3 << 28, 0, 3 << 26, 3 << 22, 0, 3 << 20, 3 << 16,
                             3 << 14, 3 << 10, 0, 3 << 8, 3 << 4, 0, 3 << 2, 1]

  /** tab0f: the bits driven by the low nibble of the reply byte with
      readIdx + offset == k, as main.c:365 lists them. */
  const Tab0f: seq<bv32> := [0, 1 << 30, 0, 0, 3 << 24, 0, 0, 3 << 18, 0, 3 << 12, 0, 0,
                             3 << 6, 0, 0, 1 << 1]

  const ZoneCount: nat := 18

  /** Where a zone is reported: the nibble (`high`), the reply byte index and the
      half offset of the read reply. */
  datatype ZoneRef = ZoneRef(high: bool, readIdx: nat, offset: nat)

  /** A table lookup the decoder performs: bytes 1, 4 and 7 of a reply use both
      nibbles, bytes 2, 5 and 8 only the high one, and the offset is 0 or 8. */
  predicate Reachable(r: ZoneRef) {
    && (r.offset == 0 || r.offset == 8)
    && (if r.high then HighNibbleByte(r.readIdx) else LowNibbleByte(r.readIdx))
  }

  /** The reply bytes that carry a low-nibble zone (cases 1, 4, 7 of the switch
      at main.c:416) and those that carry a high-nibble zone (cases 1, 4, 7 by
      fallthrough, and 2, 5, 8). */
  predicate LowNibbleByte(readIdx: int) { readIdx == 1 || readIdx == 4 || readIdx == 7 }
  predicate HighNibbleByte(readIdx: int) { LowNibbleByte(readIdx) || readIdx == 2 || readIdx == 5 || readIdx == 8 }

  /** The table entry a lookup reads. */
  function Entry(r: ZoneRef): (m: bv32)
    requires Reachable(r)
  {
    if r.high then Tabf0[r.readIdx + r.offset] else Tab0f[r.readIdx + r.offset]
  }

  /** The reply nibble that reports zone z, zones numbered from bit 31 down to bit 0. */
  function ZoneSource(z: nat): (r: ZoneRef)
    requires z < ZoneCount
    ensures Reachable(r)
  {
    if z == 0 then ZoneRef(true, 1, 0) else if z == 1 then ZoneRef(false, 1, 0)
    else if z == 2 then ZoneRef(true, 2, 0) else if z == 3 then ZoneRef(true, 4, 0)
    else if z == 4 then ZoneRef(false, 4, 0) else if z == 5 then ZoneRef(true, 5, 0)
    else if z == 6 then ZoneRef(true, 7, 0) else if z == 7 then ZoneRef(false, 7, 0)
    else if z == 8 then ZoneRef(true, 8, 0) else if z == 9 then ZoneRef(true, 1, 8)
    else if z == 10 then ZoneRef(false, 1, 8) else if z == 11 then ZoneRef(true, 2, 8)
    else if z == 12 then ZoneRef(true, 4, 8) else if z == 13 then ZoneRef(false, 4, 8)
    else if z == 14 then ZoneRef(true, 5, 8) else if z == 15 then ZoneRef(true, 7, 8)
    else if z == 16 then ZoneRef(false, 7, 8) else ZoneRef(true, 8, 8)
  }

  /** The zone a reachable lookup reports; the inverse of ZoneSource, so every
      lookup the decoder makes lands on exactly one zone and every zone is
      reported by exactly one lookup. */
  function ZoneOf(r: ZoneRef): (z: nat)
    requires Reachable(r)
    ensures z < ZoneCount && ZoneSource(z) == r
  {
    var base := if r.offset == 0 then 0 else 9;
    if r.readIdx == 1 then base + (if r.high then 0 else 1)
    else if r.readIdx == 2 then base + 2
    else if r.readIdx == 4 then base + (if r.high then 3 else 4)
    else if r.readIdx == 5 then base + 5
    else if r.readIdx == 7 then base + (if r.high then 6 else 7)
    else base + 8
  }

  lemma ZoneSourceInjective(z1: nat, z2: nat)
    requires z1 < ZoneCount && z2 < ZoneCount && ZoneSource(z1) == ZoneSource(z2)
    ensures z1 == z2
  {
    assert ZoneOf(ZoneSource(z1)) == z1 by { ZoneOfSource(z1); }
    assert ZoneOf(ZoneSource(z2)) == z2 by { ZoneOfSource(z2); }
  }

  lemma ZoneOfSource(z: nat)
    requires z < ZoneCount
    ensures ZoneOf(ZoneSource(z)) == z
  {
  }

  /** The bits of zone z, zones numbered from the top of the word down. */
  function ZoneMask(z: nat): bv32
    requires z < ZoneCount
  {
    if z == 0 then 0x8000_0000 else if z == 1 then 0x4000_0000
    else if z == 2 then 0x3000_0000 else if z == 3 then 0x0C00_0000
    else if z == 4 then 0x0300_0000 else if z == 5 then 0x00C0_0000
    else if z == 6 then 0x0030_0000 else if z == 7 then 0x000C_0000
    else if z == 8 then 0x0003_0000 else if z == 9 then 0x0000_C000
    else if z == 10 then 0x0000_3000 else if z == 11 then 0x0000_0C00
    else if z == 12 then 0x0000_0300 else if z == 13 then 0x0000_00C0
    else if z == 14 then 0x0000_0030 else if z == 15 then 0x0000_000C
    else if z == 16 then 0x0000_0002 else 0x0000_0001
  }

  /** Each zone's bits are the table entry its reporting nibble drives. */
  lemma ZoneMaskIsEntry(z: nat)
    requires z < ZoneCount
    ensures ZoneMask(z) == Entry(ZoneSource(z))
  {
    if z < 9 {
      assert ZoneSource(z).offset == 0;
    } else {
      assert ZoneSource(z).offset == 8;
    }
  }

  /** The lowest set bit of m (0 when m is 0). */
  function Lowest(m: bv32): bv32 {
    m & (0 - m)
  }

  /** The bits at and above the lowest set bit of m (0 when m is 0). */
  function Above(m: bv32): bv32 {
    0 - Lowest(m)
  }

  /** Every bit of a lies below every bit of m. */
  predicate Below(a: bv32, m: bv32) {
    a & Above(m) == 0
  }

  /** Exactly one bit set. */
  predicate SingleBit(m: bv32) {
    m != 0 && m == Lowest(m)
  }

  /** Exactly two adjacent bits set. */
  predicate TwoAdjacentBits(m: bv32) {
    m != 0 && Lowest(m) << 1 != 0 && m == Lowest(m) | (Lowest(m) << 1)
  }

  /** OR of the masks of all 18 zones. */
  function AllZones(): bv32 {
    ZoneMask(0) | ZoneMask(1) | ZoneMask(2) | ZoneMask(3) | ZoneMask(4) | ZoneMask(5)
    | ZoneMask(6) | ZoneMask(7) | ZoneMask(8) | ZoneMask(9) | ZoneMask(10) | ZoneMask(11)
    | ZoneMask(12) | ZoneMask(13) | ZoneMask(14) | ZoneMask(15) | ZoneMask(16) | ZoneMask(17)
  }

  /** Together the zones cover every bit of the slider word. */
  lemma ZonesCoverSlider()
    ensures AllZones() == 0xFFFF_FFFF
  {
  }

  /** The zones at the two ends have one bit each, the 14 interior ones two
      adjacent bits. */
  lemma ZoneWidths(z: nat)
    requires z < ZoneCount
    ensures z in {0, 1, 16, 17} ==> SingleBit(ZoneMask(z))
    ensures z !in {0, 1, 16, 17} ==> TwoAdjacentBits(ZoneMask(z))
  {
  }

  /** Zone numbers run from the top bit down: every bit of zone z + 1 lies
      below every bit of zone z. */
  lemma ZoneBelow(z: nat)
    requires z + 1 < ZoneCount
    ensures ZoneMask(z + 1) != 0 && ZoneMask(z + 1) < Lowest(ZoneMask(z))
  {
  }

  /** A word smaller than the lowest bit of a nonempty m lies below every bit of m. */
  lemma LessIsBelow(a: bv32, m: bv32)
    requires m != 0 && a < Lowest(m)
    ensures Below(a, m)
  {
  }

  /** Lying below is transitive through a nonempty middle mask. */
  lemma BelowTrans(a: bv32, m: bv32, n: bv32)
    requires m != 0 && Below(a, m) && Below(m, n)
    ensures Below(a, n)
  {
  }

  /** A word below every bit of a nonempty m shares no bit with m. */
  lemma BelowDisjoint(m: bv32, b: bv32)
    requires m != 0 && Below(b, m)
    ensures m & b == 0
  {
  }

  /** The first n masks are nonempty, and each lies below the one before it. */
  ghost predicate StepsDown(f: nat -> bv32, n: nat) {
    && (forall k: nat :: k < n ==> f(k) != 0)
    && (forall k: nat :: k + 1 < n ==> Below(f(k + 1), f(k)))
  }

  /** In a run of nonempty masks where each lies below the one before, every
      mask lies below every earlier one. */
  lemma {:induction false} Descend(f: nat -> bv32, n: nat, i: nat, j: nat)
    requires StepsDown(f, n)
    requires i < j < n
    ensures Below(f(j), f(i))
    decreases j - i
  {
    if i + 1 < j {
      Descend(f, n, i + 1, j);
      assert Below(f(i + 1), f(i)) && f(i + 1) != 0;
      BelowTrans(f(j), f(i + 1), f(i));
    }
  }

  /** The zone masks as a total function, 0 past the last zone. */
  function ZoneMaskOrZero(z: nat): bv32 {
    if z < ZoneCount then ZoneMask(z) else 0
  }

  lemma ZonesStepDown()
    ensures StepsDown(ZoneMaskOrZero, ZoneCount)
  {
    forall k: nat {:trigger ZoneMaskOrZero(k)} | k + 1 < ZoneCount
      ensures ZoneMaskOrZero(k + 1) != 0 && Below(ZoneMaskOrZero(k + 1), ZoneMaskOrZero(k))
    {
      ZoneBelow(k);
      LessIsBelow(ZoneMaskOrZero(k + 1), ZoneMaskOrZero(k));
    }
    assert ZoneMaskOrZero(0) == 0x8000_0000;
  }

  lemma ZonesDisjointOrdered(z1: nat, z2: nat)
    requires z1 < z2 < ZoneCount
    ensures ZoneMask(z1) & ZoneMask(z2) == 0
  {
    ZonesStepDown();
    Descend(ZoneMaskOrZero, ZoneCount, z1, z2);
    BelowDisjoint(ZoneMaskOrZero(z1), ZoneMaskOrZero(z2));
  }

  /** No two zones share a bit. */
  lemma ZonesDisjoint(z1: nat, z2: nat)
    requires z1 < ZoneCount && z2 < ZoneCount && z1 != z2
    ensures ZoneMask(z1) & ZoneMask(z2) == 0
  {
    if z1 < z2 {
      ZonesDisjointOrdered(z1, z2);
    } else {
      ZonesDisjointOrdered(z2, z1);
      assert ZoneMask(z2) & ZoneMask(z1) == ZoneMask(z1) & ZoneMask(z2);
    }
  }

  /** Table coverage, stated on the lookups themselves: two different lookups
      the decoder can make never drive a common bit. */
  lemma EntriesDisjoint(r1: ZoneRef, r2: ZoneRef)
    requires Reachable(r1) && Reachable(r2) && r1 != r2
    ensures Entry(r1) & Entry(r2) == 0
  {
    var z1, z2 := ZoneOf(r1), ZoneOf(r2);
    ZoneMaskIsEntry(z1);
    ZoneMaskIsEntry(z2);
    ZonesDisjoint(z1, z2);
  }
}
