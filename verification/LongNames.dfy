/** VFAT long file names: slots of thirteen UTF-16 units, and the checksum of the short alias. */
module LongNames {
  import opened DiskBytes

  type Unit = u: int | 0 <= u < 0x1_0000

  const SLOT := 13
  const LAST := 0x40
  const LONG_NAME: Byte := 15

  /** Where the units of a slot are: five, six and two of them. */
  function UnitOffset(k: nat): (r: nat)
    requires k < SLOT
    ensures r + 2 <= 32
  {
    if k < 5 then 1 + 2 * k else if k < 11 then 14 + 2 * (k - 5) else 28 + 2 * (k - 11)
  }

  /** The name, a zero unit, and 0xFFFF up to a whole number of slots. */
  function Padded(name: seq<Unit>): (r: seq<Unit>)
    ensures |r| % SLOT == 0 && |r| > 0
    ensures name + [0] <= r
  {
    var n := |name| + 1;
    var fill := (SLOT - n % SLOT) % SLOT;
    assert (n + fill) % SLOT == 0 by { PadLemma(n); }
    name + [0] + seq(fill, i => 65535)
  }

  /** Behind the zero unit there are fewer than thirteen units, all of them 0xFFFF. */
  lemma PaddingIs(name: seq<Unit>, k: nat)
    ensures |name| + 1 <= |Padded(name)| <= |name| + SLOT
    ensures |name| < k < |Padded(name)| ==> Padded(name)[k] == 0xFFFF
  {}

  /** The thirteen places of a slot. */
  lemma PlacesAre(k: nat)
    requires k < SLOT
    ensures UnitOffset(k) == [1, 3, 5, 7, 9, 14, 16, 18, 20, 22, 24, 28, 30][k]
  {}

  lemma PadLemma(n: nat)
    ensures (n + (SLOT - n % SLOT) % SLOT) % SLOT == 0
  {
    var r := n % SLOT;
    if r == 0 {
    } else {
      assert n + (SLOT - r) == (n / SLOT + 1) * SLOT;
    }
  }

  function Slots(name: seq<Unit>): (r: nat)
    ensures r > 0 && r * SLOT == |Padded(name)|
  {
    |Padded(name)| / SLOT
  }

  /** x | 0x40 */
  function WithLast(x: nat): nat {
    if x / LAST % 2 == 1 then x else x + LAST
  }

  function Checksum(alias: Bytes): (r: Byte) {
    if alias == [] then 0 else ChecksumStep(Checksum(alias[..|alias| - 1]), alias[|alias| - 1])
  }

  /** Rotate right by one bit and add. */
  function ChecksumStep(sum: Byte, b: Byte): Byte {
    (sum % 2 * 128 + sum / 2 + b) % 256
  }

  /** The checksum starts at zero and takes the bytes from the first to the last. */
  lemma ChecksumFolds(alias: Bytes, b: Byte)
    ensures Checksum([]) == 0 && Checksum(alias + [b]) == ChecksumStep(Checksum(alias), b)
  {
    assert (alias + [b])[..|alias|] == alias;
  }

  /** The bits of a byte, lowest first. */
  function Bits(x: nat, n: nat): (r: seq<nat>)
    ensures |r| == n
  {
    if n == 0 then [] else [x % 2] + Bits(x / 2, n - 1)
  }

  lemma {:induction false} BitsAbove(x: nat, top: nat, n: nat)
    requires top < 2 && x < Power2(n)
    ensures Bits(x + top * Power2(n), n + 1) == Bits(x, n) + [top]
    decreases n
  {
    if n > 0 {
      var y := x + top * Power2(n);
      assert top * Power2(n) == 2 * (top * Power2(n - 1));
      assert y % 2 == x % 2 && y / 2 == x / 2 + top * Power2(n - 1);
      BitsAbove(x / 2, top, n - 1);
      assert Bits(y, n + 1) == [x % 2] + Bits(y / 2, n);
      assert Bits(x, n) == [x % 2] + Bits(x / 2, n - 1);
    }
  }

  function Power2(n: nat): (r: nat)
    ensures r > 0
  {
    if n == 0 then 1 else 2 * Power2(n - 1)
  }

  lemma {:induction false} BitsDiffer(x: nat, y: nat, n: nat)
    requires x < Power2(n) && y < Power2(n) && Bits(x, n) == Bits(y, n)
    ensures x == y
    decreases n
  {
    if n > 0 {
      assert Bits(x, n)[0] == x % 2 && Bits(y, n)[0] == y % 2;
      assert Bits(x, n)[1..] == Bits(x / 2, n - 1) && Bits(y, n)[1..] == Bits(y / 2, n - 1);
      BitsDiffer(x / 2, y / 2, n - 1);
    }
  }

  /** A step of the checksum is a rotation by one place, in which the lowest bit comes to the top, and
      then an addition that drops the carry; and only one byte is that rotation. */
  lemma ChecksumRotates(sum: Byte, b: Byte) returns (r: Byte)
    ensures Bits(r, 8) == Bits(sum, 8)[1..] + [Bits(sum, 8)[0]]
    ensures forall q: Byte :: Bits(q, 8) == Bits(r, 8) ==> q == r
    ensures ChecksumStep(sum, b) == (r + b) % 256
  {
    r := sum % 2 * 128 + sum / 2;
    assert Power2(7) == 128 && Power2(8) == 256 by { assert Power2(4) == 16; }
    BitsAbove(sum / 2, sum % 2, 7);
    forall q: Byte | Bits(q, 8) == Bits(r, 8) ensures q == r {
      BitsDiffer(q, r, 8);
    }
    hide Power2;
    assert Bits(sum, 8) == [sum % 2] + Bits(sum / 2, 7);
  }

  /** A slot with its first k units written. */
  function Fill(entry: Bytes, units: seq<Unit>, k: nat): (r: Bytes)
    requires |entry| == 32 && |units| == SLOT && k <= SLOT
    ensures |r| == 32
  {
    if k == 0 then entry else Patch(Fill(entry, units, k - 1), UnitOffset(k - 1), Two(units[k - 1]))
  }

  function Header(ordinal: Byte, checksum: Byte): (r: Bytes)
    ensures |r| == 32
  {
    Zeros(32)[0 := ordinal][11 := LONG_NAME][13 := checksum]
  }

  function Slot(ordinal: Byte, checksum: Byte, units: seq<Unit>): (r: Bytes)
    requires |units| == SLOT
    ensures |r| == 32
  {
    Fill(Header(ordinal, checksum), units, SLOT)
  }

  /** The units of one ordinal. */
  function Part(units: seq<Unit>, ordinal: nat): (r: seq<Unit>)
    requires ordinal > 0 && ordinal * SLOT <= |units|
    ensures |r| == SLOT
  {
    units[(ordinal - 1) * SLOT..ordinal * SLOT]
  }

  function OrdinalByte(ordinal: nat, first: bool): Byte
    requires ordinal < 256
  {
    if first then WithLast(ordinal) else ordinal
  }

  /** The slots from an ordinal down to 1, of n in all. */
  function SlotsFrom(units: seq<Unit>, checksum: Byte, n: nat, ordinal: nat): (r: seq<Bytes>)
    requires ordinal <= n < 256 && n * SLOT == |units|
    ensures |r| == ordinal && forall s <- r :: |s| == 32
  {
    if ordinal == 0 then []
    else [Slot(OrdinalByte(ordinal, ordinal == n), checksum, Part(units, ordinal))] + SlotsFrom(units, checksum, n, ordinal - 1)
  }

  /** What is stored for a name: the slots in descending order. */
  function LongName(name: seq<Unit>, alias: Bytes): seq<Bytes>
    requires Slots(name) < 256
  {
    SlotsFrom(Padded(name), Checksum(alias), Slots(name), Slots(name))
  }

  /** From 256 slots on the ordinal is not a byte and the source fails. */
  method LongEntries(name: seq<Unit>, alias: Bytes) returns (result: seq<Bytes>)
    requires Slots(name) < 256
    ensures result == LongName(name, alias)
  {
    hide Padded, Slot, Fill, Checksum, OrdinalByte, Part, SlotsFrom;
    var checksum := AliasChecksum(alias);
    var units := Padded(name);
    result := [];
    var n := |units| / SLOT;
    var ordinal := n;
    ghost var whole := SlotsFrom(units, checksum, n, n);
    while ordinal > 0
      invariant 0 <= ordinal <= n && |result| == n - ordinal && n * SLOT == |units| && n < 256
      invariant result + SlotsFrom(units, checksum, n, ordinal) == whole
    {
      var entry := FillSlot(OrdinalByte(ordinal, result == []), checksum, Part(units, ordinal));
      SlotsStep(units, checksum, n, ordinal);
      result := result + [entry];
      ordinal := ordinal - 1;
    }
    NoSlots(units, checksum, n);
  }

  lemma NoSlots(units: seq<Unit>, checksum: Byte, n: nat)
    requires n < 256 && n * SLOT == |units|
    ensures SlotsFrom(units, checksum, n, 0) == []
  {}

  lemma SlotsStep(units: seq<Unit>, checksum: Byte, n: nat, ordinal: nat)
    requires 0 < ordinal <= n < 256 && n * SLOT == |units|
    ensures ordinal * SLOT <= |units|
    ensures SlotsFrom(units, checksum, n, ordinal)
         == [Slot(OrdinalByte(ordinal, ordinal == n), checksum, Part(units, ordinal))] + SlotsFrom(units, checksum, n, ordinal - 1)
  {
    hide Slot, Part, OrdinalByte;
  }

  method AliasChecksum(alias: Bytes) returns (checksum: Byte)
    ensures checksum == Checksum(alias)
  {
    checksum := 0;
    var j := 0;
    while j < |alias|
      invariant 0 <= j <= |alias| && checksum == Checksum(alias[..j])
    {
      assert alias[..j + 1][..j] == alias[..j];
      checksum := (checksum % 2 * 128 + checksum / 2 + alias[j]) % 256;
      j := j + 1;
    }
    assert alias[..j] == alias;
  }

  method FillSlot(ordinal: Byte, checksum: Byte, part: seq<Unit>) returns (entry: Bytes)
    requires |part| == SLOT
    ensures entry == Slot(ordinal, checksum, part)
  {
    hide Patch;
    entry := Zeros(32);
    entry := entry[0 := ordinal];
    entry := entry[11 := LONG_NAME];
    entry := entry[13 := checksum];
    var k := 0;
    while k < SLOT
      invariant 0 <= k <= SLOT && entry == Fill(Header(ordinal, checksum), part, k)
    {
      entry := Patch(entry, UnitOffset(k), Two(part[k]));
      k := k + 1;
    }
  }

  // ---- reading slots back ------------------------------------------------------

  function ReadUnit(entry: Bytes, k: nat): Unit
    requires |entry| == 32 && k < SLOT
  {
    Word2(entry, UnitOffset(k))
  }

  function ReadUnits(entry: Bytes): (r: seq<Unit>)
    requires |entry| == 32
    ensures |r| == SLOT
  {
    seq(SLOT, k requires 0 <= k < SLOT => ReadUnit(entry, k))
  }

  /** No unit is written over another, nor over ordinal, attribute, type, checksum or cluster. */
  lemma {:induction false} FillReads(entry: Bytes, units: seq<Unit>, k: nat, j: nat, p: nat)
    requires |entry| == 32 && |units| == SLOT && j < k <= SLOT && p in {0, 11, 12, 13, 26, 27}
    ensures ReadUnit(Fill(entry, units, k), j) == units[j]
    ensures Fill(entry, units, k)[p] == entry[p]
    decreases k
  {
    hide Patch, Two, Word2;
    var before := Fill(entry, units, k - 1);
    var after := Fill(entry, units, k);
    var off := UnitOffset(k - 1);
    PatchAt(before, off, Two(units[k - 1]), p);
    if k == 1 {
      assert before == entry;
    }
    if j == k - 1 {
      PatchInside(before, off, Two(units[k - 1]));
      ReadTwo(after, off, units[j]);
      if k > 1 {
        FillReads(entry, units, k - 1, 0, p);
      }
    } else {
      FillReads(entry, units, k - 1, j, p);
      PatchOutside(before, off, Two(units[k - 1]), UnitOffset(j), UnitOffset(j) + 2);
      SameTwo(before, after, UnitOffset(j));
    }
  }

  lemma SlotReads(ordinal: Byte, checksum: Byte, units: seq<Unit>)
    requires |units| == SLOT
    ensures var s := Slot(ordinal, checksum, units);
            ReadUnits(s) == units && s[0] == ordinal && s[11] == LONG_NAME && s[12] == 0 && s[13] == checksum && s[26] == 0 && s[27] == 0
  {
    hide Fill;
    var h := Header(ordinal, checksum);
    forall k | 0 <= k < SLOT ensures ReadUnits(Slot(ordinal, checksum, units))[k] == units[k] {
      FillReads(h, units, SLOT, k, 0);
    }
    FillReads(h, units, SLOT, 0, 0);
    FillReads(h, units, SLOT, 0, 11);
    FillReads(h, units, SLOT, 0, 12);
    FillReads(h, units, SLOT, 0, 13);
    FillReads(h, units, SLOT, 0, 26);
    FillReads(h, units, SLOT, 0, 27);
  }

  /** The units of the slots, lowest ordinal first: the slots are stored in the opposite order. */
  function Collected(slots: seq<Bytes>): seq<Unit>
    requires forall s <- slots :: |s| == 32
  {
    if slots == [] then [] else Collected(slots[1..]) + ReadUnits(slots[0])
  }

  /** Up to the first zero. */
  function UpToZero(units: seq<Unit>): seq<Unit> {
    if units == [] || units[0] == 0 then [] else [units[0]] + UpToZero(units[1..])
  }

  function ReadName(slots: seq<Bytes>): seq<Unit>
    requires forall s <- slots :: |s| == 32
  {
    UpToZero(Collected(slots))
  }

  lemma {:induction false} UpToZeroStops(name: seq<Unit>, tail: seq<Unit>)
    requires (forall u <- name :: u != 0) && |tail| > 0 && tail[0] == 0
    ensures UpToZero(name + tail) == name
    decreases |name|
  {
    if name == [] {
      assert name + tail == tail;
    } else {
      assert (name + tail)[1..] == name[1..] + tail;
      assert name[0] in name && forall u <- name[1..] :: u in name;
      UpToZeroStops(name[1..], tail);
    }
  }

  lemma PartsJoin(units: seq<Unit>, k: nat)
    requires 0 < k && k * SLOT <= |units|
    ensures units[..(k - 1) * SLOT] + Part(units, k) == units[..k * SLOT]
  {
    var a, b := (k - 1) * SLOT, k * SLOT;
    assert b == a + SLOT;
    assert units[..a] + units[a..b] == units[..b];
  }

  lemma {:induction false} CollectedIsAll(units: seq<Unit>, checksum: Byte, n: nat, ordinal: nat)
    requires ordinal <= n < 256 && n * SLOT == |units|
    ensures Collected(SlotsFrom(units, checksum, n, ordinal)) == units[..ordinal * SLOT]
    decreases ordinal
  {
    hide Slot, ReadUnits, Part, OrdinalByte;
    if ordinal > 0 {
      var slots := SlotsFrom(units, checksum, n, ordinal);
      assert slots[1..] == SlotsFrom(units, checksum, n, ordinal - 1);
      CollectedIsAll(units, checksum, n, ordinal - 1);
      SlotReads(OrdinalByte(ordinal, ordinal == n), checksum, Part(units, ordinal));
      PartsJoin(units, ordinal);
    }
  }

  /** Reading the slots back up to the terminator gives the name. */
  lemma LongNameReads(name: seq<Unit>, alias: Bytes)
    requires Slots(name) < 256 && forall u <- name :: u != 0
    ensures ReadName(LongName(name, alias)) == name
  {
    hide Collected, SlotsFrom;
    var units := Padded(name);
    var n := Slots(name);
    CollectedIsAll(units, Checksum(alias), n, n);
    assert units[..n * SLOT] == units;
    assert units == name + units[|name|..];
    assert units[|name|] == (name + [0])[|name|] == 0;
    UpToZeroStops(name, units[|name|..]);
  }

  lemma {:induction false} SlotAt(units: seq<Unit>, checksum: Byte, n: nat, ordinal: nat, i: nat)
    requires i < ordinal <= n < 256 && n * SLOT == |units|
    ensures SlotsFrom(units, checksum, n, ordinal)[i] == Slot(OrdinalByte(ordinal - i, ordinal - i == n), checksum, Part(units, ordinal - i))
    decreases i
  {
    hide Slot, OrdinalByte;
    if i > 0 {
      SlotAt(units, checksum, n, ordinal - 1, i - 1);
    }
  }

  /** In every slot: ordinal, attribute, checksum, and no cluster. */
  lemma LongNameMarks(name: seq<Unit>, alias: Bytes, i: nat)
    requires Slots(name) < 256 && i < Slots(name)
    ensures var s := LongName(name, alias)[i];
            |s| == 32 && s[0] == OrdinalByte(Slots(name) - i, i == 0) && s[11] == LONG_NAME && s[13] == Checksum(alias) && s[26] == 0 && s[27] == 0
  {
    hide Slot, Checksum;
    SlotAt(Padded(name), Checksum(alias), Slots(name), Slots(name), i);
    SlotReads(OrdinalByte(Slots(name) - i, i == 0), Checksum(alias), Part(Padded(name), Slots(name) - i));
  }

  /** The ordinal in a slot, and whether the slot is marked as the last one. */
  predicate IsOrdinal(s: Bytes, ordinal: nat, last: bool) {
    |s| == 32 && (s[0] as nat) % LAST == ordinal && ((s[0] as nat) / LAST == if last then 1 else 0)
  }

  /** The ordinals count down to 1, and the first slot alone carries the last-slot mark. */
  predicate OrdinalsProper(slots: seq<Bytes>) {
    forall i :: 0 <= i < |slots| ==> IsOrdinal(slots[i], |slots| - i, i == 0)
  }

  /** That holds exactly for names of fewer than 64 slots. */
  lemma OrdinalsUpTo63(name: seq<Unit>, alias: Bytes)
    requires Slots(name) < 256
    ensures OrdinalsProper(LongName(name, alias)) <==> Slots(name) < 64
  {
    var slots := LongName(name, alias);
    if Slots(name) < 64 {
      forall i | 0 <= i < |slots| ensures IsOrdinal(slots[i], |slots| - i, i == 0) {
        LongNameMarks(name, alias, i);
      }
    } else {
      assert !IsOrdinal(slots[0], |slots|, true) by { assert (slots[0][0] as nat) % LAST < 64; }
    }
  }

  /** A name of 831 units takes 64 slots, and its first ordinal byte is 0x40: the mark alone. */
  lemma SixtyFourSlots(alias: Bytes)
    ensures var name := seq(831, i => 65);
            Slots(name) == 64 && LongName(name, alias)[0][0] == 0x40 && !OrdinalsProper(LongName(name, alias))
  {
    hide Slot, Checksum, SlotsFrom;
    var name: seq<Unit> := seq(831, i => 65);
    assert |Padded(name)| == 832;
    LongNameMarks(name, alias, 0);
    OrdinalsUpTo63(name, alias);
  }

  // ---- reading by ordinal --------------------------------------------------------

  function OrdinalOf(s: Bytes): nat
    requires |s| == 32
  {
    (s[0] as nat) % LAST
  }

  predicate IsLast(s: Bytes)
    requires |s| == 32
  {
    (s[0] as nat) / LAST == 1
  }

  /** The units of the slot with this ordinal, wherever it is stored. */
  function UnitsAt(slots: seq<Bytes>, ordinal: nat): seq<Unit>
    requires forall s <- slots :: |s| == 32
  {
    if slots == [] then [] else if OrdinalOf(slots[0]) == ordinal then ReadUnits(slots[0]) else UnitsAt(slots[1..], ordinal)
  }

  /** The ordinal of the slot that is marked as the last. */
  function LastOrdinal(slots: seq<Bytes>): nat
    requires forall s <- slots :: |s| == 32
  {
    if slots == [] then 0 else if IsLast(slots[0]) then OrdinalOf(slots[0]) else LastOrdinal(slots[1..])
  }

  function UnitsUpTo(slots: seq<Bytes>, n: nat): seq<Unit>
    requires forall s <- slots :: |s| == 32
  {
    if n == 0 then [] else UnitsUpTo(slots, n - 1) + UnitsAt(slots, n)
  }

  /** What a reader gets who goes by the ordinals. */
  function ReadByOrdinal(slots: seq<Bytes>): seq<Unit>
    requires forall s <- slots :: |s| == 32
  {
    UpToZero(UnitsUpTo(slots, LastOrdinal(slots)))
  }

  predicate HasOrdinal(slots: seq<Bytes>, ordinal: nat)
    requires forall s <- slots :: |s| == 32
  {
    exists s <- slots :: OrdinalOf(s) == ordinal
  }

  /** The slots are those of the units, in any order. */
  ghost predicate AreSlots(slots: seq<Bytes>, units: seq<Unit>, n: nat)
    requires n * SLOT == |units|
  {
    && (forall s <- slots :: |s| == 32)
    && (forall s <- slots :: 0 < OrdinalOf(s) <= n && (IsLast(s) <==> OrdinalOf(s) == n) && ReadUnits(s) == Part(units, OrdinalOf(s)))
    && (forall i: nat :: 0 < i <= n ==> HasOrdinal(slots, i))
  }

  lemma {:induction false} UnitsAtSlot(slots: seq<Bytes>, units: seq<Unit>, i: nat)
    requires forall s <- slots :: |s| == 32
    requires 0 < i && i * SLOT <= |units| && HasOrdinal(slots, i)
    requires forall s <- slots :: OrdinalOf(s) == i ==> ReadUnits(s) == Part(units, i)
    ensures UnitsAt(slots, i) == Part(units, i)
    decreases |slots|
  {
    hide OrdinalOf, ReadUnits, Part;
    assert slots[0] in slots;
    if OrdinalOf(slots[0]) != i {
      assert forall s <- slots :: s == slots[0] || s in slots[1..];
      UnitsAtSlot(slots[1..], units, i);
    }
  }

  lemma {:induction false} LastIs(slots: seq<Bytes>, n: nat)
    requires forall s <- slots :: |s| == 32
    requires (forall s <- slots :: IsLast(s) <==> OrdinalOf(s) == n) && HasOrdinal(slots, n)
    ensures LastOrdinal(slots) == n
    decreases |slots|
  {
    hide OrdinalOf, IsLast;
    assert slots[0] in slots;
    if OrdinalOf(slots[0]) != n {
      assert forall s <- slots :: s == slots[0] || s in slots[1..];
      LastIs(slots[1..], n);
    }
  }

  lemma {:induction false} UnitsAreAll(slots: seq<Bytes>, units: seq<Unit>, n: nat, k: nat)
    requires n * SLOT == |units| && k <= n && AreSlots(slots, units, n)
    ensures UnitsUpTo(slots, k) == units[..k * SLOT]
    decreases k
  {
    hide OrdinalOf, IsLast, ReadUnits, Part, UnitsAt, HasOrdinal;
    if k > 0 {
      assert k * SLOT <= n * SLOT;
      UnitsAreAll(slots, units, n, k - 1);
      UnitsAtSlot(slots, units, k);
      PartsJoin(units, k);
    }
  }

  lemma LongNameSlots(name: seq<Unit>, alias: Bytes, slots: seq<Bytes>)
    requires Slots(name) < 64 && forall s :: s in slots <==> s in LongName(name, alias)
    ensures AreSlots(slots, Padded(name), Slots(name))
  {
    hide Slot, Checksum, ReadUnits, Part, Padded, LongName;
    var stored, n := LongName(name, alias), Slots(name);
    assert |stored| == n by { StoredCount(name, alias); }
    forall s | s in slots
      ensures |s| == 32 && 0 < OrdinalOf(s) <= n && (IsLast(s) <==> OrdinalOf(s) == n) && ReadUnits(s) == Part(Padded(name), OrdinalOf(s))
    {
      var i :| 0 <= i < n && stored[i] == s;
      StoredSlot(name, alias, i);
    }
    forall i: nat | 0 < i <= n ensures HasOrdinal(slots, i) {
      StoredSlot(name, alias, n - i);
      assert stored[n - i] in slots;
    }
  }

  lemma StoredCount(name: seq<Unit>, alias: Bytes)
    requires Slots(name) < 256
    ensures |LongName(name, alias)| == Slots(name)
  {}

  lemma StoredSlot(name: seq<Unit>, alias: Bytes, i: nat)
    requires Slots(name) < 64 && i < Slots(name)
    ensures i < |LongName(name, alias)|
    ensures var s := LongName(name, alias)[i];
            && |s| == 32 && OrdinalOf(s) == Slots(name) - i && (IsLast(s) <==> i == 0)
            && ReadUnits(s) == Part(Padded(name), Slots(name) - i)
  {
    hide Slot, Checksum, ReadUnits, Part;
    var n := Slots(name);
    StoredCount(name, alias);
    SlotAt(Padded(name), Checksum(alias), n, n, i);
    SlotReads(OrdinalByte(n - i, i == 0), Checksum(alias), Part(Padded(name), n - i));
  }

  /** For names of fewer than 64 slots a reader who goes by the ordinals and the last-slot mark gets
      the name, in whatever order the slots are stored. */
  lemma LongNameReadsByOrdinal(name: seq<Unit>, alias: Bytes, slots: seq<Bytes>)
    requires Slots(name) < 64 && (forall u <- name :: u != 0) && forall s :: s in slots <==> s in LongName(name, alias)
    ensures (forall s <- slots :: |s| == 32) && ReadByOrdinal(slots) == name
  {
    hide LongName, OrdinalOf, IsLast, ReadUnits, UnitsUpTo, LastOrdinal, HasOrdinal;
    var units, n := Padded(name), Slots(name);
    LongNameSlots(name, alias, slots);
    LastIs(slots, n);
    UnitsAreAll(slots, units, n, n);
    assert units[..n * SLOT] == units == name + units[|name|..];
    assert units[|name|] == (name + [0])[|name|] == 0;
    UpToZeroStops(name, units[|name|..]);
  }

  // ---- the checksum ------------------------------------------------------------

  lemma ByteIsInjective(sum: Byte, b: Byte, b': Byte)
    requires ChecksumStep(sum, b) == ChecksumStep(sum, b')
    ensures b == b'
  {}

  lemma SumIsInjective(sum: Byte, sum': Byte, b: Byte)
    requires ChecksumStep(sum, b) == ChecksumStep(sum', b)
    ensures sum == sum'
  {
    var r: int, r': int := sum % 2 * 128 + sum / 2, sum' % 2 * 128 + sum' / 2;
    assert 0 <= r < 256 && 0 <= r' < 256;
    assert (r + b) % 256 == (r' + b) % 256;
    assert r == r';
    assert sum % 2 == r / 128 && sum / 2 == r % 128 && sum' % 2 == r' / 128 && sum' / 2 == r' % 128;
  }

  /** Changing any one byte of the alias changes the checksum. */
  lemma {:induction false} ChecksumNoticesAByte(alias: Bytes, i: nat, b: Byte)
    requires i < |alias| && b != alias[i]
    ensures Checksum(alias[i := b]) != Checksum(alias)
    decreases |alias|
  {
    var other := alias[i := b];
    var n := |alias| - 1;
    if i == n {
      assert other[..n] == alias[..n];
      if Checksum(other) == Checksum(alias) {
        ByteIsInjective(Checksum(alias[..n]), b, alias[n]);
      }
    } else {
      assert other[..n] == alias[..n][i := b] && other[n] == alias[n];
      ChecksumNoticesAByte(alias[..n], i, b);
      if Checksum(other) == Checksum(alias) {
        SumIsInjective(Checksum(other[..n]), Checksum(alias[..n]), alias[n]);
      }
    }
  }
}
