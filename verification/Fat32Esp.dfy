/** The FAT32 system partition of the installed disk. */
module Fat32Esp {
  import opened Options
  import opened DiskBytes

  const TOTAL := 67108864         // 131072 sectors of 512 bytes
  const SECTOR := 512
  const PART := 1048576           // first byte of the partition, LBA 2048
  const PART_SECTORS := 83968
  const PART_END := 44040192
  const RESERVED := 32
  const FAT_SECTORS := 656
  const FAT_A := 1064960
  const FAT_B := 1400832
  const FAT_SIZE := 335872
  const DATA := 1736704           // cluster 2
  const CLUSTER_COUNT := 82624
  const END := 0x0FFFFFFF

  function At(c: nat): nat
    requires c >= 2
  {
    DATA + (c - 2) * SECTOR
  }

  function ClustersFor(size: nat): nat {
    (size + SECTOR - 1) / SECTOR
  }

  predicate Fits(size: nat) {
    ClustersFor(size) != 0 && 4 + ClustersFor(size) < CLUSTER_COUNT
  }

  type Name = b: Bytes | |b| == 11 witness Zeros(11)

  const EFI: Name := [69, 70, 73, 32, 32, 32, 32, 32, 32, 32, 32]
  const BOOT: Name := [66, 79, 79, 84, 32, 32, 32, 32, 32, 32, 32]
  const BOOTX64: Name := [66, 79, 79, 84, 88, 54, 52, 32, 69, 70, 73]
  const DIRECTORY: Byte := 0x10
  const ARCHIVE: Byte := 0x20
  const FAT32_LABEL: Bytes := [70, 65, 84, 51, 50, 32, 32, 32]

  // ---- boot sector ---------------------------------------------------------------

  /** Offsets 0 to 64: sizes and counts. */
  function Parameters(): (r: Bytes)
    ensures |r| == 64
  {
    [0xeb, 0x58, 0x90] + [66, 65, 75, 69, 78, 69, 70, 73] + Two(SECTOR) + [1] + Two(RESERVED) + [2] + Two(0) + Two(0) + [0xF8] + Two(0)
    + Zeros(8) + Four(PART_SECTORS) + Four(FAT_SECTORS) + Two(0) + Two(0) + Four(2) + Two(1) + Two(6) + Zeros(12)
  }

  function BootSector(): (r: Bytes)
    ensures |r| == SECTOR
  {
    Parameters() + [0x80, 0, 0x29] + Four(0xBA1CE002) + [66, 65, 75, 69, 78, 95, 69, 83, 80, 32, 32] + FAT32_LABEL + Zeros(420) + [0x55, 0xAA]
  }

  // ---- tables --------------------------------------------------------------------

  function Get(s: Bytes, base: nat, c: nat): nat
    requires base + 4 * c + 4 <= |s|
  {
    Word4(s, base + 4 * c)
  }

  function Set(s: Bytes, base: nat, c: nat, v: nat): (r: Bytes)
    requires base + 4 * c + 4 <= |s| && v < 0x1_0000_0000
    ensures |r| == |s|
  {
    Patch(s, base + 4 * c, Four(v))
  }

  lemma GetSet(s: Bytes, base: nat, c: nat, v: nat, d: nat)
    requires base + 4 * c + 4 <= |s| && base + 4 * d + 4 <= |s| && v < 0x1_0000_0000
    ensures Get(Set(s, base, c, v), base, d) == if d == c then v else Get(s, base, d)
  {
    hide Patch, Four, Word4;
    if d == c {
      PatchInside(s, base + 4 * c, Four(v));
      ReadFour(Set(s, base, c, v), base + 4 * c, v);
    } else {
      PatchOutside(s, base + 4 * c, Four(v), base + 4 * d, base + 4 * d + 4);
      SameFour(s, Set(s, base, c, v), base + 4 * d);
    }
  }

  lemma SetOutside(s: Bytes, base: nat, c: nat, v: nat, lo: nat, hi: nat)
    requires base + 4 * c + 4 <= |s| && v < 0x1_0000_0000 && lo <= hi <= |s| && (hi <= base || base + 4 * c + 4 <= lo)
    ensures Set(s, base, c, v)[lo..hi] == s[lo..hi]
  {
    PatchOutside(s, base + 4 * c, Four(v), lo, hi);
  }

  /** Media entries, the root and the two directories. */
  function Heads(s: Bytes, base: nat): (r: Bytes)
    requires |s| == TOTAL && base + FAT_SIZE <= TOTAL
    ensures |r| == TOTAL
  {
    Set(Set(Set(Set(Set(s, base, 0, 0x0FFFFFF8), base, 1, 0xFFFFFFFF), base, 2, END), base, 3, END), base, 4, END)
  }

  /** The chain of the file from cluster 5, up to i of its n clusters. */
  function Chain(s: Bytes, base: nat, n: nat, i: nat): (r: Bytes)
    requires |s| == TOTAL && base + FAT_SIZE <= TOTAL && i <= n < CLUSTER_COUNT - 4
    ensures |r| == TOTAL
    decreases i
  {
    if i == 0 then s else Set(Chain(s, base, n, i - 1), base, 4 + i, if i == n then END else 5 + i)
  }

  function WithTable(s: Bytes, base: nat, n: nat): (r: Bytes)
    requires |s| == TOTAL && base + FAT_SIZE <= TOTAL && n < CLUSTER_COUNT - 4
    ensures |r| == TOTAL
  {
    Chain(Heads(s, base), base, n, n)
  }

  lemma {:induction false} ChainGet(s: Bytes, base: nat, n: nat, i: nat, d: nat)
    requires |s| == TOTAL && base + FAT_SIZE <= TOTAL && i <= n < CLUSTER_COUNT - 4 && 4 * d + 4 <= FAT_SIZE
    ensures Get(Chain(s, base, n, i), base, d) == if 5 <= d < 5 + i then (if d == 4 + n then END else d + 1) else Get(s, base, d)
    decreases i
  {
    hide Get, Set;
    if i > 0 {
      ChainGet(s, base, n, i - 1, d);
      GetSet(Chain(s, base, n, i - 1), base, 4 + i, if i == n then END else 5 + i, d);
    }
  }

  lemma {:induction false} ChainOutside(s: Bytes, base: nat, n: nat, i: nat, lo: nat, hi: nat)
    requires |s| == TOTAL && base + FAT_SIZE <= TOTAL && i <= n < CLUSTER_COUNT - 4
    requires lo <= hi <= TOTAL && (hi <= base || base + FAT_SIZE <= lo)
    ensures Chain(s, base, n, i)[lo..hi] == s[lo..hi]
    decreases i
  {
    hide Set;
    if i > 0 {
      ChainOutside(s, base, n, i - 1, lo, hi);
      SetOutside(Chain(s, base, n, i - 1), base, 4 + i, if i == n then END else 5 + i, lo, hi);
    }
  }

  /** A table only depends on what it is written over in entries that are not written. */
  lemma WithTableGet(s: Bytes, base: nat, n: nat, d: nat)
    requires |s| == TOTAL && base + FAT_SIZE <= TOTAL && n < CLUSTER_COUNT - 4 && 2 <= d && 4 * d + 4 <= FAT_SIZE
    ensures Get(WithTable(s, base, n), base, d)
         == if d <= 4 || d == 4 + n then END else if d < 5 + n then d + 1 else Get(s, base, d)
  {
    hide Get, Set, Chain;
    ChainGet(Heads(s, base), base, n, n, d);
    var s0 := Set(s, base, 0, 0x0FFFFFF8);
    var s1 := Set(s0, base, 1, 0xFFFFFFFF);
    var s2 := Set(s1, base, 2, END);
    var s3 := Set(s2, base, 3, END);
    GetSet(s, base, 0, 0x0FFFFFF8, d);
    GetSet(s0, base, 1, 0xFFFFFFFF, d);
    GetSet(s1, base, 2, END, d);
    GetSet(s2, base, 3, END, d);
    GetSet(s3, base, 4, END, d);
  }

  lemma WithTableOutside(s: Bytes, base: nat, n: nat, lo: nat, hi: nat)
    requires |s| == TOTAL && base + FAT_SIZE <= TOTAL && n < CLUSTER_COUNT - 4
    requires lo <= hi <= TOTAL && (hi <= base || base + FAT_SIZE <= lo)
    ensures WithTable(s, base, n)[lo..hi] == s[lo..hi]
  {
    hide Set, Chain;
    ChainOutside(Heads(s, base), base, n, n, lo, hi);
    var s0 := Set(s, base, 0, 0x0FFFFFF8);
    var s1 := Set(s0, base, 1, 0xFFFFFFFF);
    var s2 := Set(s1, base, 2, END);
    var s3 := Set(s2, base, 3, END);
    SetOutside(s, base, 0, 0x0FFFFFF8, lo, hi);
    SetOutside(s0, base, 1, 0xFFFFFFFF, lo, hi);
    SetOutside(s1, base, 2, END, lo, hi);
    SetOutside(s2, base, 3, END, lo, hi);
    SetOutside(s3, base, 4, END, lo, hi);
  }

  // ---- directory entries -----------------------------------------------------------

  function PutEntry(s: Bytes, c: nat, name: Name, attr: Byte, first: nat, size: nat): (r: Bytes)
    requires |s| == TOTAL && 2 <= c <= 4 && first < 0x1_0000_0000 && size < 0x1_0000_0000
    ensures |r| == TOTAL
  {
    var off := At(c);
    Patch(Patch(Patch(Patch(Patch(s, off, name), off + 11, [attr]), off + 20, Two(first / 0x1_0000)), off + 26, Two(first % 0x1_0000)), off + 28, Four(size))
  }

  predicate IsEntry(s: Bytes, c: nat, name: Name, attr: Byte, first: nat, size: nat)
    requires |s| == TOTAL && 2 <= c <= 4
  {
    var off := At(c);
    && s[off..off + 11] == name && s[off + 11] == attr
    && Word2(s, off + 26) + 0x1_0000 * Word2(s, off + 20) == first && Word4(s, off + 28) == size
  }

  lemma EntryOutside(s: Bytes, c: nat, name: Name, attr: Byte, first: nat, size: nat, lo: nat, hi: nat)
    requires |s| == TOTAL && 2 <= c <= 4 && first < 0x1_0000_0000 && size < 0x1_0000_0000
    requires lo <= hi <= TOTAL && (hi <= At(c) || At(c) + 32 <= lo)
    ensures PutEntry(s, c, name, attr, first, size)[lo..hi] == s[lo..hi]
  {
    hide Patch, Two, Four;
    var off := At(c);
    var s1 := Patch(s, off, name);
    var s2 := Patch(s1, off + 11, [attr]);
    var s3 := Patch(s2, off + 20, Two(first / 0x1_0000));
    var s4 := Patch(s3, off + 26, Two(first % 0x1_0000));
    PatchOutside(s, off, name, lo, hi);
    PatchOutside(s1, off + 11, [attr], lo, hi);
    PatchOutside(s2, off + 20, Two(first / 0x1_0000), lo, hi);
    PatchOutside(s3, off + 26, Two(first % 0x1_0000), lo, hi);
    PatchOutside(s4, off + 28, Four(size), lo, hi);
  }

  lemma EntryReads(s: Bytes, c: nat, name: Name, attr: Byte, first: nat, size: nat)
    requires |s| == TOTAL && 2 <= c <= 4 && first < 0x1_0000_0000 && size < 0x1_0000_0000
    ensures IsEntry(PutEntry(s, c, name, attr, first, size), c, name, attr, first, size)
  {
    hide Patch, Two, Four, Word2, Word4;
    var off := At(c);
    var hi, lo := Two(first / 0x1_0000), Two(first % 0x1_0000);
    var s1 := Patch(s, off, name);
    var s2 := Patch(s1, off + 11, [attr]);
    var s3 := Patch(s2, off + 20, hi);
    var s4 := Patch(s3, off + 26, lo);
    var s5 := Patch(s4, off + 28, Four(size));
    PatchInside(s, off, name);
    PatchOutside(s1, off + 11, [attr], off, off + 11);
    PatchOutside(s2, off + 20, hi, off, off + 11);
    PatchOutside(s3, off + 26, lo, off, off + 11);
    PatchOutside(s4, off + 28, Four(size), off, off + 11);
    PatchAt(s1, off + 11, [attr], off + 11);
    PatchAt(s2, off + 20, hi, off + 11);
    PatchAt(s3, off + 26, lo, off + 11);
    PatchAt(s4, off + 28, Four(size), off + 11);
    PatchInside(s2, off + 20, hi);
    PatchOutside(s3, off + 26, lo, off + 20, off + 22);
    PatchOutside(s4, off + 28, Four(size), off + 20, off + 22);
    ReadTwo(s5, off + 20, first / 0x1_0000);
    PatchInside(s3, off + 26, lo);
    PatchOutside(s4, off + 28, Four(size), off + 26, off + 28);
    ReadTwo(s5, off + 26, first % 0x1_0000);
    PatchInside(s4, off + 28, Four(size));
    ReadFour(s5, off + 28, size);
  }

  lemma SameEntry(s: Bytes, r: Bytes, c: nat, name: Name, attr: Byte, first: nat, size: nat)
    requires |s| == |r| == TOTAL && 2 <= c <= 4 && IsEntry(s, c, name, attr, first, size) && r[At(c)..At(c) + 32] == s[At(c)..At(c) + 32]
    ensures IsEntry(r, c, name, attr, first, size)
  {
    var off := At(c);
    var a, b := s[off..off + 32], r[off..off + 32];
    assert s[off..off + 11] == a[..11] && r[off..off + 11] == b[..11];
    assert s[off + 11] == a[11] && s[off + 20] == a[20] && s[off + 21] == a[21] && s[off + 26] == a[26] && s[off + 27] == a[27];
    assert r[off + 11] == b[11] && r[off + 20] == b[20] && r[off + 21] == b[21] && r[off + 26] == b[26] && r[off + 27] == b[27];
    assert s[off + 28..off + 32] == a[28..32] && r[off + 28..off + 32] == b[28..32];
    SameFour(s, r, off + 28);
  }

  // ---- the partition ---------------------------------------------------------------

  /** Everything below the directories. */
  function WithTables(s: Bytes, n: nat): (r: Bytes)
    requires |s| == TOTAL && n < CLUSTER_COUNT - 4
    ensures |r| == TOTAL
  {
    var v := Patch(Patch(s, PART, BootSector()), PART + 6 * SECTOR, BootSector());
    WithTable(WithTable(v, FAT_A, n), FAT_B, n)
  }

  function WithEntries(s: Bytes, size: nat): (r: Bytes)
    requires |s| == TOTAL && size < 0x1_0000_0000
    ensures |r| == TOTAL
  {
    PutEntry(PutEntry(PutEntry(s, 2, EFI, DIRECTORY, 3, 0), 3, BOOT, DIRECTORY, 4, 0), 4, BOOTX64, ARCHIVE, 5, size)
  }

  function WithEsp(s: Bytes, efi: Bytes): (r: Bytes)
    requires |s| == TOTAL && Fits(|efi|)
    ensures |r| == TOTAL
  {
    FileInside(|efi|);
    Patch(WithEntries(WithTables(s, ClustersFor(|efi|)), |efi|), At(5), efi)
  }

  lemma FileInside(size: nat)
    requires Fits(size)
    ensures At(5) + size <= At(5 + ClustersFor(size)) <= PART_END && size < 0x1_0000_0000
  {}

  /** Nothing outside the partition is written. */
  lemma EspOutside(s: Bytes, efi: Bytes, lo: nat, hi: nat)
    requires |s| == TOTAL && Fits(|efi|) && lo <= hi <= TOTAL && (hi <= PART || PART_END <= lo)
    ensures WithEsp(s, efi)[lo..hi] == s[lo..hi]
  {
    hide Patch, BootSector, WithTable, PutEntry;
    var n := ClustersFor(|efi|);
    FileInside(|efi|);
    var v0 := Patch(s, PART, BootSector());
    var v := Patch(v0, PART + 6 * SECTOR, BootSector());
    PatchOutside(s, PART, BootSector(), lo, hi);
    PatchOutside(v0, PART + 6 * SECTOR, BootSector(), lo, hi);
    WithTableOutside(v, FAT_A, n, lo, hi);
    WithTableOutside(WithTable(v, FAT_A, n), FAT_B, n, lo, hi);
    var t := WithTables(s, n);
    var e1 := PutEntry(t, 2, EFI, DIRECTORY, 3, 0);
    var e2 := PutEntry(e1, 3, BOOT, DIRECTORY, 4, 0);
    EntryOutside(t, 2, EFI, DIRECTORY, 3, 0, lo, hi);
    EntryOutside(e1, 3, BOOT, DIRECTORY, 4, 0, lo, hi);
    EntryOutside(e2, 4, BOOTX64, ARCHIVE, 5, |efi|, lo, hi);
    PatchOutside(WithEntries(t, |efi|), At(5), efi, lo, hi);
  }

  // ---- reading it back ---------------------------------------------------------------

  function FileBytes(s: Bytes, c: nat, size: nat): Option<Bytes>
    requires |s| == TOTAL
    decreases size
  {
    if c < 2 || c >= CLUSTER_COUNT + 2 then None
    else if size <= SECTOR then
      if Get(s, FAT_A, c) >= 0x0FFFFFF8 then Some(s[At(c)..At(c) + size]) else None
    else
      var rest := FileBytes(s, Get(s, FAT_A, c), size - SECTOR);
      if rest.None? then None else Some(s[At(c)..At(c) + SECTOR] + rest.value)
  }

  /** The entry of that name and attribute between two offsets; a zero byte ends the search. */
  function FindEntry(s: Bytes, off: nat, end: nat, name: Name, attr: Byte): (r: Option<nat>)
    requires end <= |s|
    ensures r.Some? ==> off <= r.value && r.value + 32 <= end
    decreases end - off
  {
    if off + 32 > end || s[off] == 0 then None
    else if s[off..off + 11] == name && s[off + 11] == attr then Some(off)
    else FindEntry(s, off + 32, end, name, attr)
  }

  /** A name looked up in a directory cluster: its first cluster and size. */
  function Child(s: Bytes, c: nat, name: Name, attr: Byte): Option<(nat, nat)>
    requires |s| == TOTAL
  {
    if c < 2 || c >= CLUSTER_COUNT + 2 then None
    else
      var found := FindEntry(s, At(c), At(c) + SECTOR, name, attr);
      if found.None? then None
      else
        var off := found.value;
        Some((Word2(s, off + 26) + 0x1_0000 * Word2(s, off + 20), Word4(s, off + 28)))
  }

  /** /EFI/BOOT/BOOTX64.EFI, from the root cluster that the boot sector names. */
  function ReadBootFile(s: Bytes): Option<Bytes>
    requires |s| == TOTAL
  {
    var efi := Child(s, Word4(s, PART + 44), EFI, DIRECTORY);
    if efi.None? then None
    else
      var boot := Child(s, efi.value.0, BOOT, DIRECTORY);
      if boot.None? then None
      else
        var file := Child(s, boot.value.0, BOOTX64, ARCHIVE);
        if file.None? then None else FileBytes(s, file.value.0, file.value.1)
  }

  /** The chain of a file of n clusters from cluster 5. */
  ghost predicate IsChained(s: Bytes, n: nat)
    requires |s| == TOTAL
  {
    n < CLUSTER_COUNT - 4 && forall d :: 5 <= d < 5 + n ==> Get(s, FAT_A, d) == if d == 4 + n then END else d + 1
  }

  lemma {:induction false} ChainReads(s: Bytes, n: nat, c: nat, size: nat)
    requires |s| == TOTAL && IsChained(s, n) && 5 <= c < 5 + n && ClustersFor(size) == 5 + n - c
    ensures At(c) + size <= TOTAL && FileBytes(s, c, size) == Some(s[At(c)..At(c) + size])
    decreases size
  {
    hide Get;
    if size <= SECTOR {
      assert c == 4 + n;
    } else {
      ChainReads(s, n, c + 1, size - SECTOR);
      assert s[At(c)..At(c) + SECTOR] + s[At(c) + SECTOR..At(c) + size] == s[At(c)..At(c) + size];
    }
  }

  // ---- the partition reads back --------------------------------------------------------

  lemma BootFields()
    ensures BootSector()[44..48] == Four(2) && BootSector()[82..90] == FAT32_LABEL
  {
    hide Zeros, Four, Two;
    assert Parameters()[44..48] == Four(2);
    assert BootSector()[44..48] == Parameters()[44..48];
  }

  /** Later steps do not touch the first boot sector. */
  lemma BootSectorStays(s: Bytes, efi: Bytes)
    requires |s| == TOTAL && Fits(|efi|)
    ensures WithEsp(s, efi)[PART..PART + SECTOR] == BootSector()
  {
    hide Patch, BootSector, WithTable, PutEntry;
    var n := ClustersFor(|efi|);
    FileInside(|efi|);
    var lo, hi := PART, PART + SECTOR;
    var v0 := Patch(s, PART, BootSector());
    var v := Patch(v0, PART + 6 * SECTOR, BootSector());
    PatchInside(s, PART, BootSector());
    PatchOutside(v0, PART + 6 * SECTOR, BootSector(), lo, hi);
    WithTableOutside(v, FAT_A, n, lo, hi);
    WithTableOutside(WithTable(v, FAT_A, n), FAT_B, n, lo, hi);
    var t := WithTables(s, n);
    var e1 := PutEntry(t, 2, EFI, DIRECTORY, 3, 0);
    var e2 := PutEntry(e1, 3, BOOT, DIRECTORY, 4, 0);
    EntryOutside(t, 2, EFI, DIRECTORY, 3, 0, lo, hi);
    EntryOutside(e1, 3, BOOT, DIRECTORY, 4, 0, lo, hi);
    EntryOutside(e2, 4, BOOTX64, ARCHIVE, 5, |efi|, lo, hi);
    PatchOutside(WithEntries(t, |efi|), At(5), efi, lo, hi);
  }

  /** The tables are not touched after they are written. */
  lemma TablesStay(s: Bytes, efi: Bytes, lo: nat, hi: nat)
    requires |s| == TOTAL && Fits(|efi|) && lo <= hi <= DATA
    ensures WithEsp(s, efi)[lo..hi] == WithTables(s, ClustersFor(|efi|))[lo..hi]
  {
    hide Patch, PutEntry, WithTables;
    FileInside(|efi|);
    var t := WithTables(s, ClustersFor(|efi|));
    var e1 := PutEntry(t, 2, EFI, DIRECTORY, 3, 0);
    var e2 := PutEntry(e1, 3, BOOT, DIRECTORY, 4, 0);
    EntryOutside(t, 2, EFI, DIRECTORY, 3, 0, lo, hi);
    EntryOutside(e1, 3, BOOT, DIRECTORY, 4, 0, lo, hi);
    EntryOutside(e2, 4, BOOTX64, ARCHIVE, 5, |efi|, lo, hi);
    PatchOutside(WithEntries(t, |efi|), At(5), efi, lo, hi);
  }

  /** An entry of either table in the finished partition. */
  lemma EspGet(s: Bytes, efi: Bytes, base: nat, d: nat)
    requires |s| == TOTAL && Fits(|efi|) && (base == FAT_A || base == FAT_B) && 2 <= d && 4 * d + 4 <= FAT_SIZE
    ensures var n := ClustersFor(|efi|);
            Get(WithEsp(s, efi), base, d) == if d <= 4 || d == 4 + n then END else if d < 5 + n then d + 1 else Get(s, base, d)
  {
    hide Patch, BootSector, WithTable, Get, WithEsp;
    var n := ClustersFor(|efi|);
    var at := base + 4 * d;
    var v0 := Patch(s, PART, BootSector());
    var v := Patch(v0, PART + 6 * SECTOR, BootSector());
    var a := WithTable(v, FAT_A, n);
    var t := WithTable(a, FAT_B, n);
    PatchOutside(s, PART, BootSector(), at, at + 4);
    PatchOutside(v0, PART + 6 * SECTOR, BootSector(), at, at + 4);
    SameGet(s, v, base, d);
    TablesStay(s, efi, at, at + 4);
    SameGet(t, WithEsp(s, efi), base, d);
    if base == FAT_A {
      WithTableGet(v, FAT_A, n, d);
      WithTableOutside(a, FAT_B, n, at, at + 4);
      SameGet(a, t, base, d);
    } else {
      WithTableGet(a, FAT_B, n, d);
      WithTableOutside(v, FAT_A, n, at, at + 4);
      SameGet(v, a, base, d);
    }
  }

  lemma SameGet(s: Bytes, r: Bytes, base: nat, d: nat)
    requires |s| == |r| && base + 4 * d + 4 <= |s| && r[base + 4 * d..base + 4 * d + 4] == s[base + 4 * d..base + 4 * d + 4]
    ensures Get(r, base, d) == Get(s, base, d)
  {
    SameFour(s, r, base + 4 * d);
  }

  lemma EntriesRead(t: Bytes, efi: Bytes)
    requires |t| == TOTAL && Fits(|efi|)
    ensures At(5) + |efi| <= TOTAL
    ensures var r := Patch(WithEntries(t, |efi|), At(5), efi);
            IsEntry(r, 2, EFI, DIRECTORY, 3, 0) && IsEntry(r, 3, BOOT, DIRECTORY, 4, 0) && IsEntry(r, 4, BOOTX64, ARCHIVE, 5, |efi|)
  {
    hide Patch, PutEntry, IsEntry;
    FileInside(|efi|);
    var size := |efi|;
    var e1 := PutEntry(t, 2, EFI, DIRECTORY, 3, 0);
    var e2 := PutEntry(e1, 3, BOOT, DIRECTORY, 4, 0);
    var e3 := PutEntry(e2, 4, BOOTX64, ARCHIVE, 5, size);
    var r := Patch(e3, At(5), efi);
    EntryReads(t, 2, EFI, DIRECTORY, 3, 0);
    EntryReads(e1, 3, BOOT, DIRECTORY, 4, 0);
    EntryReads(e2, 4, BOOTX64, ARCHIVE, 5, size);
    EntryOutside(e1, 3, BOOT, DIRECTORY, 4, 0, At(2), At(2) + 32);
    EntryOutside(e2, 4, BOOTX64, ARCHIVE, 5, size, At(2), At(2) + 32);
    EntryOutside(e2, 4, BOOTX64, ARCHIVE, 5, size, At(3), At(3) + 32);
    PatchOutside(e3, At(5), efi, At(2), At(2) + 32);
    PatchOutside(e3, At(5), efi, At(3), At(3) + 32);
    PatchOutside(e3, At(5), efi, At(4), At(4) + 32);
    SameEntry(e1, r, 2, EFI, DIRECTORY, 3, 0);
    SameEntry(e2, r, 3, BOOT, DIRECTORY, 4, 0);
    SameEntry(e3, r, 4, BOOTX64, ARCHIVE, 5, size);
  }

  /** For every file that fits, looking up /EFI/BOOT/BOOTX64.EFI from the root cluster that the boot
      sector names, and following its chain, gives back exactly the file. */
  lemma EspReads(s: Bytes, efi: Bytes)
    requires |s| == TOTAL && Fits(|efi|)
    ensures ReadBootFile(WithEsp(s, efi)) == Some(efi)
    ensures IsEntry(WithEsp(s, efi), 4, BOOTX64, ARCHIVE, 5, |efi|)
  {
    hide Patch, BootSector, WithTables, WithEntries, IsEntry, Child, FileBytes, Get, Word4;
    var n := ClustersFor(|efi|);
    var r := WithEsp(s, efi);
    FileInside(|efi|);
    RootCluster(s, efi);
    EntriesRead(WithTables(s, n), efi);
    ChildReads(r, 2, EFI, DIRECTORY, 3, 0);
    ChildReads(r, 3, BOOT, DIRECTORY, 4, 0);
    ChildReads(r, 4, BOOTX64, ARCHIVE, 5, |efi|);
    forall d | 5 <= d < 5 + n ensures Get(r, FAT_A, d) == if d == 4 + n then END else d + 1 {
      EspGet(s, efi, FAT_A, d);
    }
    ChainReads(r, n, 5, |efi|);
    PatchInside(WithEntries(WithTables(s, n), |efi|), At(5), efi);
  }

  lemma RootCluster(s: Bytes, efi: Bytes)
    requires |s| == TOTAL && Fits(|efi|)
    ensures Word4(WithEsp(s, efi), PART + 44) == 2
  {
    hide BootSector, WithEsp, Word4, Four;
    var r := WithEsp(s, efi);
    BootSectorStays(s, efi);
    BootFields();
    assert r[PART + 44..PART + 48] == r[PART..PART + SECTOR][44..48];
    ReadFour(r, PART + 44, 2);
  }

  lemma ChildReads(s: Bytes, c: nat, name: Name, attr: Byte, first: nat, size: nat)
    requires |s| == TOTAL && 2 <= c <= 4 && name[0] != 0 && IsEntry(s, c, name, attr, first, size)
    ensures Child(s, c, name, attr) == Some((first, size))
  {
    assert s[At(c)] == s[At(c)..At(c) + 11][0];
  }
}
