/** The installed disk: partition table, system partition and data volume, and its verification. */
module InstalledDisk {
  import opened Options
  import opened DiskBytes
  import opened Fat32Esp

  const TOTAL_SECTORS := 131072
  const GPT_END := 17408                 // behind the 32 sectors of entries
  const BACKUP_ENTRIES := 67091968       // LBA 131039
  const BACKUP_HEADER := 67108352        // the last sector
  const DATA_VOLUME := 44040192          // LBA 86016

  type Guid = b: Bytes | |b| == 16 witness Zeros(16)

  /** Identifiers, made elsewhere. */
  datatype Ids = Ids(espType: Guid, esp: Guid, dataType: Guid, data: Guid, disk: Guid)

  type Word = n: nat | n < 0x1_0000_0000

  /** The checksum function; nothing is assumed about it. */
  type Crc = Bytes -> Word

  const EFI_PART: Bytes := [69, 70, 73, 32, 80, 65, 82, 84]
  const BAKENFS_MAGIC: Bytes := [66, 65, 75, 69, 78, 70, 83, 49]
  const MZ: Bytes := [77, 90]

  // ---- partition table -------------------------------------------------------------

  /** UTF-16 of an ASCII text, at most 36 characters, padded to 72 bytes. */
  function WideName(ascii: Bytes): (r: Bytes)
    requires |ascii| <= 36
    ensures |r| == 72
  {
    if ascii == [] then Zeros(72) else
      var rest := WideName(ascii[1..]);
      [ascii[0], 0] + rest[..70]
  }

  function Partition(type_: Guid, id: Guid, first: nat, last: nat, name: Bytes): (r: Bytes)
    requires first < TOTAL_SECTORS && last < TOTAL_SECTORS && |name| <= 36
    ensures |r| == 128
  {
    type_ + id + Eight(first) + Eight(last) + Eight(0) + WideName(name)
  }

  const ESP_NAME: Bytes := [66, 97, 107, 101, 110, 32, 69, 83, 80]
  const DATA_NAME: Bytes := [66, 97, 107, 101, 110, 32, 68, 97, 116, 97]

  function Partitions(ids: Ids): (r: Bytes)
    ensures |r| == 16384
  {
    Partition(ids.espType, ids.esp, 2048, 86015, ESP_NAME) + Partition(ids.dataType, ids.data, 86016, TOTAL_SECTORS - 34, DATA_NAME)
    + Zeros(16128)
  }

  /** A header with zero for its own checksum. */
  function BareHeader(ids: Ids, crc: Crc, current: nat, backup: nat, entries: nat): (r: Bytes)
    requires current < TOTAL_SECTORS && backup < TOTAL_SECTORS && entries < TOTAL_SECTORS
    ensures |r| == SECTOR
  {
    EFI_PART + (Four(0x00010000) + Four(92) + Four(0) + Four(0)) + Eight(current) + Eight(backup) + Eight(34) + Eight(TOTAL_SECTORS - 34)
    + ids.disk + Eight(entries) + Four(128) + Four(128) + Four(crc(Partitions(ids))) + Zeros(420)
  }

  function Header(ids: Ids, crc: Crc, current: nat, backup: nat, entries: nat): (r: Bytes)
    requires current < TOTAL_SECTORS && backup < TOTAL_SECTORS && entries < TOTAL_SECTORS
    ensures |r| == SECTOR
  {
    var bare := BareHeader(ids, crc, current, backup, entries);
    Patch(bare, 16, Four(crc(bare[..92])))
  }

  function ProtectiveMbr(s: Bytes): (r: Bytes)
    requires |s| == TOTAL
    ensures |r| == TOTAL
  {
    Patch(Patch(Patch(s, 450, [0xEE]), 454, Four(1) + Four(TOTAL_SECTORS - 1)), 510, [0x55, 0xAA])
  }

  function WithGpt(s: Bytes, ids: Ids, crc: Crc): (r: Bytes)
    requires |s| == TOTAL
    ensures |r| == TOTAL
  {
    Patch(Patch(Patch(Patch(ProtectiveMbr(s), 1024, Partitions(ids)), BACKUP_ENTRIES, Partitions(ids)),
                SECTOR, Header(ids, crc, 1, TOTAL_SECTORS - 1, 2)),
          BACKUP_HEADER, Header(ids, crc, TOTAL_SECTORS - 1, 1, TOTAL_SECTORS - 33))
  }

  /** Both copies of the table lie outside the partitions. */
  lemma GptOutside(s: Bytes, ids: Ids, crc: Crc, lo: nat, hi: nat)
    requires |s| == TOTAL && GPT_END <= lo <= hi <= BACKUP_ENTRIES
    ensures WithGpt(s, ids, crc)[lo..hi] == s[lo..hi]
  {
    hide Patch, Partitions, Header;
    var m1 := Patch(s, 450, [0xEE]);
    var m2 := Patch(m1, 454, Four(1) + Four(TOTAL_SECTORS - 1));
    var m3 := Patch(m2, 510, [0x55, 0xAA]);
    var g1 := Patch(m3, 1024, Partitions(ids));
    var g2 := Patch(g1, BACKUP_ENTRIES, Partitions(ids));
    var g3 := Patch(g2, SECTOR, Header(ids, crc, 1, TOTAL_SECTORS - 1, 2));
    PatchOutside(s, 450, [0xEE], lo, hi);
    PatchOutside(m1, 454, Four(1) + Four(TOTAL_SECTORS - 1), lo, hi);
    PatchOutside(m2, 510, [0x55, 0xAA], lo, hi);
    PatchOutside(m3, 1024, Partitions(ids), lo, hi);
    PatchOutside(g1, BACKUP_ENTRIES, Partitions(ids), lo, hi);
    PatchOutside(g2, SECTOR, Header(ids, crc, 1, TOTAL_SECTORS - 1, 2), lo, hi);
    PatchOutside(g3, BACKUP_HEADER, Header(ids, crc, TOTAL_SECTORS - 1, 1, TOTAL_SECTORS - 33), lo, hi);
  }

  /** Headers and entries, in both places, are as written. */
  lemma GptHolds(s: Bytes, ids: Ids, crc: Crc)
    requires |s| == TOTAL
    ensures var r := WithGpt(s, ids, crc);
            && r[SECTOR..2 * SECTOR] == Header(ids, crc, 1, TOTAL_SECTORS - 1, 2)
            && r[1024..GPT_END] == Partitions(ids)
            && r[BACKUP_ENTRIES..BACKUP_HEADER] == Partitions(ids)
            && r[BACKUP_HEADER..TOTAL] == Header(ids, crc, TOTAL_SECTORS - 1, 1, TOTAL_SECTORS - 33)
  {
    hide Patch, Partitions, Header, ProtectiveMbr;
    var m := ProtectiveMbr(s);
    var p := Partitions(ids);
    var h, b := Header(ids, crc, 1, TOTAL_SECTORS - 1, 2), Header(ids, crc, TOTAL_SECTORS - 1, 1, TOTAL_SECTORS - 33);
    var g1 := Patch(m, 1024, p);
    var g2 := Patch(g1, BACKUP_ENTRIES, p);
    var g3 := Patch(g2, SECTOR, h);
    PatchInside(m, 1024, p);
    PatchOutside(g1, BACKUP_ENTRIES, p, 1024, GPT_END);
    PatchOutside(g2, SECTOR, h, 1024, GPT_END);
    PatchOutside(g3, BACKUP_HEADER, b, 1024, GPT_END);
    PatchInside(g1, BACKUP_ENTRIES, p);
    PatchOutside(g2, SECTOR, h, BACKUP_ENTRIES, BACKUP_HEADER);
    PatchOutside(g3, BACKUP_HEADER, b, BACKUP_ENTRIES, BACKUP_HEADER);
    PatchInside(g2, SECTOR, h);
    PatchOutside(g3, BACKUP_HEADER, b, SECTOR, 2 * SECTOR);
    PatchInside(g3, BACKUP_HEADER, b);
  }

  // ---- data volume -----------------------------------------------------------------

  function Padded32(b: Bytes): (r: Bytes)
    requires |b| <= 32
    ensures |r| == 32
  {
    b + Zeros(32 - |b|)
  }

  function Node(name: Bytes, lba: nat, size: nat, kind: nat): (r: Bytes)
    requires |name| <= 32 && lba < TOTAL_SECTORS && size < 0x1_0000 && kind < 256
    ensures |r| == 44
  {
    Padded32(name) + Four(lba) + Four(size) + Four(kind)
  }

  const HOME: Bytes := [47, 104, 111, 109, 101]
  const CONFIG: Bytes := [47, 99, 111, 110, 102, 105, 103]
  const NOTES: Bytes := HOME + [47, 110, 111, 116, 97, 115, 46, 116, 120, 116]
  const THEME: Bytes := CONFIG + [47, 116, 104, 101, 109, 101, 46, 99, 102, 103]
  const USER: Bytes := [85, 115, 117, 97, 114, 105, 111]
  const NOTES_TITLE: Bytes := [78, 111, 116, 97, 115]

  /** Two directories and two files. */
  function VolumeHeader(): (r: Bytes)
    ensures |r| == 192
  {
    BAKENFS_MAGIC + (Four(1) + Four(4)) + Node(HOME, 0, 0, 1) + Node(CONFIG, 0, 0, 1) + Node(NOTES, 86018, 512, 2) + Node(THEME, 86017, 512, 2)
  }

  /** The contents of theme.cfg: theme 0 and the user's name. */
  function Preferences(): (r: Bytes)
    ensures |r| == 36
  {
    Four(0) + Padded32(USER)
  }

  /** The contents of notas.txt: one note, which has a title only. */
  function NotesFile(): (r: Bytes)
    ensures |r| == 48
  {
    Eight(0x31544E4E454B4142) + Four(1) + Four(1) + Padded32(NOTES_TITLE)
  }

  function WithMarker(s: Bytes): (r: Bytes)
    requires |s| == TOTAL
    ensures |r| == TOTAL
  {
    Patch(Patch(Patch(s, DATA_VOLUME, VolumeHeader()), DATA_VOLUME + SECTOR, Preferences()), DATA_VOLUME + 2 * SECTOR, NotesFile())
  }

  /** Between and behind the three records nothing is written. */
  lemma MarkerOutside(s: Bytes, lo: nat, hi: nat)
    requires |s| == TOTAL && lo <= hi <= TOTAL
    requires hi <= DATA_VOLUME || DATA_VOLUME + 192 <= lo
    requires hi <= DATA_VOLUME + SECTOR || DATA_VOLUME + SECTOR + 36 <= lo
    requires hi <= DATA_VOLUME + 2 * SECTOR || DATA_VOLUME + 2 * SECTOR + 48 <= lo
    ensures WithMarker(s)[lo..hi] == s[lo..hi]
  {
    hide Patch, VolumeHeader, Preferences, NotesFile;
    var m1 := Patch(s, DATA_VOLUME, VolumeHeader());
    var m2 := Patch(m1, DATA_VOLUME + SECTOR, Preferences());
    PatchOutside(s, DATA_VOLUME, VolumeHeader(), lo, hi);
    PatchOutside(m1, DATA_VOLUME + SECTOR, Preferences(), lo, hi);
    PatchOutside(m2, DATA_VOLUME + 2 * SECTOR, NotesFile(), lo, hi);
  }

  lemma MarkerHolds(s: Bytes)
    requires |s| == TOTAL
    ensures var r := WithMarker(s);
            && r[DATA_VOLUME..DATA_VOLUME + 192] == VolumeHeader()
            && r[DATA_VOLUME + SECTOR..DATA_VOLUME + SECTOR + 36] == Preferences()
            && r[DATA_VOLUME + 2 * SECTOR..DATA_VOLUME + 2 * SECTOR + 48] == NotesFile()
  {
    hide Patch, VolumeHeader, Preferences, NotesFile;
    var v, p, n := DATA_VOLUME, DATA_VOLUME + SECTOR, DATA_VOLUME + 2 * SECTOR;
    var m1 := Patch(s, v, VolumeHeader());
    var m2 := Patch(m1, p, Preferences());
    PatchInside(s, v, VolumeHeader());
    PatchOutside(m1, p, Preferences(), v, v + 192);
    PatchOutside(m2, n, NotesFile(), v, v + 192);
    PatchInside(m1, p, Preferences());
    PatchOutside(m2, n, NotesFile(), p, p + 36);
    PatchInside(m2, n, NotesFile());
  }

  lemma MagicFirst()
    ensures VolumeHeader()[..8] == BAKENFS_MAGIC
  {}

  /** The whole disk, in the order in which it is written. */
  function Image(ids: Ids, crc: Crc, efi: Bytes): (r: Bytes)
    requires Fits(|efi|)
    ensures |r| == TOTAL
  {
    WithMarker(WithEsp(WithGpt(Zeros(TOTAL), ids, crc), efi))
  }

  // ---- verification ----------------------------------------------------------------

  datatype Verdict = Accepted | NoGpt | ShortHeader | BadCrc | NoFat32 | NoBootFile | NoDataVolume

  /** A slice as Python takes it: cut off at the end of the buffer. */
  function Slice(s: Bytes, lo: nat, hi: nat): Bytes
    requires lo <= hi
  {
    if |s| <= lo then [] else if |s| < hi then s[lo..] else s[lo..hi]
  }

  ghost predicate Contains(s: Bytes, pattern: Bytes) {
    exists i: nat :: OccursAt(s, pattern, i)
  }

  predicate OccursAt(s: Bytes, pattern: Bytes, i: nat) {
    i + |pattern| <= |s| && s[i..i + |pattern|] == pattern
  }

  /** Section 5.3.2 of UEFI 2.10: the checksum covers 92 bytes, with its own field zero. */
  predicate HeaderCrcHolds(header: Bytes, crc: Crc)
    requires |header| >= 20
  {
    crc(Patch(header, 16, Four(0))) == Word4(header, 16)
  }

  /** The first check that fails, in the order in which they are made. */
  ghost function Verified(data: Bytes, crc: Crc): Verdict {
    var header := Slice(data, 512, 604);
    if Slice(data, 512, 520) != EFI_PART then NoGpt
    else if |header| < 20 then ShortHeader
    else if !HeaderCrcHolds(header, crc) then BadCrc
    else if Slice(data, PART + 82, PART + 90) != FAT32_LABEL then NoFat32
    else if !Contains(Slice(data, PART, PART + 2097152), BOOTX64) then NoBootFile
    else if Slice(data, DATA_VOLUME, DATA_VOLUME + 8) != BAKENFS_MAGIC then NoDataVolume
    else Accepted
  }

  method Find(s: Bytes, pattern: Bytes) returns (found: bool)
    ensures found <==> Contains(s, pattern)
  {
    var i := 0;
    while i + |pattern| <= |s|
      invariant 0 <= i
      invariant forall k: nat :: k < i ==> !OccursAt(s, pattern, k)
      decreases |s| - i
    {
      if s[i..i + |pattern|] == pattern {
        assert OccursAt(s, pattern, i);
        return true;
      }
      i := i + 1;
    }
    return false;
  }

  method Verify(data: Bytes, crc: Crc) returns (r: Verdict)
    ensures r == Verified(data, crc)
  {
    if Slice(data, 512, 520) != EFI_PART {
      return NoGpt;
    }
    var header := Slice(data, 512, 604);
    if |header| < 20 {
      return ShortHeader;
    }
    var expected := Word4(header, 16);
    header := Patch(header, 16, Four(0));
    if crc(header) != expected {
      return BadCrc;
    }
    if Slice(data, PART + 82, PART + 90) != FAT32_LABEL {
      return NoFat32;
    }
    var found := Find(Slice(data, PART, PART + 2097152), BOOTX64);
    if !found {
      return NoBootFile;
    }
    if Slice(data, DATA_VOLUME, DATA_VOLUME + 8) != BAKENFS_MAGIC {
      return NoDataVolume;
    }
    return Accepted;
  }

  /** What a disk must have, by its bytes: the signature and a checksum over the first 92 bytes of the header
      but its own four, a FAT32 label, the name of the boot file in the first 2 MiB of the partition, and the
      magic of the data volume. */
  ghost predicate HasGpt(data: Bytes) {
    |data| >= 520 && data[512..520] == EFI_PART
  }

  ghost predicate HasSealedHeader(data: Bytes, crc: Crc) {
    |data| >= 604 && crc(data[512..528] + [0, 0, 0, 0] + data[532..604]) == Word4(data, 528)
  }

  ghost predicate HasLabel(data: Bytes) {
    |data| >= 1048666 && data[1048658..1048666] == FAT32_LABEL
  }

  ghost predicate HasBootName(data: Bytes) {
    exists i :: NameAt(data, i)
  }

  ghost predicate NameAt(data: Bytes, i: int) {
    1048576 <= i && i + 11 <= |data| && i + 11 <= 3145728 && data[i..i + 11] == BOOTX64
  }

  ghost predicate HasVolume(data: Bytes) {
    |data| >= 44040200 && data[44040192..44040200] == BAKENFS_MAGIC
  }

  /** Verification accepts exactly the disks that have all five, and otherwise says what is missing first. */
  lemma AcceptedIs(data: Bytes, crc: Crc)
    ensures Verified(data, crc) == Accepted
            <==> HasGpt(data) && HasSealedHeader(data, crc) && HasLabel(data) && HasBootName(data) && HasVolume(data)
    ensures Verified(data, crc) == NoGpt <==> !HasGpt(data)
    ensures Verified(data, crc) == ShortHeader <==> HasGpt(data) && |data| < 532
    ensures |data| >= 604 ==> (Verified(data, crc) == BadCrc <==> HasGpt(data) && !HasSealedHeader(data, crc))
    ensures Verified(data, crc) == NoFat32 ==> !HasLabel(data)
    ensures Verified(data, crc) == NoBootFile ==> HasGpt(data) && HasLabel(data) && !HasBootName(data)
    ensures Verified(data, crc) == NoDataVolume ==> HasGpt(data) && HasLabel(data) && HasBootName(data) && !HasVolume(data)
  {
    hide HeaderCrcHolds, Contains, HasSealedHeader, HasBootName;
    NameIs(data);
    if |data| >= 604 {
      SealIs(data, crc);
    }
    assert HasLabel(data) ==> |data| >= 604;
  }

  lemma SealIs(data: Bytes, crc: Crc)
    requires |data| >= 604
    ensures HeaderCrcHolds(Slice(data, 512, 604), crc) <==> HasSealedHeader(data, crc)
  {
    var h := Slice(data, 512, 604);
    assert h == data[512..604];
    assert Patch(h, 16, Four(0)) == data[512..528] + [0, 0, 0, 0] + data[532..604] by {
      assert h[..16] == data[512..528] && h[20..] == data[532..604] && Four(0) == [0, 0, 0, 0];
    }
    assert h[16] == data[528] && h[17] == data[529] && h[18] == data[530] && h[19] == data[531];
  }

  lemma NameIs(data: Bytes)
    ensures Contains(Slice(data, PART, PART + 2097152), BOOTX64) <==> HasBootName(data)
  {
    var s := Slice(data, PART, PART + 2097152);
    if i: nat :| OccursAt(s, BOOTX64, i) {
      SubSlice(data, PART, PART + |s|, PART + i, PART + i + 11);
      assert s == data[PART..PART + |s|];
      assert NameAt(data, PART + i);
    }
    if i :| NameAt(data, i) {
      SubSlice(data, PART, PART + |s|, i, i + 11);
      assert s == data[PART..PART + |s|];
      assert OccursAt(s, BOOTX64, i - PART);
    }
  }

  // ---- build, then verify ------------------------------------------------------------

  /** Zeroing the field again gives back what the checksum was computed over. */
  lemma HeaderVerifies(ids: Ids, crc: Crc, current: nat, backup: nat, entries: nat)
    requires current < TOTAL_SECTORS && backup < TOTAL_SECTORS && entries < TOTAL_SECTORS
    ensures var h := Header(ids, crc, current, backup, entries)[..92];
            HeaderCrcHolds(h, crc) && h[..8] == EFI_PART
  {
    hide BareHeader, HeaderCrcHolds;
    BareFields(ids, crc, current, backup, entries);
    SealVerifies(BareHeader(ids, crc, current, backup, entries), crc);
  }

  lemma SealVerifies(bare: Bytes, crc: Crc)
    requires |bare| == SECTOR && bare[16..20] == Four(0)
    ensures var h := Patch(bare, 16, Four(crc(bare[..92])))[..92];
            HeaderCrcHolds(h, crc) && h[..8] == bare[0..8]
  {
    hide Patch, Four, Word4;
    var sum := crc(bare[..92]);
    var h := Patch(bare, 16, Four(sum));
    PatchInside(bare, 16, Four(sum));
    SubSlice(h, 0, 92, 16, 20);
    ReadFour(h[..92], 16, sum);
    PatchTwice(bare, 16, Four(sum), Four(0));
    PatchOutside(bare, 16, Four(sum), 0, 8);
    SubSlice(h, 0, 92, 0, 8);
    assert h[..92] == h[0..92] && h[0..92][..8] == h[0..92][0..8];
  }

  lemma BareFields(ids: Ids, crc: Crc, current: nat, backup: nat, entries: nat)
    requires current < TOTAL_SECTORS && backup < TOTAL_SECTORS && entries < TOTAL_SECTORS
    ensures var bare := BareHeader(ids, crc, current, backup, entries);
            bare[16..20] == Four(0) && bare[0..8] == EFI_PART
  {
    hide Four, Eight, Zeros, Partitions;
  }

  lemma PatchTwice(s: Bytes, off: nat, a: Bytes, b: Bytes)
    requires |s| == SECTOR && off + |a| <= 92 && |a| == |b| && s[off..off + |b|] == b
    ensures Patch(Patch(s, off, a)[..92], off, b) == s[..92]
  {
    var p := Patch(s, off, a);
    var r := Patch(p[..92], off, b);
    forall i | 0 <= i < 92 ensures r[i] == s[i] {
      PatchAt(p[..92], off, b, i);
      PatchAt(s, off, a, i);
      if off <= i < off + |b| {
        assert s[off..off + |b|][i - off] == s[i];
      }
    }
  }

  /** Offsets that none of the three writers writes to. */
  predicate IsSpare(i: int) {
    || GPT_END <= i < PART
    || DATA_VOLUME + 192 <= i < DATA_VOLUME + SECTOR
    || DATA_VOLUME + SECTOR + 36 <= i < DATA_VOLUME + 2 * SECTOR
    || DATA_VOLUME + 2 * SECTOR + 48 <= i < BACKUP_ENTRIES
  }

  /** The three writers do not overlap: every byte of the disk is what its own writer made of it. */
  lemma RegionsHold(ids: Ids, crc: Crc, efi: Bytes)
    requires Fits(|efi|)
    ensures var r := Image(ids, crc, efi);
            var gpt := WithGpt(Zeros(TOTAL), ids, crc);
            && r[0..GPT_END] == gpt[0..GPT_END] && r[BACKUP_ENTRIES..TOTAL] == gpt[BACKUP_ENTRIES..TOTAL]
            && r[PART..PART_END] == WithEsp(gpt, efi)[PART..PART_END] && PART_END == DATA_VOLUME
            && r[DATA_VOLUME..DATA_VOLUME + 192] == VolumeHeader()
            && r[DATA_VOLUME + SECTOR..DATA_VOLUME + SECTOR + 36] == Preferences()
            && r[DATA_VOLUME + 2 * SECTOR..DATA_VOLUME + 2 * SECTOR + 48] == NotesFile()
            && (forall i :: IsSpare(i) ==> r[i] == 0)
  {
    hide WithGpt, WithEsp, WithMarker, VolumeHeader, Preferences, NotesFile;
    var z := Zeros(TOTAL);
    var gpt := WithGpt(z, ids, crc);
    var esp := WithEsp(gpt, efi);
    var r := WithMarker(esp);
    EspOutside(gpt, efi, 0, GPT_END);
    MarkerOutside(esp, 0, GPT_END);
    EspOutside(gpt, efi, BACKUP_ENTRIES, TOTAL);
    MarkerOutside(esp, BACKUP_ENTRIES, TOTAL);
    MarkerOutside(esp, PART, PART_END);
    MarkerHolds(esp);
    forall i | IsSpare(i) ensures r[i] == 0 {
      Untouched(z, ids, crc, efi, i);
    }
  }

  lemma Untouched(z: Bytes, ids: Ids, crc: Crc, efi: Bytes, i: nat)
    requires |z| == TOTAL && Fits(|efi|) && IsSpare(i)
    ensures WithMarker(WithEsp(WithGpt(z, ids, crc), efi))[i] == z[i]
  {
    hide WithGpt, WithEsp, WithMarker;
    var gpt := WithGpt(z, ids, crc);
    var esp := WithEsp(gpt, efi);
    GptOutside(z, ids, crc, i, i + 1);
    EspOutside(gpt, efi, i, i + 1);
    MarkerOutside(esp, i, i + 1);
    SameByte(gpt, z, i);
    SameByte(esp, gpt, i);
    SameByte(WithMarker(esp), esp, i);
  }

  /** The system partition reads the same on the finished disk. */
  lemma {:induction false} SameFile(s: Bytes, r: Bytes, c: nat, size: nat)
    requires |s| == |r| == TOTAL && r[PART..PART_END] == s[PART..PART_END]
    ensures FileBytes(r, c, size) == FileBytes(s, c, size)
    decreases size
  {
    if 2 <= c < CLUSTER_COUNT + 2 {
      PartSlice(s, r, FAT_A + 4 * c, FAT_A + 4 * c + 4);
      SameGet(s, r, FAT_A, c);
      if size <= SECTOR {
        PartSlice(s, r, At(c), At(c) + size);
      } else {
        PartSlice(s, r, At(c), At(c) + SECTOR);
        SameFile(s, r, Get(s, FAT_A, c), size - SECTOR);
      }
    }
  }

  lemma PartSlice(s: Bytes, r: Bytes, lo: nat, hi: nat)
    requires |s| == |r| == TOTAL && r[PART..PART_END] == s[PART..PART_END] && PART <= lo <= hi <= PART_END
    ensures r[lo..hi] == s[lo..hi]
  {
    SubSlice(r, PART, PART_END, lo, hi);
    SubSlice(s, PART, PART_END, lo, hi);
  }

  /** An entry says the same on both disks. */
  lemma SameFields(s: Bytes, r: Bytes, off: nat)
    requires |s| == |r| == TOTAL && r[PART..PART_END] == s[PART..PART_END] && PART <= off && off + 32 <= PART_END
    ensures r[off] == s[off] && r[off..off + 11] == s[off..off + 11] && r[off + 11] == s[off + 11]
    ensures Word2(r, off + 20) == Word2(s, off + 20) && Word2(r, off + 26) == Word2(s, off + 26)
    ensures Word4(r, off + 28) == Word4(s, off + 28)
  {
    hide Word2, Word4;
    PartSlice(s, r, off, off + 1);
    SameByte(r, s, off);
    PartSlice(s, r, off, off + 11);
    PartSlice(s, r, off + 11, off + 12);
    SameByte(r, s, off + 11);
    PartSlice(s, r, off + 20, off + 22);
    SameTwo(s, r, off + 20);
    PartSlice(s, r, off + 26, off + 28);
    SameTwo(s, r, off + 26);
    PartSlice(s, r, off + 28, off + 32);
    SameFour(s, r, off + 28);
  }

  lemma {:induction false} SameFind(s: Bytes, r: Bytes, off: nat, end: nat, name: Name, attr: Byte)
    requires |s| == |r| == TOTAL && r[PART..PART_END] == s[PART..PART_END] && PART <= off && end <= PART_END
    ensures FindEntry(r, off, end, name, attr) == FindEntry(s, off, end, name, attr)
    decreases end - off
  {
    if off + 32 <= end {
      SameFields(s, r, off);
      SameFind(s, r, off + 32, end, name, attr);
    }
  }

  lemma SameChild(s: Bytes, r: Bytes, c: nat, name: Name, attr: Byte)
    requires |s| == |r| == TOTAL && r[PART..PART_END] == s[PART..PART_END]
    ensures Child(r, c, name, attr) == Child(s, c, name, attr)
  {
    hide Word2, Word4;
    if 2 <= c < CLUSTER_COUNT + 2 {
      SameFind(s, r, At(c), At(c) + SECTOR, name, attr);
      var found := FindEntry(s, At(c), At(c) + SECTOR, name, attr);
      if found.Some? {
        SameFields(s, r, found.value);
      }
    }
  }

  lemma SameBootFile(s: Bytes, r: Bytes)
    requires |s| == |r| == TOTAL && r[PART..PART_END] == s[PART..PART_END]
    ensures ReadBootFile(r) == ReadBootFile(s)
  {
    hide Child, FileBytes;
    PartSlice(s, r, PART + 44, PART + 48);
    SameFour(s, r, PART + 44);
    var efi := Child(s, Word4(s, PART + 44), EFI, DIRECTORY);
    SameChild(s, r, Word4(s, PART + 44), EFI, DIRECTORY);
    if efi.Some? {
      SameChild(s, r, efi.value.0, BOOT, DIRECTORY);
      var boot := Child(s, efi.value.0, BOOT, DIRECTORY);
      if boot.Some? {
        SameChild(s, r, boot.value.0, BOOTX64, ARCHIVE);
        var file := Child(s, boot.value.0, BOOTX64, ARCHIVE);
        if file.Some? {
          SameFile(s, r, file.value.0, file.value.1);
        }
      }
    }
  }

  /** For every boot file that fits: the disk that is built passes verification, whatever the checksum
      function, and reading the boot file from it gives back its bytes. */
  lemma BuildThenVerify(ids: Ids, crc: Crc, efi: Bytes)
    requires Fits(|efi|)
    ensures Verified(Image(ids, crc, efi), crc) == Accepted
    ensures ReadBootFile(Image(ids, crc, efi)) == Some(efi)
  {
    hide WithGpt, WithEsp, WithMarker, Header, HeaderCrcHolds, ReadBootFile, IsEntry, BootSector, Verified, Slice, Contains, Zeros, VolumeHeader, Preferences, NotesFile, IsSpare;
    var gpt := WithGpt(Zeros(TOTAL), ids, crc);
    var esp := WithEsp(gpt, efi);
    var r := Image(ids, crc, efi);
    RegionsHold(ids, crc, efi);
    GptHolds(Zeros(TOTAL), ids, crc);
    HeaderInPlace(gpt, r, Header(ids, crc, 1, TOTAL_SECTORS - 1, 2));
    HeaderVerifies(ids, crc, 1, TOTAL_SECTORS - 1, 2);
    LabelInPlace(gpt, efi, r);
    EspReads(gpt, efi);
    NameInPlace(esp, r, |efi|);
    MarkerInPlace(r);
    Accepts(r, crc, Header(ids, crc, 1, TOTAL_SECTORS - 1, 2)[..92]);
    SameBootFile(esp, r);
  }

  lemma MarkerInPlace(r: Bytes)
    requires |r| == TOTAL && r[DATA_VOLUME..DATA_VOLUME + 192] == VolumeHeader()
    ensures Slice(r, DATA_VOLUME, DATA_VOLUME + 8) == BAKENFS_MAGIC
  {
    hide VolumeHeader;
    SubSlice(r, DATA_VOLUME, DATA_VOLUME + 192, DATA_VOLUME, DATA_VOLUME + 8);
    MagicFirst();
  }

  lemma Accepts(r: Bytes, crc: Crc, h: Bytes)
    requires |h| == 92 && Slice(r, 512, 604) == h && Slice(r, 512, 520) == h[..8] == EFI_PART && HeaderCrcHolds(h, crc)
    requires Slice(r, PART + 82, PART + 90) == FAT32_LABEL && Contains(Slice(r, PART, PART + 2097152), BOOTX64)
    requires Slice(r, DATA_VOLUME, DATA_VOLUME + 8) == BAKENFS_MAGIC
    ensures Verified(r, crc) == Accepted
  {
    hide Slice, Contains, HeaderCrcHolds;
  }

  lemma HeaderInPlace(gpt: Bytes, r: Bytes, h: Bytes)
    requires |gpt| == |r| == TOTAL && |h| == SECTOR && r[0..GPT_END] == gpt[0..GPT_END] && gpt[SECTOR..2 * SECTOR] == h
    ensures Slice(r, 512, 604) == h[..92] && Slice(r, 512, 520) == h[..92][..8]
  {
    SubSlice(r, 0, GPT_END, SECTOR, 2 * SECTOR);
    SubSlice(gpt, 0, GPT_END, SECTOR, 2 * SECTOR);
    SubSlice(r, SECTOR, 2 * SECTOR, 512, 604);
    SubSlice(r, SECTOR, 2 * SECTOR, 512, 520);
    assert h[..92] == h[0..92] && h[..92][..8] == h[0..8];
  }

  lemma LabelInPlace(gpt: Bytes, efi: Bytes, r: Bytes)
    requires |gpt| == |r| == TOTAL && Fits(|efi|) && r[PART..PART_END] == WithEsp(gpt, efi)[PART..PART_END]
    ensures Slice(r, PART + 82, PART + 90) == FAT32_LABEL
  {
    hide WithEsp, BootSector;
    var esp := WithEsp(gpt, efi);
    BootSectorStays(gpt, efi);
    BootFields();
    PartSlice(esp, r, PART + 82, PART + 90);
    SubSlice(esp, PART, PART + SECTOR, PART + 82, PART + 90);
  }

  lemma NameInPlace(esp: Bytes, r: Bytes, size: nat)
    requires |esp| == |r| == TOTAL && r[PART..PART_END] == esp[PART..PART_END] && IsEntry(esp, 4, BOOTX64, ARCHIVE, 5, size)
    ensures Contains(Slice(r, PART, PART + 2097152), BOOTX64)
  {
    PartSlice(esp, r, At(4), At(4) + 11);
    var s := Slice(r, PART, PART + 2097152);
    assert s[At(4) - PART..At(4) - PART + 11] == r[At(4)..At(4) + 11];
    assert OccursAt(s, BOOTX64, At(4) - PART);
  }

  // ---- the builder -------------------------------------------------------------------

  datatype Built = Built(image: Bytes) | NotExecutable | TooLarge

  method WriteHeader(disk: array<Byte>, ids: Ids, crc: Crc, current: nat, backup: nat, entries: nat)
    requires disk.Length == TOTAL && current < TOTAL_SECTORS && backup < TOTAL_SECTORS && entries < TOTAL_SECTORS
    modifies disk
    ensures disk[..] == Patch(old(disk[..]), current * SECTOR, Header(ids, crc, current, backup, entries))
  {
    var header := BareHeader(ids, crc, current, backup, entries);
    header := Patch(header, 16, Four(crc(header[..92])));
    Write(disk, current * SECTOR, header);
  }

  method WriteGpt(disk: array<Byte>, ids: Ids, crc: Crc)
    requires disk.Length == TOTAL
    modifies disk
    ensures disk[..] == WithGpt(old(disk[..]), ids, crc)
  {
    hide Patch, Partitions, Header, Four;
    Write(disk, 450, [0xEE]);
    Write(disk, 454, Four(1) + Four(TOTAL_SECTORS - 1));
    Write(disk, 510, [0x55, 0xAA]);
    var entries := Partitions(ids);
    Write(disk, 1024, entries);
    Write(disk, BACKUP_ENTRIES, entries);
    WriteHeader(disk, ids, crc, 1, TOTAL_SECTORS - 1, 2);
    WriteHeader(disk, ids, crc, TOTAL_SECTORS - 1, 1, TOTAL_SECTORS - 33);
  }

  method WriteTable(disk: array<Byte>, base: nat, n: nat)
    requires disk.Length == TOTAL && base + FAT_SIZE <= TOTAL && n < CLUSTER_COUNT - 4
    modifies disk
    ensures disk[..] == WithTable(old(disk[..]), base, n)
  {
    hide Patch, Four;
    Write(disk, base, Four(0x0FFFFFF8));
    Write(disk, base + 4, Four(0xFFFFFFFF));
    Write(disk, base + 8, Four(END));
    Write(disk, base + 3 * 4, Four(END));
    Write(disk, base + 4 * 4, Four(END));
    ghost var heads := disk[..];
    assert heads == Heads(old(disk[..]), base);
    var cluster := 5;
    while cluster < 5 + n
      invariant 5 <= cluster <= 5 + n
      invariant disk[..] == Chain(heads, base, n, cluster - 5)
    {
      Write(disk, base + cluster * 4, Four(if cluster == 4 + n then END else cluster + 1));
      cluster := cluster + 1;
    }
  }

  method MakeEntry(disk: array<Byte>, c: nat, name: Name, attr: Byte, first: nat, size: nat)
    requires disk.Length == TOTAL && 2 <= c <= 4 && first < 0x1_0000_0000 && size < 0x1_0000_0000
    modifies disk
    ensures disk[..] == PutEntry(old(disk[..]), c, name, attr, first, size)
  {
    hide Patch, Two, Four;
    var off := At(c);
    Write(disk, off, name);
    Write(disk, off + 11, [attr]);
    Write(disk, off + 20, Two(first / 0x1_0000));
    Write(disk, off + 26, Two(first % 0x1_0000));
    Write(disk, off + 28, Four(size));
  }

  /** Refuses an empty file and one that does not fit, before anything is written. */
  method WriteFat32Esp(disk: array<Byte>, efi: Bytes) returns (ok: bool)
    requires disk.Length == TOTAL
    modifies disk
    ensures ok <==> Fits(|efi|)
    ensures disk[..] == if ok then WithEsp(old(disk[..]), efi) else old(disk[..])
  {
    hide Patch, WithTable, PutEntry, BootSector;
    var clusters := (|efi| + SECTOR - 1) / SECTOR;
    if clusters == 0 || 4 + clusters >= CLUSTER_COUNT {
      return false;
    }
    FileInside(|efi|);
    Write(disk, PART, BootSector());
    Write(disk, PART + 6 * SECTOR, BootSector());
    WriteTable(disk, FAT_A, clusters);
    WriteTable(disk, FAT_B, clusters);
    MakeEntry(disk, 2, EFI, DIRECTORY, 3, 0);
    MakeEntry(disk, 3, BOOT, DIRECTORY, 4, 0);
    MakeEntry(disk, 4, BOOTX64, ARCHIVE, 5, |efi|);
    Write(disk, At(5), efi);
    return true;
  }

  method WriteBakenDataMarker(disk: array<Byte>)
    requires disk.Length == TOTAL
    modifies disk
    ensures disk[..] == WithMarker(old(disk[..]))
  {
    hide Patch, VolumeHeader, Preferences, NotesFile;
    Write(disk, DATA_VOLUME, VolumeHeader());
    Write(disk, DATA_VOLUME + SECTOR, Preferences());
    Write(disk, DATA_VOLUME + 2 * SECTOR, NotesFile());
  }

  /** Fails exactly when the file does not start with MZ or does not fit. What it makes passes
      verification, and the boot file reads back from it. */
  method CreateInstalledDisk(efi: Bytes, ids: Ids, crc: Crc) returns (r: Built)
    ensures r.NotExecutable? <==> !(MZ <= efi)
    ensures r.TooLarge? <==> MZ <= efi && !Fits(|efi|)
    ensures r.Built? ==>
              && r.image == Image(ids, crc, efi) && Verified(r.image, crc) == Accepted
              && ReadBootFile(r.image) == Some(efi)
  {
    hide WithGpt, WithEsp, WithMarker, Verified, ReadBootFile;
    if !(MZ <= efi) {
      return NotExecutable;
    }
    var disk := new Byte[TOTAL](_ => 0);
    assert disk[..] == Zeros(TOTAL);
    WriteGpt(disk, ids, crc);
    var ok := WriteFat32Esp(disk, efi);
    if !ok {
      return TooLarge;
    }
    WriteBakenDataMarker(disk);
    BuildThenVerify(ids, crc, efi);
    return Built(disk[..]);
  }
}
