/** Reading the installed disk by the offsets of the standards alone: partition table, system partition
    and data volume. */
module InstalledReader {
  import opened Options
  import opened DiskBytes
  import opened Fat32Esp
  import opened InstalledDisk

  function Word8(s: Bytes, i: nat): nat
    requires i + 8 <= |s|
  {
    Word4(s, i) + 0x1_0000_0000 * Word4(s, i + 4)
  }

  lemma ReadEight(s: Bytes, i: nat, v: nat)
    requires i + 8 <= |s| && v < 0x1_0000_0000_0000_0000 && s[i..i + 8] == Eight(v)
    ensures Word8(s, i) == v
  {
    hide Four, Word4;
    assert s[i..i + 4] == s[i..i + 8][..4] == Four(v % 0x1_0000_0000);
    assert s[i + 4..i + 8] == s[i..i + 8][4..] == Four(v / 0x1_0000_0000);
    ReadFour(s, i, v % 0x1_0000_0000);
    ReadFour(s, i + 4, v / 0x1_0000_0000);
  }

  // ---- partition table ---------------------------------------------------------------

  /** Section 5.3.2 of UEFI 2.10. */
  datatype GptHeader = GptHeader(
    revision: nat, size: nat, own: nat, alternate: nat, first: nat, last: nat, disk: Bytes,
    entries: nat, count: nat, entrySize: nat, entriesCrc: nat)

  function ReadHeader(s: Bytes, lba: nat): GptHeader
    requires (lba + 1) * SECTOR <= |s|
  {
    var at := lba * SECTOR;
    GptHeader(Word4(s, at + 8), Word4(s, at + 12), Word8(s, at + 24), Word8(s, at + 32), Word8(s, at + 40), Word8(s, at + 48),
              s[at + 56..at + 72], Word8(s, at + 72), Word4(s, at + 80), Word4(s, at + 84), Word4(s, at + 88))
  }

  /** Signature, own place, and the checksum over the header, with zero for its own field. */
  ghost predicate IsSealed(s: Bytes, crc: Crc, lba: nat)
    requires (lba + 1) * SECTOR <= |s|
  {
    var at, h := lba * SECTOR, ReadHeader(s, lba);
    && s[at..at + 8] == EFI_PART && h.own == lba && 92 <= h.size <= SECTOR
    && crc(Patch(s[at..at + h.size], 16, Four(0))) == Word4(s, at + 16)
  }

  /** The entries, of 128 bytes each. */
  function EntriesOf(s: Bytes, h: GptHeader): Bytes
    requires h.entries * SECTOR + h.count * 128 <= |s|
  {
    s[h.entries * SECTOR..h.entries * SECTOR + h.count * 128]
  }

  /** A header that is good at its place: it is sealed, and the checksum over its entries holds. */
  ghost predicate IsGoodHeader(s: Bytes, crc: Crc, lba: nat) {
    && (lba + 1) * SECTOR <= |s| && IsSealed(s, crc, lba)
    && var h := ReadHeader(s, lba);
       h.entrySize == 128 && h.entries * SECTOR + h.count * 128 <= |s| && crc(EntriesOf(s, h)) == h.entriesCrc
  }

  /** Section 5.3.3: type, identifier, first and last block. */
  datatype Entry = Entry(kind: Bytes, id: Bytes, first: nat, last: nat)

  function ReadEntry(s: Bytes, at: nat): Entry
    requires at + 128 <= |s|
  {
    Entry(s[at..at + 16], s[at + 16..at + 32], Word8(s, at + 32), Word8(s, at + 40))
  }

  lemma BareReads(ids: Ids, crc: Crc, current: nat, backup: nat, entries: nat)
    requires current < TOTAL_SECTORS && backup < TOTAL_SECTORS && entries < TOTAL_SECTORS
    ensures var b := BareHeader(ids, crc, current, backup, entries);
            && b[0..8] == EFI_PART && b[8..12] == Four(0x00010000) && b[12..16] == Four(92) && b[16..20] == Four(0)
            && b[24..32] == Eight(current) && b[32..40] == Eight(backup) && b[40..48] == Eight(34) && b[48..56] == Eight(TOTAL_SECTORS - 34)
            && b[56..72] == ids.disk && b[72..80] == Eight(entries)
            && b[80..84] == Four(128) && b[84..88] == Four(128) && b[88..92] == Four(crc(Partitions(ids)))
  {
    hide Four, Eight, Zeros, Partitions;
  }

  /** A slice of a sector, as a slice of the disk. */
  lemma InSector(s: Bytes, at: nat, h: Bytes, lo: nat, hi: nat)
    requires at + SECTOR <= |s| && s[at..at + SECTOR] == h && lo <= hi <= SECTOR
    ensures s[at + lo..at + hi] == h[lo..hi]
  {
    SubSlice(s, at, at + SECTOR, at + lo, at + hi);
  }

  /** The header that is written is the one that is read. */
  lemma HeaderReads(s: Bytes, ids: Ids, crc: Crc, current: nat, backup: nat, entries: nat)
    requires current < TOTAL_SECTORS && backup < TOTAL_SECTORS && entries < TOTAL_SECTORS && (current + 1) * SECTOR <= |s|
    requires s[current * SECTOR..current * SECTOR + SECTOR] == Header(ids, crc, current, backup, entries)
    ensures ReadHeader(s, current)
         == GptHeader(0x00010000, 92, current, backup, 34, TOTAL_SECTORS - 34, ids.disk, entries, 128, 128, crc(Partitions(ids)))
    ensures var at := current * SECTOR; s[at..at + 8] == EFI_PART
  {
    hide Header, Word4, Word8, Four, Eight, BareHeader, Patch, Partitions;
    var at, h := current * SECTOR, Header(ids, crc, current, backup, entries);
    SealedReads(ids, crc, current, backup, entries);
    InSector(s, at, h, 0, 8);
    InSector(s, at, h, 8, 12);
    InSector(s, at, h, 12, 16);
    InSector(s, at, h, 24, 32);
    InSector(s, at, h, 32, 40);
    InSector(s, at, h, 40, 48);
    InSector(s, at, h, 48, 56);
    InSector(s, at, h, 56, 72);
    InSector(s, at, h, 72, 80);
    InSector(s, at, h, 80, 84);
    InSector(s, at, h, 84, 88);
    InSector(s, at, h, 88, 92);
    ReadFour(s, at + 8, 0x00010000);
    ReadFour(s, at + 12, 92);
    ReadEight(s, at + 24, current);
    ReadEight(s, at + 32, backup);
    ReadEight(s, at + 40, 34);
    ReadEight(s, at + 48, TOTAL_SECTORS - 34);
    ReadEight(s, at + 72, entries);
    ReadFour(s, at + 80, 128);
    ReadFour(s, at + 84, 128);
    ReadFour(s, at + 88, crc(Partitions(ids)));
  }

  lemma SealedReads(ids: Ids, crc: Crc, current: nat, backup: nat, entries: nat)
    requires current < TOTAL_SECTORS && backup < TOTAL_SECTORS && entries < TOTAL_SECTORS
    ensures var b := Header(ids, crc, current, backup, entries);
            && b[0..8] == EFI_PART && b[8..12] == Four(0x00010000) && b[12..16] == Four(92)
            && b[24..32] == Eight(current) && b[32..40] == Eight(backup) && b[40..48] == Eight(34) && b[48..56] == Eight(TOTAL_SECTORS - 34)
            && b[56..72] == ids.disk && b[72..80] == Eight(entries)
            && b[80..84] == Four(128) && b[84..88] == Four(128) && b[88..92] == Four(crc(Partitions(ids)))
  {
    hide BareHeader, Patch, Partitions, Four, Eight;
    var bare := BareHeader(ids, crc, current, backup, entries);
    var sum := Four(crc(bare[..92]));
    var h := Patch(bare, 16, sum);
    BareReads(ids, crc, current, backup, entries);
    PatchOutside(bare, 16, sum, 0, 16);
    PatchOutside(bare, 16, sum, 20, 92);
    SameWithin(bare, h, 0, 16, 0, 8);
    SameWithin(bare, h, 0, 16, 8, 12);
    SameWithin(bare, h, 0, 16, 12, 16);
    SameWithin(bare, h, 20, 92, 24, 32);
    SameWithin(bare, h, 20, 92, 32, 40);
    SameWithin(bare, h, 20, 92, 40, 48);
    SameWithin(bare, h, 20, 92, 48, 56);
    SameWithin(bare, h, 20, 92, 56, 72);
    SameWithin(bare, h, 20, 92, 72, 80);
    SameWithin(bare, h, 20, 92, 80, 84);
    SameWithin(bare, h, 20, 92, 84, 88);
    SameWithin(bare, h, 20, 92, 88, 92);
  }

  lemma SameWithin(s: Bytes, r: Bytes, lo: nat, hi: nat, a: nat, b: nat)
    requires |s| == |r| && lo <= a <= b <= hi <= |s| && r[lo..hi] == s[lo..hi]
    ensures r[a..b] == s[a..b]
  {
    SubSlice(s, lo, hi, a, b);
    SubSlice(r, lo, hi, a, b);
  }

  /** With its entries in place the header is good. */
  lemma GoodHeader(s: Bytes, ids: Ids, crc: Crc, current: nat, backup: nat, entries: nat)
    requires current < TOTAL_SECTORS && backup < TOTAL_SECTORS && entries < TOTAL_SECTORS
    requires (current + 1) * SECTOR <= |s| && entries * SECTOR + 16384 <= |s|
    requires s[current * SECTOR..current * SECTOR + SECTOR] == Header(ids, crc, current, backup, entries)
    requires s[entries * SECTOR..entries * SECTOR + 16384] == Partitions(ids)
    ensures IsGoodHeader(s, crc, current)
  {
    hide Header, Partitions, Patch, Four, Word8;
    var at, h := current * SECTOR, Header(ids, crc, current, backup, entries);
    HeaderReads(s, ids, crc, current, backup, entries);
    HeaderVerifies(ids, crc, current, backup, entries);
    InSector(s, at, h, 0, 92);
    InSector(s, at, h, 16, 20);
    assert h[0..92] == h[..92];
    SubSlice(h, 0, 92, 16, 20);
    SameNumber(s, at + 16, h[..92], 16);
  }

  lemma SameNumber(s: Bytes, i: nat, r: Bytes, j: nat)
    requires i + 4 <= |s| && j + 4 <= |r| && s[i..i + 4] == r[j..j + 4]
    ensures Word4(s, i) == Word4(r, j)
  {
    var a, b := s[i..i + 4], r[j..j + 4];
    assert s[i] == a[0] && s[i + 1] == a[1] && s[i + 2] == a[2] && s[i + 3] == a[3];
    assert r[j] == b[0] && r[j + 1] == b[1] && r[j + 2] == b[2] && r[j + 3] == b[3];
  }

  // ---- the table of the finished disk ------------------------------------------------------

  /** Headers and entries are on the finished disk, in both places. */
  lemma TableStays(ids: Ids, crc: Crc, efi: Bytes)
    requires Fits(|efi|)
    ensures var r := Image(ids, crc, efi);
            && r[SECTOR..2 * SECTOR] == Header(ids, crc, 1, TOTAL_SECTORS - 1, 2)
            && r[1024..GPT_END] == Partitions(ids)
            && r[BACKUP_ENTRIES..BACKUP_HEADER] == Partitions(ids)
            && r[BACKUP_HEADER..TOTAL] == Header(ids, crc, TOTAL_SECTORS - 1, 1, TOTAL_SECTORS - 33)
  {
    hide Image, WithGpt, WithEsp, Header, Partitions, Zeros, VolumeHeader, Preferences, NotesFile, IsSpare;
    var r, gpt := Image(ids, crc, efi), WithGpt(Zeros(TOTAL), ids, crc);
    RegionsHold(ids, crc, efi);
    GptHolds(Zeros(TOTAL), ids, crc);
    SameWithin(gpt, r, 0, GPT_END, SECTOR, 2 * SECTOR);
    SameWithin(gpt, r, 0, GPT_END, 1024, GPT_END);
    SameWithin(gpt, r, BACKUP_ENTRIES, TOTAL, BACKUP_ENTRIES, BACKUP_HEADER);
    SameWithin(gpt, r, BACKUP_ENTRIES, TOTAL, BACKUP_HEADER, TOTAL);
  }

  /** Both headers are good; each names the other, the second is in the last block, and they agree on the
      disk, the usable blocks and the entries, which lie outside the usable blocks. */
  lemma HeadersAreGood(ids: Ids, crc: Crc, efi: Bytes) returns (r: Bytes, h: GptHeader, b: GptHeader)
    requires Fits(|efi|)
    ensures r == Image(ids, crc, efi) && h == ReadHeader(r, 1) && (h.alternate + 1) * SECTOR == |r|
    ensures b == ReadHeader(r, h.alternate) && b == h.(own := h.alternate, alternate := h.own, entries := b.entries)
    ensures IsGoodHeader(r, crc, 1) && IsGoodHeader(r, crc, h.alternate)
    ensures h.revision == 0x00010000 && h.size == 92 && h.disk == ids.disk && h.count == 128
    ensures h.entries + 32 <= h.first && h.last < b.entries && b.entries + 32 <= h.alternate
    ensures r[b.entries * SECTOR..(b.entries + 32) * SECTOR] == r[h.entries * SECTOR..(h.entries + 32) * SECTOR]
  {
    hide Image, Header, Partitions, IsGoodHeader, ReadHeader;
    r := Image(ids, crc, efi);
    TableStays(ids, crc, efi);
    HeaderReads(r, ids, crc, 1, TOTAL_SECTORS - 1, 2);
    HeaderReads(r, ids, crc, TOTAL_SECTORS - 1, 1, TOTAL_SECTORS - 33);
    GoodHeader(r, ids, crc, 1, TOTAL_SECTORS - 1, 2);
    GoodHeader(r, ids, crc, TOTAL_SECTORS - 1, 1, TOTAL_SECTORS - 33);
    h, b := ReadHeader(r, 1), ReadHeader(r, TOTAL_SECTORS - 1);
  }

  lemma EntryReads(s: Bytes, at: nat, kind: Guid, id: Guid, first: nat, last: nat, name: Bytes)
    requires first < TOTAL_SECTORS && last < TOTAL_SECTORS && |name| <= 36
    requires at + 128 <= |s| && s[at..at + 128] == Partition(kind, id, first, last, name)
    ensures ReadEntry(s, at) == Entry(kind, id, first, last)
  {
    hide Word8, Eight, WideName;
    var p := Partition(kind, id, first, last, name);
    assert p[0..16] == kind && p[16..32] == id && p[32..40] == Eight(first) && p[40..48] == Eight(last);
    SubSlice(s, at, at + 128, at, at + 16);
    SubSlice(s, at, at + 128, at + 16, at + 32);
    SubSlice(s, at, at + 128, at + 32, at + 40);
    SubSlice(s, at, at + 128, at + 40, at + 48);
    ReadEight(s, at + 32, first);
    ReadEight(s, at + 40, last);
  }

  /** Entry k of the table that the first header names. */
  function Listed(s: Bytes, k: nat): Entry
    requires 2 * SECTOR <= |s| && ReadHeader(s, 1).entries * SECTOR + k * 128 + 128 <= |s|
  {
    ReadEntry(s, ReadHeader(s, 1).entries * SECTOR + k * 128)
  }

  /** The table lists the system partition and the data volume, and nothing else. */
  lemma PartitionsAreListed(ids: Ids, crc: Crc, efi: Bytes)
    requires Fits(|efi|)
    ensures var r := Image(ids, crc, efi);
            && ReadHeader(r, 1).entries == 2
            && Listed(r, 0) == Entry(ids.espType, ids.esp, 2048, 86015)
            && Listed(r, 1) == Entry(ids.dataType, ids.data, 86016, 131038)
            && forall k :: 2 <= k < 128 ==> Listed(r, k).kind == Zeros(16)
  {
    hide Image, Header, Partitions, ReadHeader, Partition, Word8;
    var r := Image(ids, crc, efi);
    TableStays(ids, crc, efi);
    HeaderReads(r, ids, crc, 1, TOTAL_SECTORS - 1, 2);
    TableIs(ids);
    SubSlice(r, 1024, GPT_END, 1024, 1152);
    SubSlice(r, 1024, GPT_END, 1152, 1280);
    EntryReads(r, 1024, ids.espType, ids.esp, 2048, 86015, ESP_NAME);
    EntryReads(r, 1152, ids.dataType, ids.data, 86016, 131038, DATA_NAME);
    forall k | 2 <= k < 128 ensures Listed(r, k).kind == Zeros(16) {
      var at := 1024 + k * 128;
      SubSlice(r, 1024, GPT_END, at, at + 16);
    }
  }

  lemma TableIs(ids: Ids)
    ensures var p := Partitions(ids);
            && p[0..128] == Partition(ids.espType, ids.esp, 2048, 86015, ESP_NAME)
            && p[128..256] == Partition(ids.dataType, ids.data, 86016, 131038, DATA_NAME)
            && forall k :: 2 <= k < 128 ==> p[k * 128..k * 128 + 16] == Zeros(16)
  {
    hide Partition;
    var p := Partitions(ids);
    forall k | 2 <= k < 128 ensures p[k * 128..k * 128 + 16] == Zeros(16) {
      assert forall i :: 256 <= i < 16384 ==> p[i] == 0;
    }
  }
}
