/** Booting from the installed disk and reading its data volume, by what is on the disk alone. */
module InstalledBoot {
  import opened Options
  import opened DiskBytes
  import opened Fat32Esp
  import opened InstalledDisk
  import opened InstalledReader

  // ---- the system partition --------------------------------------------------------------

  /** Offsets of the first table and of cluster 2, bytes in a cluster, number of clusters, root. */
  datatype Geometry = Geometry(fat: nat, data: nat, cluster: nat, clusters: int, root: nat)

  /** The fields that lay out a FAT32 volume whose boot sector is at start. */
  datatype Fields = Fields(sector: nat, perCluster: nat, reserved: nat, fats: nat, total: nat, fatSectors: nat, root: nat)

  function ReadFields(s: Bytes, start: nat): Fields
    requires start + SECTOR <= |s|
  {
    Fields(Word2(s, start + 11), s[start + 13], Word2(s, start + 14), s[start + 16], Word4(s, start + 32), Word4(s, start + 36),
           Word4(s, start + 44))
  }

  function Layout(f: Fields, start: nat): Geometry {
    var meta := f.reserved + f.fats * f.fatSectors;
    Geometry(start + f.reserved * f.sector, start + meta * f.sector, f.perCluster * f.sector,
             if f.perCluster == 0 then 0 else (f.total - meta) / f.perCluster, f.root)
  }

  function Position(g: Geometry, c: nat): int {
    g.data + (c - 2) * g.cluster
  }

  predicate IsReadable(s: Bytes, g: Geometry, c: nat) {
    && 2 <= c < g.clusters + 2 && 0 < g.cluster && g.fat + 4 * c + 4 <= |s|
    && 0 <= Position(g, c) && Position(g, c) + g.cluster <= |s|
  }

  /** An entry of the table has 28 bits. */
  function Next(s: Bytes, g: Geometry, c: nat): nat
    requires IsReadable(s, g, c)
  {
    Word4(s, g.fat + 4 * c) % 0x1000_0000
  }

  /** The bytes of a file, following its chain to an end mark. */
  function FileIn(s: Bytes, g: Geometry, c: nat, size: nat): Option<Bytes>
    decreases size
  {
    if !IsReadable(s, g, c) then None
    else
      var at := Position(g, c);
      if size <= g.cluster then
        if Next(s, g, c) >= 0x0FFFFFF8 then Some(s[at..at + size]) else None
      else
        var rest := FileIn(s, g, Next(s, g, c), size - g.cluster);
        if rest.None? then None else Some(s[at..at + g.cluster] + rest.value)
  }

  /** A name looked up in a directory cluster: its first cluster and size. */
  function ChildIn(s: Bytes, g: Geometry, c: nat, name: Name, attr: Byte): Option<(nat, nat)> {
    if !IsReadable(s, g, c) then None
    else
      var found := FindEntry(s, Position(g, c), Position(g, c) + g.cluster, name, attr);
      if found.None? then None
      else
        var off := found.value;
        Some((Word2(s, off + 26) + 0x1_0000 * Word2(s, off + 20), Word4(s, off + 28)))
  }

  function BootFileIn(s: Bytes, g: Geometry): Option<Bytes> {
    var efi := ChildIn(s, g, g.root, EFI, DIRECTORY);
    if efi.None? then None
    else
      var boot := ChildIn(s, g, efi.value.0, BOOT, DIRECTORY);
      if boot.None? then None
      else
        var file := ChildIn(s, g, boot.value.0, BOOTX64, ARCHIVE);
        if file.None? then None else FileIn(s, g, file.value.0, file.value.1)
  }

  /** The first entry of that type among n, from an offset on. */
  function FindKind(s: Bytes, at: nat, n: nat, kind: Bytes): Option<Entry>
    requires at + n * 128 <= |s|
    decreases n
  {
    if n == 0 then None
    else if ReadEntry(s, at).kind == kind then Some(ReadEntry(s, at))
    else FindKind(s, at + 128, n - 1, kind)
  }

  /** Partition table, first partition of the type, boot sector, /EFI/BOOT/BOOTX64.EFI. */
  function Boot(s: Bytes, kind: Bytes): Option<Bytes>
    requires |s| >= 2 * SECTOR
  {
    var h := ReadHeader(s, 1);
    if h.entries * SECTOR + h.count * 128 > |s| then None
    else
      var esp := FindKind(s, h.entries * SECTOR, h.count, kind);
      if esp.None? || esp.value.first * SECTOR + SECTOR > |s| then None
      else
        var start := esp.value.first * SECTOR;
        BootFileIn(s, Layout(ReadFields(s, start), start))
  }

  // ---- the layout that is used -------------------------------------------------------------

  function Used(): Geometry {
    Geometry(FAT_A, DATA, SECTOR, CLUSTER_COUNT, 2)
  }

  lemma BootSectorIs()
    ensures var b := BootSector();
            && b[11..13] == Two(SECTOR) && b[13] == 1 && b[14..16] == Two(RESERVED) && b[16] == 2
            && b[32..36] == Four(PART_SECTORS) && b[36..40] == Four(FAT_SECTORS) && b[44..48] == Four(2)
  {
    hide Zeros, Four, Two;
    var p, b := Parameters(), BootSector();
    assert p[11..13] == Two(SECTOR) && p[13] == 1 && p[14..16] == Two(RESERVED) && p[16] == 2;
    assert p[32..36] == Four(PART_SECTORS) && p[36..40] == Four(FAT_SECTORS) && p[44..48] == Four(2);
    assert b[..64] == p;
    assert b[11..13] == p[11..13] && b[14..16] == p[14..16] && b[32..36] == p[32..36] && b[36..40] == p[36..40] && b[44..48] == p[44..48];
  }

  /** The boot sector describes the partition from its place to its end, laid out as it is used: the
      second table is as long as the first and ends where the clusters begin. */
  lemma GeometryReads(s: Bytes)
    requires |s| == TOTAL && s[PART..PART + SECTOR] == BootSector()
    ensures var f := ReadFields(s, PART);
            && Layout(f, PART) == Used() && PART + f.total * f.sector == PART_END
            && FAT_A + f.fatSectors * f.sector == FAT_B && FAT_B + f.fatSectors * f.sector == DATA
  {
    hide BootSector, Two, Four, Word2, Word4;
    BootSectorIs();
    InSector(s, PART, BootSector(), 11, 13);
    InSector(s, PART, BootSector(), 14, 16);
    InSector(s, PART, BootSector(), 32, 36);
    InSector(s, PART, BootSector(), 36, 40);
    InSector(s, PART, BootSector(), 44, 48);
    ReadTwo(s, PART + 11, SECTOR);
    ReadTwo(s, PART + 14, RESERVED);
    ReadFour(s, PART + 32, PART_SECTORS);
    ReadFour(s, PART + 36, FAT_SECTORS);
    ReadFour(s, PART + 44, 2);
    assert s[PART + 13] == s[PART..PART + SECTOR][13] && s[PART + 16] == s[PART..PART + SECTOR][16];
  }

  lemma Readable(s: Bytes, c: nat)
    requires |s| == TOTAL && 2 <= c < CLUSTER_COUNT + 2
    ensures IsReadable(s, Used(), c) && Position(Used(), c) == At(c)
  {}

  lemma ChildReadsIn(s: Bytes, c: nat, name: Name, attr: Byte, first: nat, size: nat)
    requires |s| == TOTAL && 2 <= c <= 4 && name[0] != 0 && IsEntry(s, c, name, attr, first, size)
    ensures ChildIn(s, Used(), c, name, attr) == Some((first, size))
  {
    hide FindEntry, IsEntry, IsReadable, Position;
    Readable(s, c);
    ChildReads(s, c, name, attr, first, size);
  }

  lemma {:induction false} ChainReadsIn(s: Bytes, n: nat, c: nat, size: nat)
    requires |s| == TOTAL && IsChained(s, n) && 5 <= c < 5 + n && ClustersFor(size) == 5 + n - c
    ensures At(c) + size <= TOTAL && FileIn(s, Used(), c, size) == Some(s[At(c)..At(c) + size])
    decreases size
  {
    hide Word4, IsReadable, Position;
    Readable(s, c);
    assert Get(s, FAT_A, c) == if c == 4 + n then END else c + 1;
    if size <= SECTOR {
      assert c == 4 + n;
    } else {
      ChainReadsIn(s, n, c + 1, size - SECTOR);
      assert s[At(c)..At(c) + SECTOR] + s[At(c) + SECTOR..At(c) + size] == s[At(c)..At(c) + size];
    }
  }

  /** The partition on the finished disk: boot sector, directories, chain and file. */
  lemma PartitionHolds(gpt: Bytes, r: Bytes, efi: Bytes)
    requires |gpt| == |r| == TOTAL && Fits(|efi|) && r[PART..PART_END] == WithEsp(gpt, efi)[PART..PART_END]
    ensures r[PART..PART + SECTOR] == BootSector()
    ensures IsEntry(r, 2, EFI, DIRECTORY, 3, 0) && IsEntry(r, 3, BOOT, DIRECTORY, 4, 0) && IsEntry(r, 4, BOOTX64, ARCHIVE, 5, |efi|)
    ensures IsChained(r, ClustersFor(|efi|)) && At(5) + |efi| <= TOTAL && r[At(5)..At(5) + |efi|] == efi
  {
    hide Patch, BootSector, WithEsp, WithTables, WithEntries, IsEntry, Get;
    var esp, n := WithEsp(gpt, efi), ClustersFor(|efi|);
    FileInside(|efi|);
    BootSectorStays(gpt, efi);
    PartSlice(esp, r, PART, PART + SECTOR);
    EspHolds(gpt, efi);
    PartSlice(esp, r, At(2), At(2) + 32);
    PartSlice(esp, r, At(3), At(3) + 32);
    PartSlice(esp, r, At(4), At(4) + 32);
    SameEntry(esp, r, 2, EFI, DIRECTORY, 3, 0);
    SameEntry(esp, r, 3, BOOT, DIRECTORY, 4, 0);
    SameEntry(esp, r, 4, BOOTX64, ARCHIVE, 5, |efi|);
    PartSlice(esp, r, At(5), At(5) + |efi|);
    forall d | 5 <= d < 5 + n ensures Get(r, FAT_A, d) == if d == 4 + n then END else d + 1 {
      EspGet(gpt, efi, FAT_A, d);
      PartSlice(esp, r, FAT_A + 4 * d, FAT_A + 4 * d + 4);
      SameGet(esp, r, FAT_A, d);
    }
  }

  lemma EspHolds(gpt: Bytes, efi: Bytes)
    requires |gpt| == TOTAL && Fits(|efi|)
    ensures At(5) + |efi| <= TOTAL
    ensures var r := WithEsp(gpt, efi);
            && IsEntry(r, 2, EFI, DIRECTORY, 3, 0) && IsEntry(r, 3, BOOT, DIRECTORY, 4, 0) && IsEntry(r, 4, BOOTX64, ARCHIVE, 5, |efi|)
            && r[At(5)..At(5) + |efi|] == efi
  {
    hide Patch, WithTables, WithEntries, IsEntry;
    FileInside(|efi|);
    EntriesRead(WithTables(gpt, ClustersFor(|efi|)), efi);
    PatchInside(WithEntries(WithTables(gpt, ClustersFor(|efi|)), |efi|), At(5), efi);
  }

  lemma BootFileReads(r: Bytes, efi: Bytes)
    requires |r| == TOTAL && Fits(|efi|) && IsChained(r, ClustersFor(|efi|)) && At(5) + |efi| <= TOTAL && r[At(5)..At(5) + |efi|] == efi
    requires IsEntry(r, 2, EFI, DIRECTORY, 3, 0) && IsEntry(r, 3, BOOT, DIRECTORY, 4, 0) && IsEntry(r, 4, BOOTX64, ARCHIVE, 5, |efi|)
    ensures BootFileIn(r, Used()) == Some(efi)
  {
    hide IsEntry, IsChained, ChildIn, FileIn;
    ChildReadsIn(r, 2, EFI, DIRECTORY, 3, 0);
    ChildReadsIn(r, 3, BOOT, DIRECTORY, 4, 0);
    ChildReadsIn(r, 4, BOOTX64, ARCHIVE, 5, |efi|);
    ChainReadsIn(r, ClustersFor(|efi|), 5, |efi|);
  }

  /** For every boot file that fits, a reader who goes from the partition table to the partition of the
      system type, from its boot sector to the root directory, and down the chain, gets the file. */
  lemma InstalledDiskBoots(ids: Ids, crc: Crc, efi: Bytes)
    requires Fits(|efi|)
    ensures Boot(Image(ids, crc, efi), ids.espType) == Some(efi)
  {
    hide Image, WithGpt, Zeros, BootSector, ReadHeader, ReadEntry, ReadFields, Layout, BootFileIn, IsEntry, IsChained, Header, Partitions, IsSpare, VolumeHeader, Preferences, NotesFile;
    var r, gpt := Image(ids, crc, efi), WithGpt(Zeros(TOTAL), ids, crc);
    TableStays(ids, crc, efi);
    HeaderReads(r, ids, crc, 1, TOTAL_SECTORS - 1, 2);
    PartitionsAreListed(ids, crc, efi);
    assert Listed(r, 0) == ReadEntry(r, 1024);
    RegionsHold(ids, crc, efi);
    PartitionHolds(gpt, r, efi);
    GeometryReads(r);
    BootFileReads(r, efi);
  }

  // ---- the data volume ---------------------------------------------------------------------

  datatype Stored = Stored(name: Bytes, lba: nat, size: nat, kind: nat)

  function ReadNode(s: Bytes, at: nat): Stored
    requires at + 44 <= |s|
  {
    Stored(s[at..at + 32], Word4(s, at + 32), Word4(s, at + 36), Word4(s, at + 40))
  }

  /** The first of n nodes with that name, from an offset on. */
  function FindNode(s: Bytes, at: nat, n: nat, name: Bytes): Option<Stored>
    requires at + n * 44 <= |s|
    decreases n
  {
    if n == 0 then None
    else if ReadNode(s, at).name == name then Some(ReadNode(s, at))
    else FindNode(s, at + 44, n - 1, name)
  }

  /** A file of a data volume that starts at base: it has kind 2, and its place is a block of the disk. */
  function ReadDataFile(s: Bytes, base: nat, name: Bytes): Option<Bytes> {
    if base + 16 > |s| || s[base..base + 8] != BAKENFS_MAGIC || base + 16 + Word4(s, base + 12) * 44 > |s| then None
    else
      var node := FindNode(s, base + 16, Word4(s, base + 12), name);
      if node.None? || node.value.kind != 2 || node.value.lba * SECTOR + node.value.size > |s| then None
      else Some(s[node.value.lba * SECTOR..node.value.lba * SECTOR + node.value.size])
  }

  lemma NodeReads(s: Bytes, at: nat, name: Bytes, lba: nat, size: nat, kind: nat)
    requires |name| <= 32 && lba < TOTAL_SECTORS && size < 0x1_0000 && kind < 256
    requires at + 44 <= |s| && s[at..at + 44] == Node(name, lba, size, kind)
    ensures ReadNode(s, at) == Stored(Padded32(name), lba, size, kind)
  {
    hide Padded32, Four, Word4;
    var p := Node(name, lba, size, kind);
    assert p[0..32] == Padded32(name) && p[32..36] == Four(lba) && p[36..40] == Four(size) && p[40..44] == Four(kind);
    SubSlice(s, at, at + 44, at, at + 32);
    SubSlice(s, at, at + 44, at + 32, at + 36);
    SubSlice(s, at, at + 44, at + 36, at + 40);
    SubSlice(s, at, at + 44, at + 40, at + 44);
    ReadFour(s, at + 32, lba);
    ReadFour(s, at + 36, size);
    ReadFour(s, at + 40, kind);
  }

  lemma VolumeIs()
    ensures var v := VolumeHeader();
            && v[0..8] == BAKENFS_MAGIC && v[12..16] == Four(4)
            && v[16..60] == Node(HOME, 0, 0, 1) && v[60..104] == Node(CONFIG, 0, 0, 1)
            && v[104..148] == Node(NOTES, 86018, 512, 2) && v[148..192] == Node(THEME, 86017, 512, 2)
  {
    hide Node, Four;
  }

  /** Padding does not make two of the four names the same. */
  lemma NamesDiffer()
    ensures Padded32(HOME) != Padded32(NOTES) && Padded32(CONFIG) != Padded32(NOTES) && Padded32(HOME) != Padded32(THEME)
         && Padded32(CONFIG) != Padded32(THEME) && Padded32(NOTES) != Padded32(THEME)
  {
    assert Padded32(HOME)[5] == 0 && Padded32(NOTES)[5] == 47;
    assert Padded32(HOME)[1] == 104 && Padded32(NOTES)[1] == 104 && Padded32(CONFIG)[1] == 99 && Padded32(THEME)[1] == 99;
    assert Padded32(CONFIG)[7] == 0 && Padded32(THEME)[7] == 47;
  }

  /** In the second partition that the table lists, the two files read back: the preferences and the
      notes, each with zeros up to the end of its block. */
  lemma DataVolumeReads(ids: Ids, crc: Crc, efi: Bytes) returns (r: Bytes, base: nat)
    requires Fits(|efi|)
    ensures r == Image(ids, crc, efi) && ReadHeader(r, 1).entries == 2 && base == Listed(r, 1).first * SECTOR
    ensures ReadDataFile(r, base, Padded32(NOTES)) == Some(NotesFile() + Zeros(464))
    ensures ReadDataFile(r, base, Padded32(THEME)) == Some(Preferences() + Zeros(476))
  {
    hide Image, WithGpt, WithEsp, VolumeHeader, Preferences, NotesFile, Node, Padded32, Word4, Four, ReadNode, ReadHeader, ReadEntry, Partitions, Header, BootSector;
    var v := DATA_VOLUME;
    r, base := Image(ids, crc, efi), v;
    RegionsHold(ids, crc, efi);
    PartitionsAreListed(ids, crc, efi);
    VolumeIs();
    InVolume(r, VolumeHeader());
    NamesDiffer();
    ReadFour(r, v + 12, 4);
    NodeReads(r, v + 16, HOME, 0, 0, 1);
    NodeReads(r, v + 60, CONFIG, 0, 0, 1);
    NodeReads(r, v + 104, NOTES, 86018, 512, 2);
    NodeReads(r, v + 148, THEME, 86017, 512, 2);
    WithZeros(r, v + 2 * SECTOR, NotesFile());
    WithZeros(r, v + SECTOR, Preferences());
    FoundNodes(r, v + 16);
  }

  /** What the two files say: preferences of the first theme for the user Usuario, and one note with the
      title Notas, each number in four bytes and each text padded to 32. */
  lemma FilesSay()
    ensures var n := NotesFile();
            && n[0..8] == [66, 65, 75, 69, 78, 78, 84, 49] && Word4(n, 8) == 1 && Word4(n, 12) == 1
            && n[16..48] == [78, 111, 116, 97, 115] + Zeros(27)
    ensures var p := Preferences(); Word4(p, 0) == 0 && p[4..36] == [85, 115, 117, 97, 114, 105, 111] + Zeros(25)
  {
    NoteSays();
    hide Word4, Four, Zeros;
    var p := Preferences();
    assert p[0..4] == Four(0);
    ReadFour(p, 0, 0);
    assert p[4..36] == Padded32(USER);
  }

  lemma NoteSays()
    ensures var n := NotesFile();
            && n[0..8] == [66, 65, 75, 69, 78, 78, 84, 49] && Word4(n, 8) == 1 && Word4(n, 12) == 1
            && n[16..48] == [78, 111, 116, 97, 115] + Zeros(27)
  {
    NoteMagic();
    hide Word4, Four, Eight, Zeros;
    var n := NotesFile();
    assert n[0..8] == Eight(0x31544E4E454B4142);
    assert n[8..12] == Four(1) && n[12..16] == Four(1);
    ReadFour(n, 8, 1);
    ReadFour(n, 12, 1);
    assert n[16..48] == Padded32(NOTES_TITLE);
  }

  /** BAKENNT1 */
  lemma NoteMagic()
    ensures Eight(0x31544E4E454B4142) == [66, 65, 75, 69, 78, 78, 84, 49]
  {
    assert Four(0x454B4142) == [66, 65, 75, 69];
    assert Four(0x31544E4E) == [78, 78, 84, 49];
  }

  lemma InVolume(r: Bytes, h: Bytes)
    requires |r| == TOTAL && |h| == 192 && r[DATA_VOLUME..DATA_VOLUME + 192] == h
    ensures var v := DATA_VOLUME;
            && r[v..v + 8] == h[0..8] && r[v + 12..v + 16] == h[12..16] && r[v + 16..v + 60] == h[16..60]
            && r[v + 60..v + 104] == h[60..104] && r[v + 104..v + 148] == h[104..148] && r[v + 148..v + 192] == h[148..192]
  {
    var v := DATA_VOLUME;
    SubSlice(r, v, v + 192, v, v + 8);
    SubSlice(r, v, v + 192, v + 12, v + 16);
    SubSlice(r, v, v + 192, v + 16, v + 60);
    SubSlice(r, v, v + 192, v + 60, v + 104);
    SubSlice(r, v, v + 192, v + 104, v + 148);
    SubSlice(r, v, v + 192, v + 148, v + 192);
  }

  lemma WithZeros(r: Bytes, at: nat, b: Bytes)
    requires at + SECTOR <= |r| && |b| <= SECTOR && r[at..at + |b|] == b && forall i :: at + |b| <= i < at + SECTOR ==> r[i] == 0
    ensures r[at..at + SECTOR] == b + Zeros(SECTOR - |b|)
  {
    assert r[at..at + SECTOR] == r[at..at + |b|] + r[at + |b|..at + SECTOR];
    assert r[at + |b|..at + SECTOR] == Zeros(SECTOR - |b|);
  }

  lemma FoundNodes(r: Bytes, at: nat)
    requires at + 176 <= |r| && ReadNode(r, at).name == Padded32(HOME) && ReadNode(r, at + 44).name == Padded32(CONFIG)
    requires ReadNode(r, at + 88).name == Padded32(NOTES) && ReadNode(r, at + 132).name == Padded32(THEME)
    ensures FindNode(r, at, 4, Padded32(NOTES)) == Some(ReadNode(r, at + 88))
    ensures FindNode(r, at, 4, Padded32(THEME)) == Some(ReadNode(r, at + 132))
  {
    hide ReadNode, Padded32;
    NamesDiffer();
    assert FindNode(r, at + 88, 2, Padded32(NOTES)) == Some(ReadNode(r, at + 88));
    assert FindNode(r, at + 132, 1, Padded32(THEME)) == Some(ReadNode(r, at + 132));
    assert FindNode(r, at + 88, 2, Padded32(THEME)) == Some(ReadNode(r, at + 132));
    assert FindNode(r, at + 44, 3, Padded32(NOTES)) == Some(ReadNode(r, at + 88));
    assert FindNode(r, at + 44, 3, Padded32(THEME)) == Some(ReadNode(r, at + 132));
  }
}
