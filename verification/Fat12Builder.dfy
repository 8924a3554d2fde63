/** Building the optical image in one buffer. */
module Fat12Builder {
  import opened Options
  import opened DiskBytes
  import opened Fat12
  import opened Fat12Image
  import opened Fat12Reads

  datatype Built = Built(image: Bytes) | EmptyFile | TooLarge

  /** The layout that a reader works out from the boot sector. */
  datatype Geometry = Geometry(fat1: int, fat2: int, root: int, data: int, cluster: int, clusters: int)

  function ReadGeometry(s: Bytes): Geometry
    requires |s| >= 512
  {
    var sector: int := Word2(s, 11);
    var table: int := Word2(s, 22) * sector;
    var fat1: int := Word2(s, 14) * sector;
    var root: int := fat1 + s[16] as int * table;
    var data: int := root + Word2(s, 17) * 32;
    var cluster: int := s[13] as int * sector;
    Geometry(fat1, fat1 + table, root, data, cluster, if cluster == 0 then 0 else (Word2(s, 19) * sector - data) / cluster)
  }

  /** The boot sector describes the layout that the image is written in. */
  lemma GeometryReads(s: Bytes)
    requires |s| >= 512 && s[..512] == BootSector()
    ensures ReadGeometry(s) == Geometry(FAT1, FAT2, ROOT, DATA, CLUSTER, DATA_CLUSTERS)
  {
    var b := BiosParameters();
    BiosFields();
    forall i | 0 <= i < 36 ensures s[i] == b[i] {
      assert s[i] == s[..512][i] == BootSector()[i];
    }
  }

  lemma BiosFields()
    ensures var b := BiosParameters();
            && Word2(b, 11) == 512 && b[13] == 8 && Word2(b, 14) == 1 && b[16] == 2 && Word2(b, 17) == 224
            && Word2(b, 19) == 24576 && Word2(b, 22) == 9
  {
    hide Zeros, Four;
    var head: Bytes := [0xeb, 0x3c, 0x90] + [0x4d, 0x53, 0x57, 0x49, 0x4e, 0x34, 0x2e, 0x31];
    var b := BiosParameters();
    assert b[11..13] == Two(512) && b[14..16] == Two(1) && b[17..19] == Two(224) && b[19..21] == Two(24576) && b[22..24] == Two(9);
    ReadTwo(b, 11, 512);
    ReadTwo(b, 14, 1);
    ReadTwo(b, 17, 224);
    ReadTwo(b, 19, 24576);
    ReadTwo(b, 22, 9);
  }

  // ---- reading by the boot sector alone ------------------------------------------------

  function Position(g: Geometry, c: nat): int {
    g.data + (c - 2) * g.cluster
  }

  predicate IsReadable(s: Bytes, g: Geometry, c: nat) {
    && 2 <= c < g.clusters + 2 && 0 < g.cluster && 0 <= g.fat1 && g.fat1 + EntryOffset(c) + 2 <= |s|
    && 0 <= Position(g, c) && Position(g, c) + g.cluster <= |s|
  }

  /** The bytes of a file, following the chain in the first table. */
  function FileIn(s: Bytes, g: Geometry, c: nat, size: nat): Option<Bytes>
    decreases size
  {
    if !IsReadable(s, g, c) then None
    else
      var at := Position(g, c);
      if size <= g.cluster then
        if Get(s, g.fat1, c) >= 0xFF8 then Some(s[at..at + size]) else None
      else
        var rest := FileIn(s, g, Get(s, g.fat1, c), size - g.cluster);
        if rest.None? then None else Some(s[at..at + g.cluster] + rest.value)
  }

  /** A name looked up in the directory at a cluster. */
  function ChildIn(s: Bytes, g: Geometry, c: nat, name: Name): Option<(nat, nat)> {
    if IsReadable(s, g, c) then Child(s, Position(g, c), name) else None
  }

  /** /EFI/BOOT/BOOTX64.EFI of an image of which only the bytes are known. */
  function Boot(s: Bytes): Option<Bytes>
    requires |s| >= 512
  {
    var g := ReadGeometry(s);
    if g.root < 0 then None
    else
      var efi := Child(s, g.root, EFI);
      if efi.None? then None
      else
        var boot := ChildIn(s, g, efi.value.0, BOOT);
        if boot.None? then None
        else
          var file := ChildIn(s, g, boot.value.0, BOOTX64);
          if file.None? then None else FileIn(s, g, file.value.0, file.value.1)
  }

  const LAYOUT := Geometry(FAT1, FAT2, ROOT, DATA, CLUSTER, DATA_CLUSTERS)

  lemma ClusterIsReadable(s: Bytes, c: nat)
    requires |s| == TOTAL
    ensures IsReadable(s, LAYOUT, c) <==> IsDataCluster(c)
    ensures c >= 2 ==> Position(LAYOUT, c) == ClusterAt(c)
  {
    if c < 3072 {
      CoveredUpTo(c);
    }
  }

  lemma {:induction false} FileInLayout(s: Bytes, c: nat, size: nat)
    requires |s| == TOTAL
    ensures FileIn(s, LAYOUT, c, size) == FileBytes(s, c, size)
    decreases size
  {
    hide Covered, EntryOffset, Get;
    ClusterIsReadable(s, c);
    if IsReadable(s, LAYOUT, c) && size > CLUSTER {
      FileInLayout(s, Get(s, FAT1, c), size - CLUSTER);
    }
  }

  /** For every file that fits: a reader that works out the layout from the boot sector finds the boot
      file, and its bytes are those of the file. */
  lemma ImageBoots(efi: Bytes)
    requires efi != [] && Fits(|efi|)
    ensures Boot(Image(efi)) == Some(efi)
  {
    hide Image, FileBytes, FileIn, Child, IsReadable, Covered, BootSector, TablesHold, Position;
    var s := Image(efi);
    ImageReads(efi);
    GeometryReads(s);
    var dir := Child(s, ROOT, EFI).value.0;
    ClusterIsReadable(s, dir);
    var boot := Child(s, ClusterAt(dir), BOOT).value.0;
    ClusterIsReadable(s, boot);
    var file := Child(s, ClusterAt(boot), BOOTX64).value;
    FileInLayout(s, file.0, file.1);
  }

  /** An entry in the first table and the same in the second. */
  method SetBothTables(disk: array<Byte>, c: nat, val: nat)
    requires disk.Length == TOTAL && Covered(c) && val <= END
    modifies disk
    ensures disk[..] == SetBoth(old(disk[..]), c, val)
  {
    SetFat12(disk, FAT1, c, val);
    SetFat12(disk, FAT2, c, val);
  }

  method WriteChain(disk: array<Byte>, n: nat)
    requires disk.Length == TOTAL && n <= DATA_CLUSTERS
    modifies disk
    ensures disk[..] == Chain(old(disk[..]), n, n)
  {
    hide SetBoth;
    ghost var before := disk[..];
    var c := 0;
    while c < n
      invariant 0 <= c <= n
      invariant disk[..] == Chain(before, n, c)
    {
      CoveredUpTo(c + 2);
      SetBothTables(disk, c + 2, if c == n - 1 then END else c + 3);
      c := c + 1;
    }
  }

  lemma PutMore(s: Bytes, puts: seq<Put>, i: nat)
    requires |s| == TOTAL && i < |puts|
    ensures PutAll(s, puts[i..]) == PutAll(PutOne(s, puts[i]), puts[i + 1..])
  {
    hide PutOne;
    assert puts[i..][1..] == puts[i + 1..];
  }

  method Make(disk: array<Byte>, ghost puts: seq<Put>, ghost i: nat, p: Put)
    requires disk.Length == TOTAL && i < |puts| && puts[i] == p
    modifies disk
    ensures PutAll(disk[..], puts[i + 1..]) == PutAll(old(disk[..]), puts[i..])
  {
    hide PutAll, PutEntry;
    PutMore(disk[..], puts, i);
    MakeEntry(disk, p.off, p.name, p.cluster, p.size, p.attr);
  }

  method MakeEntries(disk: array<Byte>, dir: nat, boot: nat, size: nat)
    requires disk.Length == TOTAL && 2 <= dir && boot == dir + 1 && boot < DATA_CLUSTERS + 2 && size < TOTAL
    modifies disk
    ensures disk[..] == PutAll(old(disk[..]), Entries(dir, boot, size))
  {
    hide PutAll;
    ghost var puts := Entries(dir, boot, size);
    assert puts[0..] == puts;
    var efiDir, bootDir := ClusterAt(dir), ClusterAt(boot);
    Make(disk, puts, 0, Put(ROOT, EFI, dir, 0, DIRECTORY));
    Make(disk, puts, 1, Put(ROOT + 32, BOOTX64, 2, size, ARCHIVE));
    Make(disk, puts, 2, Put(efiDir, DOT, dir, 0, DIRECTORY));
    Make(disk, puts, 3, Put(efiDir + 32, DOT_DOT, 0, 0, DIRECTORY));
    Make(disk, puts, 4, Put(efiDir + 64, BOOT, boot, 0, DIRECTORY));
    Make(disk, puts, 5, Put(bootDir, DOT, boot, 0, DIRECTORY));
    Make(disk, puts, 6, Put(bootDir + 32, DOT_DOT, dir, 0, DIRECTORY));
    Make(disk, puts, 7, Put(bootDir + 64, BOOTX64, 2, size, ARCHIVE));
    NothingToPut(disk[..], puts[8..]);
  }

  lemma NothingToPut(s: Bytes, puts: seq<Put>)
    requires |s| == TOTAL && puts == []
    ensures PutAll(s, puts) == s
  {}

  /** Fails on an empty file, and when file and directories do not fit; the image otherwise. */
  method CreateFatEfiImage(efi: Bytes) returns (r: Built)
    ensures r == if efi == [] then EmptyFile else if !Fits(|efi|) then TooLarge else Built(Image(efi))
  {
    hide Chain, SetBoth, PutAll, Patch, BootSector, Entries;
    var disk := new Byte[TOTAL](_ => 0);
    if efi == [] {
      return EmptyFile;
    }
    assert disk[..] == Zeros(TOTAL);
    Write(disk, 0, BootSector());
    Write(disk, FAT1, FAT_HEAD);
    Write(disk, FAT2, FAT_HEAD);
    var n := ClustersFor(|efi|);
    if n + 2 > DATA_CLUSTERS {
      return TooLarge;
    }
    ClusterRanges(|efi|);
    Write(disk, DATA, efi);
    WriteChain(disk, n);
    var dir, boot := n + 2, n + 3;
    CoveredUpTo(dir);
    CoveredUpTo(boot);
    SetBothTables(disk, dir, END);
    SetBothTables(disk, boot, END);
    MakeEntries(disk, dir, boot, |efi|);
    return Built(disk[..]);
  }
}
