/** The FAT12 system partition of the optical image: how it is built, and that it reads back. */
module Fat12Image {
  import opened DiskBytes
  import opened Fat12

  const TOTAL := 12582912       // 24576 sectors of 512 bytes
  const CLUSTER := 4096
  const FAT1 := 512
  const FAT2 := 5120
  const FAT_SIZE := 4608
  const ROOT := 9728
  const DATA := 16896
  const DATA_CLUSTERS := 3067

  type Name = b: Bytes | |b| == 11 witness Zeros(11)

  // Names in ASCII, padded with spaces.
  const EFI: Name := [69, 70, 73, 32, 32, 32, 32, 32, 32, 32, 32]
  const BOOT: Name := [66, 79, 79, 84, 32, 32, 32, 32, 32, 32, 32]
  const BOOTX64: Name := [66, 79, 79, 84, 88, 54, 52, 32, 69, 70, 73]
  const DOT: Name := [46, 32, 32, 32, 32, 32, 32, 32, 32, 32, 32]
  const DOT_DOT: Name := [46, 46, 32, 32, 32, 32, 32, 32, 32, 32, 32]

  const DIRECTORY: Byte := 0x10
  const ARCHIVE: Byte := 0x20

  function ClusterAt(c: nat): nat
    requires c >= 2
  {
    DATA + (c - 2) * CLUSTER
  }

  function ClustersFor(size: nat): nat {
    (size + CLUSTER - 1) / CLUSTER
  }

  /** The two directories take a cluster each. */
  predicate Fits(size: nat) {
    ClustersFor(size) + 2 <= DATA_CLUSTERS
  }

  // ---- writes ----------------------------------------------------------------

  function PutEntry(s: Bytes, off: nat, name: Name, cluster: nat, size: nat, attr: Byte): (r: Bytes)
    requires off + 32 <= |s| && cluster < 0x1_0000 && size < 0x1_0000_0000
    ensures |r| == |s|
  {
    Patch(Patch(Patch(Patch(s, off, name), off + 11, [attr]), off + 26, Two(cluster)), off + 28, Four(size))
  }

  method MakeEntry(disk: array<Byte>, off: nat, name: Name, cluster: nat, size: nat, attr: Byte)
    requires off + 32 <= disk.Length && cluster < 0x1_0000 && size < 0x1_0000_0000
    modifies disk
    ensures disk[..] == PutEntry(old(disk[..]), off, name, cluster, size, attr)
  {
    Write(disk, off, name);
    disk[off + 11] := attr;
    assert disk[..] == Patch(Patch(old(disk[..]), off, name), off + 11, [attr]);
    Write(disk, off + 26, Two(cluster));
    Write(disk, off + 28, Four(size));
  }

  /** A directory entry as a reader sees it. */
  predicate IsEntry(s: Bytes, off: nat, name: Name, cluster: nat, size: nat, attr: Byte) {
    && off + 32 <= |s| && s[off..off + 11] == name && s[off + 11] == attr
    && Word2(s, off + 26) == cluster && Word4(s, off + 28) == size
  }

  lemma EntryReads(s: Bytes, off: nat, name: Name, cluster: nat, size: nat, attr: Byte)
    requires off + 32 <= |s| && cluster < 0x1_0000 && size < 0x1_0000_0000
    ensures IsEntry(PutEntry(s, off, name, cluster, size, attr), off, name, cluster, size, attr)
  {
    hide Patch, Two, Four, Word2, Word4;
    var s1 := Patch(s, off, name);
    var s2 := Patch(s1, off + 11, [attr]);
    var s3 := Patch(s2, off + 26, Two(cluster));
    var s4 := Patch(s3, off + 28, Four(size));
    PatchInside(s, off, name);
    PatchOutside(s1, off + 11, [attr], off, off + 11);
    PatchOutside(s2, off + 26, Two(cluster), off, off + 11);
    PatchOutside(s3, off + 28, Four(size), off, off + 11);
    PatchAt(s1, off + 11, [attr], off + 11);
    PatchAt(s2, off + 26, Two(cluster), off + 11);
    PatchAt(s3, off + 28, Four(size), off + 11);
    PatchInside(s2, off + 26, Two(cluster));
    PatchOutside(s3, off + 28, Four(size), off + 26, off + 28);
    ReadTwo(s4, off + 26, cluster);
    PatchInside(s3, off + 28, Four(size));
    ReadFour(s4, off + 28, size);
  }

  /** Nothing outside its 32 bytes is touched. */
  lemma EntryOutside(s: Bytes, off: nat, name: Name, cluster: nat, size: nat, attr: Byte, lo: nat, hi: nat)
    requires off + 32 <= |s| && cluster < 0x1_0000 && size < 0x1_0000_0000
    requires lo <= hi <= |s| && (hi <= off || off + 32 <= lo)
    ensures PutEntry(s, off, name, cluster, size, attr)[lo..hi] == s[lo..hi]
  {
    hide Patch, Two, Four;
    var s1 := Patch(s, off, name);
    var s2 := Patch(s1, off + 11, [attr]);
    var s3 := Patch(s2, off + 26, Two(cluster));
    PatchOutside(s, off, name, lo, hi);
    PatchOutside(s1, off + 11, [attr], lo, hi);
    PatchOutside(s2, off + 26, Two(cluster), lo, hi);
    PatchOutside(s3, off + 28, Four(size), lo, hi);
  }

  predicate Covered(c: nat) {
    EntryOffset(c) + 2 <= FAT_SIZE
  }

  lemma CoveredUpTo(c: nat)
    requires c < 3072
    ensures Covered(c)
  {
    OffsetIs(c);
  }

  /** An entry in both tables. */
  function SetBoth(s: Bytes, c: nat, val: nat): (r: Bytes)
    requires |s| == TOTAL && Covered(c) && val <= END
    ensures |r| == TOTAL
  {
    Set(Set(s, FAT1, c, val), FAT2, c, val)
  }

  /** The chain of the file, up to i of its n clusters. */
  function Chain(s: Bytes, n: nat, i: nat): (r: Bytes)
    requires |s| == TOTAL && i <= n <= DATA_CLUSTERS
    ensures |r| == TOTAL
    decreases i
  {
    if i == 0 then s
    else
      CoveredUpTo(i + 1);
      SetBoth(Chain(s, n, i - 1), i + 1, if i == n then END else i + 2)
  }

  const FAT_HEAD: Bytes := [0xF8, 0xFF, 0xFF]

  /** Boot sector and empty tables. */
  function Formatted(): (r: Bytes)
    ensures |r| == TOTAL
  {
    Patch(Patch(Patch(Zeros(TOTAL), 0, BootSector()), FAT1, FAT_HEAD), FAT2, FAT_HEAD)
  }

  function BootSector(): (r: Bytes)
    ensures |r| == 512
  {
    BiosParameters() + [0x80, 0, 0x29] + Four(0xBA1CE001)
    + [66, 65, 75, 69, 78, 95, 69, 70, 73, 32, 32] + [70, 65, 84, 49, 50, 32, 32, 32] + Zeros(448) + [0x55, 0xAA]
  }

  /** Up to offset 36: sizes and counts, 512 bytes a sector, 8 sectors a cluster, one reserved sector,
      two tables of 9 sectors, 224 root entries, 24576 sectors. */
  function BiosParameters(): (r: Bytes)
    ensures |r| == 36
  {
    [0xeb, 0x3c, 0x90] + [0x4d, 0x53, 0x57, 0x49, 0x4e, 0x34, 0x2e, 0x31] + Two(512) + [8] + Two(1) + [2] + Two(224) + Two(24576)
    + [0xF8] + Two(9) + Two(18) + Two(2) + Four(0) + Zeros(4)
  }

  /** Everything, in the order in which it is written. */
  function Image(efi: Bytes): (r: Bytes)
    requires Fits(|efi|)
    ensures |r| == TOTAL
  {
    var n := ClustersFor(|efi|);
    var dir, boot := n + 2, n + 3;
    CoveredUpTo(dir);
    CoveredUpTo(boot);
    var s1 := Chain(Patch(Formatted(), DATA, efi), n, n);
    var s2 := SetBoth(SetBoth(s1, dir, END), boot, END);
    PutAll(s2, Entries(dir, boot, |efi|))
  }

  /** A directory entry to write. */
  datatype PutAny = Put(off: nat, name: Name, cluster: nat, size: nat, attr: Byte)

  type Put = p: PutAny | p.off + 32 <= TOTAL && p.cluster < 0x1_0000 && p.size < 0x1_0000_0000
    witness Put(0, EFI, 0, 0, 0)

  function RootEntries(dir: nat, size: nat): seq<Put>
    requires dir < 0x1_0000 && size < TOTAL
  {
    [Put(ROOT, EFI, dir, 0, DIRECTORY), Put(ROOT + 32, BOOTX64, 2, size, ARCHIVE)]
  }

  /** A directory: itself, its parent, and one more entry. */
  function DirEntries(at: nat, self: nat, parent: nat, third: Put): seq<Put>
    requires at + CLUSTER <= TOTAL && self < 0x1_0000 && parent < 0x1_0000
  {
    [Put(at, DOT, self, 0, DIRECTORY), Put(at + 32, DOT_DOT, parent, 0, DIRECTORY), third]
  }

  /** The entries in the order in which they are written. */
  function Entries(dir: nat, boot: nat, size: nat): seq<Put>
    requires 2 <= dir && boot == dir + 1 && boot < DATA_CLUSTERS + 2 && size < TOTAL
  {
    RootEntries(dir, size)
    + DirEntries(ClusterAt(dir), dir, 0, Put(ClusterAt(dir) + 64, BOOT, boot, 0, DIRECTORY))
    + DirEntries(ClusterAt(boot), boot, dir, Put(ClusterAt(boot) + 64, BOOTX64, 2, size, ARCHIVE))
  }

  function PutOne(s: Bytes, p: Put): (r: Bytes)
    requires |s| == TOTAL
    ensures |r| == TOTAL
  {
    PutEntry(s, p.off, p.name, p.cluster, p.size, p.attr)
  }

  function PutAll(s: Bytes, puts: seq<Put>): (r: Bytes)
    requires |s| == TOTAL
    ensures |r| == TOTAL
    decreases |puts|
  {
    if puts == [] then s else PutAll(PutOne(s, puts[0]), puts[1..])
  }
}
