/** Allocation on the FAT16 partition as the disk builder does it, and the reservation of raw records. */
module Fat16Builder {
  import opened Options
  import opened DiskBytes
  import opened Fat16Esp

  datatype Refusal = TooLarge | OutsidePartition | InMetadata | OutsideFat

  // ---- reservation of a raw sector -----------------------------------------------

  function SectorInPartition(lba: int): int {
    lba - PART_START_LBA
  }

  /** The cluster that holds a sector of the data area. */
  function ClusterOfLba(lba: int): nat
    requires SectorInPartition(lba) >= FIRST_DATA_SECTOR
  {
    2 + (SectorInPartition(lba) - FIRST_DATA_SECTOR) / 4
  }

  function Refused(lba: int): Option<Refusal> {
    if lba < PART_START_LBA then Some(OutsidePartition)
    else if SectorInPartition(lba) < FIRST_DATA_SECTOR then Some(InMetadata)
    else if ClusterOfLba(lba) >= 0xFFF7 then Some(OutsideFat)
    else None
  }

  /** The cluster of the sector is marked used unless it is already. */
  function Reserved(s: Bytes, lba: int): (r: Bytes)
    requires |s| == TOTAL && Refused(lba).None?
    ensures |r| == TOTAL
  {
    var c := ClusterOfLba(lba);
    if Get(s, FAT1, c) == 0 then SetBoth(s, c, END) else s
  }

  /** Within the table: the entry is not free afterwards, every other entry is as it was, the copies
      still agree, and every file that was there still reads back. */
  lemma ReservedKeeps(s: Bytes, lba: int, files: seq<File>, current: nat)
    requires |s| == TOTAL && Refused(lba).None? && ClusterOfLba(lba) < FAT_SIZE / 2 && Allocated(s, files, current)
    ensures var r := Reserved(s, lba);
            && Get(r, FAT1, ClusterOfLba(lba)) != 0
            && (forall d: nat :: d < FAT_SIZE / 2 && d != ClusterOfLba(lba) ==> Get(r, FAT1, d) == Get(s, FAT1, d))
            && (Get(s, FAT1, ClusterOfLba(lba)) != 0 ==> r == s)
            && Allocated(r, files, current)
  {
    hide SetBoth, Get, CopiesAgree, Holds;
    var c := ClusterOfLba(lba);
    var r := Reserved(s, lba);
    if Get(s, FAT1, c) == 0 {
      SetBothCopies(s, c, END);
      forall d: nat | d < FAT_SIZE / 2 ensures Get(r, FAT1, d) == if d == c then END else Get(s, FAT1, d) {
        SetBothGet(s, c, END, d);
      }
      forall f | f in files ensures Holds(r, f) {
        ReservedKeepsFile(s, r, c, f);
      }
    }
  }

  lemma ReservedKeepsFile(s: Bytes, r: Bytes, c: nat, f: File)
    requires |s| == |r| == TOTAL && Holds(s, f) && c < FAT_SIZE / 2 && Get(s, FAT1, c) == 0
    requires (forall d: nat :: d < FAT_SIZE / 2 && d != c ==> Get(r, FAT1, d) == Get(s, FAT1, d)) && r[ROOT..] == s[ROOT..]
    ensures Holds(r, f)
  {
    hide Get;
    DataBelowTables(r, s, At(f.start), At(f.start) + |f.data|);
    HoldsElsewhere(s, r, f);
  }

  /** The check against 0xFFF7 lets through clusters that the table of 32768 entries does not have.
      The copies still agree afterwards if and only if the cluster is in the table, or what lies
      where its entry would be is not zero, so that nothing is written. */
  lemma ReservedAgrees(s: Bytes, lba: int)
    requires |s| == TOTAL && Refused(lba).None? && CopiesAgree(s)
    ensures CopiesAgree(Reserved(s, lba)) <==> ClusterOfLba(lba) < FAT_SIZE / 2 || Get(s, FAT1, ClusterOfLba(lba)) != 0
  {
    var c := ClusterOfLba(lba);
    if c < FAT_SIZE / 2 {
      SetBothCopies(s, c, END);
    } else if Get(s, FAT1, c) == 0 {
      BeyondTheTable(s, c);
    }
  }

  /** No sector of this disk is affected. */
  lemma DiskSectorsAreInTable(lba: int)
    requires Refused(lba).None? && lba < TOTAL / 512
    ensures ClusterOfLba(lba) < FAT_SIZE / 2
  {}

  /** The first sector that is: it lies behind the end of the disk, is not refused, and an empty
      image loses the agreement of its copies. */
  lemma FirstSectorBeyond()
    ensures Refused(133401).None? && ClusterOfLba(133401) == FAT_SIZE / 2 && 133401 >= TOTAL / 512
    ensures forall lba :: lba < 133401 && Refused(lba).None? ==> ClusterOfLba(lba) < FAT_SIZE / 2
    ensures CopiesAgree(Zeros(TOTAL)) && !CopiesAgree(Reserved(Zeros(TOTAL), 133401))
  {
    var s := Zeros(TOTAL);
    assert s[FAT1..FAT1 + FAT_SIZE] == s[FAT2..FAT2 + FAT_SIZE];
    ReservedAgrees(s, 133401);
  }

  /** An entry behind the first table is an entry of the second, which the first does not get. */
  lemma BeyondTheTable(s: Bytes, c: nat)
    requires |s| == TOTAL && FAT_SIZE / 2 <= c < END && CopiesAgree(s) && Get(s, FAT1, c) == 0
    ensures !CopiesAgree(SetBoth(s, c, END))
  {
    hide Patch, Two, Word2;
    var d := c - FAT_SIZE / 2;
    assert FAT1 + 2 * c == FAT2 + 2 * d;
    var m := Patch(s, FAT1 + 2 * c, Two(END));
    var r := SetBoth(s, c, END);
    PatchInside(s, FAT1 + 2 * c, Two(END));
    PatchOutside(m, FAT2 + 2 * c, Two(END), FAT2 + 2 * d, FAT2 + 2 * d + 2);
    ReadTwo(r, FAT2 + 2 * d, END);
    PatchOutside(s, FAT1 + 2 * c, Two(END), FAT1 + 2 * d, FAT1 + 2 * d + 2);
    PatchOutside(m, FAT2 + 2 * c, Two(END), FAT1 + 2 * d, FAT1 + 2 * d + 2);
    SameTwo(s, r, FAT1 + 2 * d);
    SameCopy(s, d);
    if CopiesAgree(r) {
      SameCopy(r, d);
      assert false;
    }
  }

  lemma SameCopy(s: Bytes, d: nat)
    requires |s| == TOTAL && CopiesAgree(s) && d < FAT_SIZE / 2
    ensures Word2(s, FAT1 + 2 * d) == Word2(s, FAT2 + 2 * d)
  {
    var a, b := s[FAT1..FAT1 + FAT_SIZE], s[FAT2..FAT2 + FAT_SIZE];
    assert s[FAT1 + 2 * d] == a[2 * d] && s[FAT1 + 2 * d + 1] == a[2 * d + 1];
    assert s[FAT2 + 2 * d] == b[2 * d] && s[FAT2 + 2 * d + 1] == b[2 * d + 1];
  }

  // ---- the builder -----------------------------------------------------------------

  /** A directory of one cluster, which is marked as a chain of its own. */
  lemma DirectoryKeeps(s: Bytes, files: seq<File>, current: nat)
    requires |s| == TOTAL && Allocated(s, files, current) && current < FAT_SIZE / 2
    ensures Allocated(SetBoth(s, current, END), files, current + 1)
    ensures Get(SetBoth(s, current, END), FAT1, current) == END
  {
    hide SetBoth, Get, CopiesAgree, Holds;
    var r := SetBoth(s, current, END);
    SetBothCopies(s, current, END);
    forall d: nat | d < FAT_SIZE / 2 ensures Get(r, FAT1, d) == if d == current then END else Get(s, FAT1, d) {
      SetBothGet(s, current, END, d);
    }
    forall f | f in files ensures Holds(r, f) {
      KeepsFileBelow(s, r, current, f);
    }
  }

  lemma KeepsFileBelow(s: Bytes, r: Bytes, c: nat, f: File)
    requires |s| == |r| == TOTAL && Holds(s, f) && LastOf(f) < c < FAT_SIZE / 2
    requires (forall d: nat :: d < FAT_SIZE / 2 && d != c ==> Get(r, FAT1, d) == Get(s, FAT1, d)) && r[ROOT..] == s[ROOT..]
    ensures Holds(r, f)
  {
    hide Get;
    DataBelowTables(r, s, At(f.start), At(f.start) + |f.data|);
    HoldsElsewhere(s, r, f);
  }

  class EspBuilder {
    const disk: array<Byte>
    var currentCluster: nat
    ghost var files: seq<File>

    /** Both tables start with the media entries; everything else is zero. */
    constructor ()
      ensures Valid() && fresh(disk) && files == [] && currentCluster == 2
    {
      hide SetBoth, Patch, Allocated;
      disk := new Byte[TOTAL](_ => 0);
      currentCluster, files := 2, [];
      new;
      assert disk[..] == Zeros(TOTAL);
      SetEntry(0, 0xFFF8);
      SetEntry(1, 0xFFFF);
      Formatted();
    }

    ghost predicate Valid()
      reads this, disk
    {
      disk.Length == TOTAL && Allocated(disk[..], files, currentCluster)
    }

    method SetEntry(c: nat, v: nat)
      requires disk.Length == TOTAL && c < END && v <= END
      modifies disk
      ensures disk[..] == SetBoth(old(disk[..]), c, v)
    {
      Write(disk, FAT1 + c * 2, Two(v));
      Write(disk, FAT2 + c * 2, Two(v));
    }

    /** Fails without a trace when the file does not fit; otherwise all earlier files are kept and this
        one is added at the next cluster. */
    method WriteFile(data: Bytes) returns (r: Option<Refusal>, start: nat)
      requires Valid()
      modifies this, disk
      ensures Valid()
      ensures r.Some? <==> old(currentCluster) + ClustersOf(|data|) - 1 > LAST_CLUSTER
      ensures r.Some? ==> disk[..] == old(disk[..]) && files == old(files) && currentCluster == old(currentCluster)
      ensures r.None? ==>
                && start == old(currentCluster) && files == old(files) + [File(start, data)]
                && currentCluster == start + ClustersOf(|data|) && disk[..] == WithFile(old(disk[..]), File(start, data))
                && ReadFile(disk[..], start, |data|) == Some(data)
    {
      hide Chain, SetBoth, Patch, Allocated, Holds;
      var numClusters := (|data| + CLUSTER - 1) / CLUSTER;
      if numClusters == 0 {
        numClusters := 1;
      }
      ClusterCount(|data|, numClusters);
      if currentCluster + numClusters - 1 > LAST_CLUSTER {
        return Some(TooLarge), 0;
      }
      start := currentCluster;
      ghost var before := disk[..];
      ghost var was := files;
      AllocatedStart(before, files, currentCluster);
      FileFits(start, |data|);
      Write(disk, At(start), data);
      ghost var middle := disk[..];
      var c := 0;
      ChainNone(middle, start, numClusters);
      while c < numClusters
        invariant 0 <= c <= numClusters && currentCluster == start && files == was
        invariant disk[..] == Chain(middle, start, numClusters, c)
      {
        ChainStep(middle, start, numClusters, c);
        SetEntry(start + c, if c == numClusters - 1 then END else start + c + 1);
        c := c + 1;
      }
      currentCluster := currentCluster + numClusters;
      files := files + [File(start, data)];
      WithFileKeeps(before, was, start, data);
      LastReads(disk[..], files, currentCluster);
      return None, start;
    }

    /** A directory gets the next cluster. There is no check that it is one of the data area: it is
        exactly when one was left. */
    method AllocateDirectory() returns (c: nat)
      requires Valid() && currentCluster < FAT_SIZE / 2
      modifies this, disk
      ensures Valid() && files == old(files) && c == old(currentCluster) && currentCluster == c + 1
      ensures disk[..] == SetBoth(old(disk[..]), c, END)
      ensures forall f <- files :: LastOf(f) < c
    {
      hide SetBoth, Holds;
      DirectoryKeeps(disk[..], files, currentCluster);
      c := currentCluster;
      currentCluster := currentCluster + 1;
      SetEntry(c, END);
    }

    method ReserveRawLba(lba: int) returns (r: Option<Refusal>)
      requires disk.Length == TOTAL
      modifies disk
      ensures r == Refused(lba)
      ensures disk[..] == if r.None? then Reserved(old(disk[..]), lba) else old(disk[..])
      ensures old(Valid()) && (r.Some? || ClusterOfLba(lba) < FAT_SIZE / 2) ==> Valid()
    {
      hide SetBoth, Allocated;
      if Refused(lba).None? && ClusterOfLba(lba) < FAT_SIZE / 2 && Allocated(disk[..], files, currentCluster) {
        ReservedKeeps(disk[..], lba, files, currentCluster);
      }
      if lba < PART_START_LBA {
        return Some(OutsidePartition);
      }
      var sectorInPartition := lba - PART_START_LBA;
      if sectorInPartition < FIRST_DATA_SECTOR {
        return Some(InMetadata);
      }
      var cluster := 2 + (sectorInPartition - FIRST_DATA_SECTOR) / 4;
      if cluster >= 0xFFF7 {
        return Some(OutsideFat);
      }
      var entry := disk[FAT1 + cluster * 2] as nat + 256 * (disk[FAT1 + cluster * 2 + 1] as nat);
      if entry == 0 {
        SetEntry(cluster, END);
      }
      return None;
    }
  }

  lemma Formatted()
    ensures Allocated(SetBoth(SetBoth(Zeros(TOTAL), 0, 0xFFF8), 1, 0xFFFF), [], 2)
  {
    hide SetBoth;
    var z := Zeros(TOTAL);
    var a, b := z[FAT1..FAT1 + FAT_SIZE], z[FAT2..FAT2 + FAT_SIZE];
    assert forall i :: 0 <= i < FAT_SIZE ==> a[i] == 0 && b[i] == 0;
    assert a == b;
    SetBothCopies(z, 0, 0xFFF8);
    SetBothCopies(SetBoth(z, 0, 0xFFF8), 1, 0xFFFF);
  }

  lemma ChainNone(s: Bytes, start: nat, n: nat)
    requires |s| == TOTAL && start + n <= LAST_CLUSTER + 1
    ensures Chain(s, start, n, 0) == s
  {}

  lemma ClusterCount(size: nat, n: nat)
    requires n == if (size + CLUSTER - 1) / CLUSTER == 0 then 1 else (size + CLUSTER - 1) / CLUSTER
    ensures n == ClustersOf(size)
  {}

  lemma FileFits(start: nat, size: nat)
    requires 2 <= start && start + ClustersOf(size) - 1 <= LAST_CLUSTER
    ensures At(start) + size <= TOTAL
  {}

  lemma AllocatedStart(s: Bytes, files: seq<File>, current: nat)
    requires |s| == TOTAL && Allocated(s, files, current)
    ensures 2 <= current
  {}

  lemma ChainStep(s: Bytes, start: nat, n: nat, c: nat)
    requires |s| == TOTAL && c < n && start + n <= LAST_CLUSTER + 1
    ensures Chain(s, start, n, c + 1) == SetBoth(Chain(s, start, n, c), start + c, if c == n - 1 then END else start + c + 1)
  {
    hide SetBoth;
  }

  lemma LastReads(s: Bytes, files: seq<File>, current: nat)
    requires |s| == TOTAL && files != [] && Allocated(s, files, current)
    ensures var f := files[|files| - 1];
            ReadFile(s, f.start, |f.data|) == Some(f.data)
  {
    FileReads(s, files[|files| - 1]);
  }
}
