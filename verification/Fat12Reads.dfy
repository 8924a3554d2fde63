/** The optical image reads back: tables, chain, directories and file. */
module Fat12Reads {
  import opened Options
  import opened DiskBytes
  import opened Fat12
  import opened Fat12Image

  // ---- the tables ------------------------------------------------------------

  /** Entries 2 to n + 1 chain the file, n + 2 and n + 3 are the directories; both tables agree. */
  ghost predicate TablesHold(s: Bytes, n: nat)
    requires |s| == TOTAL && n + 2 <= DATA_CLUSTERS
  {
    && (forall c :: 2 <= c < n + 2 ==> Covered(c) && Get(s, FAT1, c) == if c == n + 1 then END else c + 1)
    && Covered(n + 2) && Covered(n + 3) && Get(s, FAT1, n + 2) == END && Get(s, FAT1, n + 3) == END
    && s[FAT1..FAT1 + FAT_SIZE] == s[FAT2..FAT2 + FAT_SIZE]
  }

  lemma SetBothEffect(s: Bytes, c: nat, val: nat)
    requires |s| == TOTAL && Covered(c) && val <= END
    requires s[FAT1..FAT1 + FAT_SIZE] == s[FAT2..FAT2 + FAT_SIZE]
    ensures var r := SetBoth(s, c, val);
            && Get(r, FAT1, c) == val
            && (forall d :: d != c && Covered(d) ==> Get(r, FAT1, d) == Get(s, FAT1, d))
            && r[FAT1..FAT1 + FAT_SIZE] == r[FAT2..FAT2 + FAT_SIZE]
  {
    hide Set, Get, EntryOffset;
    var m := Set(s, FAT1, c, val);
    var r := Set(m, FAT2, c, val);
    SetSlice(s, FAT1, FAT_SIZE, c, val);
    SetOutside(s, FAT1, c, val, FAT2, FAT2 + FAT_SIZE);
    SetSlice(m, FAT2, FAT_SIZE, c, val);
    SetOutside(m, FAT2, c, val, FAT1, FAT1 + FAT_SIZE);
    GetSet(s, FAT1, c, val);
    GetSlice(r, FAT1, FAT_SIZE, c);
    GetSlice(m, FAT1, FAT_SIZE, c);
    forall d | d != c && Covered(d) ensures Get(r, FAT1, d) == Get(s, FAT1, d) {
      GetSetOther(s, FAT1, c, val, d);
      GetSlice(r, FAT1, FAT_SIZE, d);
      GetSlice(m, FAT1, FAT_SIZE, d);
    }
  }

  lemma SetBothOutside(s: Bytes, c: nat, val: nat, lo: nat, hi: nat)
    requires |s| == TOTAL && Covered(c) && val <= END && lo <= hi <= TOTAL
    requires hi <= FAT1 || FAT2 + FAT_SIZE <= lo
    ensures SetBoth(s, c, val)[lo..hi] == s[lo..hi]
  {
    hide Set, EntryOffset;
    SetOutside(s, FAT1, c, val, lo, hi);
    SetOutside(Set(s, FAT1, c, val), FAT2, c, val, lo, hi);
  }

  lemma {:induction false} ChainHolds(s: Bytes, n: nat, i: nat)
    requires |s| == TOTAL && i <= n && n + 2 <= DATA_CLUSTERS
    requires s[FAT1..FAT1 + FAT_SIZE] == s[FAT2..FAT2 + FAT_SIZE]
    ensures var r := Chain(s, n, i);
            && (forall c :: 2 <= c < i + 2 ==> Covered(c) && Get(r, FAT1, c) == if c == n + 1 then END else c + 1)
            && r[FAT1..FAT1 + FAT_SIZE] == r[FAT2..FAT2 + FAT_SIZE]
    decreases i
  {
    hide SetBoth, Get, Covered;
    if i > 0 {
      ChainHolds(s, n, i - 1);
      CoveredUpTo(i + 1);
      SetBothEffect(Chain(s, n, i - 1), i + 1, if i == n then END else i + 2);
    }
  }

  lemma {:induction false} ChainOutside(s: Bytes, n: nat, i: nat, lo: nat, hi: nat)
    requires |s| == TOTAL && i <= n <= DATA_CLUSTERS && lo <= hi <= TOTAL
    requires hi <= FAT1 || FAT2 + FAT_SIZE <= lo
    ensures Chain(s, n, i)[lo..hi] == s[lo..hi]
    decreases i
  {
    hide SetBoth, Covered;
    if i > 0 {
      ChainOutside(s, n, i - 1, lo, hi);
      CoveredUpTo(i + 1);
      SetBothOutside(Chain(s, n, i - 1), i + 1, if i == n then END else i + 2, lo, hi);
    }
  }

  lemma FormattedTables()
    ensures var s := Formatted(); s[FAT1..FAT1 + FAT_SIZE] == s[FAT2..FAT2 + FAT_SIZE]
    ensures Formatted()[..512] == BootSector()
  {
    hide BootSector;
    var z := Zeros(TOTAL);
    var s0 := Patch(z, 0, BootSector());
    var s1 := Patch(s0, FAT1, FAT_HEAD);
    var s2 := Patch(s1, FAT2, FAT_HEAD);
    var a, b := s2[FAT1..FAT1 + FAT_SIZE], s2[FAT2..FAT2 + FAT_SIZE];
    forall i | 0 <= i < FAT_SIZE ensures a[i] == b[i] {
      PatchAt(s1, FAT2, FAT_HEAD, FAT1 + i);
      PatchAt(s1, FAT2, FAT_HEAD, FAT2 + i);
      PatchAt(s0, FAT1, FAT_HEAD, FAT1 + i);
      PatchAt(s0, FAT1, FAT_HEAD, FAT2 + i);
      PatchAt(z, 0, BootSector(), FAT1 + i);
      PatchAt(z, 0, BootSector(), FAT2 + i);
    }
    PatchInside(z, 0, BootSector());
    PatchOutside(s0, FAT1, FAT_HEAD, 0, 512);
    PatchOutside(s1, FAT2, FAT_HEAD, 0, 512);
  }

  lemma ClusterRanges(size: nat)
    requires Fits(size)
    ensures var n := ClustersFor(size);
            && DATA + size <= ClusterAt(n + 2) && ClusterAt(n + 2) + CLUSTER == ClusterAt(n + 3) && ClusterAt(n + 3) + CLUSTER <= TOTAL
            && (size > 0 ==> n > 0) && n + 3 < 0x1_0000
  {}

  // ---- directories -----------------------------------------------------------

  predicate Apart(puts: seq<Put>) {
    forall i, j :: 0 <= i < j < |puts| ==> puts[i].off + 32 <= puts[j].off || puts[j].off + 32 <= puts[i].off
  }

  predicate IsPut(s: Bytes, p: Put) {
    IsEntry(s, p.off, p.name, p.cluster, p.size, p.attr)
  }

  /** Entries only write to their own bytes. */
  lemma {:induction false} PutAllOutside(s: Bytes, puts: seq<Put>, lo: nat, hi: nat)
    requires |s| == TOTAL && lo <= hi <= TOTAL
    requires forall p <- puts :: hi <= p.off || p.off + 32 <= lo
    ensures PutAll(s, puts)[lo..hi] == s[lo..hi]
    decreases |puts|
  {
    hide PutEntry;
    if puts != [] {
      var p := puts[0];
      assert p in puts && forall q <- puts[1..] :: q in puts;
      EntryOutside(s, p.off, p.name, p.cluster, p.size, p.attr, lo, hi);
      PutAllOutside(PutOne(s, p), puts[1..], lo, hi);
    }
  }

  lemma SameEntry(s: Bytes, r: Bytes, p: Put)
    requires IsPut(s, p) && |r| == |s| && r[p.off..p.off + 32] == s[p.off..p.off + 32]
    ensures IsPut(r, p)
  {
    var off := p.off;
    assert r[off + 11] == r[off..off + 32][11];
    assert r[off + 26] == r[off..off + 32][26] && r[off + 27] == r[off..off + 32][27] && r[off + 28] == r[off..off + 32][28];
    assert r[off + 29] == r[off..off + 32][29] && r[off + 30] == r[off..off + 32][30] && r[off + 31] == r[off..off + 32][31];
    assert r[off..off + 11] == r[off..off + 32][..11] == s[off..off + 11];
  }

  lemma ApartTail(puts: seq<Put>)
    requires Apart(puts) && puts != []
    ensures Apart(puts[1..]) && forall q <- puts[1..] :: puts[0].off + 32 <= q.off || q.off + 32 <= puts[0].off
  {
    var rest := puts[1..];
    forall q | q in rest ensures puts[0].off + 32 <= q.off || q.off + 32 <= puts[0].off {
      var k :| 0 <= k < |rest| && rest[k] == q;
      assert puts[k + 1] == q;
    }
    forall i, j | 0 <= i < j < |rest| ensures rest[i].off + 32 <= rest[j].off || rest[j].off + 32 <= rest[i].off {
      assert rest[i] == puts[i + 1] && rest[j] == puts[j + 1];
    }
  }

  /** Entries that do not overlap all read back. */
  lemma {:induction false} PutAllReads(s: Bytes, puts: seq<Put>)
    requires |s| == TOTAL && Apart(puts)
    ensures forall p <- puts :: IsPut(PutAll(s, puts), p)
    decreases |puts|
  {
    hide IsPut, Apart;
    if puts != [] {
      var p, rest := puts[0], puts[1..];
      ApartTail(puts);
      var s1 := PutOne(s, p);
      OneReads(s, p);
      PutAllOutside(s1, rest, p.off, p.off + 32);
      SameEntry(s1, PutAll(s1, rest), p);
      PutAllReads(s1, rest);
      assert forall q <- puts :: q == p || q in rest;
    }
  }

  lemma OneReads(s: Bytes, p: Put)
    requires |s| == TOTAL
    ensures IsPut(PutOne(s, p), p)
  {
    EntryReads(s, p.off, p.name, p.cluster, p.size, p.attr);
  }

  // ---- reading the image -----------------------------------------------------

  /** The entry of that name in a directory that starts at off; a zero byte ends the search. */
  function FindEntry(s: Bytes, off: nat, name: Name): Option<nat>
    decreases |s| - off
  {
    if off + 32 > |s| || s[off] == 0 then None
    else if s[off..off + 11] == name then Some(off)
    else FindEntry(s, off + 32, name)
  }

  predicate IsDataCluster(c: nat) {
    2 <= c && Covered(c) && ClusterAt(c) + CLUSTER <= TOTAL
  }

  /** The bytes of a file that starts at a cluster, following the chain to an end mark. */
  function FileBytes(s: Bytes, c: nat, size: nat): Option<Bytes>
    requires |s| == TOTAL
    decreases size
  {
    if !IsDataCluster(c) then None
    else if size <= CLUSTER then
      if Get(s, FAT1, c) >= 0xFF8 then Some(s[ClusterAt(c)..ClusterAt(c) + size]) else None
    else
      var rest := FileBytes(s, Get(s, FAT1, c), size - CLUSTER);
      if rest.None? then None else Some(s[ClusterAt(c)..ClusterAt(c) + CLUSTER] + rest.value)
  }

  /** A name looked up in a directory, and what its entry says. */
  function Child(s: Bytes, off: nat, name: Name): Option<(nat, nat)> {
    var found := FindEntry(s, off, name);
    if found.None? || found.value + 32 > |s| then None else Some((Word2(s, found.value + 26), Word4(s, found.value + 28)))
  }

  /** /EFI/BOOT/BOOTX64.EFI, as firmware finds it: root, two directories, then the chain. */
  function ReadBootFile(s: Bytes): Option<Bytes>
    requires |s| == TOTAL
  {
    var efi := Child(s, ROOT, EFI);
    if efi.None? || !IsDataCluster(efi.value.0) then None
    else
      var boot := Child(s, ClusterAt(efi.value.0), BOOT);
      if boot.None? || !IsDataCluster(boot.value.0) then None
      else
        var file := Child(s, ClusterAt(boot.value.0), BOOTX64);
        if file.None? then None else FileBytes(s, file.value.0, file.value.1)
  }

  /** A chain of n clusters gives back what is stored from its first cluster on. */
  lemma {:induction false} ChainReads(s: Bytes, n: nat, c: nat, size: nat)
    requires |s| == TOTAL && n + 2 <= DATA_CLUSTERS && TablesHold(s, n)
    requires 2 <= c < n + 2 && ClustersFor(size) == n + 2 - c
    ensures ClusterAt(c) + size <= TOTAL && FileBytes(s, c, size) == Some(s[ClusterAt(c)..ClusterAt(c) + size])
    decreases size
  {
    hide Get, Covered;
    var at := ClusterAt(c);
    if size <= CLUSTER {
      assert c == n + 1;
    } else {
      assert c < n + 1;
      ChainReads(s, n, c + 1, size - CLUSTER);
      assert s[at..at + CLUSTER] + s[at + CLUSTER..at + size] == s[at..at + size];
    }
  }

  lemma {:induction false} InOrder(puts: seq<Put>)
    requires forall i :: 0 <= i < |puts| - 1 ==> puts[i].off + 32 <= puts[i + 1].off
    ensures Apart(puts)
  {
    forall i, j | 0 <= i < j < |puts| ensures puts[i].off + 32 <= puts[j].off {
      Later(puts, i, j);
    }
  }

  lemma {:induction false} Later(puts: seq<Put>, i: nat, j: nat)
    requires forall k :: 0 <= k < |puts| - 1 ==> puts[k].off + 32 <= puts[k + 1].off
    requires i < j < |puts|
    ensures puts[i].off + 32 <= puts[j].off
    decreases j
  {
    assert puts[j - 1].off + 32 <= puts[j - 1 + 1].off;
    if i < j - 1 {
      Later(puts, i, j - 1);
    }
  }

  lemma EntriesApart(dir: nat, boot: nat, size: nat)
    requires 2 <= dir && boot == dir + 1 && boot < DATA_CLUSTERS + 2 && size < TOTAL
    ensures var puts := Entries(dir, boot, size);
            && Apart(puts) && |puts| == 8
            && puts[0] == Put(ROOT, EFI, dir, 0, DIRECTORY)
            && puts[2..5] == DirEntries(ClusterAt(dir), dir, 0, Put(ClusterAt(dir) + 64, BOOT, boot, 0, DIRECTORY))
            && puts[5..8] == DirEntries(ClusterAt(boot), boot, dir, Put(ClusterAt(boot) + 64, BOOTX64, 2, size, ARCHIVE))
            && (forall p <- puts :: (ROOT <= p.off && p.off + 32 <= DATA) || ClusterAt(dir) <= p.off)
  {
    var puts := Entries(dir, boot, size);
    assert ClusterAt(boot) == ClusterAt(dir) + CLUSTER;
    assert forall i :: 0 <= i < 7 ==> puts[i].off + 32 <= puts[i + 1].off;
    InOrder(puts);
  }

  /** In a directory of three entries, the third is found by its name. */
  lemma ThirdEntry(s: Bytes, at: nat, self: nat, parent: nat, third: Put)
    requires |s| == TOTAL && at + CLUSTER <= TOTAL && self < 0x1_0000 && parent < 0x1_0000
    requires third.off == at + 64 && third.name[0] != 46 && third.name[0] != 0
    requires forall p <- DirEntries(at, self, parent, third) :: IsPut(s, p)
    ensures Child(s, at, third.name) == Some((third.cluster, third.size))
  {
    var ps := DirEntries(at, self, parent, third);
    assert ps[0] in ps && ps[1] in ps && ps[2] in ps;
    assert s[at] == s[at..at + 11][0] && s[at + 32] == s[at + 32..at + 43][0] && s[at + 64] == s[at + 64..at + 75][0];
    assert FindEntry(s, at + 64, third.name) == Some(at + 64);
    assert s[at + 32..at + 43][0] == 46 && s[at..at + 11][0] == 46;
    assert FindEntry(s, at + 32, third.name) == Some(at + 64);
    assert FindEntry(s, at, third.name) == Some(at + 64);
  }

  lemma FirstEntry(s: Bytes, p: Put)
    requires |s| == TOTAL && IsPut(s, p) && p.name[0] != 0
    ensures Child(s, p.off, p.name) == Some((p.cluster, p.size))
  {
    assert s[p.off] == s[p.off..p.off + 11][0];
  }

  /** The tables with the two directories added. */
  lemma TablesWithDirectories(s: Bytes, n: nat)
    requires |s| == TOTAL && n + 2 <= DATA_CLUSTERS && s[FAT1..FAT1 + FAT_SIZE] == s[FAT2..FAT2 + FAT_SIZE]
    ensures Covered(n + 2) && Covered(n + 3)
    ensures var r := SetBoth(SetBoth(Chain(s, n, n), n + 2, END), n + 3, END);
            && TablesHold(r, n)
            && r[FAT2 + FAT_SIZE..] == s[FAT2 + FAT_SIZE..] && r[..FAT1] == s[..FAT1]
  {
    hide SetBoth, Get, Chain, Covered;
    CoveredUpTo(n + 2);
    CoveredUpTo(n + 3);
    ChainHolds(s, n, n);
    var s1 := Chain(s, n, n);
    SetBothEffect(s1, n + 2, END);
    var s2 := SetBoth(s1, n + 2, END);
    SetBothEffect(s2, n + 3, END);
    ChainOutside(s, n, n, FAT2 + FAT_SIZE, TOTAL);
    ChainOutside(s, n, n, 0, FAT1);
    SetBothOutside(s1, n + 2, END, FAT2 + FAT_SIZE, TOTAL);
    SetBothOutside(s1, n + 2, END, 0, FAT1);
    SetBothOutside(s2, n + 3, END, FAT2 + FAT_SIZE, TOTAL);
    SetBothOutside(s2, n + 3, END, 0, FAT1);
  }

  lemma TablesElsewhere(s: Bytes, r: Bytes, n: nat)
    requires |s| == |r| == TOTAL && n + 2 <= DATA_CLUSTERS && TablesHold(s, n) && r[..ROOT] == s[..ROOT]
    ensures TablesHold(r, n)
  {
    hide Get;
    assert r[FAT1..FAT1 + FAT_SIZE] == r[..ROOT][FAT1..FAT1 + FAT_SIZE] == s[FAT1..FAT1 + FAT_SIZE];
    assert r[FAT2..FAT2 + FAT_SIZE] == r[..ROOT][FAT2..FAT2 + FAT_SIZE] == s[FAT2..FAT2 + FAT_SIZE];
    forall c | Covered(c) ensures Get(r, FAT1, c) == Get(s, FAT1, c) {
      SameTable(s, r, c);
    }
  }

  lemma SameTable(s: Bytes, r: Bytes, c: nat)
    requires |s| == |r| == TOTAL && Covered(c) && r[FAT1..FAT1 + FAT_SIZE] == s[FAT1..FAT1 + FAT_SIZE]
    ensures Get(r, FAT1, c) == Get(s, FAT1, c)
  {
    hide Get;
    GetSlice(s, FAT1, FAT_SIZE, c);
    GetSlice(r, FAT1, FAT_SIZE, c);
  }

  /** For every file that fits: the boot sector is in place, the two tables agree, hold the chain of the
      file ended by 0xFFF and the two directories outside it, and looking up /EFI/BOOT/BOOTX64.EFI and
      following its chain gives back exactly the file. */
  lemma ImageReads(efi: Bytes)
    requires efi != [] && Fits(|efi|)
    ensures Image(efi)[..512] == BootSector()
    ensures TablesHold(Image(efi), ClustersFor(|efi|))
    ensures ReadBootFile(Image(efi)) == Some(efi)
  {
    hide Formatted, Chain, SetBoth, PutAll, Entries, FileBytes, Child, IsPut, Get, Covered, Patch, BootSector, TablesHold;
    var n, size := ClustersFor(|efi|), |efi|;
    ClusterRanges(size);
    FormattedTables();
    var f := Patch(Formatted(), DATA, efi);
    PatchOutside(Formatted(), DATA, efi, FAT1, FAT1 + FAT_SIZE);
    PatchOutside(Formatted(), DATA, efi, FAT2, FAT2 + FAT_SIZE);
    PatchOutside(Formatted(), DATA, efi, 0, FAT1);
    PatchInside(Formatted(), DATA, efi);
    TablesWithDirectories(f, n);
    var s := SetBoth(SetBoth(Chain(f, n, n), n + 2, END), n + 3, END);
    var puts := Entries(n + 2, n + 3, size);
    var r := PutAll(s, puts);
    EntriesApart(n + 2, n + 3, size);
    PutAllOutside(s, puts, 0, ROOT);
    PutAllOutside(s, puts, DATA, DATA + size);
    PutAllReads(s, puts);
    TablesElsewhere(s, r, n);
    FileInPlace(f, s, r, size, efi);
    ChainReads(r, n, 2, size);
    BootInPlace(f, s, r);
    DirectoriesRead(r, puts, n + 2, size);
    CoveredUpTo(n + 2);
    CoveredUpTo(n + 3);
  }

  lemma FileInPlace(f: Bytes, s: Bytes, r: Bytes, size: nat, efi: Bytes)
    requires |f| == |s| == |r| == TOTAL && DATA + size <= TOTAL && size == |efi|
    requires f[DATA..DATA + size] == efi && s[FAT2 + FAT_SIZE..] == f[FAT2 + FAT_SIZE..] && r[DATA..DATA + size] == s[DATA..DATA + size]
    ensures r[DATA..DATA + size] == efi
  {
    var k := DATA - (FAT2 + FAT_SIZE);
    assert s[DATA..DATA + size] == s[FAT2 + FAT_SIZE..][k..k + size];
    assert f[DATA..DATA + size] == f[FAT2 + FAT_SIZE..][k..k + size];
  }

  lemma BootInPlace(f: Bytes, s: Bytes, r: Bytes)
    requires |f| == |s| == |r| == TOTAL && s[..FAT1] == f[..FAT1] && r[0..ROOT] == s[0..ROOT]
    ensures r[..512] == f[0..FAT1]
  {
    assert r[..512] == r[0..ROOT][..512] && s[..512] == s[0..ROOT][..512];
  }

  lemma DirectoriesRead(r: Bytes, puts: seq<Put>, dir: nat, size: nat)
    requires |r| == TOTAL && 2 <= dir && dir + 1 < DATA_CLUSTERS + 2 && size < TOTAL && puts == Entries(dir, dir + 1, size)
    requires forall p <- puts :: IsPut(r, p)
    ensures Child(r, ROOT, EFI) == Some((dir, 0))
    ensures Child(r, ClusterAt(dir), BOOT) == Some((dir + 1, 0))
    ensures Child(r, ClusterAt(dir + 1), BOOTX64) == Some((2, size))
  {
    hide IsPut, Child, DirEntries, Entries;
    EntriesApart(dir, dir + 1, size);
    assert puts[0] in puts && (forall p <- puts[2..5] :: p in puts) && forall p <- puts[5..8] :: p in puts;
    FirstEntry(r, puts[0]);
    ThirdEntry(r, ClusterAt(dir), dir, 0, Put(ClusterAt(dir) + 64, BOOT, dir + 1, 0, DIRECTORY));
    ThirdEntry(r, ClusterAt(dir + 1), dir + 1, dir, Put(ClusterAt(dir + 1) + 64, BOOTX64, 2, size, ARCHIVE));
  }
}
