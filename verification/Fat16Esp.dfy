/** The FAT16 system partition of the test disk: allocation of files, directories and raw records. */
module Fat16Esp {
  import opened Options
  import opened DiskBytes

  const TOTAL := 67108864            // 131072 sectors of 512 bytes
  const PART_START_LBA := 2048
  const FAT1 := 1049088
  const FAT2 := 1114624
  const FAT_SIZE := 65536
  const ROOT := 1180160
  const DATA := 1196544
  const FIRST_DATA_SECTOR := 289     // within the partition
  const CLUSTER := 2048              // four sectors
  const LAST_CLUSTER := 32184
  const END := 0xFFFF

  /** An entry of the first table, or of the second. */
  function Get(s: Bytes, base: nat, c: nat): nat
    requires base + 2 * c + 2 <= |s|
  {
    Word2(s, base + 2 * c)
  }

  function At(c: nat): nat
    requires c >= 2
  {
    DATA + (c - 2) * CLUSTER
  }

  /** An empty file takes a cluster too. */
  function ClustersOf(size: nat): (n: nat)
    ensures n > 0 && size <= n * CLUSTER
  {
    if size == 0 then 1 else (size + CLUSTER - 1) / CLUSTER
  }

  /** The same two bytes in both tables. */
  function SetBoth(s: Bytes, c: nat, v: nat): (r: Bytes)
    requires |s| == TOTAL && c < END && v <= END
    ensures |r| == TOTAL
  {
    Patch(Patch(s, FAT1 + 2 * c, Two(v)), FAT2 + 2 * c, Two(v))
  }

  /** The chain from start, up to i of its n clusters. */
  function Chain(s: Bytes, start: nat, n: nat, i: nat): (r: Bytes)
    requires |s| == TOTAL && i <= n && start + n <= LAST_CLUSTER + 1
    ensures |r| == TOTAL
    decreases i
  {
    if i == 0 then s
    else SetBoth(Chain(s, start, n, i - 1), start + i - 1, if i == n then END else start + i)
  }

  predicate CopiesAgree(s: Bytes)
    requires |s| == TOTAL
  {
    s[FAT1..FAT1 + FAT_SIZE] == s[FAT2..FAT2 + FAT_SIZE]
  }

  // ---- effects of writes -------------------------------------------------------

  lemma SetBothGet(s: Bytes, c: nat, v: nat, d: nat)
    requires |s| == TOTAL && c < FAT_SIZE / 2 && d < FAT_SIZE / 2 && v <= END
    ensures Get(SetBoth(s, c, v), FAT1, d) == if d == c then v else Get(s, FAT1, d)
    ensures Get(SetBoth(s, c, v), FAT2, d) == if d == c then v else Get(s, FAT2, d)
  {
    hide Patch, Two, Word2;
    var m := Patch(s, FAT1 + 2 * c, Two(v));
    var r := Patch(m, FAT2 + 2 * c, Two(v));
    PatchInside(s, FAT1 + 2 * c, Two(v));
    PatchInside(m, FAT2 + 2 * c, Two(v));
    PatchOutside(m, FAT2 + 2 * c, Two(v), FAT1 + 2 * d, FAT1 + 2 * d + 2);
    PatchOutside(s, FAT1 + 2 * c, Two(v), FAT2 + 2 * d, FAT2 + 2 * d + 2);
    if d == c {
      ReadTwo(r, FAT1 + 2 * c, v);
      ReadTwo(r, FAT2 + 2 * c, v);
    } else {
      PatchOutside(s, FAT1 + 2 * c, Two(v), FAT1 + 2 * d, FAT1 + 2 * d + 2);
      PatchOutside(m, FAT2 + 2 * c, Two(v), FAT2 + 2 * d, FAT2 + 2 * d + 2);
      SameTwo(s, r, FAT1 + 2 * d);
      SameTwo(s, r, FAT2 + 2 * d);
    }
  }

  /** Inside the tables, the copies stay equal and nothing else is touched. */
  lemma SetBothCopies(s: Bytes, c: nat, v: nat)
    requires |s| == TOTAL && c < FAT_SIZE / 2 && v <= END && CopiesAgree(s)
    ensures CopiesAgree(SetBoth(s, c, v))
    ensures SetBoth(s, c, v)[ROOT..] == s[ROOT..]
  {
    hide Patch, Two;
    var m := Patch(s, FAT1 + 2 * c, Two(v));
    var r := Patch(m, FAT2 + 2 * c, Two(v));
    PatchOutside(s, FAT1 + 2 * c, Two(v), ROOT, TOTAL);
    PatchOutside(m, FAT2 + 2 * c, Two(v), ROOT, TOTAL);
    assert r[ROOT..] == r[ROOT..TOTAL] && s[ROOT..] == s[ROOT..TOTAL];
    var a, b := r[FAT1..FAT1 + FAT_SIZE], r[FAT2..FAT2 + FAT_SIZE];
    forall i | 0 <= i < FAT_SIZE ensures a[i] == b[i] {
      PatchAt(m, FAT2 + 2 * c, Two(v), FAT1 + i);
      PatchAt(m, FAT2 + 2 * c, Two(v), FAT2 + i);
      PatchAt(s, FAT1 + 2 * c, Two(v), FAT1 + i);
      PatchAt(s, FAT1 + 2 * c, Two(v), FAT2 + i);
      assert s[FAT1..FAT1 + FAT_SIZE][i] == s[FAT2..FAT2 + FAT_SIZE][i];
    }
  }

  lemma {:induction false} ChainGet(s: Bytes, start: nat, n: nat, i: nat, d: nat)
    requires |s| == TOTAL && i <= n && start + n <= LAST_CLUSTER + 1 && d < FAT_SIZE / 2
    ensures Get(Chain(s, start, n, i), FAT1, d)
         == if start <= d < start + i then (if d == start + n - 1 then END else d + 1) else Get(s, FAT1, d)
    decreases i
  {
    hide SetBoth, Get;
    if i > 0 {
      ChainGet(s, start, n, i - 1, d);
      SetBothGet(Chain(s, start, n, i - 1), start + i - 1, if i == n then END else start + i, d);
    }
  }

  lemma {:induction false} ChainCopies(s: Bytes, start: nat, n: nat, i: nat)
    requires |s| == TOTAL && i <= n && start + n <= LAST_CLUSTER + 1 && CopiesAgree(s)
    ensures CopiesAgree(Chain(s, start, n, i)) && Chain(s, start, n, i)[ROOT..] == s[ROOT..]
    decreases i
  {
    hide SetBoth, CopiesAgree;
    if i > 0 {
      ChainCopies(s, start, n, i - 1);
      SetBothCopies(Chain(s, start, n, i - 1), start + i - 1, if i == n then END else start + i);
    }
  }

  // ---- files on the partition ----------------------------------------------------

  datatype File = File(start: nat, data: Bytes)

  function LastOf(f: File): nat {
    f.start + ClustersOf(|f.data|) - 1
  }

  /** A file of a given size, following its chain to the end mark. */
  function ReadFile(s: Bytes, c: nat, size: nat): Option<Bytes>
    requires |s| == TOTAL
    decreases size
  {
    if c < 2 || c > LAST_CLUSTER then None
    else if size <= CLUSTER then
      if Get(s, FAT1, c) >= 0xFFF8 then Some(s[At(c)..At(c) + size]) else None
    else
      var rest := ReadFile(s, Get(s, FAT1, c), size - CLUSTER);
      if rest.None? then None else Some(s[At(c)..At(c) + CLUSTER] + rest.value)
  }

  /** Its clusters are chained to the end mark, and hold its bytes. */
  ghost predicate Holds(s: Bytes, f: File)
    requires |s| == TOTAL
  {
    && 2 <= f.start && LastOf(f) <= LAST_CLUSTER
    && (forall c :: f.start <= c <= LastOf(f) ==> Get(s, FAT1, c) == if c == LastOf(f) then END else c + 1)
    && At(f.start) + |f.data| <= TOTAL && s[At(f.start)..At(f.start) + |f.data|] == f.data
  }

  lemma {:induction false} TailReads(s: Bytes, f: File, c: nat, size: nat)
    requires |s| == TOTAL && Holds(s, f) && f.start <= c <= LastOf(f)
    requires size + (c - f.start) * CLUSTER == |f.data|
    ensures At(c) + size <= TOTAL && ReadFile(s, c, size) == Some(s[At(c)..At(c) + size])
    decreases size
  {
    hide Get;
    if size > CLUSTER {
      assert c < LastOf(f);
      TailReads(s, f, c + 1, size - CLUSTER);
      assert s[At(c)..At(c) + CLUSTER] + s[At(c) + CLUSTER..At(c) + size] == s[At(c)..At(c) + size];
    } else {
      assert c == LastOf(f);
    }
  }

  /** Reading it back gives the file. */
  lemma FileReads(s: Bytes, f: File)
    requires |s| == TOTAL && Holds(s, f)
    ensures ReadFile(s, f.start, |f.data|) == Some(f.data)
  {
    TailReads(s, f, f.start, |f.data|);
  }

  /** Files are kept by changes to other entries and other clusters. */
  lemma HoldsElsewhere(s: Bytes, r: Bytes, f: File)
    requires |s| == |r| == TOTAL && Holds(s, f)
    requires forall c :: f.start <= c <= LastOf(f) ==> Get(r, FAT1, c) == Get(s, FAT1, c)
    requires r[At(f.start)..At(f.start) + |f.data|] == s[At(f.start)..At(f.start) + |f.data|]
    ensures Holds(r, f)
  {}

  /** Chains of different files have no cluster in common. */
  ghost predicate Disjoint(files: seq<File>) {
    forall i, j :: 0 <= i < j < |files| ==> LastOf(files[i]) < files[j].start
  }

  /** What allocation keeps: the copies agree, every file reads back, files lie one behind the other
      and below the next cluster to hand out. */
  ghost predicate Allocated(s: Bytes, files: seq<File>, current: nat)
    requires |s| == TOTAL
  {
    && CopiesAgree(s) && Disjoint(files) && 2 <= current
    && forall f <- files :: Holds(s, f) && LastOf(f) < current
  }

  function WithFile(s: Bytes, f: File): (r: Bytes)
    requires |s| == TOTAL && 2 <= f.start && LastOf(f) <= LAST_CLUSTER
    ensures |r| == TOTAL
  {
    var n := ClustersOf(|f.data|);
    assert At(f.start) + |f.data| <= TOTAL;
    Chain(Patch(s, At(f.start), f.data), f.start, n, n)
  }

  /** Writing a file at the next cluster keeps all earlier files and adds this one. */
  lemma WithFileKeeps(s: Bytes, files: seq<File>, current: nat, data: Bytes)
    requires |s| == TOTAL && Allocated(s, files, current) && LastOf(File(current, data)) <= LAST_CLUSTER
    ensures Allocated(WithFile(s, File(current, data)), files + [File(current, data)], current + ClustersOf(|data|))
  {
    hide Get, Patch, Chain, CopiesAgree, ClustersOf, Holds;
    var f := File(current, data);
    var n := ClustersOf(|data|);
    var m := Patch(s, At(current), data);
    var r := WithFile(s, f);
    PatchCopies(s, At(current), data);
    ChainCopies(m, current, n, n);
    NewFileHolds(s, f);
    forall g | g in files ensures Holds(r, g) && LastOf(g) < current {
      EarlierFileHolds(s, f, g);
    }
    assert forall g <- files + [f] :: g in files || g == f;
  }

  lemma PatchCopies(s: Bytes, off: nat, data: Bytes)
    requires |s| == TOTAL && CopiesAgree(s) && ROOT <= off && off + |data| <= TOTAL
    ensures CopiesAgree(Patch(s, off, data))
  {
    PatchOutside(s, off, data, FAT1, FAT1 + FAT_SIZE);
    PatchOutside(s, off, data, FAT2, FAT2 + FAT_SIZE);
  }

  lemma DataBelowTables(r: Bytes, m: Bytes, lo: nat, hi: nat)
    requires |r| == |m| == TOTAL && r[ROOT..] == m[ROOT..] && ROOT <= lo <= hi <= TOTAL
    ensures r[lo..hi] == m[lo..hi]
  {
    SubSlice(r, ROOT, TOTAL, lo, hi);
    SubSlice(m, ROOT, TOTAL, lo, hi);
    assert r[ROOT..TOTAL] == r[ROOT..] && m[ROOT..TOTAL] == m[ROOT..];
  }

  lemma {:induction false} ChainData(s: Bytes, start: nat, n: nat, i: nat)
    requires |s| == TOTAL && i <= n && start + n <= LAST_CLUSTER + 1
    ensures Chain(s, start, n, i)[ROOT..] == s[ROOT..]
    decreases i
  {
    hide SetBoth;
    if i > 0 {
      ChainData(s, start, n, i - 1);
      SetBothData(Chain(s, start, n, i - 1), start + i - 1, if i == n then END else start + i);
    }
  }

  lemma SetBothData(s: Bytes, c: nat, v: nat)
    requires |s| == TOTAL && c < FAT_SIZE / 2 && v <= END
    ensures SetBoth(s, c, v)[ROOT..] == s[ROOT..]
  {
    hide Patch, Two;
    var m := Patch(s, FAT1 + 2 * c, Two(v));
    PatchOutside(s, FAT1 + 2 * c, Two(v), ROOT, TOTAL);
    PatchOutside(m, FAT2 + 2 * c, Two(v), ROOT, TOTAL);
    var r := Patch(m, FAT2 + 2 * c, Two(v));
    assert r[ROOT..] == r[ROOT..TOTAL] && s[ROOT..] == s[ROOT..TOTAL];
  }

  lemma NewFileHolds(s: Bytes, f: File)
    requires |s| == TOTAL && 2 <= f.start && LastOf(f) <= LAST_CLUSTER
    ensures Holds(WithFile(s, f), f)
  {
    hide Get, Patch, Chain;
    var n := ClustersOf(|f.data|);
    var m := Patch(s, At(f.start), f.data);
    var r := WithFile(s, f);
    forall c | f.start <= c <= LastOf(f) ensures Get(r, FAT1, c) == if c == LastOf(f) then END else c + 1 {
      ChainGet(m, f.start, n, n, c);
    }
    ChainData(m, f.start, n, n);
    PatchInside(s, At(f.start), f.data);
    DataBelowTables(r, m, At(f.start), At(f.start) + |f.data|);
  }

  lemma EarlierFileHolds(s: Bytes, f: File, g: File)
    requires |s| == TOTAL && 2 <= f.start && LastOf(f) <= LAST_CLUSTER && Holds(s, g) && LastOf(g) < f.start
    ensures Holds(WithFile(s, f), g)
  {
    hide Get, Patch, Chain;
    var n := ClustersOf(|f.data|);
    var m := Patch(s, At(f.start), f.data);
    var r := WithFile(s, f);
    forall c | g.start <= c <= LastOf(g) ensures Get(r, FAT1, c) == Get(s, FAT1, c) {
      ChainGet(m, f.start, n, n, c);
      PatchOutside(s, At(f.start), f.data, FAT1 + 2 * c, FAT1 + 2 * c + 2);
      GetSame(s, m, c);
    }
    ChainData(m, f.start, n, n);
    assert At(g.start) + |g.data| <= At(f.start) by { assert |g.data| <= ClustersOf(|g.data|) * CLUSTER; }
    PatchOutside(s, At(f.start), f.data, At(g.start), At(g.start) + |g.data|);
    DataBelowTables(r, m, At(g.start), At(g.start) + |g.data|);
    HoldsElsewhere(s, r, g);
  }

  lemma GetSame(s: Bytes, m: Bytes, c: nat)
    requires |s| == |m| == TOTAL && c < FAT_SIZE / 2 && m[FAT1 + 2 * c..FAT1 + 2 * c + 2] == s[FAT1 + 2 * c..FAT1 + 2 * c + 2]
    ensures Get(m, FAT1, c) == Get(s, FAT1, c)
  {
    SameTwo(s, m, FAT1 + 2 * c);
  }
}
