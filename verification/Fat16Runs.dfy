/** Any sequence of writes, directories and reservations on the FAT16 partition. */
module Fat16Runs {
  import opened Options
  import opened DiskBytes
  import opened Fat16Esp
  import opened Fat16Builder

  datatype Op = Put(data: Bytes) | Directory | Reserve(lba: int)

  type Image = s: Bytes | |s| == TOTAL witness Zeros(TOTAL)

  /** The disk, and what has been handed out below the next cluster. */
  datatype State = State(disk: Image, files: seq<File>, dirs: seq<nat>, current: nat)

  /** What comes behind the last cluster of the data area: room for directories in the table only. */
  const SPARE := FAT_SIZE / 2 - (LAST_CLUSTER + 1)

  function Directories(ops: seq<Op>): nat {
    if ops == [] then 0 else (if ops[0].Directory? then 1 else 0) + Directories(ops[1..])
  }

  /** Sectors lie on the disk, and the table has room for the directories. */
  ghost predicate InRange(st: State, ops: seq<Op>) {
    && 2 <= st.current && (forall op <- ops :: op.Reserve? ==> op.lba < TOTAL / 512)
    && (if st.current <= LAST_CLUSTER + 1 then LAST_CLUSTER + 1 else st.current) + Directories(ops) <= FAT_SIZE / 2
  }

  /** One call; one that is refused leaves everything as it was. */
  function Step(st: State, op: Op): State
    requires 2 <= st.current && (op.Directory? ==> st.current < FAT_SIZE / 2)
  {
    match op
    case Put(data) =>
      var f := File(st.current, data);
      if LastOf(f) > LAST_CLUSTER then st
      else State(WithFile(st.disk, f), st.files + [f], st.dirs, st.current + ClustersOf(|data|))
    case Directory => State(SetBoth(st.disk, st.current, END), st.files, st.dirs + [st.current], st.current + 1)
    case Reserve(lba) => if Refused(lba).Some? then st else st.(disk := Reserved(st.disk, lba))
  }

  function Run(st: State, ops: seq<Op>): State
    requires InRange(st, ops)
    decreases |ops|
  {
    if ops == [] then st
    else
      StaysInRange(st, ops);
      Run(Step(st, ops[0]), ops[1..])
  }

  lemma StaysInRange(st: State, ops: seq<Op>)
    requires InRange(st, ops) && ops != []
    ensures ops[0].Directory? ==> st.current < FAT_SIZE / 2
    ensures InRange(Step(st, ops[0]), ops[1..])
  {
    hide WithFile, SetBoth, Reserved;
    assert forall op <- ops[1..] :: op in ops;
  }

  // ---- what every call keeps ---------------------------------------------------------

  predicate InFile(f: File, c: int) {
    f.start <= c <= LastOf(f)
  }

  /** A cluster belongs to a file or is a directory. */
  ghost predicate IsTaken(st: State, c: int) {
    c in st.dirs || exists f <- st.files :: InFile(f, c)
  }

  /** Files read back and do not overlap; directories are chains of one cluster in no file; together
      they take every cluster below the next one, and none from there on. */
  ghost predicate Consistent(st: State) {
    && Allocated(st.disk, st.files, st.current)
    && (forall d <- st.dirs :: d < FAT_SIZE / 2 && Get(st.disk, FAT1, d) == END)
    && (forall d <- st.dirs, f <- st.files :: !InFile(f, d))
    && (forall i, j :: 0 <= i < j < |st.dirs| ==> st.dirs[i] != st.dirs[j])
    && (forall c :: IsTaken(st, c) <==> 2 <= c < st.current)
  }

  /** Entries in use stay in use. */
  ghost predicate KeepsUsed(s: Image, r: Image) {
    forall d: nat :: d < FAT_SIZE / 2 && Get(s, FAT1, d) != 0 ==> Get(r, FAT1, d) != 0
  }

  ghost predicate IsStored(st: State, data: Bytes) {
    exists f <- st.files :: f.data == data
  }

  /** After any sequence of calls: all files ever accepted read back, the directories and the sectors
      reserved are marked, the two tables are equal, and nothing was handed out twice. Only what does
      not fit has been refused. */
  lemma {:induction false} RunKeeps(st: State, ops: seq<Op>)
    requires Consistent(st) && InRange(st, ops)
    ensures var r := Run(st, ops);
            && Consistent(r) && KeepsUsed(st.disk, r.disk) && st.files <= r.files && st.dirs <= r.dirs
            && (forall f <- r.files :: ReadFile(r.disk, f.start, |f.data|) == Some(f.data))
            && (forall op <- ops :: op.Reserve? && Refused(op.lba).None? ==> Get(r.disk, FAT1, ClusterOfLba(op.lba)) != 0)
            && st.current <= r.current
            && (forall op <- ops :: op.Put? && LastOf(File(r.current, op.data)) <= LAST_CLUSTER ==> IsStored(r, op.data))
    decreases |ops|
  {
    hide Consistent, Step, Get, ClustersOf;
    var r := Run(st, ops);
    if ops != [] {
      StaysInRange(st, ops);
      var next := Step(st, ops[0]);
      assert ops[0] in ops;
      StepKeeps(st, ops[0]);
      RunKeeps(next, ops[1..]);
      assert forall op <- ops :: op == ops[0] || op in ops[1..];
      if ops[0].Put? && IsStored(next, ops[0].data) {
        StaysStored(next, r, ops[0].data);
      }
    }
    AllRead(r);
  }

  lemma StaysStored(st: State, r: State, data: Bytes)
    requires IsStored(st, data) && st.files <= r.files
    ensures IsStored(r, data)
  {
    var f :| f in st.files && f.data == data;
    assert f in r.files;
  }

  lemma AllRead(st: State)
    requires Consistent(st)
    ensures forall f <- st.files :: ReadFile(st.disk, f.start, |f.data|) == Some(f.data)
  {
    hide Holds, ReadFile;
    forall f | f in st.files ensures ReadFile(st.disk, f.start, |f.data|) == Some(f.data) {
      FileReads(st.disk, f);
    }
  }

  lemma StepKeeps(st: State, op: Op)
    requires Consistent(st) && (op.Directory? ==> st.current < FAT_SIZE / 2) && (op.Reserve? ==> op.lba < TOTAL / 512)
    ensures var r := Step(st, op);
            && Consistent(r) && KeepsUsed(st.disk, r.disk) && st.files <= r.files && st.dirs <= r.dirs
            && (op.Reserve? && Refused(op.lba).None? ==> Get(r.disk, FAT1, ClusterOfLba(op.lba)) != 0)
            && st.current <= r.current
            && (op.Put? && LastOf(File(st.current, op.data)) <= LAST_CLUSTER ==> IsStored(r, op.data))
  {
    hide Consistent, Get, WithFile, SetBoth, Reserved, KeepsUsed, ClustersOf;
    Sane(st);
    match op
    case Put(data) =>
      if LastOf(File(st.current, data)) <= LAST_CLUSTER {
        PutKeeps(st, data);
        assert File(st.current, data) in Step(st, op).files;
      } else {
        assert KeepsUsed(st.disk, st.disk) by { UsedItself(st.disk); }
      }
    case Directory => AddDirectory(st);
    case Reserve(lba) =>
      if Refused(lba).None? {
        ReserveKeeps(st, lba);
      } else {
        UsedItself(st.disk);
      }
  }

  lemma Sane(st: State)
    requires Consistent(st)
    ensures 2 <= st.current
  {}

  lemma UsedItself(s: Image)
    ensures KeepsUsed(s, s)
  {}

  lemma PutKeeps(st: State, data: Bytes)
    requires Consistent(st) && LastOf(File(st.current, data)) <= LAST_CLUSTER
    ensures 2 <= st.current
    ensures var f := File(st.current, data);
            && Consistent(State(WithFile(st.disk, f), st.files + [f], st.dirs, st.current + ClustersOf(|data|)))
            && KeepsUsed(st.disk, WithFile(st.disk, f))
  {
    hide Get, WithFile, ClustersOf, Allocated;
    assert 2 <= st.current by { Sane(st); }
    var f := File(st.current, data);
    var r := State(WithFile(st.disk, f), st.files + [f], st.dirs, st.current + ClustersOf(|data|));
    WithFileKeeps(st.disk, st.files, st.current, data);
    forall d: nat | d < FAT_SIZE / 2
      ensures Get(r.disk, FAT1, d) == if InFile(f, d) then (if d == LastOf(f) then END else d + 1) else Get(st.disk, FAT1, d)
    {
      WithFileGet(st.disk, f, d);
    }
    forall d | d in r.dirs ensures d < st.current {
      assert IsTaken(st, d);
    }
    forall c ensures IsTaken(r, c) <==> IsTaken(st, c) || InFile(f, c) {
      TakenMore(st, r, f, c);
    }
  }

  lemma TakenMore(st: State, r: State, f: File, c: int)
    requires r.files == st.files + [f] && r.dirs == st.dirs
    ensures IsTaken(r, c) <==> IsTaken(st, c) || InFile(f, c)
  {
    hide InFile;
    assert forall g :: g in r.files <==> g in st.files || g == f;
  }

  lemma WithFileGet(s: Image, f: File, d: nat)
    requires 2 <= f.start && LastOf(f) <= LAST_CLUSTER && d < FAT_SIZE / 2
    ensures Get(WithFile(s, f), FAT1, d) == if InFile(f, d) then (if d == LastOf(f) then END else d + 1) else Get(s, FAT1, d)
  {
    hide Get, Patch, Chain;
    var n := ClustersOf(|f.data|);
    FileFits(f.start, |f.data|);
    var m := Patch(s, At(f.start), f.data);
    ChainGet(m, f.start, n, n, d);
    PatchOutside(s, At(f.start), f.data, FAT1 + 2 * d, FAT1 + 2 * d + 2);
    GetSame(s, m, d);
  }

  lemma AddDirectory(st: State)
    requires Consistent(st) && st.current < FAT_SIZE / 2
    ensures Consistent(State(SetBoth(st.disk, st.current, END), st.files, st.dirs + [st.current], st.current + 1))
    ensures KeepsUsed(st.disk, SetBoth(st.disk, st.current, END))
  {
    hide Get, SetBoth, Allocated, InFile;
    var d0 := st.current;
    var r := State(SetBoth(st.disk, d0, END), st.files, st.dirs + [d0], d0 + 1);
    Sane(st);
    DirectoryKeeps(st.disk, st.files, d0);
    forall d: nat | d < FAT_SIZE / 2 ensures Get(r.disk, FAT1, d) == if d == d0 then END else Get(st.disk, FAT1, d) {
      SetBothGet(st.disk, d0, END, d);
    }
    assert !IsTaken(st, d0);
    forall d | d in st.dirs ensures d != d0 {
      assert IsTaken(st, d);
    }
    assert forall d :: d in r.dirs <==> d in st.dirs || d == d0;
    assert forall c :: IsTaken(r, c) <==> IsTaken(st, c) || c == d0;
    forall i, j | 0 <= i < j < |r.dirs| ensures r.dirs[i] != r.dirs[j] {
      assert r.dirs[i] == st.dirs[i] && st.dirs[i] in st.dirs;
    }
  }

  lemma ReserveKeeps(st: State, lba: int)
    requires Consistent(st) && Refused(lba).None? && lba < TOTAL / 512
    ensures Consistent(st.(disk := Reserved(st.disk, lba))) && KeepsUsed(st.disk, Reserved(st.disk, lba))
    ensures Get(Reserved(st.disk, lba), FAT1, ClusterOfLba(lba)) != 0
  {
    hide Get, Reserved, Allocated, InFile;
    var r := st.(disk := Reserved(st.disk, lba));
    OnDisk(lba);
    ReservedKeeps(st.disk, lba, st.files, st.current);
    assert forall c :: IsTaken(r, c) <==> IsTaken(st, c);
  }

  lemma OnDisk(lba: int)
    requires Refused(lba).None? && lba < TOTAL / 512
    ensures ClusterOfLba(lba) < FAT_SIZE / 2
  {
    DiskSectorsAreInTable(lba);
  }

  // ---- raw records ---------------------------------------------------------------------

  const INSTALL_RECORD_LBA := 8192
  const PERSISTENT_STORE_LBA := 8193

  /** A record that is written to a reserved sector spoils a file or directory if and only if its
      cluster had been handed out: the reservation says nothing of it. */
  lemma RecordIsApart(st: State, lba: int)
    requires Consistent(st) && Refused(lba).None?
    ensures IsTaken(st, ClusterOfLba(lba)) <==> ClusterOfLba(lba) < st.current
  {
    hide Allocated, Get;
  }

  /** The disk builder's two records are apart exactly as long as files and directories take no more
      than 1463 clusters, just under 3 MB. */
  lemma RecordsOfTheDisk(st: State)
    requires Consistent(st)
    ensures Refused(INSTALL_RECORD_LBA).None? && Refused(PERSISTENT_STORE_LBA).None?
    ensures !IsTaken(st, ClusterOfLba(INSTALL_RECORD_LBA)) && !IsTaken(st, ClusterOfLba(PERSISTENT_STORE_LBA)) <==> st.current - 2 <= 1463
  {
    hide Consistent;
    RecordIsApart(st, INSTALL_RECORD_LBA);
    RecordIsApart(st, PERSISTENT_STORE_LBA);
  }

  /** The empty partition to start from. */
  function Formatted(): State {
    State(SetBoth(SetBoth(Zeros(TOTAL), 0, 0xFFF8), 1, 0xFFFF), [], [], 2)
  }

  lemma FormattedIsConsistent()
    ensures Consistent(Formatted())
  {
    hide SetBoth, Allocated;
    Fat16Builder.Formatted();
  }
}
