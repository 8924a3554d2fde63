/** 12-bit entries of a file allocation table, two of them in three bytes. */
module Fat12 {
  import opened DiskBytes

  const END := 0xFFF

  /** Where the two bytes of an entry are. */
  function EntryOffset(cluster: nat): nat {
    cluster * 3 / 2
  }

  /** The entry as a reader takes it out: a low byte and nibble, or a nibble and a high byte. */
  function EntryValue(low: Byte, high: Byte, even: bool): (r: nat)
    ensures r <= END
  {
    if even then low as nat + 256 * ((high as nat) % 16) else (low as nat) / 16 + 16 * (high as nat)
  }

  function Get(fat: Bytes, base: nat, cluster: nat): (r: nat)
    requires base + EntryOffset(cluster) + 2 <= |fat|
    ensures r <= END
  {
    var o := base + EntryOffset(cluster);
    EntryValue(fat[o], fat[o + 1], cluster % 2 == 0)
  }

  /** The two bytes after the write. */
  function EntryBytes(low: Byte, high: Byte, even: bool, val: nat): (r: Bytes)
    requires val <= END
    ensures |r| == 2
  {
    if even then [val % 256, high / 16 * 16 + val / 256 % 16]
    else [low % 16 + val % 16 * 16, val / 16 % 256]
  }

  function Set(fat: Bytes, base: nat, cluster: nat, val: nat): (r: Bytes)
    requires base + EntryOffset(cluster) + 2 <= |fat| && val <= END
    ensures |r| == |fat|
  {
    var o := base + EntryOffset(cluster);
    Patch(fat, o, EntryBytes(fat[o], fat[o + 1], cluster % 2 == 0, val))
  }

  method SetFat12(fat: array<Byte>, base: nat, cluster: nat, val: nat)
    requires base + EntryOffset(cluster) + 2 <= fat.Length && val <= END
    modifies fat
    ensures fat[..] == Set(old(fat[..]), base, cluster, val)
  {
    var entryOffset := base + cluster * 3 / 2;
    ghost var before := fat[..];
    if cluster % 2 == 0 {
      fat[entryOffset] := val % 256;
      fat[entryOffset + 1] := fat[entryOffset + 1] / 16 * 16 + val / 256 % 16;
    } else {
      fat[entryOffset] := fat[entryOffset] % 16 + val % 16 * 16;
      fat[entryOffset + 1] := val / 16 % 256;
    }
    assert fat[..] == Set(before, base, cluster, val);
  }

  lemma PackingEven(low: Byte, high: Byte, val: nat)
    requires val <= END
    ensures var e := EntryBytes(low, high, true, val);
            EntryValue(e[0], e[1], true) == val && (e[1] as nat) / 16 == (high as nat) / 16
  {
    var h: nat := high as nat;
    var v := val / 256;
    assert v < 16 && h == h / 16 * 16 + h % 16;
    assert (h / 16 * 16 + v) / 16 == h / 16 && (h / 16 * 16 + v) % 16 == v;
  }

  lemma PackingOdd(low: Byte, high: Byte, val: nat)
    requires val <= END
    ensures var e := EntryBytes(low, high, false, val);
            EntryValue(e[0], e[1], false) == val && (e[0] as nat) % 16 == (low as nat) % 16
  {
    var l: nat := low as nat;
    assert (l % 16 + val % 16 * 16) / 16 == val % 16 && (l % 16 + val % 16 * 16) % 16 == l % 16;
  }

  /** Reading an entry after the write gives the value written. */
  lemma GetSet(fat: Bytes, base: nat, cluster: nat, val: nat)
    requires base + EntryOffset(cluster) + 2 <= |fat| && val <= END
    ensures Get(Set(fat, base, cluster, val), base, cluster) == val
  {
    hide EntryBytes, EntryValue, Patch, EntryOffset;
    var o := base + EntryOffset(cluster);
    PackingEven(fat[o], fat[o + 1], val);
    PackingOdd(fat[o], fat[o + 1], val);
    var b := EntryBytes(fat[o], fat[o + 1], cluster % 2 == 0, val);
    PatchAt(fat, o, b, o);
    PatchAt(fat, o, b, o + 1);
  }

  lemma OffsetIs(c: nat)
    ensures EntryOffset(c) == c / 2 * 3 + c % 2
  {
    assert c == c / 2 * 2 + c % 2;
    assert c * 3 == c / 2 * 3 * 2 + c % 2 * 3;
  }

  /** Two entries share at most one byte, the last of an even one and the first of the next. */
  lemma Overlap(c: nat, d: nat)
    requires c != d
    ensures var o, p := EntryOffset(c), EntryOffset(d);
            o + 2 <= p || p + 2 <= o || (p == o + 1 && c % 2 == 0 && d % 2 == 1) || (o == p + 1 && d % 2 == 0 && c % 2 == 1)
  {
    hide EntryOffset;
    OffsetIs(c);
    OffsetIs(d);
  }

  /** Every other entry is as before, also the one that shares a byte. */
  lemma GetSetOther(fat: Bytes, base: nat, cluster: nat, val: nat, other: nat)
    requires base + EntryOffset(cluster) + 2 <= |fat| && base + EntryOffset(other) + 2 <= |fat| && val <= END && other != cluster
    ensures Get(Set(fat, base, cluster, val), base, other) == Get(fat, base, other)
  {
    hide EntryBytes, Patch, EntryOffset;
    var o, p := base + EntryOffset(cluster), base + EntryOffset(other);
    Overlap(cluster, other);
    PackingEven(fat[o], fat[o + 1], val);
    PackingOdd(fat[o], fat[o + 1], val);
    var b := EntryBytes(fat[o], fat[o + 1], cluster % 2 == 0, val);
    PatchAt(fat, o, b, p);
    PatchAt(fat, o, b, p + 1);
  }

  /** Entries of another table, or any other range, are not touched. */
  lemma SetOutside(fat: Bytes, base: nat, cluster: nat, val: nat, lo: nat, hi: nat)
    requires base + EntryOffset(cluster) + 2 <= |fat| && val <= END && lo <= hi <= |fat|
    requires hi <= base + EntryOffset(cluster) || base + EntryOffset(cluster) + 2 <= lo
    ensures Set(fat, base, cluster, val)[lo..hi] == fat[lo..hi]
  {
    var o := base + EntryOffset(cluster);
    PatchOutside(fat, o, EntryBytes(fat[o], fat[o + 1], cluster % 2 == 0, val), lo, hi);
  }

  /** Reading depends on the bytes of the table only. */
  lemma GetSlice(fat: Bytes, base: nat, len: nat, cluster: nat)
    requires base + len <= |fat| && EntryOffset(cluster) + 2 <= len
    ensures Get(fat, base, cluster) == Get(fat[base..base + len], 0, cluster)
  {}

  lemma SetSlice(fat: Bytes, base: nat, len: nat, cluster: nat, val: nat)
    requires base + len <= |fat| && EntryOffset(cluster) + 2 <= len && val <= END
    ensures Set(fat, base, cluster, val)[base..base + len] == Set(fat[base..base + len], 0, cluster, val)
  {
    hide EntryBytes, EntryOffset;
    var table := fat[base..base + len];
    var o := EntryOffset(cluster);
    var b := EntryBytes(fat[base + o], fat[base + o + 1], cluster % 2 == 0, val);
    var r := Patch(fat, base + o, b)[base..base + len];
    forall i | 0 <= i < len ensures r[i] == Patch(table, o, b)[i] {
      PatchAt(fat, base + o, b, base + i);
      PatchAt(table, o, b, i);
    }
  }
}
