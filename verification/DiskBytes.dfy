/** Bytes, little-endian numbers and writes into a buffer, shared by the disk image builders. */
module DiskBytes {

  type Byte = b: int | 0 <= b < 256

  type Bytes = seq<Byte>

  function Zeros(n: nat): (r: Bytes)
    ensures |r| == n && forall i :: 0 <= i < n ==> r[i] == 0
  {
    seq(n, i => 0)
  }

  /** The buffer with some bytes written over. */
  function Patch(s: Bytes, off: nat, b: Bytes): (r: Bytes)
    requires off + |b| <= |s|
    ensures |r| == |s|
  {
    s[..off] + b + s[off + |b|..]
  }

  lemma PatchInside(s: Bytes, off: nat, b: Bytes)
    requires off + |b| <= |s|
    ensures Patch(s, off, b)[off..off + |b|] == b
  {}

  /** What is written elsewhere leaves a range as it was. */
  lemma PatchOutside(s: Bytes, off: nat, b: Bytes, lo: nat, hi: nat)
    requires off + |b| <= |s| && lo <= hi <= |s| && (hi <= off || off + |b| <= lo)
    ensures Patch(s, off, b)[lo..hi] == s[lo..hi]
  {}

  lemma PatchAt(s: Bytes, off: nat, b: Bytes, i: nat)
    requires off + |b| <= |s| && i < |s|
    ensures Patch(s, off, b)[i] == if off <= i < off + |b| then b[i - off] else s[i]
  {}

  /** A slice of a slice. */
  lemma SubSlice(s: Bytes, a: nat, b: nat, lo: nat, hi: nat)
    requires a <= lo <= hi <= b <= |s|
    ensures s[a..b][lo - a..hi - a] == s[lo..hi]
  {
    var inner, outer := s[a..b][lo - a..hi - a], s[lo..hi];
    assert |inner| == |outer| && forall k :: 0 <= k < |inner| ==> inner[k] == outer[k];
  }

  function Two(v: nat): (r: Bytes)
    requires v < 0x1_0000
    ensures |r| == 2
  {
    [v % 256, v / 256]
  }

  function Four(v: nat): (r: Bytes)
    requires v < 0x1_0000_0000
    ensures |r| == 4
  {
    Two(v % 0x1_0000) + Two(v / 0x1_0000)
  }

  function Eight(v: nat): (r: Bytes)
    requires v < 0x1_0000_0000_0000_0000
    ensures |r| == 8
  {
    Four(v % 0x1_0000_0000) + Four(v / 0x1_0000_0000)
  }

  function Word2(s: Bytes, i: nat): (r: nat)
    requires i + 2 <= |s|
    ensures r < 0x1_0000
  {
    s[i] as nat + 256 * (s[i + 1] as nat)
  }

  function Word4(s: Bytes, i: nat): (r: nat)
    requires i + 4 <= |s|
    ensures r < 0x1_0000_0000
  {
    Word2(s, i) + 0x1_0000 * Word2(s, i + 2)
  }

  lemma ReadTwo(s: Bytes, i: nat, v: nat)
    requires i + 2 <= |s| && v < 0x1_0000 && s[i..i + 2] == Two(v)
    ensures Word2(s, i) == v
  {
    assert s[i] == s[i..i + 2][0] && s[i + 1] == s[i..i + 2][1];
  }

  lemma ReadFour(s: Bytes, i: nat, v: nat)
    requires i + 4 <= |s| && v < 0x1_0000_0000 && s[i..i + 4] == Four(v)
    ensures Word4(s, i) == v
  {
    assert s[i..i + 2] == s[i..i + 4][..2] == Two(v % 0x1_0000);
    assert s[i + 2..i + 4] == s[i..i + 4][2..] == Two(v / 0x1_0000);
    ReadTwo(s, i, v % 0x1_0000);
    ReadTwo(s, i + 2, v / 0x1_0000);
  }

  lemma SameByte(r: Bytes, s: Bytes, i: nat)
    requires i < |r| == |s| && r[i..i + 1] == s[i..i + 1]
    ensures r[i] == s[i]
  {
    assert r[i] == r[i..i + 1][0] && s[i] == s[i..i + 1][0];
  }

  /** The same bytes are the same number. */
  lemma SameTwo(s: Bytes, r: Bytes, i: nat)
    requires i + 2 <= |s| == |r| && s[i..i + 2] == r[i..i + 2]
    ensures Word2(s, i) == Word2(r, i)
  {
    assert s[i] == s[i..i + 2][0] && s[i + 1] == s[i..i + 2][1] && r[i] == r[i..i + 2][0] && r[i + 1] == r[i..i + 2][1];
  }

  lemma SameFour(s: Bytes, r: Bytes, i: nat)
    requires i + 4 <= |s| == |r| && s[i..i + 4] == r[i..i + 4]
    ensures Word4(s, i) == Word4(r, i)
  {
    var a, b := s[i..i + 4], r[i..i + 4];
    assert s[i] == a[0] && s[i + 1] == a[1] && s[i + 2] == a[2] && s[i + 3] == a[3];
    assert r[i] == b[0] && r[i + 1] == b[1] && r[i + 2] == b[2] && r[i + 3] == b[3];
  }

  /** An assignment to a slice of the buffer, of the same length. */
  method Write(disk: array<Byte>, off: nat, b: Bytes)
    requires off + |b| <= disk.Length
    modifies disk
    ensures disk[..] == Patch(old(disk[..]), off, b)
  {
    ghost var before := disk[..];
    var i := 0;
    while i < |b|
      invariant 0 <= i <= |b|
      invariant forall k :: 0 <= k < disk.Length ==> disk[k] == if off <= k < off + i then b[k - off] else before[k]
    {
      disk[off + i] := b[i];
      i := i + 1;
    }
  }
}
