/** Translating an address through the final memory map, in wrapping 64-bit arithmetic. */
module UefiTranslate {
  import opened Options
  import opened UefiHandoff

  const PAGE := 4096
  const MAX_OBJECT := 0x7fff_ffff_ffff_ffff   // no C object is larger

  type Byte = b: int | 0 <= b < 256

  /** The fields of an EFI memory descriptor that the translation reads. */
  datatype Descriptor = Descriptor(physical: nat, virtual: nat, pages: nat)

  /** Little-endian value of a byte string. */
  function LittleEndian(bytes: seq<Byte>): nat {
    if bytes == [] then 0 else bytes[0] + 256 * LittleEndian(bytes[1..])
  }

  function Power256(n: nat): nat {
    if n == 0 then 1 else 256 * Power256(n - 1)
  }

  lemma {:induction false} LittleEndianFits(bytes: seq<Byte>)
    ensures LittleEndian(bytes) < Power256(|bytes|)
  {
    if bytes != [] {
      LittleEndianFits(bytes[1..]);
    }
  }

  function Field(entry: seq<Byte>, offset: nat): nat
    requires offset + 8 <= |entry|
    ensures Field(entry, offset) < WORD
  {
    LittleEndianFits(entry[offset..offset + 8]);
    assert Power256(8) == WORD by {
      assert Power256(4) == 0x1_0000_0000;
    }
    LittleEndian(entry[offset..offset + 8])
  }

  function Read(entry: seq<Byte>): Descriptor
    requires |entry| >= 40
  {
    Descriptor(Field(entry, 8), Field(entry, 16), Field(entry, 24))
  }

  /** The descriptors of a memory map, one every `stride` bytes. */
  function Table(bytes: seq<Byte>, stride: nat): seq<Descriptor>
    requires stride >= 40
    ensures forall d <- Table(bytes, stride) :: d.physical < WORD && d.virtual < WORD && d.pages < WORD
  {
    if |bytes| < stride then [] else [Read(bytes)] + Table(bytes[stride..], stride)
  }

  // ---- what it means for a descriptor to cover an address --------------------

  /** The physical range is not empty and ends below 2^64. */
  predicate IsValid(d: Descriptor) {
    d.pages > 0 && d.physical + d.pages * PAGE < WORD
  }

  predicate CoversPhysically(d: Descriptor, address: nat) {
    IsValid(d) && d.physical <= address < d.physical + d.pages * PAGE
  }

  predicate CoversVirtually(d: Descriptor, address: nat) {
    && IsValid(d) && d.virtual != 0 && d.virtual + d.pages * PAGE < WORD
    && d.virtual <= address < d.virtual + d.pages * PAGE
  }

  predicate Covers(d: Descriptor, address: nat) {
    CoversPhysically(d, address) || CoversVirtually(d, address)
  }

  /** Entry i is the first that covers the address. */
  ghost predicate IsFirstCover(table: seq<Descriptor>, address: nat, i: nat) {
    && i < |table| && Covers(table[i], address)
    && forall j :: 0 <= j < i ==> !Covers(table[j], address)
  }

  predicate Rejected(hasMap: bool, stride: nat, size: nat, address: nat) {
    !hasMap || stride < 40 || size < stride || address == 0
  }

  // ---- the wrapping computation ----------------------------------------------

  function Wrap(n: nat): nat {
    n % WORD
  }

  lemma NoWrap(n: nat)
    requires n < WORD
    ensures Wrap(n) == n
  {}

  /** The test on the byte count catches exactly the products that wrap. */
  lemma ProductWraps(pages: nat)
    requires pages < WORD
    ensures Wrap(pages * PAGE) / PAGE == pages <==> pages * PAGE < WORD
  {
    if pages * PAGE >= WORD {
      assert Wrap(pages * PAGE) < WORD;
      assert pages >= WORD / PAGE;
    }
  }

  /** The test on the end of a range catches exactly the empty ranges and those that reach 2^64. */
  lemma SumWraps(start: nat, bytes: nat)
    requires start < WORD && bytes < WORD
    ensures Wrap(start + bytes) <= start <==> bytes == 0 || start + bytes >= WORD
    ensures start + bytes < WORD ==> Wrap(start + bytes) == start + bytes
  {}

  lemma TableStep(bytes: seq<Byte>, stride: nat, offset: nat)
    requires stride >= 40 && offset + stride <= |bytes|
    ensures Table(bytes[offset..], stride) == [Read(bytes[offset..])] + Table(bytes[offset + stride..], stride)
  {
    assert bytes[offset..][stride..] == bytes[offset + stride..];
  }

  /** One descriptor, tested in wrapping arithmetic as the scan does it. */
  function Match(d: Descriptor, address: nat): (r: Option<nat>)
    requires d.physical < WORD && d.virtual < WORD && d.pages < WORD && address < WORD
    ensures r.Some? <==> Covers(d, address)
    ensures r.Some? ==> IsImage(d, address, r.value)
  {
    ProductWraps(d.pages);
    var bytes := Wrap(d.pages * PAGE);
    SumWraps(d.physical, bytes);
    SumWraps(d.virtual, bytes);
    if d.pages == 0 || bytes / PAGE != d.pages || Wrap(d.physical + bytes) <= d.physical then None
    else if d.physical <= address < Wrap(d.physical + bytes) then Some(address)
    else if d.virtual != 0 && Wrap(d.virtual + bytes) > d.virtual && d.virtual <= address < Wrap(d.virtual + bytes)
    then Some(Wrap(d.physical + (address - d.virtual)))
    else None
  }

  /** r is where the descriptor puts the address: in its physical range, at the same offset. A
      physical hit wins over a virtual one. */
  predicate IsImage(d: Descriptor, address: nat, r: nat) {
    && d.physical <= r < d.physical + d.pages * PAGE
    && (if CoversPhysically(d, address) then r == address else r - d.physical == address - d.virtual)
  }

  /** The first match, or 0. */
  function Lookup(table: seq<Descriptor>, address: nat): nat
    requires address < WORD
    requires forall d <- table :: d.physical < WORD && d.virtual < WORD && d.pages < WORD
  {
    if table == [] then 0
    else if Match(table[0], address).Some? then Match(table[0], address).value
    else Lookup(table[1..], address)
  }

  method PhysicalAddress(memory: array?<Byte>, stride: nat, size: nat, address: nat) returns (r: nat)
    requires memory != null ==> size <= memory.Length <= MAX_OBJECT
    requires stride < WORD && size < WORD && address < WORD
    ensures r == if Rejected(memory != null, stride, size, address) then 0 else Lookup(Table(memory[..size], stride), address)
  {
    hide Covers, IsImage, Wrap, Read;
    if memory == null || stride < 40 || size < stride || address == 0 {
      return 0;
    }
    ghost var bytes := memory[..size];
    ghost var answer := Lookup(Table(bytes, stride), address);
    var offset := 0;
    assert bytes[0..] == bytes;
    while Wrap(offset + stride) <= size
      invariant 0 <= offset <= size
      invariant Lookup(Table(bytes[offset..], stride), address) == answer
      decreases size - offset
    {
      NoWrap(offset + stride);
      TableStep(bytes, stride, offset);
      assert bytes[offset..] == memory[offset..size];
      var d := Read(memory[offset..size]);
      offset := offset + stride;
      if d.pages == 0 { continue; }
      var count := Wrap(d.pages * PAGE);
      if count / PAGE != d.pages { continue; }
      var physicalEnd := Wrap(d.physical + count);
      if physicalEnd <= d.physical { continue; }
      if d.physical <= address < physicalEnd {
        return address;
      }
      if d.virtual != 0 {
        var virtualEnd := Wrap(d.virtual + count);
        if virtualEnd > d.virtual && d.virtual <= address < virtualEnd {
          return Wrap(d.physical + (address - d.virtual));
        }
      }
    }
    NoWrap(offset + stride);
    return 0;
  }

  /** A non-zero answer lies in the physical range of the first descriptor covering the address,
      as far from its start as the address is from the start of the range it was found in. Zero
      means that nothing covers the address, or that the first that does has its image at 0. */
  lemma {:induction false} LookupMeaning(table: seq<Descriptor>, address: nat)
    requires address < WORD
    requires forall d <- table :: d.physical < WORD && d.virtual < WORD && d.pages < WORD
    ensures (exists i: nat :: IsFirstCover(table, address, i) && IsImage(table[i], address, Lookup(table, address)))
            || (Lookup(table, address) == 0 && forall d <- table :: !Covers(d, address))
    decreases |table|
  {
    hide Covers, IsImage;
    if table != [] {
      if Match(table[0], address).Some? {
        assert IsFirstCover(table, address, 0);
      } else {
        LookupMeaning(table[1..], address);
        if i: nat :| IsFirstCover(table[1..], address, i) && IsImage(table[1..][i], address, Lookup(table[1..], address)) {
          assert IsFirstCover(table, address, i + 1);
        }
      }
    }
  }

  // ---- descriptors as the firmware writes them --------------------------------------------------

  /** The n low bytes of a number, lowest first. */
  function LittleBytes(v: nat, n: nat): (r: seq<Byte>)
    ensures |r| == n
  {
    if n == 0 then [] else [v % 256] + LittleBytes(v / 256, n - 1)
  }

  lemma {:induction false} BytesRead(v: nat, n: nat)
    requires v < Power256(n)
    ensures LittleEndian(LittleBytes(v, n)) == v
    decreases n
  {
    if n > 0 {
      BytesRead(v / 256, n - 1);
    }
  }

  /** Section 7.2.3 of UEFI 2.10: type and padding, physical start, virtual start, number of pages,
      attribute; what is behind it belongs to newer versions. */
  function Written(kind: nat, d: Descriptor, attribute: nat, more: seq<Byte>): seq<Byte> {
    LittleBytes(kind, 4) + LittleBytes(0, 4) + LittleBytes(d.physical, 8) + LittleBytes(d.virtual, 8) + LittleBytes(d.pages, 8) + LittleBytes(attribute, 8) + more
  }

  lemma WrittenReads(kind: nat, d: Descriptor, attribute: nat, more: seq<Byte>)
    requires d.physical < WORD && d.virtual < WORD && d.pages < WORD
    ensures |Written(kind, d, attribute, more)| == 40 + |more| && Read(Written(kind, d, attribute, more)) == d
  {
    hide LittleBytes, LittleEndian;
    var entry := Written(kind, d, attribute, more);
    assert Power256(8) == WORD by { assert Power256(4) == 0x1_0000_0000; }
    BytesRead(d.physical, 8);
    BytesRead(d.virtual, 8);
    BytesRead(d.pages, 8);
    assert entry[8..16] == LittleBytes(d.physical, 8);
    assert entry[16..24] == LittleBytes(d.virtual, 8);
    assert entry[24..32] == LittleBytes(d.pages, 8);
  }

  /** A memory map of descriptors of one size. */
  function WrittenAll(kind: nat, ds: seq<Descriptor>, attribute: nat, more: seq<Byte>): seq<Byte> {
    if ds == [] then [] else Written(kind, ds[0], attribute, more) + WrittenAll(kind, ds[1..], attribute, more)
  }

  /** The table that is searched holds the descriptors that the firmware wrote, in order. */
  lemma {:induction false} TableReads(kind: nat, ds: seq<Descriptor>, attribute: nat, more: seq<Byte>)
    requires forall d <- ds :: d.physical < WORD && d.virtual < WORD && d.pages < WORD
    ensures Table(WrittenAll(kind, ds, attribute, more), 40 + |more|) == ds
    decreases |ds|
  {
    hide Written, Read;
    if ds != [] {
      var first := Written(kind, ds[0], attribute, more);
      var bytes := WrittenAll(kind, ds, attribute, more);
      WrittenReads(kind, ds[0], attribute, more);
      TableReads(kind, ds[1..], attribute, more);
      assert bytes[40 + |more|..] == WrittenAll(kind, ds[1..], attribute, more);
      ReadPrefix(bytes, first);
    }
  }

  /** What is behind a descriptor does not matter to it. */
  lemma ReadPrefix(bytes: seq<Byte>, first: seq<Byte>)
    requires |first| >= 40 && first <= bytes
    ensures Read(bytes) == Read(first)
  {
    assert first == bytes[..|first|];
    assert bytes[8..16] == first[8..16] && bytes[16..24] == first[16..24] && bytes[24..32] == first[24..32];
  }
}
