/**
 The layout of a GGUF file in plain numbers: which byte counts what, how wide every field is, and for which
 reason a file is refused. The names of the format's constants and sizes do not occur here.
 */
module GgufLayout {
  import opened GgufFormat
  import opened GgufSpec

  // ---------------------------------------------------------------- numbers

  /** The first byte counts ones, and every further byte 256 times as much as the byte before it. */
  lemma FourBytes(a: byte, b: byte, c: byte, d: byte)
    ensures FromLittleEndian([a, b, c, d]) == a + 0x100 * b + 0x1_0000 * c + 0x100_0000 * d
  {
    assert [a, b, c, d][1..] == [b, c, d] && [b, c, d][1..] == [c, d] && [c, d][1..] == [d] && [d][1..] == [];
    assert FromLittleEndian([d]) == d;
    assert FromLittleEndian([c, d]) == c + 256 * FromLittleEndian([d]);
  }

  /** In eight bytes the last four count from 2 to the power 32 on. */
  lemma EightBytes(low: seq<byte>, high: seq<byte>)
    requires |low| == 4 && |high| == 4
    ensures FromLittleEndian(low + high) == FromLittleEndian(low) + 0x1_0000_0000 * FromLittleEndian(high)
  {
    hide LittleEndian, FromLittleEndian, Pow256;
    var l, h := FromLittleEndian(low), FromLittleEndian(high);
    Limits();
    EncodeAfterDecode(low);
    EncodeAfterDecode(high);
    JoinedNumbers(l, h, 4, 4);
    DecodeAfterEncode(l + 0x1_0000_0000 * h, 8);
  }

  /** A number below 256 takes one byte, whatever the width. */
  lemma {:induction false} SmallNumber(n: nat, k: nat)
    requires n < 256 && k > 0
    ensures LittleEndian(n, k) == [n] + Zeros(k - 1)
  {
    NoDigits(k - 1);
    assert n % 256 == n && n / 256 == 0;
  }

  lemma {:induction false} NoDigits(k: nat)
    ensures LittleEndian(0, k) == Zeros(k)
  {
    if k > 0 {
      NoDigits(k - 1);
      assert Zeros(k) == [0] + Zeros(k - 1);
    }
  }

  function Zeros(k: nat): (zeros: seq<byte>)
    ensures |zeros| == k && forall i :: 0 <= i < k ==> zeros[i] == 0
  {
    seq(k, _ => 0)
  }

  // ---------------------------------------------------------------- values

  /** What stepping over `n` bytes answers. */
  function Steps(data: seq<byte>, off: nat, n: nat): Parsed<()> {
    if off + n <= |data| then Ok((), off + n) else Bad(Eof)
  }

  /** The width of every value type: 8-bit integers and booleans, 16-bit, 32-bit, 64-bit; no type above 12 is known. */
  lemma ValueWidths(data: seq<byte>, off: nat, vtype: nat)
    requires off <= |data|
    ensures vtype in {0, 1, 7} ==> SkipValue(data, off, vtype) == Steps(data, off, 1)
    ensures vtype in {2, 3} ==> SkipValue(data, off, vtype) == Steps(data, off, 2)
    ensures vtype in {4, 5, 6} ==> SkipValue(data, off, vtype) == Steps(data, off, 4)
    ensures vtype in {10, 11, 12} ==> SkipValue(data, off, vtype) == Steps(data, off, 8)
    ensures vtype > 12 ==> SkipValue(data, off, vtype) == Bad(UnknownValueType)
  {
  }

  /** A string of `n` bytes and an array of `n` numbers, each behind its length; the array names its element type first. */
  lemma LongValues(data: seq<byte>, off: nat, n: nat)
    requires off <= |data| && n < 0x1_0000_0000_0000_0000
    ensures At(data, off, LittleEndian(n, 8)) ==> SkipValue(data, off, 8) == Steps(data, off, 8 + n)
    ensures At(data, off, LittleEndian(0, 4) + LittleEndian(n, 8)) ==> SkipValue(data, off, 9) == Steps(data, off, 12 + n)
  {
    Limits();
    hide LittleEndian, FromLittleEndian, Pow256, At;
    if At(data, off, LittleEndian(n, 8)) {
      UnsignedReadsPrinted(data, off, n, 8);
    }
    if At(data, off, LittleEndian(0, 4) + LittleEndian(n, 8)) {
      AtConcat(data, off, LittleEndian(0, 4), LittleEndian(n, 8));
      UnsignedReadsPrinted(data, off, 0, 4);
      UnsignedReadsPrinted(data, off + 4, n, 8);
      SingleBytes(data, off + 12, n);
    }
  }

  lemma {:induction false} SingleBytes(data: seq<byte>, off: nat, n: nat)
    requires off <= |data|
    ensures SkipMany(data, off, 0, n) == Steps(data, off, n)
    decreases n
  {
    ValueWidths(data, off, 0);
    hide SkipValue;
    if n > 0 && off < |data| {
      SingleBytes(data, off + 1, n - 1);
    }
  }

  // ---------------------------------------------------------------- names and dimensions

  /** A name of more than a hundred thousand bytes is refused before a byte of it is looked at. */
  lemma LongNamesAreRefused(data: seq<byte>, off: nat, n: nat)
    requires n < 0x1_0000_0000_0000_0000 && At(data, off, LittleEndian(n, 8))
    ensures Name(data, off) ==
      if n > 100_000 then Bad(NameTooLong)
      else if off + 8 + n <= |data| then Ok(data[off + 8..off + 8 + n], off + 8 + n)
      else Bad(Eof)
  {
    Limits();
    hide LittleEndian, FromLittleEndian, Pow256, At, Unsigned;
    UnsignedReadsPrinted(data, off, n, 8);
  }

  /** Dimensions are four bytes wide in version 1 and eight bytes wide in versions 2 and 3. */
  lemma {:induction false} DimensionWidths(shape: seq<nat>, version: nat)
    requires 1 <= version <= 3
    ensures |EncodeDims(shape, DimSize(version))| == |shape| * (if version == 1 then 4 else 8)
    decreases |shape|
  {
    hide LittleEndian;
    if shape != [] {
      DimensionWidths(shape[1..], version);
    }
  }

  // ---------------------------------------------------------------- why a file is refused

  predicate StartsWithMagic(data: seq<byte>) {
    |data| >= 4 && data[0] == 0x47 && data[1] == 0x47 && data[2] == 0x55 && data[3] == 0x46
  }

  /** The number in bytes 4 to 7. */
  function VersionOf(data: seq<byte>): nat
    requires |data| >= 8
  {
    var a: int, b: int, c: int, d: int := data[4], data[5], data[6], data[7];
    a + 0x100 * b + 0x1_0000 * c + 0x100_0000 * d
  }

  /** A wrong magic number and an unknown version are reported exactly when the bytes are there to tell; a file that ends
      inside the first 24 bytes is reported as too short. */
  lemma RefusedFor(data: seq<byte>)
    ensures ReadHeader(data) == Bad(BadMagic) <==> |data| >= 4 && !StartsWithMagic(data)
    ensures ReadHeader(data) == Bad(BadVersion)
      <==> StartsWithMagic(data) && |data| >= 8 && !(1 <= VersionOf(data) <= 3)
    ensures |data| < 4 ==> ReadHeader(data) == Bad(Eof)
    ensures StartsWithMagic(data) && |data| < 24 && (|data| >= 8 ==> 1 <= VersionOf(data) <= 3) ==> ReadHeader(data) == Bad(Eof)
  {
    if |data| >= 4 {
      assert data[0..4] == [data[0], data[1], data[2], data[3]];
    }
    if |data| >= 8 {
      assert data[4..8] == [data[4], data[5], data[6], data[7]];
      FourBytes(data[4], data[5], data[6], data[7]);
    }
    hide FromLittleEndian, SkipEntries, ReadTensors;
    if |data| >= 24 {
      var nTensors, nMetadata := Unsigned(data, 8, 8).value, Unsigned(data, 16, 8).value;
      EntriesFailForOtherReasons(data, 24, nMetadata);
      var entries := SkipEntries(data, 24, nMetadata);
      if entries.Ok? && StartsWithMagic(data) {
        TensorsFailForOtherReasons(data, entries.off, nTensors, Unsigned(data, 4, 4).value);
      }
    }
  }

  /** The file is too short, a name is too long, or a value has an unknown type. */
  predicate Later(error: Error) {
    error in {Eof, NameTooLong, UnknownValueType}
  }

  lemma {:induction false} ValueFailsForOtherReasons(data: seq<byte>, off: nat, vtype: nat)
    requires off <= |data|
    ensures SkipValue(data, off, vtype).Bad? ==> Later(SkipValue(data, off, vtype).error)
    decreases |data| - off, 0, 0
  {
    hide FromLittleEndian;
    if vtype == 9 && off + 12 <= |data| {
      ManyFailForOtherReasons(data, off + 12, Unsigned(data, off, 4).value, Unsigned(data, off + 4, 8).value);
    }
    hide SkipMany;
  }

  lemma {:induction false} ManyFailForOtherReasons(data: seq<byte>, off: nat, vtype: nat, count: nat)
    requires off <= |data|
    ensures SkipMany(data, off, vtype, count).Bad? ==> Later(SkipMany(data, off, vtype, count).error)
    decreases |data| - off, 1, count
  {
    hide SkipValue, Later;
    if count > 0 {
      ValueFailsForOtherReasons(data, off, vtype);
      var first := SkipValue(data, off, vtype);
      if first.Ok? {
        ManyFailForOtherReasons(data, first.off, vtype, count - 1);
      }
    }
  }

  lemma {:induction false} EntriesFailForOtherReasons(data: seq<byte>, off: nat, count: nat)
    requires off <= |data|
    ensures SkipEntries(data, off, count).Bad? ==> Later(SkipEntries(data, off, count).error)
    decreases count
  {
    hide SkipEntry, Later;
    if count > 0 {
      EntryFailsForOtherReasons(data, off);
      var first := SkipEntry(data, off);
      if first.Ok? {
        EntriesFailForOtherReasons(data, first.off, count - 1);
      }
    }
  }

  lemma EntryFailsForOtherReasons(data: seq<byte>, off: nat)
    requires off <= |data|
    ensures SkipEntry(data, off).Bad? ==> Later(SkipEntry(data, off).error)
  {
    var key := Name(data, off);
    if key.Ok? && key.off + 4 <= |data| {
      ValueFailsForOtherReasons(data, key.off + 4, Unsigned(data, key.off, 4).value);
    }
    hide SkipValue, FromLittleEndian;
  }

  lemma {:induction false} DimsFailForOtherReasons(data: seq<byte>, off: nat, count: nat, size: nat)
    requires off <= |data|
    ensures ReadDims(data, off, count, size).Bad? ==> Later(ReadDims(data, off, count, size).error)
    decreases count
  {
    hide FromLittleEndian;
    if count > 0 && off + size <= |data| {
      DimsFailForOtherReasons(data, off + size, count - 1, size);
    }
  }

  lemma {:induction false} TensorsFailForOtherReasons(data: seq<byte>, off: nat, count: nat, version: nat)
    requires off <= |data|
    ensures ReadTensors(data, off, count, version).Bad? ==> Later(ReadTensors(data, off, count, version).error)
    decreases count
  {
    hide ReadTensor, Later;
    if count > 0 {
      TensorFailsForOtherReasons(data, off, version);
      var first := ReadTensor(data, off, version);
      if first.Ok? {
        TensorsFailForOtherReasons(data, first.off, count - 1, version);
      }
    }
  }

  lemma TensorFailsForOtherReasons(data: seq<byte>, off: nat, version: nat)
    requires off <= |data|
    ensures ReadTensor(data, off, version).Bad? ==> Later(ReadTensor(data, off, version).error)
  {
    hide FromLittleEndian, ReadDims;
    var name := Name(data, off);
    if name.Ok? && name.off + 4 <= |data| {
      DimsFailForOtherReasons(data, name.off + 4, Unsigned(data, name.off, 4).value, DimSize(version));
    }
  }

  // ---------------------------------------------------------------- a whole file, byte by byte

  /** One tensor and three metadata entries: an unsigned byte, a string, and an array of two 16-bit numbers. */
  function SmallHeader(version: nat): Header {
    Header(version,
           [Entry([0x61], Scalar(0, [9])), Entry([0x62], Text([0x63])),
            Entry([0x64], Array(2, [Scalar(2, [1, 2]), Scalar(2, [3, 4])]))],
           [Tensor([0x74], [0x105], 2, 7)])
  }

  function SmallPreamble(version: byte): seq<byte> {
    [0x47, 0x47, 0x55, 0x46] + [version, 0, 0, 0] + [1, 0, 0, 0, 0, 0, 0, 0] + [3, 0, 0, 0, 0, 0, 0, 0]
  }

  function SmallEntries(): seq<byte> {
    (([1, 0, 0, 0, 0, 0, 0, 0] + [0x61]) + ([0, 0, 0, 0] + [9]))
    + ((([1, 0, 0, 0, 0, 0, 0, 0] + [0x62]) + ([8, 0, 0, 0] + ([1, 0, 0, 0, 0, 0, 0, 0] + [0x63])))
    + (([1, 0, 0, 0, 0, 0, 0, 0] + [0x64])
      + ([9, 0, 0, 0] + (([2, 0, 0, 0] + [2, 0, 0, 0, 0, 0, 0, 0]) + ([1, 2] + [3, 4])))))
  }

  function SmallTensor(version: nat): seq<byte> {
    ([1, 0, 0, 0, 0, 0, 0, 0] + [0x74])
    + ([1, 0, 0, 0]
    + ((if version == 1 then [5, 1, 0, 0] else [5, 1, 0, 0, 0, 0, 0, 0])
    + ([2, 0, 0, 0] + [7, 0, 0, 0, 0, 0, 0, 0])))
  }

  lemma InFour(n: byte)
    ensures LittleEndian(n, 4) == [n, 0, 0, 0]
  {
    SmallNumber(n, 4);
  }

  lemma InEight(n: byte)
    ensures LittleEndian(n, 8) == [n, 0, 0, 0, 0, 0, 0, 0]
  {
    SmallNumber(n, 8);
  }

  lemma SmallPreambleBytes(version: byte)
    ensures EncodePreamble(version, 1, 3) == SmallPreamble(version)
  {
    hide LittleEndian;
    InFour(version);
    InEight(1);
    InEight(3);
  }

  lemma NumberEntryBytes()
    ensures EncodeEntry(Entry([0x61], Scalar(0, [9]))) == ([1, 0, 0, 0, 0, 0, 0, 0] + [0x61]) + ([0, 0, 0, 0] + [9])
  {
    hide LittleEndian;
    InEight(1);
    InFour(0);
  }

  lemma TextEntryBytes()
    ensures EncodeEntry(Entry([0x62], Text([0x63])))
         == ([1, 0, 0, 0, 0, 0, 0, 0] + [0x62]) + ([8, 0, 0, 0] + ([1, 0, 0, 0, 0, 0, 0, 0] + [0x63]))
  {
    hide LittleEndian;
    InEight(1);
    InFour(8);
  }

  lemma ArrayEntryBytes()
    ensures EncodeEntry(Entry([0x64], Array(2, [Scalar(2, [1, 2]), Scalar(2, [3, 4])])))
         == ([1, 0, 0, 0, 0, 0, 0, 0] + [0x64])
          + ([9, 0, 0, 0] + (([2, 0, 0, 0] + [2, 0, 0, 0, 0, 0, 0, 0]) + ([1, 2] + [3, 4])))
  {
    var elems := [Scalar(2, [1, 2]), Scalar(2, [3, 4])];
    ArrayElemsBytes(elems);
    hide LittleEndian, EncodeAll;
    InEight(1);
    InFour(9);
    InFour(2);
    InEight(2);
  }

  lemma ArrayElemsBytes(elems: seq<Value>)
    requires elems == [Scalar(2, [1, 2]), Scalar(2, [3, 4])]
    ensures EncodeAll(elems) == [1, 2] + [3, 4]
  {
    assert elems[1..] == [Scalar(2, [3, 4])] && elems[1..][1..] == [];
    assert EncodeAll(elems[1..]) == [3, 4];
  }

  lemma SmallEntriesBytes()
    ensures EncodeEntries(SmallHeader(1).metadata) == SmallEntries()
  {
    NumberEntryBytes();
    TextEntryBytes();
    ArrayEntryBytes();
    hide EncodeEntry;
    var entries := SmallHeader(1).metadata;
    assert entries[1..][1..] == [entries[2]] && entries[1..][1..][1..] == [];
    assert EncodeEntries(entries[1..][1..]) == EncodeEntry(entries[2]);
    assert EncodeEntries(entries[1..]) == EncodeEntry(entries[1]) + EncodeEntries(entries[1..][1..]);
  }

  lemma SmallTensorBytes(version: nat)
    requires 1 <= version <= 3
    ensures EncodeTensors(SmallHeader(version).tensors, version) == SmallTensor(version)
  {
    var t := SmallHeader(version).tensors[0];
    assert [t][1..] == [];
    assert EncodeTensors([t], version) == EncodeTensor(t, version);
    SmallDimBytes(version);
    hide LittleEndian, EncodeTensors, EncodeDims, DimSize;
    InEight(1);
    InFour(1);
    InFour(2);
    InEight(7);
  }

  lemma SmallDimBytes(version: nat)
    requires 1 <= version <= 3
    ensures EncodeDims([0x105], DimSize(version)) == if version == 1 then [5, 1, 0, 0] else [5, 1, 0, 0, 0, 0, 0, 0]
  {
    DimensionWidths([0x105], version);
    assert [0x105][1..] == [];
    TwoByteNumber(DimSize(version));
    hide LittleEndian;
  }

  lemma TwoByteNumber(k: nat)
    requires k >= 2
    ensures LittleEndian(0x105, k) == [5, 1] + Zeros(k - 2)
  {
    SmallNumber(1, k - 1);
    assert [1] + Zeros(k - 2) == LittleEndian(1, k - 1);
  }

  lemma SmallIsOk(version: nat)
    requires 1 <= version <= 3
    ensures HeaderOk(SmallHeader(version))
  {
    Limits();
    var h := SmallHeader(version);
    SmallArrayIsOk();
    assert EntryOk(h.metadata[0]) && EntryOk(h.metadata[1]) && EntryOk(h.metadata[2]);
    hide EntryOk, WellFormed;
    assert TensorOk(h.tensors[0], version);
    hide TensorOk;
  }

  lemma SmallArrayIsOk()
    ensures WellFormed(Array(2, [Scalar(2, [1, 2]), Scalar(2, [3, 4])]))
  {
    var elems := [Scalar(2, [1, 2]), Scalar(2, [3, 4])];
    assert elems[1..] == [Scalar(2, [3, 4])] && elems[1..][1..] == [];
    assert AllWellFormed(2, elems[1..]);
    assert AllWellFormed(2, elems);
  }

  /** A file of each version: its dimension 0x105 takes four bytes in version 1 and eight in the others. */
  lemma SmallFile(version: byte, rest: seq<byte>)
    requires 1 <= version <= 3
    ensures ReadHeader(SmallPreamble(version) + (SmallEntries() + SmallTensor(version)) + rest)
         == Ok((version, [Tensor([0x74], [0x105], 2, 7)]), if version == 1 then 118 else 122)
  {
    SmallIsOk(version);
    SmallPreambleBytes(version);
    SmallEntriesBytes();
    SmallTensorBytes(version);
    assert |SmallPreamble(version) + (SmallEntries() + SmallTensor(version))| == if version == 1 then 118 else 122;
    hide HeaderOk, EncodePreamble, EncodeEntries, EncodeTensors, ReadHeader;
    HeaderRoundTrip(SmallHeader(version), rest);
  }
}
