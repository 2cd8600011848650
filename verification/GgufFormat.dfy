/**
 The GGUF header as data, and how it is printed to bytes: the layout both walkers of the repository
 read (BRAIN-DAEMON/quantize/gguf_stats.py, BRAIN-DAEMON/memory/monitor.py).
 */
module GgufFormat {

  type byte = x: int | 0 <= x < 256

  // ---------------------------------------------------------------- little-endian integers

  const U32_LIMIT: nat := 0x1_0000_0000
  const U64_LIMIT: nat := 0x1_0000_0000_0000_0000

  function Pow256(k: nat): nat {
    if k == 0 then 1 else 256 * Pow256(k - 1)
  }

  /** `n` in `k` bytes, least significant first. */
  function LittleEndian(n: nat, k: nat): (bytes: seq<byte>)
    ensures |bytes| == k
  {
    if k == 0 then [] else [n % 256] + LittleEndian(n / 256, k - 1)
  }

  function FromLittleEndian(bytes: seq<byte>): nat {
    if bytes == [] then 0 else bytes[0] + 256 * FromLittleEndian(bytes[1..])
  }

  lemma {:induction false} DecodeAfterEncode(n: nat, k: nat)
    requires n < Pow256(k)
    ensures FromLittleEndian(LittleEndian(n, k)) == n
  {
    if k > 0 {
      DecodeAfterEncode(n / 256, k - 1);
    }
  }

  lemma {:induction false} EncodeAfterDecode(bytes: seq<byte>)
    ensures FromLittleEndian(bytes) < Pow256(|bytes|)
    ensures LittleEndian(FromLittleEndian(bytes), |bytes|) == bytes
  {
    if bytes != [] {
      EncodeAfterDecode(bytes[1..]);
      assert bytes == [bytes[0]] + bytes[1..];
    }
  }

  lemma Limits()
    ensures Pow256(4) == U32_LIMIT && Pow256(8) == U64_LIMIT
  {
    assert Pow256(2) == 0x1_0000;
    assert Pow256(4) == 0x1_0000 * Pow256(2);
    assert Pow256(6) == 0x1_0000 * Pow256(4);
    assert Pow256(8) == 0x1_0000 * Pow256(6);
  }

  lemma DigitOfSum(low: nat, high: nat)
    requires low < 256
    ensures (low + 256 * high) % 256 == low && (low + 256 * high) / 256 == high
  {
  }

  lemma ShiftOneByte(a: nat, p: nat, b: nat)
    ensures a + 256 * p * b == a % 256 + 256 * (a / 256 + p * b)
  {
    assert 256 * p * b == 256 * (p * b);
  }

  /** Two numbers printed side by side are one number, the second counting from where the first ends. */
  lemma {:induction false} JoinedNumbers(a: nat, b: nat, k: nat, l: nat)
    requires a < Pow256(k)
    ensures LittleEndian(a, k) + LittleEndian(b, l) == LittleEndian(a + Pow256(k) * b, k + l)
    decreases k
  {
    if k == 0 {
      assert LittleEndian(a, 0) + LittleEndian(b, l) == LittleEndian(b, l);
    } else {
      var whole, high := a + Pow256(k) * b, a / 256 + Pow256(k - 1) * b;
      JoinedNumbers(a / 256, b, k - 1, l);
      ShiftOneByte(a, Pow256(k - 1), b);
      DigitOfSum(a % 256, high);
      assert whole == a % 256 + 256 * high;
      assert LittleEndian(whole, k + l) == [whole % 256] + LittleEndian(whole / 256, k + l - 1);
      assert LittleEndian(a, k) == [a % 256] + LittleEndian(a / 256, k - 1);
      hide LittleEndian, Pow256;
    }
  }

  // ---------------------------------------------------------------- metadata values

  const STRING: nat := 8
  const ARRAY: nat := 9

  predicate IsScalar(vtype: nat) {
    vtype <= 12 && vtype != STRING && vtype != ARRAY
  }

  function ScalarSize(vtype: nat): nat
    requires IsScalar(vtype)
  {
    match vtype
    case 0 | 1 | 7 => 1
    case 2 | 3 => 2
    case 4 | 5 | 6 => 4
    case _ => 8
  }

  datatype Value =
    | Scalar(vtype: nat, payload: seq<byte>)
    | Text(chars: seq<byte>)
    | Array(subtype: nat, elems: seq<Value>)

  function TypeOf(v: Value): nat {
    match v
    case Scalar(vtype, _) => vtype
    case Text(_) => STRING
    case Array(_, _) => ARRAY
  }

  /** Values with a binary form: payloads of the right size, homogeneous arrays, counts that fit. */
  predicate WellFormed(v: Value)
    decreases v
  {
    match v
    case Scalar(vtype, payload) => IsScalar(vtype) && |payload| == ScalarSize(vtype)
    case Text(chars) => |chars| < U64_LIMIT
    case Array(subtype, elems) => subtype < U32_LIMIT && |elems| < U64_LIMIT && AllWellFormed(subtype, elems)
  }

  predicate AllWellFormed(subtype: nat, elems: seq<Value>)
    decreases elems
  {
    elems == [] || (TypeOf(elems[0]) == subtype && WellFormed(elems[0]) && AllWellFormed(subtype, elems[1..]))
  }

  function Encode(v: Value): seq<byte> {
    match v
    case Scalar(_, payload) => payload
    case Text(chars) => LittleEndian(|chars|, 8) + chars
    case Array(subtype, elems) => (LittleEndian(subtype, 4) + LittleEndian(|elems|, 8)) + EncodeAll(elems)
  }

  function EncodeAll(elems: seq<Value>): seq<byte> {
    if elems == [] then [] else Encode(elems[0]) + EncodeAll(elems[1..])
  }

  // ---------------------------------------------------------------- the header

  datatype Entry = Entry(key: seq<byte>, value: Value)
  datatype Tensor = Tensor(name: seq<byte>, shape: seq<nat>, ggmlType: nat, offset: nat)
  datatype Header = Header(version: nat, metadata: seq<Entry>, tensors: seq<Tensor>)

  /** The longest name `_Reader.str` accepts. */
  const MAX_NAME: nat := 100_000

  predicate EntryOk(e: Entry) {
    |e.key| <= MAX_NAME && WellFormed(e.value)
  }

  function DimSize(version: nat): nat {
    if version >= 2 then 8 else 4
  }

  predicate DimsFit(shape: seq<nat>, size: nat) {
    forall k :: 0 <= k < |shape| ==> shape[k] < Pow256(size)
  }

  predicate TensorOk(t: Tensor, version: nat) {
    && |t.name| <= MAX_NAME && |t.shape| < U32_LIMIT
    && DimsFit(t.shape, DimSize(version))
    && t.ggmlType < U32_LIMIT && t.offset < U64_LIMIT
  }

  predicate HeaderOk(h: Header) {
    && 1 <= h.version <= 3
    && |h.metadata| < U64_LIMIT && |h.tensors| < U64_LIMIT
    && (forall k :: 0 <= k < |h.metadata| ==> EntryOk(h.metadata[k]))
    && (forall k :: 0 <= k < |h.tensors| ==> TensorOk(h.tensors[k], h.version))
  }

  function EncodeName(name: seq<byte>): seq<byte> {
    LittleEndian(|name|, 8) + name
  }

  function EncodeEntry(e: Entry): seq<byte> {
    EncodeName(e.key) + (LittleEndian(TypeOf(e.value), 4) + Encode(e.value))
  }

  function EncodeEntries(entries: seq<Entry>): seq<byte> {
    if entries == [] then [] else EncodeEntry(entries[0]) + EncodeEntries(entries[1..])
  }

  function EncodeDims(shape: seq<nat>, size: nat): seq<byte> {
    if shape == [] then [] else LittleEndian(shape[0], size) + EncodeDims(shape[1..], size)
  }

  function EncodeTensor(t: Tensor, version: nat): seq<byte> {
    EncodeName(t.name) + (LittleEndian(|t.shape|, 4) + (EncodeDims(t.shape, DimSize(version))
      + (LittleEndian(t.ggmlType, 4) + LittleEndian(t.offset, 8))))
  }

  function EncodeTensors(tensors: seq<Tensor>, version: nat): seq<byte> {
    if tensors == [] then [] else EncodeTensor(tensors[0], version) + EncodeTensors(tensors[1..], version)
  }

  const MAGIC: seq<byte> := [0x47, 0x47, 0x55, 0x46]

  function EncodePreamble(version: nat, nTensors: nat, nMetadata: nat): seq<byte> {
    MAGIC + (LittleEndian(version, 4) + (LittleEndian(nTensors, 8) + LittleEndian(nMetadata, 8)))
  }

  function EncodeHeader(h: Header): seq<byte> {
    EncodePreamble(h.version, |h.tensors|, |h.metadata|)
      + (EncodeEntries(h.metadata) + EncodeTensors(h.tensors, h.version))
  }

  // ---------------------------------------------------------------- bytes at an offset

  /** `bytes` stands in `data` from `off` on. */
  predicate At(data: seq<byte>, off: nat, bytes: seq<byte>) {
    off + |bytes| <= |data| && data[off..off + |bytes|] == bytes
  }

  lemma AtConcat(data: seq<byte>, off: nat, a: seq<byte>, b: seq<byte>)
    ensures At(data, off, a + b) <==> At(data, off, a) && At(data, off + |a|, b)
  {
    if At(data, off, a + b) {
      assert data[off..off + |a|] == data[off..off + |a + b|][..|a|];
      assert data[off + |a|..off + |a| + |b|] == data[off..off + |a + b|][|a|..];
    }
    if At(data, off, a) && At(data, off + |a|, b) {
      assert data[off..off + |a + b|] == data[off..off + |a|] + data[off + |a|..off + |a| + |b|];
    }
  }
}
