/**
 The full header walker (BRAIN-DAEMON/quantize/gguf_stats.py): a reader that advances an offset over
 a byte buffer, and the functions that say what it reads.
 */
module GgufSpec {
  import opened GgufFormat

  datatype Error = Eof | NameTooLong | UnknownValueType | BadMagic | BadVersion

  /** A value and the offset after it, or the exception raised. */
  datatype Parsed<+T> = Ok(value: T, off: nat) | Bad(error: Error) {
    predicate IsFailure() {
      Bad?
    }

    function PropagateFailure<U>(): Parsed<U>
      requires Bad?
    {
      Bad(error)
    }

    function Extract(): (T, nat)
      requires Ok?
    {
      (value, off)
    }
  }

  function Take(data: seq<byte>, off: nat, n: nat): Parsed<seq<byte>> {
    if off + n > |data| then Bad(Eof) else Ok(data[off..off + n], off + n)
  }

  function Unsigned(data: seq<byte>, off: nat, size: nat): Parsed<nat> {
    var (bytes, next) :- Take(data, off, size);
    Ok(FromLittleEndian(bytes), next)
  }

  function Name(data: seq<byte>, off: nat): Parsed<seq<byte>> {
    var (n, next) :- Unsigned(data, off, 8);
    if n > MAX_NAME then Bad(NameTooLong) else Take(data, next, n)
  }

  function SkipValue(data: seq<byte>, off: nat, vtype: nat): (r: Parsed<()>)
    requires off <= |data|
    ensures r.Ok? ==> off < r.off <= |data|
    decreases |data| - off, 0, 0
  {
    if IsScalar(vtype) then
      var (_, next) :- Take(data, off, ScalarSize(vtype));
      Ok((), next)
    else if vtype == STRING then
      var (n, body) :- Unsigned(data, off, 8);
      var (_, next) :- Take(data, body, n);
      Ok((), next)
    else if vtype == ARRAY then
      var (subtype, mid) :- Unsigned(data, off, 4);
      var (count, body) :- Unsigned(data, mid, 8);
      SkipMany(data, body, subtype, count)
    else Bad(UnknownValueType)
  }

  function SkipMany(data: seq<byte>, off: nat, vtype: nat, count: nat): (r: Parsed<()>)
    requires off <= |data|
    ensures r.Ok? ==> off + count <= r.off <= |data|
    decreases |data| - off, 1, count
  {
    if count == 0 then Ok((), off)
    else
      var (_, next) :- SkipValue(data, off, vtype);
      SkipMany(data, next, vtype, count - 1)
  }

  /** Key, type and value of one metadata entry; the value is not kept. */
  function SkipEntry(data: seq<byte>, off: nat): (r: Parsed<()>)
    requires off <= |data|
    ensures r.Ok? ==> off <= r.off <= |data|
  {
    var (_, afterKey) :- Name(data, off);
    var (vtype, afterType) :- Unsigned(data, afterKey, 4);
    SkipValue(data, afterType, vtype)
  }

  function SkipEntries(data: seq<byte>, off: nat, count: nat): (r: Parsed<()>)
    requires off <= |data|
    ensures r.Ok? ==> off <= r.off <= |data|
    decreases count
  {
    if count == 0 then Ok((), off)
    else
      var (_, next) :- SkipEntry(data, off);
      SkipEntries(data, next, count - 1)
  }

  function ReadDims(data: seq<byte>, off: nat, count: nat, size: nat): (r: Parsed<seq<nat>>)
    requires off <= |data|
    ensures r.Ok? ==> off <= r.off <= |data|
    decreases count
  {
    if count == 0 then Ok([], off)
    else
      var (d, next) :- Unsigned(data, off, size);
      var (rest, end) :- ReadDims(data, next, count - 1, size);
      Ok([d] + rest, end)
  }

  function ReadTensor(data: seq<byte>, off: nat, version: nat): (r: Parsed<Tensor>)
    requires off <= |data|
    ensures r.Ok? ==> off <= r.off <= |data|
  {
    var (name, afterName) :- Name(data, off);
    var (nDims, afterCount) :- Unsigned(data, afterName, 4);
    var (shape, afterDims) :- ReadDims(data, afterCount, nDims, DimSize(version));
    var (ggmlType, afterType) :- Unsigned(data, afterDims, 4);
    var (offset, next) :- Unsigned(data, afterType, 8);
    Ok(Tensor(name, shape, ggmlType, offset), next)
  }

  function ReadTensors(data: seq<byte>, off: nat, count: nat, version: nat): (r: Parsed<seq<Tensor>>)
    requires off <= |data|
    ensures r.Ok? ==> off <= r.off <= |data|
    decreases count
  {
    if count == 0 then Ok([], off)
    else
      var (t, next) :- ReadTensor(data, off, version);
      var (rest, end) :- ReadTensors(data, next, count - 1, version);
      Ok([t] + rest, end)
  }

  /** Version and tensors of the header at the start of `data`, and where it ends. */
  function ReadHeader(data: seq<byte>): Parsed<(nat, seq<Tensor>)> {
    var (magic, afterMagic) :- Take(data, 0, 4);
    if magic != MAGIC then Bad(BadMagic)
    else
      var (version, afterVersion) :- Unsigned(data, afterMagic, 4);
      if version !in {1, 2, 3} then Bad(BadVersion)
      else
        var (nTensors, afterT) :- Unsigned(data, afterVersion, 8);
        var (nMetadata, afterM) :- Unsigned(data, afterT, 8);
        var (_, afterEntries) :- SkipEntries(data, afterM, nMetadata);
        var (tensors, end) :- ReadTensors(data, afterEntries, nTensors, version);
        Ok((version, tensors), end)
  }

  // ---------------------------------------------------------------- reading what was printed

  lemma UnsignedReadsPrinted(data: seq<byte>, off: nat, n: nat, size: nat)
    requires n < Pow256(size)
    requires At(data, off, LittleEndian(n, size))
    ensures Unsigned(data, off, size) == Ok(n, off + size)
  {
    DecodeAfterEncode(n, size);
  }

  lemma NameReadsPrinted(data: seq<byte>, off: nat, name: seq<byte>)
    requires |name| <= MAX_NAME && At(data, off, EncodeName(name))
    ensures Name(data, off) == Ok(name, off + |EncodeName(name)|)
  {
    Limits();
    AtConcat(data, off, LittleEndian(|name|, 8), name);
    UnsignedReadsPrinted(data, off, |name|, 8);
  }

  /** Skipping a printed value consumes exactly its encoding, however deeply its arrays nest. */
  lemma {:induction false} SkipsPrintedValue(data: seq<byte>, off: nat, v: Value)
    requires WellFormed(v) && At(data, off, Encode(v))
    ensures SkipValue(data, off, TypeOf(v)) == Ok((), off + |Encode(v)|)
    decreases v
  {
    Limits();
    match v
    case Scalar(_, _) =>
    case Text(chars) =>
      AtConcat(data, off, LittleEndian(|chars|, 8), chars);
      UnsignedReadsPrinted(data, off, |chars|, 8);
    case Array(subtype, elems) =>
      var prefix := LittleEndian(subtype, 4) + LittleEndian(|elems|, 8);
      AtConcat(data, off, prefix, EncodeAll(elems));
      AtConcat(data, off, LittleEndian(subtype, 4), LittleEndian(|elems|, 8));
      UnsignedReadsPrinted(data, off, subtype, 4);
      UnsignedReadsPrinted(data, off + 4, |elems|, 8);
      SkipsPrintedValues(data, off + 12, subtype, elems);
  }

  lemma {:induction false} SkipsPrintedValues(data: seq<byte>, off: nat, subtype: nat, elems: seq<Value>)
    requires AllWellFormed(subtype, elems) && At(data, off, EncodeAll(elems))
    ensures SkipMany(data, off, subtype, |elems|) == Ok((), off + |EncodeAll(elems)|)
    decreases elems
  {
    hide SkipValue, Encode, WellFormed;
    if elems != [] {
      AtConcat(data, off, Encode(elems[0]), EncodeAll(elems[1..]));
      SkipsPrintedValue(data, off, elems[0]);
      SkipsPrintedValues(data, off + |Encode(elems[0])|, subtype, elems[1..]);
    }
  }

  lemma SkipsPrintedEntry(data: seq<byte>, off: nat, e: Entry)
    requires EntryOk(e) && At(data, off, EncodeEntry(e))
    ensures SkipEntry(data, off) == Ok((), off + |EncodeEntry(e)|)
  {
    var body := EntryParts(data, off, e);
    SkipsPrintedValue(data, body, e.value);
  }

  lemma {:induction false} SkipsPrintedEntries(data: seq<byte>, off: nat, entries: seq<Entry>)
    requires forall k :: 0 <= k < |entries| ==> EntryOk(entries[k])
    requires At(data, off, EncodeEntries(entries))
    ensures SkipEntries(data, off, |entries|) == Ok((), off + |EncodeEntries(entries)|)
    decreases |entries|
  {
    hide SkipEntry, EncodeEntry, EntryOk;
    if entries != [] {
      AtConcat(data, off, EncodeEntry(entries[0]), EncodeEntries(entries[1..]));
      SkipsPrintedEntry(data, off, entries[0]);
      SkipsPrintedEntries(data, off + |EncodeEntry(entries[0])|, entries[1..]);
    }
  }

  /** Key and type of a printed entry, and where its value starts. */
  lemma EntryParts(data: seq<byte>, off: nat, e: Entry) returns (body: nat)
    requires EntryOk(e) && At(data, off, EncodeEntry(e))
    ensures Name(data, off) == Ok(e.key, off + |EncodeName(e.key)|)
    ensures Unsigned(data, off + |EncodeName(e.key)|, 4) == Ok(TypeOf(e.value), body)
    ensures body == off + |EncodeName(e.key)| + 4 && At(data, body, Encode(e.value))
    ensures body + |Encode(e.value)| == off + |EncodeEntry(e)|
  {
    Limits();
    var name, vtype := EncodeName(e.key), LittleEndian(TypeOf(e.value), 4);
    AtConcat(data, off, name, vtype + Encode(e.value));
    AtConcat(data, off + |name|, vtype, Encode(e.value));
    NameReadsPrinted(data, off, e.key);
    UnsignedReadsPrinted(data, off + |name|, TypeOf(e.value), 4);
    body := off + |name| + 4;
  }

  lemma {:induction false} ReadsPrintedDims(data: seq<byte>, off: nat, shape: seq<nat>, size: nat)
    requires DimsFit(shape, size) && At(data, off, EncodeDims(shape, size))
    ensures ReadDims(data, off, |shape|, size) == Ok(shape, off + |EncodeDims(shape, size)|)
    decreases |shape|
  {
    hide Unsigned, LittleEndian;
    if shape != [] {
      AtConcat(data, off, LittleEndian(shape[0], size), EncodeDims(shape[1..], size));
      UnsignedReadsPrinted(data, off, shape[0], size);
      ReadsPrintedDims(data, off + size, shape[1..], size);
      assert shape == [shape[0]] + shape[1..];
    }
  }

  lemma ReadsPrintedTensor(data: seq<byte>, off: nat, t: Tensor, version: nat)
    requires TensorOk(t, version) && At(data, off, EncodeTensor(t, version))
    ensures ReadTensor(data, off, version) == Ok(t, off + |EncodeTensor(t, version)|)
  {
    Limits();
    hide Name, EncodeName, ReadDims, EncodeDims, Unsigned, LittleEndian, At, Pow256;
    var size := DimSize(version);
    var name, count, dims := EncodeName(t.name), LittleEndian(|t.shape|, 4), EncodeDims(t.shape, size);
    var ggml, offset := LittleEndian(t.ggmlType, 4), LittleEndian(t.offset, 8);
    var o1 := off + |name|;
    var o2 := o1 + 4;
    var o3 := o2 + |dims|;
    AtConcat(data, off, name, count + (dims + (ggml + offset)));
    AtConcat(data, o1, count, dims + (ggml + offset));
    AtConcat(data, o2, dims, ggml + offset);
    AtConcat(data, o3, ggml, offset);
    NameReadsPrinted(data, off, t.name);
    UnsignedReadsPrinted(data, o1, |t.shape|, 4);
    ReadsPrintedDims(data, o2, t.shape, size);
    UnsignedReadsPrinted(data, o3, t.ggmlType, 4);
    UnsignedReadsPrinted(data, o3 + 4, t.offset, 8);
  }

  lemma {:induction false} ReadsPrintedTensors(data: seq<byte>, off: nat, tensors: seq<Tensor>, version: nat)
    requires forall k :: 0 <= k < |tensors| ==> TensorOk(tensors[k], version)
    requires At(data, off, EncodeTensors(tensors, version))
    ensures ReadTensors(data, off, |tensors|, version) == Ok(tensors, off + |EncodeTensors(tensors, version)|)
    decreases |tensors|
  {
    hide ReadTensor, EncodeTensor, TensorOk;
    if tensors != [] {
      AtConcat(data, off, EncodeTensor(tensors[0], version), EncodeTensors(tensors[1..], version));
      ReadsPrintedTensor(data, off, tensors[0], version);
      ReadsPrintedTensors(data, off + |EncodeTensor(tensors[0], version)|, tensors[1..], version);
      assert tensors == [tensors[0]] + tensors[1..];
    }
  }

  lemma ReadsPrintedPreamble(data: seq<byte>, version: nat, nTensors: nat, nMetadata: nat)
    requires version < U32_LIMIT && nTensors < U64_LIMIT && nMetadata < U64_LIMIT
    requires At(data, 0, EncodePreamble(version, nTensors, nMetadata))
    ensures Take(data, 0, 4) == Ok(MAGIC, 4) && Unsigned(data, 4, 4) == Ok(version, 8)
    ensures Unsigned(data, 8, 8) == Ok(nTensors, 16) && Unsigned(data, 16, 8) == Ok(nMetadata, 24)
  {
    Limits();
    var v, t, m := LittleEndian(version, 4), LittleEndian(nTensors, 8), LittleEndian(nMetadata, 8);
    AtConcat(data, 0, MAGIC, v + (t + m));
    AtConcat(data, 4, v, t + m);
    AtConcat(data, 8, t, m);
    UnsignedReadsPrinted(data, 4, version, 4);
    UnsignedReadsPrinted(data, 8, nTensors, 8);
    UnsignedReadsPrinted(data, 16, nMetadata, 8);
  }

  lemma HeaderParts(data: seq<byte>, h: Header)
    requires At(data, 0, EncodeHeader(h))
    ensures At(data, 0, EncodePreamble(h.version, |h.tensors|, |h.metadata|))
    ensures At(data, 24, EncodeEntries(h.metadata))
    ensures At(data, 24 + |EncodeEntries(h.metadata)|, EncodeTensors(h.tensors, h.version))
    ensures |EncodeHeader(h)| == 24 + |EncodeEntries(h.metadata)| + |EncodeTensors(h.tensors, h.version)|
  {
    var preamble := EncodePreamble(h.version, |h.tensors|, |h.metadata|);
    var entries, tensors := EncodeEntries(h.metadata), EncodeTensors(h.tensors, h.version);
    AtConcat(data, 0, preamble, entries + tensors);
    AtConcat(data, 24, entries, tensors);
  }

  lemma ReadsPrintedHeader(data: seq<byte>, h: Header)
    requires HeaderOk(h) && At(data, 0, EncodeHeader(h))
    ensures ReadHeader(data) == Ok((h.version, h.tensors), |EncodeHeader(h)|)
  {
    hide At, SkipEntries, ReadTensors, EncodePreamble, EncodeEntries, EncodeTensors, EncodeHeader, Unsigned, Take;
    HeaderParts(data, h);
    ReadsPrintedPreamble(data, h.version, |h.tensors|, |h.metadata|);
    SkipsPrintedEntries(data, 24, h.metadata);
    ReadsPrintedTensors(data, 24 + |EncodeEntries(h.metadata)|, h.tensors, h.version);
  }

  /** Parsing undoes printing, whatever data follows the header. */
  lemma HeaderRoundTrip(h: Header, rest: seq<byte>)
    requires HeaderOk(h)
    ensures ReadHeader(EncodeHeader(h) + rest) == Ok((h.version, h.tensors), |EncodeHeader(h)|)
  {
    ReadsPrintedHeader(EncodeHeader(h) + rest, h);
  }

  /** Reading only the first `limit` bytes is enough for any header that fits in them. */
  lemma TruncatedRoundTrip(h: Header, rest: seq<byte>, limit: nat)
    requires HeaderOk(h) && |EncodeHeader(h)| <= limit
    ensures var file := EncodeHeader(h) + rest;
      ReadHeader(if |file| <= limit then file else file[..limit]) == Ok((h.version, h.tensors), |EncodeHeader(h)|)
  {
    var file := EncodeHeader(h) + rest;
    ReadsPrintedHeader(if |file| <= limit then file else file[..limit], h);
  }

  // ---------------------------------------------------------------- only printed headers are read

  lemma UnsignedReadsOnlyPrinted(data: seq<byte>, off: nat, size: nat)
    requires Unsigned(data, off, size).Ok?
    ensures var r := Unsigned(data, off, size);
      r.value < Pow256(size) && At(data, off, LittleEndian(r.value, size)) && r.off == off + size
  {
    EncodeAfterDecode(data[off..off + size]);
  }

  lemma NameReadsOnlyPrinted(data: seq<byte>, off: nat)
    requires Name(data, off).Ok?
    ensures var r := Name(data, off);
      |r.value| <= MAX_NAME && At(data, off, EncodeName(r.value)) && r.off == off + |EncodeName(r.value)|
  {
    UnsignedReadsOnlyPrinted(data, off, 8);
    var n := Unsigned(data, off, 8).value;
    AtConcat(data, off, LittleEndian(n, 8), data[off + 8..off + 8 + n]);
  }

  /** Whatever `skip_value` steps over is the encoding of some well-formed value of that type. */
  lemma {:induction false} SkipsOnlyPrinted(data: seq<byte>, off: nat, vtype: nat) returns (v: Value)
    requires off <= |data| && SkipValue(data, off, vtype).Ok?
    ensures WellFormed(v) && TypeOf(v) == vtype
    ensures At(data, off, Encode(v)) && SkipValue(data, off, vtype).off == off + |Encode(v)|
    decreases |data| - off, 0, 0
  {
    Limits();
    if IsScalar(vtype) {
      v := Scalar(vtype, data[off..off + ScalarSize(vtype)]);
    } else if vtype == STRING {
      UnsignedReadsOnlyPrinted(data, off, 8);
      var n := Unsigned(data, off, 8).value;
      v := Text(data[off + 8..off + 8 + n]);
      AtConcat(data, off, LittleEndian(n, 8), v.chars);
    } else {
      UnsignedReadsOnlyPrinted(data, off, 4);
      UnsignedReadsOnlyPrinted(data, off + 4, 8);
      var subtype, count := Unsigned(data, off, 4).value, Unsigned(data, off + 4, 8).value;
      var elems := SkipsOnlyPrintedMany(data, off + 12, subtype, count);
      v := Array(subtype, elems);
      AtConcat(data, off, LittleEndian(subtype, 4), LittleEndian(count, 8));
      AtConcat(data, off, LittleEndian(subtype, 4) + LittleEndian(count, 8), EncodeAll(elems));
    }
  }

  lemma {:induction false} SkipsOnlyPrintedMany(data: seq<byte>, off: nat, subtype: nat, count: nat)
    returns (elems: seq<Value>)
    requires off <= |data| && SkipMany(data, off, subtype, count).Ok?
    ensures |elems| == count && AllWellFormed(subtype, elems)
    ensures At(data, off, EncodeAll(elems)) && SkipMany(data, off, subtype, count).off == off + |EncodeAll(elems)|
    decreases |data| - off, 1, count
  {
    hide SkipValue, Encode, WellFormed;
    if count == 0 {
      elems := [];
    } else {
      var v := SkipsOnlyPrinted(data, off, subtype);
      var next := off + |Encode(v)|;
      var rest := SkipsOnlyPrintedMany(data, next, subtype, count - 1);
      elems := [v] + rest;
      assert elems[1..] == rest;
      AtConcat(data, off, Encode(v), EncodeAll(rest));
    }
  }

  lemma SkipsOnlyPrintedEntry(data: seq<byte>, off: nat) returns (e: Entry)
    requires off <= |data| && SkipEntry(data, off).Ok?
    ensures EntryOk(e) && At(data, off, EncodeEntry(e)) && SkipEntry(data, off).off == off + |EncodeEntry(e)|
  {
    Limits();
    hide Name, EncodeName, Unsigned, SkipValue, Encode, WellFormed, LittleEndian, Pow256, At;
    NameReadsOnlyPrinted(data, off);
    var key := Name(data, off).value;
    var afterKey := off + |EncodeName(key)|;
    UnsignedReadsOnlyPrinted(data, afterKey, 4);
    var vtype := Unsigned(data, afterKey, 4).value;
    var v := SkipsOnlyPrinted(data, afterKey + 4, vtype);
    e := Entry(key, v);
    AtConcat(data, afterKey, LittleEndian(vtype, 4), Encode(v));
    AtConcat(data, off, EncodeName(key), LittleEndian(vtype, 4) + Encode(v));
  }

  lemma {:induction false} SkipsOnlyPrintedEntries(data: seq<byte>, off: nat, count: nat) returns (entries: seq<Entry>)
    requires off <= |data| && SkipEntries(data, off, count).Ok?
    ensures |entries| == count && forall k :: 0 <= k < count ==> EntryOk(entries[k])
    ensures At(data, off, EncodeEntries(entries)) && SkipEntries(data, off, count).off == off + |EncodeEntries(entries)|
    decreases count
  {
    hide SkipEntry, EncodeEntry, EntryOk;
    if count == 0 {
      entries := [];
    } else {
      var e := SkipsOnlyPrintedEntry(data, off);
      var rest := SkipsOnlyPrintedEntries(data, off + |EncodeEntry(e)|, count - 1);
      entries := [e] + rest;
      assert entries[1..] == rest;
      AtConcat(data, off, EncodeEntry(e), EncodeEntries(rest));
    }
  }

  lemma {:induction false} ReadsOnlyPrintedDims(data: seq<byte>, off: nat, count: nat, size: nat)
    requires off <= |data| && ReadDims(data, off, count, size).Ok?
    ensures var r := ReadDims(data, off, count, size);
      |r.value| == count && DimsFit(r.value, size) && At(data, off, EncodeDims(r.value, size))
      && r.off == off + |EncodeDims(r.value, size)|
    decreases count
  {
    hide Unsigned, LittleEndian;
    if count > 0 {
      UnsignedReadsOnlyPrinted(data, off, size);
      ReadsOnlyPrintedDims(data, off + size, count - 1, size);
      var d, rest := Unsigned(data, off, size).value, ReadDims(data, off + size, count - 1, size).value;
      assert ([d] + rest)[1..] == rest;
      AtConcat(data, off, LittleEndian(d, size), EncodeDims(rest, size));
    }
  }

  lemma ReadsOnlyPrintedTensor(data: seq<byte>, off: nat, version: nat)
    requires off <= |data| && ReadTensor(data, off, version).Ok?
    ensures var r := ReadTensor(data, off, version);
      TensorOk(r.value, version) && At(data, off, EncodeTensor(r.value, version))
      && r.off == off + |EncodeTensor(r.value, version)|
  {
    Limits();
    hide Name, EncodeName, ReadDims, EncodeDims, Unsigned, LittleEndian, At, Pow256;
    var size, t := DimSize(version), ReadTensor(data, off, version).value;
    var name, count, dims := EncodeName(t.name), LittleEndian(|t.shape|, 4), EncodeDims(t.shape, size);
    var ggml, offset := LittleEndian(t.ggmlType, 4), LittleEndian(t.offset, 8);
    NameReadsOnlyPrinted(data, off);
    var o1 := off + |name|;
    UnsignedReadsOnlyPrinted(data, o1, 4);
    ReadsOnlyPrintedDims(data, o1 + 4, Unsigned(data, o1, 4).value, size);
    var o2 := o1 + 4 + |dims|;
    UnsignedReadsOnlyPrinted(data, o2, 4);
    UnsignedReadsOnlyPrinted(data, o2 + 4, 8);
    AtConcat(data, o2, ggml, offset);
    AtConcat(data, o1 + 4, dims, ggml + offset);
    AtConcat(data, o1, count, dims + (ggml + offset));
    AtConcat(data, off, name, count + (dims + (ggml + offset)));
  }

  lemma {:induction false} ReadsOnlyPrintedTensors(data: seq<byte>, off: nat, count: nat, version: nat)
    requires off <= |data| && ReadTensors(data, off, count, version).Ok?
    ensures var r := ReadTensors(data, off, count, version);
      && |r.value| == count
      && (forall k :: 0 <= k < count ==> TensorOk(r.value[k], version))
      && At(data, off, EncodeTensors(r.value, version))
      && r.off == off + |EncodeTensors(r.value, version)|
    decreases count
  {
    hide ReadTensor, EncodeTensor, TensorOk;
    if count > 0 {
      ReadsOnlyPrintedTensor(data, off, version);
      var first := ReadTensor(data, off, version);
      ReadsOnlyPrintedTensors(data, first.off, count - 1, version);
      var rest := ReadTensors(data, first.off, count - 1, version).value;
      assert ([first.value] + rest)[1..] == rest;
      AtConcat(data, off, EncodeTensor(first.value, version), EncodeTensors(rest, version));
    }
  }

  /** A buffer is accepted exactly when it starts with a printed header, and then that header is the answer. */
  lemma AcceptsExactlyPrintedHeaders(data: seq<byte>)
    ensures ReadHeader(data).Ok? <==> exists h :: HeaderOk(h) && At(data, 0, EncodeHeader(h))
  {
    if ReadHeader(data).Ok? {
      var h := HeaderBehind(data);
    }
    if exists h :: HeaderOk(h) && At(data, 0, EncodeHeader(h)) {
      var h :| HeaderOk(h) && At(data, 0, EncodeHeader(h));
      ReadsPrintedHeader(data, h);
    }
  }

  lemma HeaderBehind(data: seq<byte>) returns (h: Header)
    requires ReadHeader(data).Ok?
    ensures HeaderOk(h) && At(data, 0, EncodeHeader(h))
    ensures ReadHeader(data).value == (h.version, h.tensors)
  {
    hide *;
    var version, nTensors, nMetadata := PreambleBehind(data);
    PartsRead(data, version, nTensors, nMetadata);
    var entries := SkipsOnlyPrintedEntries(data, 24, nMetadata);
    var afterEntries := SkipEntries(data, 24, nMetadata).off;
    ReadsOnlyPrintedTensors(data, afterEntries, nTensors, version);
    h := Header(version, entries, ReadTensors(data, afterEntries, nTensors, version).value);
    PartsJoin(data, h, nTensors, nMetadata);
  }

  /** An accepted buffer's entries and tensors were read one after the other. */
  lemma PartsRead(data: seq<byte>, version: nat, nTensors: nat, nMetadata: nat)
    requires ReadHeader(data).Ok? && 24 <= |data|
    requires Take(data, 0, 4) == Ok(MAGIC, 4) && Unsigned(data, 4, 4) == Ok(version, 8)
    requires Unsigned(data, 8, 8) == Ok(nTensors, 16) && Unsigned(data, 16, 8) == Ok(nMetadata, 24)
    ensures var entries := SkipEntries(data, 24, nMetadata);
      && entries.Ok? && entries.off <= |data|
      && var tensors := ReadTensors(data, entries.off, nTensors, version);
         tensors.Ok? && ReadHeader(data).value == (version, tensors.value)
  {
    hide SkipEntries, ReadTensors, Take, Unsigned;
  }

  lemma PartsJoin(data: seq<byte>, h: Header, nTensors: nat, nMetadata: nat)
    requires 1 <= h.version <= 3 && nTensors == |h.tensors| < U64_LIMIT && nMetadata == |h.metadata| < U64_LIMIT
    requires (forall k :: 0 <= k < |h.metadata| ==> EntryOk(h.metadata[k]))
    requires (forall k :: 0 <= k < |h.tensors| ==> TensorOk(h.tensors[k], h.version))
    requires |EncodePreamble(h.version, nTensors, nMetadata)| == 24
    requires At(data, 0, EncodePreamble(h.version, nTensors, nMetadata)) && At(data, 24, EncodeEntries(h.metadata))
    requires At(data, 24 + |EncodeEntries(h.metadata)|, EncodeTensors(h.tensors, h.version))
    ensures HeaderOk(h) && At(data, 0, EncodeHeader(h))
  {
    hide At, EncodePreamble, EncodeEntries, EncodeTensors, EntryOk, TensorOk;
    AtConcat(data, 24, EncodeEntries(h.metadata), EncodeTensors(h.tensors, h.version));
    AtConcat(data, 0, EncodePreamble(h.version, nTensors, nMetadata),
             EncodeEntries(h.metadata) + EncodeTensors(h.tensors, h.version));
  }

  lemma PreambleBehind(data: seq<byte>) returns (version: nat, nTensors: nat, nMetadata: nat)
    requires ReadHeader(data).Ok?
    ensures 1 <= version <= 3 && nTensors < U64_LIMIT && nMetadata < U64_LIMIT && 24 <= |data|
    ensures Take(data, 0, 4) == Ok(MAGIC, 4) && Unsigned(data, 4, 4) == Ok(version, 8)
    ensures Unsigned(data, 8, 8) == Ok(nTensors, 16) && Unsigned(data, 16, 8) == Ok(nMetadata, 24)
    ensures |EncodePreamble(version, nTensors, nMetadata)| == 24
    ensures At(data, 0, EncodePreamble(version, nTensors, nMetadata))
  {
    hide SkipEntries, ReadTensors;
    Limits();
    UnsignedReadsOnlyPrinted(data, 4, 4);
    UnsignedReadsOnlyPrinted(data, 8, 8);
    UnsignedReadsOnlyPrinted(data, 16, 8);
    version, nTensors := Unsigned(data, 4, 4).value, Unsigned(data, 8, 8).value;
    nMetadata := Unsigned(data, 16, 8).value;
    PreambleAt(data, version, nTensors, nMetadata);
  }

  lemma PreambleAt(data: seq<byte>, version: nat, nTensors: nat, nMetadata: nat)
    requires At(data, 0, MAGIC) && At(data, 4, LittleEndian(version, 4))
    requires At(data, 8, LittleEndian(nTensors, 8)) && At(data, 16, LittleEndian(nMetadata, 8))
    ensures At(data, 0, EncodePreamble(version, nTensors, nMetadata))
  {
    var v, t, m := LittleEndian(version, 4), LittleEndian(nTensors, 8), LittleEndian(nMetadata, 8);
    AtConcat(data, 8, t, m);
    AtConcat(data, 4, v, t + m);
    AtConcat(data, 0, MAGIC, v + (t + m));
  }
}

/** The walker itself: one mutable offset, one method per thing it reads. */
module GgufReader {
  import opened Helpers
  import opened GgufFormat
  import opened GgufSpec

  /** A returned value, or the exception that ended the walk. */
  datatype Outcome<+T> = Value(value: T) | Raised(error: Error) {
    predicate IsFailure() {
      Raised?
    }

    function PropagateFailure<U>(): Outcome<U>
      requires Raised?
    {
      Raised(error)
    }

    function Extract(): T
      requires Value?
    {
      value
    }
  }

  /** `outcome`, with the reader left at `off`, is what the specification says of a start at `start`. */
  ghost predicate Matches<T(!new)>(spec: Parsed<T>, outcome: Outcome<T>, off: nat) {
    match spec
    case Ok(value, next) => outcome == Outcome.Value(value) && off == next
    case Bad(error) => outcome == Raised(error)
  }

  class Reader {
    const data: seq<byte>
    var off: nat

    ghost predicate Valid()
      reads this
    {
      off <= |data|
    }

    constructor (data: seq<byte>)
      ensures this.data == data && off == 0 && Valid()
    {
      this.data := data;
      off := 0;
    }

    method TakeBytes(n: nat) returns (r: Outcome<seq<byte>>)
      requires Valid()
      modifies this
      ensures Valid() && old(off) <= off && Matches(Take(data, old(off), n), r, off)
    {
      if off + n > |data| {
        return Raised(Eof);
      }
      r := Outcome.Value(data[off..off + n]);
      off := off + n;
    }

    method ReadUnsigned(size: nat) returns (r: Outcome<nat>)
      requires Valid()
      modifies this
      ensures Valid() && old(off) <= off && Matches(Unsigned(data, old(off), size), r, off)
    {
      var bytes :- TakeBytes(size);
      r := Outcome.Value(FromLittleEndian(bytes));
    }

    method ReadName() returns (r: Outcome<seq<byte>>)
      requires Valid()
      modifies this
      ensures Valid() && old(off) <= off && Matches(Name(data, old(off)), r, off)
    {
      var n :- ReadUnsigned(8);
      if n > MAX_NAME {
        return Raised(NameTooLong);
      }
      r := TakeBytes(n);
    }

    /** Recursive through nested arrays; it ends on every input. */
    method Skip(vtype: nat) returns (r: Outcome<()>)
      requires Valid()
      modifies this
      ensures Valid() && old(off) <= off && Matches(SkipValue(data, old(off), vtype), r, off)
      decreases |data| - off
    {
      if IsScalar(vtype) {
        var _ :- TakeBytes(ScalarSize(vtype));
      } else if vtype == STRING {
        var n :- ReadUnsigned(8);
        var _ :- TakeBytes(n);
      } else if vtype == ARRAY {
        ghost var start := off;
        var subtype :- ReadUnsigned(4);
        var count :- ReadUnsigned(8);
        ghost var body := off;
        var i := 0;
        while i < count
          invariant Valid() && start < body <= off && i <= count
          invariant SkipMany(data, body, subtype, count) == SkipMany(data, off, subtype, count - i)
          decreases count - i
        {
          var _ :- Skip(subtype);
          i := i + 1;
        }
      } else {
        return Raised(UnknownValueType);
      }
      r := Outcome.Value(());
    }

    method SkipMetadata(count: nat) returns (r: Outcome<()>)
      requires Valid()
      modifies this
      ensures Valid() && Matches(SkipEntries(data, old(off), count), r, off)
    {
      hide SkipEntry;
      var i := 0;
      while i < count
        invariant Valid() && i <= count
        invariant SkipEntries(data, old(off), count) == SkipEntries(data, off, count - i)
      {
        var _ :- SkipKeyAndValue();
        i := i + 1;
      }
      r := Outcome.Value(());
    }

    method SkipKeyAndValue() returns (r: Outcome<()>)
      requires Valid()
      modifies this
      ensures Valid() && Matches(SkipEntry(data, old(off)), r, off)
    {
      var _ :- ReadName();
      var vtype :- ReadUnsigned(4);
      r := Skip(vtype);
    }

    method ReadShape(nDims: nat, size: nat) returns (r: Outcome<seq<nat>>)
      requires Valid()
      modifies this
      ensures Valid() && Matches(ReadDims(data, old(off), nDims, size), r, off)
    {
      hide Unsigned;
      var shape := [];
      ghost var all := ReadDims(data, off, nDims, size);
      assert all.Ok? ==> shape + all.value == all.value;
      while |shape| < nDims
        invariant Valid() && |shape| <= nDims
        invariant all ==
          var rest := ReadDims(data, off, nDims - |shape|, size);
          if rest.Ok? then Ok(shape + rest.value, rest.off) else rest
      {
        var d :- ReadUnsigned(size);
        ghost var rest := ReadDims(data, off, nDims - |shape| - 1, size);
        if rest.Ok? {
          Regroup(shape, [d], rest.value);
        }
        shape := shape + [d];
      }
      assert shape + [] == shape;
      r := Outcome.Value(shape);
    }

    method ReadTensorInfo(version: nat) returns (r: Outcome<Tensor>)
      requires Valid()
      modifies this
      ensures Valid() && Matches(ReadTensor(data, old(off), version), r, off)
    {
      var name :- ReadName();
      var nDims :- ReadUnsigned(4);
      var shape :- ReadShape(nDims, DimSize(version));
      var ggmlType :- ReadUnsigned(4);
      var offset :- ReadUnsigned(8);
      r := Outcome.Value(Tensor(name, shape, ggmlType, offset));
    }

    method ReadTensorInfos(count: nat, version: nat) returns (r: Outcome<seq<Tensor>>)
      requires Valid()
      modifies this
      ensures Valid() && Matches(ReadTensors(data, old(off), count, version), r, off)
    {
      hide ReadTensor;
      var tensors := [];
      ghost var all := ReadTensors(data, off, count, version);
      assert all.Ok? ==> tensors + all.value == all.value;
      while |tensors| < count
        invariant Valid() && |tensors| <= count
        invariant all ==
          var rest := ReadTensors(data, off, count - |tensors|, version);
          if rest.Ok? then Ok(tensors + rest.value, rest.off) else rest
      {
        var t :- ReadTensorInfo(version);
        ghost var rest := ReadTensors(data, off, count - |tensors| - 1, version);
        if rest.Ok? {
          Regroup(tensors, [t], rest.value);
        }
        tensors := tensors + [t];
      }
      assert tensors + [] == tensors;
      r := Outcome.Value(tensors);
    }
  }

  /** At most `limit` bytes of the file are looked at. */
  method ReadGgufHeader(file: seq<byte>, limit: nat) returns (r: Outcome<(nat, seq<Tensor>)>)
    ensures var spec := ReadHeader(if |file| <= limit then file else file[..limit]);
      if spec.Ok? then r == Outcome.Value(spec.value) else r == Raised(spec.error)
  {
    var reader := new Reader(if |file| <= limit then file else file[..limit]);
    var magic :- reader.TakeBytes(4);
    if magic != MAGIC {
      return Raised(BadMagic);
    }
    var version :- reader.ReadUnsigned(4);
    if version !in {1, 2, 3} {
      return Raised(BadVersion);
    }
    var nTensors :- reader.ReadUnsigned(8);
    var nMetadata :- reader.ReadUnsigned(8);
    var _ :- reader.SkipMetadata(nMetadata);
    var tensors :- reader.ReadTensorInfos(nTensors, version);
    r := Outcome.Value((version, tensors));
  }
}
