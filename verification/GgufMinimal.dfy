/**
 The second, minimal walker (`GGUFMetadataReader`, BRAIN-DAEMON/memory/monitor.py): it keeps a few
 metadata values, steps over the rest with its own skipping code, and never reads the tensors.
 The file is a byte sequence with a cursor that `seek` may move past the end.
 */
module GgufMinimal {
  import opened GgufFormat
  import opened GgufSpec
  import opened Helpers

  /** What `_read_value` can return. */
  datatype MetaValue = Chars(chars: seq<byte>) | Number(n: int) | Nothing

  /** `struct.error` on a short read, `ValueError` on an unknown type or a wrong magic number. */
  datatype Failure = ShortRead | UnknownType | WrongMagic

  datatype Step<+T> = Done(value: T, pos: nat) | Failed(why: Failure) {
    predicate IsFailure() {
      Failed?
    }

    function PropagateFailure<U>(): Step<U>
      requires Failed?
    {
      Failed(why)
    }

    function Extract(): (T, nat)
      requires Done?
    {
      (value, pos)
    }
  }

  /** `f.read(n)`: whatever is left when that is less. */
  function FileRead(data: seq<byte>, pos: nat, n: nat): (seq<byte>, nat) {
    if pos >= |data| then ([], pos)
    else if pos + n <= |data| then (data[pos..pos + n], pos + n)
    else (data[pos..], |data|)
  }

  /** Reading twice is reading once, and a read is short only when it ends at the end of the file or beyond. */
  lemma ReadsJoin(data: seq<byte>, pos: nat, n: nat, m: nat)
    ensures var (first, mid) := FileRead(data, pos, n);
            var (second, end) := FileRead(data, mid, m);
      && FileRead(data, pos, n + m) == (first + second, end)
      && (|first| < n ==> mid >= |data|) && |first| <= n
  {
    if pos + n < |data| {
      assert data[pos..pos + n] + data[pos + n..] == data[pos..];
      if pos + n + m <= |data| {
        assert data[pos..pos + n] + data[pos + n..pos + n + m] == data[pos..pos + n + m];
      }
    } else if pos < |data| {
      assert data[pos..] + [] == data[pos..] && data[pos..|data|] == data[pos..];
      assert FileRead(data, pos, n) == (data[pos..], |data|) && FileRead(data, pos, n + m) == (data[pos..], |data|);
    } else {
      var none: seq<byte> := [];
      assert none + none == none;
    }
  }

  /** `struct.unpack` of one unsigned integer from `f.read(size)`. */
  function Unpack(data: seq<byte>, pos: nat, size: nat): Step<nat> {
    var (bytes, next) := FileRead(data, pos, size);
    if |bytes| == size then Done(FromLittleEndian(bytes), next) else Failed(ShortRead)
  }

  function ReadString(data: seq<byte>, pos: nat): Step<seq<byte>> {
    var (n, next) :- Unpack(data, pos, 8);
    var (bytes, end) := FileRead(data, next, n);
    Done(bytes, end)
  }

  /** `_skip_value`; the array branch treats every element type without a size as a string. */
  function Skip(data: seq<byte>, pos: nat, vtype: nat): Step<()> {
    match vtype
    case 0 | 1 | 7 => Done((), pos + 1)
    case 2 | 3 => Done((), pos + 2)
    case 4 | 5 | 6 => Done((), pos + 4)
    case 8 => SkipString(data, pos)
    case 9 =>
      var (elemType, mid) :- Unpack(data, pos, 4);
      var (count, body) :- Unpack(data, mid, 8);
      if IsScalar(elemType) then Done((), body + count * ScalarSize(elemType))
      else SkipStrings(data, body, count)
    case _ => Done((), pos)
  }

  function SkipString(data: seq<byte>, pos: nat): Step<()> {
    var (n, next) :- Unpack(data, pos, 8);
    Done((), next + n)
  }

  function SkipStrings(data: seq<byte>, pos: nat, count: nat): Step<()>
    decreases count
  {
    if count == 0 then Done((), pos)
    else
      var (_, next) :- SkipString(data, pos);
      SkipStrings(data, next, count - 1)
  }

  function AsSigned(n: nat): int {
    if n < U32_LIMIT / 2 then n else n - U32_LIMIT
  }

  function ReadValue(data: seq<byte>, pos: nat, vtype: nat): Step<MetaValue> {
    if vtype > 9 then Failed(UnknownType)
    else if vtype == STRING then
      var (chars, next) :- ReadString(data, pos);
      Done(Chars(chars), next)
    else if vtype == 4 then
      var (n, next) :- Unpack(data, pos, 4);
      Done(Number(n), next)
    else if vtype == 5 then
      var (n, next) :- Unpack(data, pos, 4);
      Done(Number(AsSigned(n)), next)
    else
      var (_, next) :- Skip(data, pos, vtype);
      Done(Nothing, next)
  }

  // ---------------------------------------------------------------- the keys it wants

  const ARCHITECTURE := Ascii("general.architecture")
  const NAME := Ascii("general.name")

  function Ascii(s: string): seq<byte> {
    seq(|s|, k requires 0 <= k < |s| => (s[k] as int) % 256)
  }

  function Decimal(n: nat): string {
    if n < 10 then [Digit(n)] else Decimal(n / 10) + [Digit(n % 10)]
  }

  function Digit(d: nat): char
    requires d < 10
  {
    "0123456789"[d]
  }

  /** How an f-string renders the architecture value. */
  function Render(v: MetaValue): seq<byte> {
    match v
    case Chars(chars) => chars
    case Number(n) => Ascii(if n < 0 then "-" + Decimal(-n) else Decimal(n))
    case Nothing => Ascii("None")
  }

  const SUFFIXES: seq<string> := [
    ".block_count", ".context_length", ".embedding_length", ".attention.head_count",
    ".attention.head_count_kv", ".attention.key_length", ".attention.value_length",
    ".attention.sliding_window_size"]

  /** `arch` is the architecture value once its keys have been added to the wanted ones. */
  predicate Wanted(key: seq<byte>, arch: Option<MetaValue>) {
    || key == ARCHITECTURE || key == NAME
    || (arch.Some? && exists k :: 0 <= k < |SUFFIXES| && key == Render(arch.value) + Ascii(SUFFIXES[k]))
  }

  /** What the reader knows between two entries. */
  datatype State = State(metadata: map<seq<byte>, MetaValue>, arch: Option<MetaValue>)

  /** The architecture's keys join once, on the first entry after the value was stored. */
  function NoticeArchitecture(st: State): State {
    if st.arch.None? && ARCHITECTURE in st.metadata then st.(arch := Some(st.metadata[ARCHITECTURE])) else st
  }

  function ReadEntry(data: seq<byte>, pos: nat, st: State): Step<State> {
    var (key, afterKey) :- ReadString(data, pos);
    var (vtype, afterType) :- Unpack(data, afterKey, 4);
    var noticed := NoticeArchitecture(st);
    if Wanted(key, noticed.arch) then
      var (v, next) :- ReadValue(data, afterType, vtype);
      Done(noticed.(metadata := noticed.metadata[key := v]), next)
    else
      var (_, next) :- Skip(data, afterType, vtype);
      Done(noticed, next)
  }

  function ReadEntries(data: seq<byte>, pos: nat, st: State, count: nat): Step<State>
    decreases count
  {
    if count == 0 then Done(st, pos)
    else
      var (after, next) :- ReadEntry(data, pos, st);
      ReadEntries(data, next, after, count - 1)
  }

  const START := State(map[], None)

  /** `read`: magic, version and tensor count are unpacked with the entry count; only the magic is looked at. */
  function ReadFile(data: seq<byte>): Step<State> {
    var (magic, afterMagic) :- Unpack(data, 0, 4);
    var (_, afterVersion) :- Unpack(data, afterMagic, 4);
    var (_, afterTensors) :- Unpack(data, afterVersion, 8);
    var (count, body) :- Unpack(data, afterTensors, 8);
    if magic != 0x46554747 then Failed(WrongMagic) else ReadEntries(data, body, START, count)
  }

  // ---------------------------------------------------------------- the domain on which it is exact

  /** Scalars of the ten types it knows, strings, and arrays that do not nest. */
  predicate Simple(v: Value) {
    match v
    case Scalar(vtype, _) => vtype <= 7
    case Text(_) => true
    case Array(subtype, elems) => subtype != ARRAY || elems == []
  }

  /** The value `_read_value` is meant to deliver. */
  function Meaning(v: Value): MetaValue {
    match v
    case Text(chars) => Chars(chars)
    case Scalar(vtype, payload) =>
      if vtype == 4 then Number(FromLittleEndian(payload))
      else if vtype == 5 then Number(AsSigned(FromLittleEndian(payload)))
      else Nothing
    case Array(_, _) => Nothing
  }

  lemma UnpackReadsPrinted(data: seq<byte>, pos: nat, n: nat, size: nat)
    requires n < Pow256(size) && At(data, pos, LittleEndian(n, size))
    ensures Unpack(data, pos, size) == Done(n, pos + size)
  {
    DecodeAfterEncode(n, size);
    if size == 0 {
      assert data[pos..pos] == [];
    }
  }

  lemma StringReadsPrinted(data: seq<byte>, pos: nat, chars: seq<byte>)
    requires |chars| < U64_LIMIT && At(data, pos, EncodeName(chars))
    ensures ReadString(data, pos) == Done(chars, pos + 8 + |chars|)
    ensures SkipString(data, pos) == Done((), pos + 8 + |chars|)
  {
    Limits();
    hide LittleEndian, FromLittleEndian, Pow256;
    AtConcat(data, pos, LittleEndian(|chars|, 8), chars);
    UnpackReadsPrinted(data, pos, |chars|, 8);
  }

  lemma {:induction false} EncodedScalars(elems: seq<Value>, subtype: nat)
    requires AllWellFormed(subtype, elems) && IsScalar(subtype)
    ensures |EncodeAll(elems)| == |elems| * ScalarSize(subtype)
    decreases |elems|
  {
    if elems != [] {
      EncodedScalars(elems[1..], subtype);
      assert |elems| * ScalarSize(subtype) == |elems[1..]| * ScalarSize(subtype) + ScalarSize(subtype);
    }
  }

  lemma {:induction false} SkipsPrintedStrings(data: seq<byte>, pos: nat, elems: seq<Value>)
    requires AllWellFormed(STRING, elems) && At(data, pos, EncodeAll(elems))
    ensures SkipStrings(data, pos, |elems|) == Done((), pos + |EncodeAll(elems)|)
    decreases |elems|
  {
    hide LittleEndian, At;
    if elems != [] {
      AtConcat(data, pos, Encode(elems[0]), EncodeAll(elems[1..]));
      StringReadsPrinted(data, pos, elems[0].chars);
      SkipsPrintedStrings(data, pos + |Encode(elems[0])|, elems[1..]);
    }
  }

  lemma ArrayPrefix(data: seq<byte>, pos: nat, subtype: nat, elems: seq<Value>)
    requires subtype < U32_LIMIT && |elems| < U64_LIMIT && At(data, pos, Encode(Array(subtype, elems)))
    ensures Unpack(data, pos, 4) == Done(subtype, pos + 4)
    ensures Unpack(data, pos + 4, 8) == Done(|elems|, pos + 12)
    ensures At(data, pos + 12, EncodeAll(elems))
    ensures |Encode(Array(subtype, elems))| == 12 + |EncodeAll(elems)|
  {
    Limits();
    hide At, Unpack, Pow256, LittleEndian;
    AtConcat(data, pos, LittleEndian(subtype, 4) + LittleEndian(|elems|, 8), EncodeAll(elems));
    AtConcat(data, pos, LittleEndian(subtype, 4), LittleEndian(|elems|, 8));
    UnpackReadsPrinted(data, pos, subtype, 4);
    UnpackReadsPrinted(data, pos + 4, |elems|, 8);
  }

  /** On simple values the minimal skipping code consumes exactly the encoding, as the full walker does. */
  lemma SkipsSimpleValues(data: seq<byte>, pos: nat, v: Value)
    requires WellFormed(v) && Simple(v) && At(data, pos, Encode(v))
    ensures Skip(data, pos, TypeOf(v)) == Done((), pos + |Encode(v)|)
  {
    hide LittleEndian, Unpack;
    match v
    case Scalar(_, _) =>
    case Text(chars) =>
      StringReadsPrinted(data, pos, chars);
    case Array(subtype, elems) =>
      ArrayPrefix(data, pos, subtype, elems);
      if IsScalar(subtype) {
        EncodedScalars(elems, subtype);
      } else {
        assert elems == [] || subtype == STRING by {
          assert elems != [] ==> TypeOf(elems[0]) == subtype && WellFormed(elems[0]);
        }
        if elems != [] {
          SkipsPrintedStrings(data, pos + 12, elems);
        }
      }
  }

  lemma ReadsSimpleValues(data: seq<byte>, pos: nat, v: Value)
    requires WellFormed(v) && Simple(v) && At(data, pos, Encode(v))
    ensures ReadValue(data, pos, TypeOf(v)) == Done(Meaning(v), pos + |Encode(v)|)
  {
    SkipsSimpleValues(data, pos, v);
    match v
    case Scalar(vtype, payload) =>
    case Text(chars) =>
      StringReadsPrinted(data, pos, chars);
    case Array(_, _) =>
  }

  /** Among values without nested arrays, exactly those of the three 64-bit types are not skipped exactly:
      the cursor does not move at all. */
  lemma ExactOnlyBelowTypeTen(data: seq<byte>, pos: nat, v: Value)
    requires WellFormed(v) && At(data, pos, Encode(v))
    requires v.Array? ==> Simple(v)
    ensures Skip(data, pos, TypeOf(v)) == Done((), pos + |Encode(v)|) <==> TypeOf(v) <= 9
    ensures TypeOf(v) > 9 ==>
      && Skip(data, pos, TypeOf(v)) == Done((), pos) && |Encode(v)| == 8
      && ReadValue(data, pos, TypeOf(v)) == Failed(UnknownType)
  {
    if Simple(v) {
      SkipsSimpleValues(data, pos, v);
    }
  }

  /** The first inner array's subtype and the low half of its count, read as a string length. */
  function FalseLength(inner: Value): nat
    requires inner.Array?
  {
    inner.subtype + U32_LIMIT * (|inner.elems| % U32_LIMIT)
  }

  lemma HalvesOfCount(n: nat)
    requires n < U64_LIMIT
    ensures n == n % U32_LIMIT + U32_LIMIT * (n / U32_LIMIT) && n / U32_LIMIT < U32_LIMIT
  {
  }

  lemma PrefixOfHalves(s: nat, low: nat, high: nat)
    requires s < U32_LIMIT && low < U32_LIMIT && high < U32_LIMIT
    ensures LittleEndian(s, 4) + LittleEndian(low + U32_LIMIT * high, 8)
         == LittleEndian(s + U32_LIMIT * low, 8) + LittleEndian(high, 4)
  {
    Limits();
    hide LittleEndian, Pow256;
    JoinedNumbers(low, high, 4, 4);
    JoinedNumbers(s, low, 4, 4);
    Regroup(LittleEndian(s, 4), LittleEndian(low, 4), LittleEndian(high, 4));
  }

  /** The twelve bytes of an array's prefix are a false length followed by the high half of the count. */
  lemma PrefixAsLength(inner: Value)
    requires inner.Array? && inner.subtype < U32_LIMIT && |inner.elems| < U64_LIMIT
    ensures FalseLength(inner) < U64_LIMIT
    ensures LittleEndian(inner.subtype, 4) + LittleEndian(|inner.elems|, 8)
         == LittleEndian(FalseLength(inner), 8) + LittleEndian(|inner.elems| / U32_LIMIT, 4)
  {
    hide LittleEndian;
    var n := |inner.elems|;
    HalvesOfCount(n);
    PrefixOfHalves(inner.subtype, n % U32_LIMIT, n / U32_LIMIT);
  }

  lemma FirstIsArray(v: Value)
    requires v.Array? && v.subtype == ARRAY && v.elems != [] && WellFormed(v)
    ensures v.elems[0].Array? && WellFormed(v.elems[0]) && v.elems[0].subtype < U32_LIMIT && |v.elems[0].elems| < U64_LIMIT
    ensures |v.elems| < U64_LIMIT
  {
    assert TypeOf(v.elems[0]) == ARRAY && WellFormed(v.elems[0]);
  }

  /** What the string-skipping loop finds first in an array of arrays. */
  lemma FirstInnerArray(data: seq<byte>, pos: nat, v: Value)
    requires v.Array? && v.subtype == ARRAY && v.elems != [] && WellFormed(v) && At(data, pos, Encode(v))
    ensures Unpack(data, pos, 4) == Done(ARRAY, pos + 4) && Unpack(data, pos + 4, 8) == Done(|v.elems|, pos + 12)
    ensures v.elems[0].Array? && WellFormed(v.elems[0])
    ensures Unpack(data, pos + 12, 8) == Done(FalseLength(v.elems[0]), pos + 20)
    ensures |Encode(v)| == 12 + |EncodeAll(v.elems)|
  {
    FirstIsArray(v);
    EncodedParts(v);
    hide WellFormed, At, Unpack, Encode, EncodeAll, LittleEndian, AllWellFormed, TypeOf, FalseLength;
    ArrayPrefix(data, pos, ARRAY, v.elems);
    var inner := v.elems[0];
    var prefix := LittleEndian(inner.subtype, 4) + LittleEndian(|inner.elems|, 8);
    AtConcat(data, pos + 12, Encode(inner), EncodeAll(v.elems[1..]));
    AtConcat(data, pos + 12, prefix, EncodeAll(inner.elems));
    PrefixUnpacks(data, pos + 12, inner);
  }

  lemma EncodedParts(v: Value)
    requires v.Array? && v.subtype == ARRAY && v.elems != [] && v.elems[0].Array?
    ensures v == Array(ARRAY, v.elems) && EncodeAll(v.elems) == Encode(v.elems[0]) + EncodeAll(v.elems[1..])
    ensures var inner := v.elems[0];
      Encode(inner) == (LittleEndian(inner.subtype, 4) + LittleEndian(|inner.elems|, 8)) + EncodeAll(inner.elems)
  {
    hide LittleEndian;
  }

  lemma PrefixUnpacks(data: seq<byte>, pos: nat, inner: Value)
    requires inner.Array? && inner.subtype < U32_LIMIT && |inner.elems| < U64_LIMIT
    requires At(data, pos, LittleEndian(inner.subtype, 4) + LittleEndian(|inner.elems|, 8))
    ensures Unpack(data, pos, 8) == Done(FalseLength(inner), pos + 8)
  {
    hide LittleEndian, At, Unpack, Pow256, FalseLength;
    var n, length := |inner.elems|, FalseLength(inner);
    PrefixAsLength(inner);
    Limits();
    AtConcat(data, pos, LittleEndian(length, 8), LittleEndian(n / U32_LIMIT, 4));
    UnpackReadsPrinted(data, pos, length, 8);
  }

  lemma {:induction false} SkippingGoesForward(data: seq<byte>, pos: nat, count: nat)
    ensures SkipStrings(data, pos, count).Done? ==> SkipStrings(data, pos, count).pos >= pos
    decreases count
  {
    assert SkipString(data, pos).Done? ==> SkipString(data, pos).pos >= pos;
    hide SkipString;
    if count > 0 && SkipString(data, pos).Done? {
      SkippingGoesForward(data, SkipString(data, pos).pos, count - 1);
    }
  }

  lemma SkipsFromTheFirst(data: seq<byte>, pos: nat, v: Value)
    requires v.Array? && v.subtype == ARRAY && v.elems != [] && WellFormed(v) && At(data, pos, Encode(v))
    ensures v.elems[0].Array?
    ensures Skip(data, pos, ARRAY) == SkipStrings(data, pos + 20 + FalseLength(v.elems[0]), |v.elems| - 1)
  {
    hide FalseLength, Encode, EncodeAll, WellFormed, At, Unpack, Skip, SkipStrings;
    FirstInnerArray(data, pos, v);
    FirstStringSkipped(data, pos + 12, FalseLength(v.elems[0]), |v.elems|);
    ArrayOfOthers(data, pos, ARRAY, |v.elems|);
  }

  lemma FirstStringSkipped(data: seq<byte>, pos: nat, length: nat, count: nat)
    requires Unpack(data, pos, 8) == Done(length, pos + 8) && count > 0
    ensures SkipStrings(data, pos, count) == SkipStrings(data, pos + 8 + length, count - 1)
  {
    hide Unpack;
  }

  lemma ArrayOfOthers(data: seq<byte>, pos: nat, elemType: nat, count: nat)
    requires Unpack(data, pos, 4) == Done(elemType, pos + 4) && Unpack(data, pos + 4, 8) == Done(count, pos + 12)
    requires !IsScalar(elemType)
    ensures Skip(data, pos, ARRAY) == SkipStrings(data, pos + 12, count)
  {
    hide Unpack, SkipStrings;
  }

  lemma {:induction false} ElementsTakeBytes(subtype: nat, elems: seq<Value>)
    requires AllWellFormed(subtype, elems)
    ensures |EncodeAll(elems)| >= |elems|
    ensures elems != [] ==> |EncodeAll(elems)| >= |Encode(elems[0])|
    decreases |elems|
  {
    if elems != [] {
      ElementsTakeBytes(subtype, elems[1..]);
    }
  }

  /** A non-empty array first inside an array of less than four gigabytes is never skipped exactly: its own count becomes
      the high half of a string length, which takes the cursor past the end of the value, and it never comes back. */
  lemma NestedArraysOvershoot(data: seq<byte>, pos: nat, v: Value)
    requires v.Array? && v.subtype == ARRAY && v.elems != [] && WellFormed(v) && At(data, pos, Encode(v))
    requires v.elems[0].Array? && v.elems[0].elems != []
    requires |Encode(v)| < U32_LIMIT
    ensures Skip(data, pos, ARRAY).Done? ==> Skip(data, pos, ARRAY).pos > pos + |Encode(v)|
    ensures Skip(data, pos, ARRAY) != Done((), pos + |Encode(v)|)
  {
    hide Skip, SkipStrings, Encode, WellFormed, At, Unpack;
    InnerCountFits(v);
    assert FalseLength(v.elems[0]) >= U32_LIMIT;
    hide FalseLength;
    SkipsFromTheFirst(data, pos, v);
    SkippingGoesForward(data, pos + 20 + FalseLength(v.elems[0]), |v.elems| - 1);
  }

  lemma InnerCountFits(v: Value)
    requires v.Array? && v.elems != [] && v.elems[0].Array? && WellFormed(v) && |Encode(v)| < U32_LIMIT
    ensures |v.elems[0].elems| < U32_LIMIT
  {
    var inner := v.elems[0];
    assert AllWellFormed(v.subtype, v.elems) && WellFormed(inner);
    ElementsTakeBytes(v.subtype, v.elems);
    ElementsTakeBytes(inner.subtype, inner.elems);
    assert |Encode(v)| == 12 + |EncodeAll(v.elems)| && |Encode(inner)| == 12 + |EncodeAll(inner.elems)|;
    hide Encode, EncodeAll, WellFormed;
  }

  /** With a single inner array the cursor ends twenty bytes and the false length further on: that is exact if and only if
      the false length happens to be what is left of the prefix, four bytes, and of the elements. */
  lemma SingleNestedArray(data: seq<byte>, pos: nat, inner: Value)
    requires inner.Array? && WellFormed(Array(ARRAY, [inner])) && At(data, pos, Encode(Array(ARRAY, [inner])))
    ensures Skip(data, pos, ARRAY) == Done((), pos + 20 + FalseLength(inner))
    ensures Skip(data, pos, ARRAY) == Done((), pos + |Encode(Array(ARRAY, [inner]))|)
      <==> FalseLength(inner) == 4 + |EncodeAll(inner.elems)|
  {
    hide Skip, At, FalseLength;
    var v := Array(ARRAY, [inner]);
    FirstIsArray(v);
    assert v.elems[0] == inner;
    SkipsFromTheFirst(data, pos, v);
    assert SkipStrings(data, pos + 20 + FalseLength(inner), 0) == Done((), pos + 20 + FalseLength(inner));
    assert |Encode(v)| == 24 + |EncodeAll(inner.elems)| by {
      assert [inner][1..] == [];
      assert EncodeAll([inner]) == Encode(inner);
    }
    hide Skip, SkipStrings, Encode, EncodeAll, WellFormed, At, FalseLength;
  }

  /** The coincidence happens: an empty array of 32-bit integers inside an array is skipped right, because its type number,
      4, read as a string length, covers the rest of its prefix. */
  lemma SomeNestedArraysAreSkipped(data: seq<byte>, pos: nat)
    requires At(data, pos, Encode(Array(ARRAY, [Array(4, [])])))
    ensures WellFormed(Array(ARRAY, [Array(4, [])])) && !Simple(Array(ARRAY, [Array(4, [])]))
    ensures Skip(data, pos, ARRAY) == Done((), pos + |Encode(Array(ARRAY, [Array(4, [])]))|)
  {
    var inner := Array(4, []);
    assert AllWellFormed(ARRAY, [inner]) by {
      assert [inner][1..] == [];
    }
    assert WellFormed(Array(ARRAY, [inner]));
    SingleNestedArray(data, pos, inner);
    hide Skip, Encode, At, WellFormed;
  }

  // ---------------------------------------------------------------- lock-step over the whole file

  predicate EntrySimple(e: Entry) {
    EntryOk(e) && Simple(e.value)
  }

  /** The meaning of one entry, without any bytes. */
  function Learn(st: State, e: Entry): State {
    var noticed := NoticeArchitecture(st);
    if Wanted(e.key, noticed.arch) then noticed.(metadata := noticed.metadata[e.key := Meaning(e.value)]) else noticed
  }

  function LearnAll(st: State, entries: seq<Entry>): State
    decreases |entries|
  {
    if entries == [] then st else LearnAll(Learn(st, entries[0]), entries[1..])
  }

  /** Once key and type are read, an entry is learned if its value is both read and skipped up to `next`. */
  lemma EntryByParts(data: seq<byte>, pos: nat, st: State, e: Entry, afterKey: nat, afterType: nat, next: nat)
    requires ReadString(data, pos) == Done(e.key, afterKey)
    requires Unpack(data, afterKey, 4) == Done(TypeOf(e.value), afterType)
    requires ReadValue(data, afterType, TypeOf(e.value)) == Done(Meaning(e.value), next)
    requires Skip(data, afterType, TypeOf(e.value)) == Done((), next)
    ensures ReadEntry(data, pos, st) == Done(Learn(st, e), next)
  {
    hide ReadString, Unpack, ReadValue, Skip, Meaning, Wanted, NoticeArchitecture;
  }

  /** After one printed entry both walkers stand at the same offset. */
  lemma EntryInLockStep(data: seq<byte>, pos: nat, st: State, e: Entry)
    requires EntrySimple(e) && At(data, pos, EncodeEntry(e))
    ensures ReadEntry(data, pos, st) == Done(Learn(st, e), pos + |EncodeEntry(e)|)
    ensures SkipEntry(data, pos) == Ok((), pos + |EncodeEntry(e)|)
  {
    hide *;
    SimpleEntryValue(e);
    SkipsPrintedEntry(data, pos, e);
    EntryStarts(data, pos, e);
    var body := pos + 12 + |e.key|;
    SkipsSimpleValues(data, body, e.value);
    ReadsSimpleValues(data, body, e.value);
    EntryByParts(data, pos, st, e, body - 4, body, body + |Encode(e.value)|);
  }

  lemma SimpleEntryValue(e: Entry)
    requires EntrySimple(e)
    ensures EntryOk(e) && WellFormed(e.value) && Simple(e.value)
  {
  }

  /** Key and type of a printed entry as the minimal reader gets them, and its value behind them. */
  lemma EntryStarts(data: seq<byte>, pos: nat, e: Entry)
    requires EntryOk(e) && At(data, pos, EncodeEntry(e))
    ensures ReadString(data, pos) == Done(e.key, pos + 8 + |e.key|)
    ensures Unpack(data, pos + 8 + |e.key|, 4) == Done(TypeOf(e.value), pos + 12 + |e.key|)
    ensures At(data, pos + 12 + |e.key|, Encode(e.value)) && |EncodeEntry(e)| == 12 + |e.key| + |Encode(e.value)|
  {
    Limits();
    var name, vtype := EncodeName(e.key), LittleEndian(TypeOf(e.value), 4);
    assert EncodeEntry(e) == name + (vtype + Encode(e.value)) && |name| == 8 + |e.key|;
    assert TypeOf(e.value) < U32_LIMIT;
    hide ReadString, Encode, LittleEndian, FromLittleEndian, Pow256, At, Unpack, EncodeName, EncodeEntry, WellFormed;
    AtConcat(data, pos, name, vtype + Encode(e.value));
    AtConcat(data, pos + |name|, vtype, Encode(e.value));
    StringReadsPrinted(data, pos, e.key);
    UnpackReadsPrinted(data, pos + |name|, TypeOf(e.value), 4);
  }

  lemma {:induction false} EntriesInLockStep(data: seq<byte>, pos: nat, st: State, entries: seq<Entry>, k: nat)
    requires k <= |entries| && forall i :: 0 <= i < |entries| ==> EntrySimple(entries[i])
    requires At(data, pos, EncodeEntries(entries))
    ensures ReadEntries(data, pos, st, k) == Done(LearnAll(st, entries[..k]), pos + |EncodeEntries(entries[..k])|)
    ensures SkipEntries(data, pos, k) == Ok((), pos + |EncodeEntries(entries[..k])|)
    decreases k
  {
    hide ReadEntry, SkipEntry, EncodeEntry, EntrySimple, Learn;
    if k > 0 {
      AtConcat(data, pos, EncodeEntry(entries[0]), EncodeEntries(entries[1..]));
      EntryInLockStep(data, pos, st, entries[0]);
      EntriesInLockStep(data, pos + |EncodeEntry(entries[0])|, Learn(st, entries[0]), entries[1..], k - 1);
      assert entries[..k][1..] == entries[1..][..k - 1];
    }
  }

  /** On a file whose metadata is simple the minimal reader stands, after every number of keys, where the
      full walker stands, and ends with what the entries mean. */
  lemma WalkersAgree(h: Header, rest: seq<byte>, k: nat)
    requires HeaderOk(h) && k <= |h.metadata|
    requires forall i :: 0 <= i < |h.metadata| ==> Simple(h.metadata[i].value)
    ensures var data := EncodeHeader(h) + rest;
      && ReadEntries(data, 24, START, k).Done? && SkipEntries(data, 24, k).Ok?
      && ReadEntries(data, 24, START, k).pos == SkipEntries(data, 24, k).off
      && ReadFile(data) == Done(LearnAll(START, h.metadata), 24 + |EncodeEntries(h.metadata)|)
  {
    var data := EncodeHeader(h) + rest;
    hide At, ReadEntries, SkipEntries, EncodeHeader, EncodeEntries, Unpack, EncodePreamble, WellFormed, Simple, TensorOk, EncodeTensors, LearnAll, EncodeName;
    assert At(data, 0, EncodeHeader(h)) by {
      HeaderStands(h, rest);
    }
    HeaderParts(data, h);
    PreambleUnpacks(data, h.version, |h.tensors|, |h.metadata|);
    forall i | 0 <= i < |h.metadata| ensures EntrySimple(h.metadata[i]) {
    }
    EntriesInLockStep(data, 24, START, h.metadata, k);
    EntriesInLockStep(data, 24, START, h.metadata, |h.metadata|);
    assert h.metadata[..|h.metadata|] == h.metadata;
  }

  lemma {:induction false} EntriesSplit(entries: seq<Entry>, k: nat)
    requires k <= |entries|
    ensures EncodeEntries(entries) == EncodeEntries(entries[..k]) + EncodeEntries(entries[k..])
    decreases k
  {
    hide EncodeEntry;
    if k == 0 {
      assert entries[..0] == [] && entries[0..] == entries;
    } else {
      EntriesSplit(entries[1..], k - 1);
      assert entries[..k][1..] == entries[1..][..k - 1] && entries[k..] == entries[1..][k - 1..];
    }
  }

  lemma {:induction false} ReadOneMore(data: seq<byte>, pos: nat, st: State, k: nat)
    requires ReadEntries(data, pos, st, k).Done?
    ensures var r := ReadEntries(data, pos, st, k);
      ReadEntries(data, pos, st, k + 1) == ReadEntry(data, r.pos, r.value)
    decreases k
  {
    hide ReadEntry;
    if k == 0 {
      var r := ReadEntry(data, pos, st);
      assert r.Done? ==> ReadEntries(data, r.pos, r.value, 0) == Done(r.value, r.pos);
    } else {
      var r := ReadEntry(data, pos, st);
      ReadOneMore(data, r.pos, r.value, k - 1);
    }
  }

  /** Both walkers have got through `k` entries and stand at the same offset. */
  predicate InStep(data: seq<byte>, k: nat) {
    && 24 <= |data| && ReadEntries(data, 24, START, k).Done? && SkipEntries(data, 24, k).Ok?
    && ReadEntries(data, 24, START, k).pos == SkipEntries(data, 24, k).off
  }

  /** A value that can be neither read nor stepped over leaves the cursor behind the type. */
  lemma EntryWithoutValue(data: seq<byte>, pos: nat, st: State, key: seq<byte>, vtype: nat, afterKey: nat, afterType: nat)
    requires ReadString(data, pos) == Done(key, afterKey) && Unpack(data, afterKey, 4) == Done(vtype, afterType)
    requires ReadValue(data, afterType, vtype).Failed? && Skip(data, afterType, vtype) == Done((), afterType)
    ensures ReadEntry(data, pos, st).Done? ==> ReadEntry(data, pos, st).pos == afterType
  {
    hide ReadString, Unpack, ReadValue, Skip, Wanted, NoticeArchitecture;
  }

  /** An entry with a 64-bit value: the minimal reader gives up on it or stays eight bytes behind. */
  lemma LongScalarStopsShort(data: seq<byte>, pos: nat, st: State, e: Entry)
    requires EntryOk(e) && e.value.Scalar? && e.value.vtype > 9 && At(data, pos, EncodeEntry(e))
    ensures ReadEntry(data, pos, st).Done? ==> ReadEntry(data, pos, st).pos + 8 == pos + |EncodeEntry(e)|
  {
    assert WellFormed(e.value) && TypeOf(e.value) == e.value.vtype;
    hide *;
    EntryStarts(data, pos, e);
    ExactOnlyBelowTypeTen(data, pos + 12 + |e.key|, e.value);
    EntryWithoutValue(data, pos, st, e.key, e.value.vtype, pos + 8 + |e.key|, pos + 12 + |e.key|);
  }

  /** The entries of a file whose metadata do not nest stand where the header says, after its 24 bytes. */
  lemma EntriesStand(h: Header, rest: seq<byte>)
    requires HeaderOk(h)
    ensures var data := EncodeHeader(h) + rest; 24 <= |data| && At(data, 24, EncodeEntries(h.metadata))
  {
    HeaderStands(h, rest);
    HeaderParts(EncodeHeader(h) + rest, h);
    hide EncodeHeader, EncodeEntries, EncodeTensors;
  }

  /** The full walker after `i + 1` entries, by way of entry `i`. */
  lemma FullWalkerGoesOn(data: seq<byte>, entries: seq<Entry>, i: nat)
    requires forall j :: 0 <= j < |entries| ==> EntryOk(entries[j])
    requires i < |entries| && 24 <= |data| && At(data, 24, EncodeEntries(entries))
    ensures At(data, 24, EncodeEntries(entries[..i]))
    ensures var p := 24 + |EncodeEntries(entries[..i])|;
      At(data, p, EncodeEntry(entries[i])) && SkipEntries(data, 24, i + 1) == Ok((), p + |EncodeEntry(entries[i])|)
  {
    hide At, EncodeEntry, EntryOk, SkipEntry, SkipEntries, EncodeEntries;
    EntriesSplit(entries, i + 1);
    AtConcat(data, 24, EncodeEntries(entries[..i + 1]), EncodeEntries(entries[i + 1..]));
    SkipsPrintedEntries(data, 24, entries[..i + 1]);
    EntriesSplit(entries[..i + 1], i);
    assert entries[..i + 1][..i] == entries[..i] && entries[..i + 1][i..] == [entries[i]];
    OneEntry(entries[i]);
    AtConcat(data, 24, EncodeEntries(entries[..i]), EncodeEntry(entries[i]));
  }

  lemma OneEntry(e: Entry)
    ensures EncodeEntries([e]) == EncodeEntry(e)
  {
    hide EncodeEntry;
    assert [e][1..] == [] && EncodeEntries([]) == [];
  }

  lemma OutOfStepAfter(data: seq<byte>, entries: seq<Entry>, i: nat)
    requires forall j :: 0 <= j < |entries| ==> EntryOk(entries[j])
    requires i < |entries| && 24 <= |data| && At(data, 24, EncodeEntries(entries))
    requires (forall j :: 0 <= j < i ==> Simple(entries[j].value)) && entries[i].value.Scalar? && entries[i].value.vtype > 9
    ensures !InStep(data, i + 1)
  {
    hide *;
    SimplePrefix(entries, i);
    var p, st := 24 + |EncodeEntries(entries[..i])|, LearnAll(START, entries[..i]);
    FullWalkerGoesOn(data, entries, i);
    EntriesInLockStep(data, 24, START, entries[..i], i);
    assert entries[..i][..i] == entries[..i];
    ReadOneMore(data, 24, START, i);
    LongScalarStopsShort(data, p, st, entries[i]);
    Behind(data, i, st, p, |EncodeEntry(entries[i])|);
  }

  lemma SimplePrefix(entries: seq<Entry>, i: nat)
    requires i <= |entries| && forall j :: 0 <= j < |entries| ==> EntryOk(entries[j])
    requires forall j :: 0 <= j < i ==> Simple(entries[j].value)
    ensures forall j :: 0 <= j < |entries[..i]| ==> EntrySimple(entries[..i][j])
  {
  }

  lemma Behind(data: seq<byte>, i: nat, st: State, p: nat, size: nat)
    requires 24 <= |data| && ReadEntries(data, 24, START, i + 1) == ReadEntry(data, p, st)
    requires ReadEntry(data, p, st).Done? ==> ReadEntry(data, p, st).pos + 8 == p + size
    requires SkipEntries(data, 24, i + 1) == Ok((), p + size)
    ensures !InStep(data, i + 1)
  {
    hide ReadEntries, ReadEntry, SkipEntries;
  }

  /** On a file without nested arrays the walkers stay in step after every entry if and only if no value has a type above
      nine. */
  lemma InStepExactlyBelowTypeTen(h: Header, rest: seq<byte>)
    requires HeaderOk(h) && forall i :: 0 <= i < |h.metadata| && h.metadata[i].value.Array? ==> Simple(h.metadata[i].value)
    ensures (forall k: nat :: k <= |h.metadata| ==> InStep(EncodeHeader(h) + rest, k))
       <==> (forall i :: 0 <= i < |h.metadata| ==> TypeOf(h.metadata[i].value) <= 9)
  {
    var data, entries := EncodeHeader(h) + rest, h.metadata;
    EntriesStand(h, rest);
    hide EncodeHeader, EncodeEntries, At, InStep, EncodeTensors;
    if forall i :: 0 <= i < |entries| ==> TypeOf(entries[i].value) <= 9 {
      forall k: nat | k <= |entries| ensures InStep(data, k) {
        SimpleFilesInStep(h, rest, k);
      }
    } else {
      var i := FirstAboveNine(entries, 0);
      OutOfStepAfter(data, entries, i);
    }
  }

  lemma SimpleFilesInStep(h: Header, rest: seq<byte>, k: nat)
    requires HeaderOk(h) && k <= |h.metadata|
    requires forall i :: 0 <= i < |h.metadata| && h.metadata[i].value.Array? ==> Simple(h.metadata[i].value)
    requires forall i :: 0 <= i < |h.metadata| ==> TypeOf(h.metadata[i].value) <= 9
    ensures InStep(EncodeHeader(h) + rest, k)
  {
    forall i | 0 <= i < |h.metadata| ensures Simple(h.metadata[i].value) {
      assert EntryOk(h.metadata[i]);
    }
    EntriesStand(h, rest);
    hide EncodeHeader, EncodeEntries, At, EncodeTensors, Simple, WellFormed, ReadEntries, SkipEntries, ReadFile;
    WalkersAgree(h, rest, k);
  }

  lemma FirstAboveNine(entries: seq<Entry>, from: nat) returns (i: nat)
    requires forall j :: 0 <= j < |entries| ==> EntryOk(entries[j])
    requires forall j :: 0 <= j < |entries| && entries[j].value.Array? ==> Simple(entries[j].value)
    requires from <= |entries| && forall j :: 0 <= j < from ==> Simple(entries[j].value)
    requires exists j :: 0 <= j < |entries| && TypeOf(entries[j].value) > 9
    ensures i < |entries| && entries[i].value.Scalar? && entries[i].value.vtype > 9
    ensures forall j :: 0 <= j < i ==> Simple(entries[j].value)
    decreases |entries| - from
  {
    assert from < |entries|;
    assert EntryOk(entries[from]);
    if TypeOf(entries[from].value) > 9 {
      i := from;
    } else {
      i := FirstAboveNine(entries, from + 1);
    }
  }

  lemma HeaderStands(h: Header, rest: seq<byte>)
    ensures At(EncodeHeader(h) + rest, 0, EncodeHeader(h))
  {
  }

  lemma PreambleUnpacks(data: seq<byte>, version: nat, nTensors: nat, nMetadata: nat)
    requires version < U32_LIMIT && nTensors < U64_LIMIT && nMetadata < U64_LIMIT
    requires At(data, 0, EncodePreamble(version, nTensors, nMetadata))
    ensures Unpack(data, 0, 4) == Done(0x46554747, 4) && Unpack(data, 4, 4) == Done(version, 8)
    ensures Unpack(data, 8, 8) == Done(nTensors, 16) && Unpack(data, 16, 8) == Done(nMetadata, 24)
  {
    Limits();
    var v, t, m := LittleEndian(version, 4), LittleEndian(nTensors, 8), LittleEndian(nMetadata, 8);
    AtConcat(data, 0, MAGIC, v + (t + m));
    AtConcat(data, 4, v, t + m);
    AtConcat(data, 8, t, m);
    UnpackReadsPrinted(data, 4, version, 4);
    UnpackReadsPrinted(data, 8, nTensors, 8);
    UnpackReadsPrinted(data, 16, nMetadata, 8);
    assert FromLittleEndian(MAGIC) == 0x46554747 by {
      assert MAGIC == [0x47, 0x47, 0x55, 0x46];
      assert MAGIC[1..] == [0x47, 0x55, 0x46] && MAGIC[1..][1..] == [0x55, 0x46];
      assert FromLittleEndian([0x55, 0x46]) == 0x4655;
    }
  }

  // ---------------------------------------------------------------- which keys the result has

  /** The value of the first architecture entry, the only one that names further keys. */
  function Announced(entries: seq<Entry>): Option<MetaValue>
    decreases |entries|
  {
    if entries == [] then None
    else if entries[0].key == ARCHITECTURE then Some(Meaning(entries[0].value))
    else Announced(entries[1..])
  }

  /** Entry `i` is kept: one of the two fixed keys, or a key of the architecture announced before it. */
  predicate Stored(entries: seq<Entry>, i: nat)
    requires i < |entries|
  {
    Wanted(entries[i].key, Announced(entries[..i]))
  }

  /** `i` is the last kept entry with its key among the first `n`. */
  predicate LastStored(entries: seq<Entry>, i: nat, n: nat)
    requires n <= |entries|
  {
    && i < n && Stored(entries, i)
    && forall j :: i < j < n && entries[j].key == entries[i].key ==> !Stored(entries, j)
  }

  /** The map holds the keys of those entries, and each with the meaning of its last. */
  ghost predicate HoldsStored(entries: seq<Entry>, n: nat, m: map<seq<byte>, MetaValue>)
    requires n <= |entries|
  {
    && (forall key :: key in m ==> exists i: nat :: LastStored(entries, i, n) && entries[i].key == key)
    && (forall i: nat :: LastStored(entries, i, n) ==>
          entries[i].key in m && m[entries[i].key] == Meaning(entries[i].value))
  }

  ghost predicate Learned(entries: seq<Entry>, n: nat, st: State)
    requires n <= |entries|
  {
    && NoticeArchitecture(st).arch == Announced(entries[..n])
    && (ARCHITECTURE in st.metadata <==> Announced(entries[..n]).Some?)
    && HoldsStored(entries, n, st.metadata)
  }

  lemma {:induction false} AnnouncedSnoc(entries: seq<Entry>, e: Entry)
    ensures Announced(entries + [e]) ==
            if Announced(entries).Some? then Announced(entries)
            else if e.key == ARCHITECTURE then Some(Meaning(e.value)) else None
    decreases |entries|
  {
    hide Meaning;
    if entries == [] {
      assert [] + [e] == [e] && [e][1..] == [];
    } else {
      assert (entries + [e])[1..] == entries[1..] + [e];
      AnnouncedSnoc(entries[1..], e);
    }
  }

  lemma {:induction false} LearnAllSnoc(st: State, entries: seq<Entry>, e: Entry)
    ensures LearnAll(st, entries + [e]) == Learn(LearnAll(st, entries), e)
    decreases |entries|
  {
    hide Learn;
    if entries == [] {
      assert [] + [e] == [e] && [e][1..] == [];
    } else {
      assert (entries + [e])[1..] == entries[1..] + [e];
      LearnAllSnoc(Learn(st, entries[0]), entries[1..], e);
    }
  }

  lemma LearnOneMore(entries: seq<Entry>, n: nat, st: State)
    requires n < |entries| && Learned(entries, n, st)
    ensures Learned(entries, n + 1, Learn(st, entries[n]))
  {
    var e, after := entries[n], Learn(st, entries[n]);
    assert entries[..n + 1] == entries[..n] + [e];
    AnnouncedSnoc(entries[..n], e);
    assert Wanted(ARCHITECTURE, Announced(entries[..n]));
    hide Wanted, Meaning, Announced, LastStored, HoldsStored;
    StoredOneMore(entries, n, st.metadata, after.metadata);
  }

  lemma StoredOneMore(entries: seq<Entry>, n: nat, before: map<seq<byte>, MetaValue>, after: map<seq<byte>, MetaValue>)
    requires n < |entries|
    requires after == if Stored(entries, n) then before[entries[n].key := Meaning(entries[n].value)] else before
    requires HoldsStored(entries, n, before)
    ensures HoldsStored(entries, n + 1, after)
  {
    hide Stored, Meaning;
    forall key | key in after ensures exists i: nat :: LastStored(entries, i, n + 1) && entries[i].key == key {
      if Stored(entries, n) && key == entries[n].key {
        assert LastStored(entries, n, n + 1);
      } else {
        var i: nat :| LastStored(entries, i, n) && entries[i].key == key;
        assert LastStored(entries, i, n + 1);
      }
    }
    forall i: nat | LastStored(entries, i, n + 1)
      ensures entries[i].key in after && after[entries[i].key] == Meaning(entries[i].value)
    {
      if i < n {
        assert LastStored(entries, i, n);
      }
    }
  }

  lemma {:induction false} LearnedFrom(entries: seq<Entry>, n: nat)
    requires n <= |entries|
    ensures Learned(entries, n, LearnAll(START, entries[..n]))
    decreases n
  {
    hide *;
    if n == 0 {
      LearnedNothing(entries);
    } else {
      LearnedFrom(entries, n - 1);
      LearnOneMore(entries, n - 1, LearnAll(START, entries[..n - 1]));
      assert entries[..n] == entries[..n - 1] + [entries[n - 1]];
      LearnAllSnoc(START, entries[..n - 1], entries[n - 1]);
    }
  }

  lemma LearnedNothing(entries: seq<Entry>)
    ensures Learned(entries, 0, LearnAll(START, entries[..0]))
  {
    assert entries[..0] == [];
  }

  /** The map read from a file with simple metadata: exactly the kept keys, each with its last kept value. */
  lemma ReadsExactlyTheStoredKeys(h: Header, rest: seq<byte>)
    requires HeaderOk(h)
    requires forall i :: 0 <= i < |h.metadata| ==> Simple(h.metadata[i].value)
    ensures var r := ReadFile(EncodeHeader(h) + rest);
      && r.Done?
      && (forall key :: key in r.value.metadata <==>
            exists i: nat :: LastStored(h.metadata, i, |h.metadata|) && h.metadata[i].key == key)
      && (forall i: nat :: LastStored(h.metadata, i, |h.metadata|) && h.metadata[i].key in r.value.metadata ==>
            r.value.metadata[h.metadata[i].key] == Meaning(h.metadata[i].value))
  {
    WalkersAgree(h, rest, 0);
    LearnedFrom(h.metadata, |h.metadata|);
    hide ReadFile, LearnAll, EncodeHeader, LastStored;
    assert h.metadata[..|h.metadata|] == h.metadata;
  }

  // ---------------------------------------------------------------- the reader as it runs

  /** `outcome`, with the cursor left at `pos`, is what the specification says. */
  ghost predicate Matches<T(!new)>(spec: Step<T>, outcome: Outcome<T>, pos: nat) {
    match spec
    case Done(value, next) => outcome == Returned(value) && pos == next
    case Failed(why) => outcome == Raised(why)
  }

  datatype Outcome<+T> = Returned(value: T) | Raised(why: Failure) {
    predicate IsFailure() {
      Raised?
    }

    function PropagateFailure<U>(): Outcome<U>
      requires Raised?
    {
      Raised(why)
    }

    function Extract(): T
      requires Returned?
    {
      value
    }
  }

  class MetadataReader {
    const data: seq<byte>
    var pos: nat
    var metadata: map<seq<byte>, MetaValue>

    constructor (data: seq<byte>)
      ensures this.data == data && pos == 0 && metadata == map[]
    {
      this.data := data;
      pos := 0;
      metadata := map[];
    }

    method Read(n: nat) returns (bytes: seq<byte>)
      modifies this`pos
      ensures (bytes, pos) == FileRead(data, old(pos), n)
    {
      if pos >= |data| {
        bytes := [];
      } else if pos + n <= |data| {
        bytes := data[pos..pos + n];
        pos := pos + n;
      } else {
        bytes := data[pos..];
        pos := |data|;
      }
    }

    method UnpackUnsigned(size: nat) returns (r: Outcome<nat>)
      modifies this`pos
      ensures Matches(Unpack(data, old(pos), size), r, pos)
    {
      var bytes := Read(size);
      r := if |bytes| == size then Returned(FromLittleEndian(bytes)) else Raised(ShortRead);
    }

    method ReadText() returns (r: Outcome<seq<byte>>)
      modifies this`pos
      ensures Matches(ReadString(data, old(pos)), r, pos)
    {
      var n :- UnpackUnsigned(8);
      var bytes := Read(n);
      r := Returned(bytes);
    }

    method SkipOne(vtype: nat) returns (r: Outcome<()>)
      modifies this`pos
      ensures Matches(Skip(data, old(pos), vtype), r, pos)
    {
      hide Unpack;
      if vtype in {0, 1, 7} {
        pos := pos + 1;
      } else if vtype in {2, 3} {
        pos := pos + 2;
      } else if vtype in {4, 5, 6} {
        pos := pos + 4;
      } else if vtype == STRING {
        var n :- UnpackUnsigned(8);
        pos := pos + n;
      } else if vtype == ARRAY {
        var elemType :- UnpackUnsigned(4);
        var count :- UnpackUnsigned(8);
        if IsScalar(elemType) {
          pos := pos + count * ScalarSize(elemType);
        } else {
          ghost var body := pos;
          var i := 0;
          while i < count
            invariant i <= count
            invariant SkipStrings(data, body, count) == SkipStrings(data, pos, count - i)
          {
            var n :- UnpackUnsigned(8);
            pos := pos + n;
            i := i + 1;
          }
        }
      }
      r := Returned(());
    }

    method ReadOne(vtype: nat) returns (r: Outcome<MetaValue>)
      modifies this`pos
      ensures Matches(ReadValue(data, old(pos), vtype), r, pos)
    {
      hide Unpack, Skip;
      if vtype > 9 {
        return Raised(UnknownType);
      }
      if vtype == STRING {
        var chars :- ReadText();
        r := Returned(Chars(chars));
      } else if vtype == 4 {
        var n :- UnpackUnsigned(4);
        r := Returned(Number(n));
      } else if vtype == 5 {
        var n :- UnpackUnsigned(4);
        r := Returned(Number(AsSigned(n)));
      } else {
        var _ :- SkipOne(vtype);
        r := Returned(Nothing);
      }
    }

    /** `_read_metadata`, with the set of wanted keys growing once. */
    method ReadMetadata(count: nat) returns (r: Outcome<()>)
      modifies this
      ensures var spec := ReadEntries(data, old(pos), State(old(metadata), None), count);
        match spec
        case Done(st, next) => r == Returned(()) && metadata == st.metadata && pos == next
        case Failed(why) => r == Raised(why)
    {
      var keysToRead := {ARCHITECTURE, NAME};
      var archAdded := false;
      ghost var st := State(metadata, None);
      WantedAtFirst(keysToRead);
      hide Wanted, ReadEntry;
      var i := 0;
      while i < count
        invariant i <= count
        invariant st.metadata == metadata && archAdded == st.arch.Some?
        invariant forall key :: key in keysToRead <==> Wanted(key, st.arch)
        invariant ReadEntries(data, old(pos), State(old(metadata), None), count) == ReadEntries(data, pos, st, count - i)
      {
        r, keysToRead, archAdded, st := ReadRound(keysToRead, archAdded, st);
        if r.Raised? {
          return;
        }
        i := i + 1;
      }
      r := Returned(());
    }

    /** One round of its loop: the keys wanted, and whether the architecture's are among them, come back with the state. */
    method ReadRound(keys: set<seq<byte>>, archAdded: bool, ghost st: State)
      returns (r: Outcome<()>, keysNow: set<seq<byte>>, archNow: bool, ghost after: State)
      requires st.metadata == metadata && archAdded == st.arch.Some?
      requires forall key :: key in keys <==> Wanted(key, st.arch)
      modifies this
      ensures match ReadEntry(data, old(pos), st)
        case Done(read, next) =>
          r == Returned(()) && after == read && pos == next && metadata == read.metadata && archNow == read.arch.Some?
          && forall key :: key in keysNow <==> Wanted(key, read.arch)
        case Failed(why) => r == Raised(why)
    {
      hide Wanted, ReadValue, Skip, Unpack, ReadString, Render;
      keysNow, archNow, after := keys, archAdded, NoticeArchitecture(st);
      var key :- ReadText();
      var vtype :- UnpackUnsigned(4);
      if !archAdded && ARCHITECTURE in metadata {
        var prefix := Render(metadata[ARCHITECTURE]);
        WantedAfter(keys, metadata[ARCHITECTURE]);
        keysNow := keys + set k | 0 <= k < |SUFFIXES| :: prefix + Ascii(SUFFIXES[k]);
        archNow := true;
      }
      assert forall other :: other in keysNow <==> Wanted(other, after.arch);
      if key in keysNow {
        var v :- ReadOne(vtype);
        metadata := metadata[key := v];
        after := after.(metadata := metadata);
      } else {
        var _ :- SkipOne(vtype);
      }
      r := Returned(());
    }
  }

  lemma WantedAtFirst(keys: set<seq<byte>>)
    requires keys == {ARCHITECTURE, NAME}
    ensures forall key :: key in keys <==> Wanted(key, None)
  {
    assert ARCHITECTURE != NAME by {
      assert |ARCHITECTURE| == 20 && |NAME| == 12;
    }
  }

  lemma WantedAfter(keys: set<seq<byte>>, arch: MetaValue)
    requires forall key :: key in keys <==> Wanted(key, None)
    ensures forall key :: key in keys + (set k | 0 <= k < |SUFFIXES| :: Render(arch) + Ascii(SUFFIXES[k]))
                     <==> Wanted(key, Some(arch))
  {
  }

  method ReadMinimal(data: seq<byte>) returns (r: Outcome<map<seq<byte>, MetaValue>>)
    ensures match ReadFile(data)
      case Done(st, _) => r == Returned(st.metadata)
      case Failed(why) => r == Raised(why)
  {
    hide Unpack, ReadEntries;
    var reader := new MetadataReader(data);
    var magic :- reader.UnpackUnsigned(4);
    var _ :- reader.UnpackUnsigned(4);
    var _ :- reader.UnpackUnsigned(8);
    var count :- reader.UnpackUnsigned(8);
    if magic != 0x46554747 {
      return Raised(WrongMagic);
    }
    var _ :- reader.ReadMetadata(count);
    r := Returned(reader.metadata);
  }
}
