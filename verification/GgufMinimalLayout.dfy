/**
 What the minimal walker (BRAIN-DAEMON/memory/monitor.py) looks for and how it takes it, in plain text and numbers: the
 keys it keeps, the numbers it reads, what it does at the end of the file, and for which reason it gives up.
 */
module GgufMinimalLayout {
  import opened GgufFormat
  import opened GgufLayout
  import opened GgufMinimal
  import opened Helpers

  // ---------------------------------------------------------------- the keys

  /** Text without characters beyond 127 goes character by character. */
  lemma TextAsBytes(s: string)
    ensures |Ascii(s)| == |s|
    ensures forall k :: 0 <= k < |s| && s[k] < 128 as char ==> Ascii(s)[k] == s[k] as int
  {
  }

  /** Before an architecture is known two keys are kept; afterwards eight more, all under its name. */
  lemma WantedKeys(key: seq<byte>, arch: seq<byte>)
    ensures Wanted(key, None) <==> key == Ascii("general.architecture") || key == Ascii("general.name")
    ensures Wanted(key, Some(Chars(arch))) <==>
      || key == Ascii("general.architecture") || key == Ascii("general.name")
      || key == arch + Ascii(".block_count") || key == arch + Ascii(".context_length")
      || key == arch + Ascii(".embedding_length") || key == arch + Ascii(".attention.head_count")
      || key == arch + Ascii(".attention.head_count_kv") || key == arch + Ascii(".attention.key_length")
      || key == arch + Ascii(".attention.value_length") || key == arch + Ascii(".attention.sliding_window_size")
  {
    NamesOfSuffixes();
    hide Ascii;
    assert arch == Render(Chars(arch));
    forall k | 0 <= k < |SUFFIXES| ensures key == arch + Ascii(SUFFIXES[k]) ==> Wanted(key, Some(Chars(arch))) {
    }
    if k :| 0 <= k < |SUFFIXES| && key == arch + Ascii(SUFFIXES[k]) {
      assert k == 0 || k == 1 || k == 2 || k == 3 || k == 4 || k == 5 || k == 6 || k == 7;
    }
  }

  lemma NamesOfSuffixes()
    ensures |SUFFIXES| == 8
    ensures SUFFIXES[0] == ".block_count" && SUFFIXES[1] == ".context_length" && SUFFIXES[2] == ".embedding_length"
    ensures SUFFIXES[3] == ".attention.head_count" && SUFFIXES[4] == ".attention.head_count_kv"
    ensures SUFFIXES[5] == ".attention.key_length" && SUFFIXES[6] == ".attention.value_length"
    ensures SUFFIXES[7] == ".attention.sliding_window_size"
  {
  }

  /** An architecture that is no text names its keys as an f-string prints it: a number in decimal, nothing as `None`. */
  lemma OddArchitectures(n: int)
    ensures n >= 0 ==> Render(Number(n)) == Ascii(Decimal(n))
    ensures n < 0 ==> Render(Number(n)) == Ascii("-" + Decimal(-n))
    ensures Render(Nothing) == Ascii("None")
  {
  }

  function FromDecimal(s: string): int {
    if s == [] then 0 else 10 * FromDecimal(s[..|s| - 1]) + (s[|s| - 1] as int - '0' as int)
  }

  /** The decimal form consists of digits, has no zero in front of another digit, and reads back to the number. */
  lemma {:induction false} DecimalReadsBack(n: nat)
    ensures FromDecimal(Decimal(n)) == n && |Decimal(n)| >= 1
    ensures forall k :: 0 <= k < |Decimal(n)| ==> '0' <= Decimal(n)[k] <= '9'
    ensures n > 0 ==> Decimal(n)[0] != '0'
  {
    assert forall d: nat :: d < 10 ==> Digit(d) as int == '0' as int + d;
    if n < 10 {
      assert Decimal(n)[..0] == [];
    } else {
      DecimalReadsBack(n / 10);
      assert Decimal(n)[..|Decimal(n)| - 1] == Decimal(n / 10);
    }
  }

  // ---------------------------------------------------------------- the numbers

  /** Unsigned and signed 32-bit numbers of four bytes; the signed one is the two's complement. */
  lemma NumbersRead(data: seq<byte>, pos: nat)
    requires pos + 4 <= |data|
    ensures var n := FromLittleEndian(data[pos..pos + 4]);
      && ReadValue(data, pos, 4) == Done(Number(n), pos + 4)
      && ReadValue(data, pos, 5) == Done(Number(if data[pos + 3] < 128 then n else n - 0x1_0000_0000), pos + 4)
  {
    var bytes := data[pos..pos + 4];
    assert bytes == [data[pos], data[pos + 1], data[pos + 2], data[pos + 3]];
    FourBytes(data[pos], data[pos + 1], data[pos + 2], data[pos + 3]);
    assert Unpack(data, pos, 4) == Done(FromLittleEndian(bytes), pos + 4);
    hide FromLittleEndian, Unpack;
  }

  /** Where the walkers are compared: numbers of at most 32 bits and booleans, texts, and arrays that are empty or hold no
      arrays. */
  lemma SimpleValues(v: Value)
    requires WellFormed(v)
    ensures Simple(v) <==>
      match v
      case Scalar(vtype, _) => vtype in {0, 1, 2, 3, 4, 5, 6, 7}
      case Text(_) => true
      case Array(subtype, elems) => subtype != 9 || |elems| == 0
  {
  }

  // ---------------------------------------------------------------- at the end of the file

  /** A text that is cut off by the end of the file comes back shortened, without an error. */
  lemma TextEndsWithTheFile(data: seq<byte>, pos: nat, n: nat)
    requires n < 0x1_0000_0000_0000_0000 && At(data, pos, LittleEndian(n, 8))
    ensures ReadString(data, pos) ==
      if pos + 8 + n <= |data| then Done(data[pos + 8..pos + 8 + n], pos + 8 + n) else Done(data[pos + 8..], |data|)
  {
    Limits();
    assert pos + 8 <= |data|;
    UnpackReadsPrinted(data, pos, n, 8);
    hide LittleEndian, FromLittleEndian, Unpack, At;
    if pos + 8 == |data| {
      assert data[pos + 8..] == [];
      assert n == 0 ==> data[pos + 8..pos + 8] == [];
    }
  }

  /** Seeking knows no end: a number, a text and an array of numbers are stepped over by their size, whatever is left. */
  lemma SeeksGoAnywhere(data: seq<byte>, pos: nat, elemType: nat, n: nat)
    requires elemType < 0x1_0000_0000 && n < 0x1_0000_0000_0000_0000
    ensures Skip(data, pos, 0) == Done((), pos + 1) && Skip(data, pos, 2) == Done((), pos + 2)
    ensures Skip(data, pos, 4) == Done((), pos + 4)
    ensures At(data, pos, LittleEndian(n, 8)) ==> Skip(data, pos, 8) == Done((), pos + 8 + n)
    ensures At(data, pos, LittleEndian(elemType, 4) + LittleEndian(n, 8)) ==>
      && (elemType in {0, 1, 7} ==> Skip(data, pos, 9) == Done((), pos + 12 + n))
      && (elemType in {2, 3} ==> Skip(data, pos, 9) == Done((), pos + 12 + 2 * n))
      && (elemType in {4, 5, 6} ==> Skip(data, pos, 9) == Done((), pos + 12 + 4 * n))
      && (elemType in {10, 11, 12} ==> Skip(data, pos, 9) == Done((), pos + 12 + 8 * n))
  {
    Limits();
    hide LittleEndian, FromLittleEndian, Pow256, At, Unpack;
    if At(data, pos, LittleEndian(n, 8)) {
      UnpackReadsPrinted(data, pos, n, 8);
    }
    if At(data, pos, LittleEndian(elemType, 4) + LittleEndian(n, 8)) {
      AtConcat(data, pos, LittleEndian(elemType, 4), LittleEndian(n, 8));
      UnpackReadsPrinted(data, pos, elemType, 4);
      UnpackReadsPrinted(data, pos + 4, n, 8);
    }
  }

  // ---------------------------------------------------------------- why it gives up

  /** A file of fewer than 24 bytes is too short even if its magic number is wrong; the version does not matter. */
  lemma GivesUpFor(data: seq<byte>)
    ensures |data| < 24 ==> ReadFile(data) == Failed(ShortRead)
    ensures ReadFile(data) == Failed(WrongMagic) <==> |data| >= 24 && !StartsWithMagic(data)
  {
    if |data| >= 24 {
      assert data[0..4] == [data[0], data[1], data[2], data[3]];
      FourBytes(data[0], data[1], data[2], data[3]);
      FourByteNumbersDiffer(data[0], data[1], data[2], data[3]);
      hide FromLittleEndian, ReadEntries;
      EntriesNeverFailForMagic(data, 24, START, FromLittleEndian(data[16..24]));
    }
    hide FromLittleEndian, ReadEntries;
  }

  lemma FourByteNumbersDiffer(a: byte, b: byte, c: byte, d: byte)
    ensures a + 0x100 * b + 0x1_0000 * c + 0x100_0000 * d == 0x46554747 <==> (a, b, c, d) == (0x47, 0x47, 0x55, 0x46)
  {
  }

  lemma {:induction false} EntriesNeverFailForMagic(data: seq<byte>, pos: nat, st: State, count: nat)
    ensures ReadEntries(data, pos, st, count) != Failed(WrongMagic)
    decreases count
  {
    hide ReadEntry;
    if count > 0 {
      EntryNeverFailsForMagic(data, pos, st);
      var first := ReadEntry(data, pos, st);
      if first.Done? {
        EntriesNeverFailForMagic(data, first.pos, first.value, count - 1);
      }
    }
  }

  lemma EntryNeverFailsForMagic(data: seq<byte>, pos: nat, st: State)
    ensures ReadEntry(data, pos, st) != Failed(WrongMagic)
  {
    hide FileRead, FromLittleEndian, Wanted, NoticeArchitecture, SkipStrings;
    forall p: nat, count: nat ensures SkipStrings(data, p, count) != Failed(WrongMagic) {
      StringsNeverFailForMagic(data, p, count);
    }
  }

  lemma {:induction false} StringsNeverFailForMagic(data: seq<byte>, pos: nat, count: nat)
    ensures SkipStrings(data, pos, count) != Failed(WrongMagic)
    decreases count
  {
    hide FileRead, FromLittleEndian;
    if count > 0 {
      var first := SkipString(data, pos);
      if first.Done? {
        StringsNeverFailForMagic(data, first.pos, count - 1);
      }
    }
  }
}
