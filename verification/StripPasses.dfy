/** Texts as lines: `text.split("\n")` and `"\n".join(lines)`. */
module TextLines {

  function Lines(text: string): (lines: seq<string>)
    ensures |lines| > 0
    ensures forall k :: 0 <= k < |lines| ==> '\n' !in lines[k]
  {
    if text == [] then [""]
    else
      var rest := Lines(text[1..]);
      if text[0] == '\n' then [""] + rest else [[text[0]] + rest[0]] + rest[1..]
  }

  function Unlines(lines: seq<string>): string {
    if |lines| == 0 then ""
    else if |lines| == 1 then lines[0]
    else lines[0] + "\n" + Unlines(lines[1..])
  }

  lemma {:induction false} SplitAfterJoin(lines: seq<string>)
    requires forall k :: 0 <= k < |lines| ==> '\n' !in lines[k]
    ensures Lines(Unlines(lines)) == if lines == [] then [""] else lines
  {
    if |lines| == 1 {
      SplitSingle(lines[0]);
    } else if |lines| > 1 {
      SplitAfterJoin(lines[1..]);
      SplitLine(lines[0], Unlines(lines[1..]));
      assert Unlines(lines) == lines[0] + "\n" + Unlines(lines[1..]);
    }
  }

  lemma {:induction false} SplitSingle(line: string)
    requires '\n' !in line
    ensures Lines(line) == [line]
  {
    if line != [] {
      SplitSingle(line[1..]);
      assert line == [line[0]] + line[1..];
    }
  }

  lemma {:induction false} SplitLine(line: string, rest: string)
    requires '\n' !in line
    ensures Lines(line + "\n" + rest) == [line] + Lines(rest)
  {
    if line == [] {
      assert (line + "\n" + rest)[1..] == rest;
    } else {
      SplitLine(line[1..], rest);
      assert (line + "\n" + rest)[1..] == line[1..] + "\n" + rest;
      assert line == [line[0]] + line[1..];
    }
  }

  lemma {:induction false} JoinAfterSplit(text: string)
    ensures Unlines(Lines(text)) == text
  {
    if text != [] {
      JoinAfterSplit(text[1..]);
      var lines, rest := Lines(text), Lines(text[1..]);
      if text[0] == '\n' {
        assert lines[1..] == rest;
      } else if |rest| > 1 {
        assert lines[1..] == rest[1..];
      }
    }
  }
}

/**
 The two cleaning passes of `strip_long_code_and_tables` (BRAIN-DAEMON/quantize/build-calibration.py):
 fenced code blocks with more than `maxCode` lines go, then runs of more than `maxRows` table lines.
 */
module StripPasses {
  import opened Helpers
  import opened TextLines

  // ---------------------------------------------------------------- the patterns on one line

  /** What `\s` matches in a Python `str` pattern. */
  predicate IsSpace(c: char) {
    var code := c as int;
    || 9 <= code <= 13 || 28 <= code <= 32 || code == 0x85 || code == 0xA0 || code == 0x1680
    || 0x2000 <= code <= 0x200A || code == 0x2028 || code == 0x2029 || code == 0x202F
    || code == 0x205F || code == 0x3000
  }

  predicate AllSpace(s: string) {
    forall k :: 0 <= k < |s| ==> IsSpace(s[k])
  }

  function Indent(line: string): (n: nat)
    ensures n <= |line|
  {
    if line == [] || !IsSpace(line[0]) then 0 else 1 + Indent(line[1..])
  }

  lemma {:induction false} IndentIsMaximal(line: string)
    ensures AllSpace(line[..Indent(line)])
    ensures Indent(line) < |line| ==> !IsSpace(line[Indent(line)])
  {
    if line != [] && IsSpace(line[0]) {
      IndentIsMaximal(line[1..]);
      assert line[..Indent(line)] == [line[0]] + line[1..][..Indent(line[1..])];
    }
  }

  const FENCE := "```"

  /** `^(\s*)` followed by a fence. */
  predicate OpensFence(line: string) {
    FENCE <= line[Indent(line)..]
  }

  /** A fence indented exactly by `prefix`, with nothing but space after it. */
  predicate ClosesFence(prefix: string, line: string) {
    prefix + FENCE <= line && AllSpace(line[|prefix| + |FENCE|..])
  }

  predicate IsTableLine(line: string) {
    "|" <= line[Indent(line)..]
  }

  lemma {:induction false} IndentCovers(line: string, k: nat)
    requires k <= |line| && AllSpace(line[..k])
    ensures k <= Indent(line)
  {
    if k > 0 {
      assert IsSpace(line[..k][0]);
      assert line[1..][..k - 1] == line[..k][1..];
      IndentCovers(line[1..], k - 1);
    }
  }

  lemma TableLinesAreNoFences(line: string, prefix: string)
    requires IsTableLine(line) && AllSpace(prefix)
    ensures !OpensFence(line) && !ClosesFence(prefix, line)
  {
    var n := Indent(line);
    IndentIsMaximal(line);
    assert line[n..][0] == '|' && FENCE[0] == '`';
    if prefix <= line {
      IndentCovers(line, |prefix|);
      assert line[|prefix|] != '`' by {
        if |prefix| < n {
          assert IsSpace(line[..n][|prefix|]);
        }
      }
      assert (prefix + FENCE)[|prefix|] == '`';
    }
    assert prefix + FENCE <= line ==> prefix <= line;
  }

  // ---------------------------------------------------------------- code blocks

  /** What the scanner sees: a line outside any fence, or a fence with its body and, if found, its closing line. */
  datatype Segment = Plain(line: string) | Block(open: string, body: seq<string>, close: Option<string>)

  function Raw(segment: Segment): seq<string> {
    match segment
    case Plain(line) => [line]
    case Block(open, body, None) => [open] + body
    case Block(open, body, Some(close)) => [open] + body + [close]
  }

  function Flatten(segments: seq<Segment>): seq<string> {
    if segments == [] then [] else Raw(segments[0]) + Flatten(segments[1..])
  }

  /** The first line from `j` on that closes a fence with this prefix, or the end. */
  function CloseAt(prefix: string, lines: seq<string>, j: nat): (at: nat)
    requires j <= |lines|
    ensures j <= at <= |lines|
    ensures forall k :: j <= k < at ==> !ClosesFence(prefix, lines[k])
    ensures at < |lines| ==> ClosesFence(prefix, lines[at])
    decreases |lines| - j
  {
    if j == |lines| || ClosesFence(prefix, lines[j]) then j else CloseAt(prefix, lines, j + 1)
  }

  function Prefix(line: string): string {
    line[..Indent(line)]
  }

  /** The segment `lines` starts with. */
  function Head(lines: seq<string>): Segment
    requires lines != []
  {
    if OpensFence(lines[0]) then
      var j := CloseAt(Prefix(lines[0]), lines, 1);
      Block(lines[0], lines[1..j], if j < |lines| then Some(lines[j]) else None)
    else Plain(lines[0])
  }

  /** The lines after that segment. */
  function Tail(lines: seq<string>): (tail: seq<string>)
    requires lines != []
    ensures |tail| < |lines|
  {
    if OpensFence(lines[0]) then
      var j := CloseAt(Prefix(lines[0]), lines, 1);
      if j < |lines| then lines[j + 1..] else []
    else lines[1..]
  }

  function Scan(lines: seq<string>): seq<Segment>
    decreases |lines|
  {
    if lines == [] then [] else [Head(lines)] + Scan(Tail(lines))
  }

  predicate IsShort(segment: Segment, maxCode: int) {
    segment.Block? ==> |segment.body| <= maxCode
  }

  predicate AllShort(segments: seq<Segment>, maxCode: int) {
    forall k :: 0 <= k < |segments| ==> IsShort(segments[k], maxCode)
  }

  function KeepShort(segments: seq<Segment>, maxCode: int): seq<Segment> {
    if segments == [] then []
    else if IsShort(segments[0], maxCode) then [segments[0]] + KeepShort(segments[1..], maxCode)
    else KeepShort(segments[1..], maxCode)
  }

  function CountLong(segments: seq<Segment>, maxCode: int): nat {
    if segments == [] then 0
    else (if IsShort(segments[0], maxCode) then 0 else 1) + CountLong(segments[1..], maxCode)
  }

  /** What the code pass leaves of `lines`. */
  function CodePass(lines: seq<string>, maxCode: int): seq<string> {
    Flatten(KeepShort(Scan(lines), maxCode))
  }

  /** A segment the scanner could have produced; only the last one may lack its closing fence. */
  predicate Fits(segment: Segment, last: bool) {
    match segment
    case Plain(line) => !OpensFence(line)
    case Block(open, body, close) =>
      && OpensFence(open)
      && (forall k :: 0 <= k < |body| ==> !ClosesFence(Prefix(open), body[k]))
      && (if close.Some? then ClosesFence(Prefix(open), close.value) else last)
  }

  predicate Scannable(segments: seq<Segment>) {
    segments == [] || (Fits(segments[0], |segments| == 1) && Scannable(segments[1..]))
  }

  /** How the recursive definitions treat a first segment. */
  lemma ConsFacts(head: Segment, rest: seq<Segment>, maxCode: int)
    ensures var all := [head] + rest;
      && all[1..] == rest
      && Flatten(all) == Raw(head) + Flatten(rest)
      && KeepShort(all, maxCode) == (if IsShort(head, maxCode) then [head] + KeepShort(rest, maxCode) else KeepShort(rest, maxCode))
      && CountLong(all, maxCode) == (if IsShort(head, maxCode) then 0 else 1) + CountLong(rest, maxCode)
      && (Scannable(all) <==> Fits(head, rest == []) && Scannable(rest))
  {
    var all := [head] + rest;
    assert all[0] == head && all[1..] == rest;
  }

  lemma HeadAndTail(lines: seq<string>)
    requires lines != []
    ensures Raw(Head(lines)) + Tail(lines) == lines
    ensures Fits(Head(lines), Tail(lines) == [])
  {
    hide OpensFence, ClosesFence, Prefix, CloseAt;
    if OpensFence(lines[0]) {
      var j := CloseAt(Prefix(lines[0]), lines, 1);
      BlockParts(lines, j);
      forall k | 0 <= k < |lines[1..j]| ensures !ClosesFence(Prefix(lines[0]), lines[1..j][k]) {
        assert lines[1..j][k] == lines[k + 1];
      }
    }
  }

  lemma BlockParts(lines: seq<string>, j: nat)
    requires 1 <= j <= |lines|
    ensures [lines[0]] + lines[1..j] + (if j < |lines| then [lines[j]] + lines[j + 1..] else []) == lines
    ensures j < |lines| ==> [lines[0]] + lines[1..j] + [lines[j]] + lines[j + 1..] == lines
    ensures [lines[0]] + lines[1..j] + [] == [lines[0]] + lines[1..j]
  {
  }

  lemma {:induction false} ScanSplitsFaithfully(lines: seq<string>)
    ensures Scannable(Scan(lines)) && Flatten(Scan(lines)) == lines
    decreases |lines|
  {
    if lines != [] {
      HeadAndTail(lines);
      ScanSplitsFaithfully(Tail(lines));
      ConsFacts(Head(lines), Scan(Tail(lines)), 0);
    }
  }

  lemma {:induction false} CloseAtIs(prefix: string, lines: seq<string>, j: nat, at: nat)
    requires j <= at <= |lines|
    requires forall k :: j <= k < at ==> !ClosesFence(prefix, lines[k])
    requires at < |lines| ==> ClosesFence(prefix, lines[at])
    ensures CloseAt(prefix, lines, j) == at
    decreases at - j
  {
    if j < at {
      CloseAtIs(prefix, lines, j + 1, at);
    }
  }

  /** Printing a fitting segment in front of other lines makes it their head. */
  lemma HeadOfRaw(segment: Segment, rest: seq<string>)
    requires Fits(segment, rest == [])
    ensures var lines := Raw(segment) + rest; lines != [] && Head(lines) == segment && Tail(lines) == rest
  {
    var lines := Raw(segment) + rest;
    if segment.Block? {
      var body := segment.body;
      var at := 1 + |body|;
      forall k | 1 <= k < at ensures !ClosesFence(Prefix(segment.open), lines[k]) {
        assert lines[k] == body[k - 1];
      }
      CloseAtIs(Prefix(segment.open), lines, 1, at);
      assert lines[1..at] == body;
    }
  }

  lemma ScanOfRaw(segment: Segment, rest: seq<string>)
    requires Fits(segment, rest == [])
    ensures Scan(Raw(segment) + rest) == [segment] + Scan(rest)
  {
    HeadOfRaw(segment, rest);
    hide Raw, Fits, Head, Tail;
  }

  lemma NothingScanned()
    ensures Scan([]) == [] && Flatten([]) == []
  {
  }

  /** Scanning what scannable segments print gives the segments back. */
  lemma {:induction false} ScanAfterFlatten(segments: seq<Segment>)
    requires Scannable(segments)
    ensures Scan(Flatten(segments)) == segments
  {
    NothingScanned();
    hide *;
    if segments != [] {
      var head, rest := segments[0], segments[1..];
      assert segments == [head] + rest;
      ConsFacts(head, rest, 0);
      ScanAfterFlatten(rest);
      assert rest == [] <==> Flatten(rest) == [];
      ScanOfRaw(head, Flatten(rest));
    }
  }

  lemma {:induction false} KeepShortKeeps(segments: seq<Segment>, maxCode: int)
    ensures var kept := KeepShort(segments, maxCode);
      && AllShort(kept, maxCode)
      && (Scannable(segments) ==> Scannable(kept))
      && (AllShort(segments, maxCode) ==> kept == segments)
      && |segments| == |kept| + CountLong(segments, maxCode)
  {
    if segments != [] {
      var head, rest := segments[0], segments[1..];
      assert segments == [head] + rest;
      KeepShortKeeps(rest, maxCode);
      ConsFacts(head, rest, maxCode);
      AllShortOfCons(head, rest, maxCode);
      ConsFacts(head, KeepShort(rest, maxCode), maxCode);
      AllShortOfCons(head, KeepShort(rest, maxCode), maxCode);
      assert Scannable(rest) ==> (rest == [] ==> KeepShort(rest, maxCode) == []);
    }
  }

  /** After the code pass the scanner finds exactly the short segments it found before. */
  lemma CodePassScan(lines: seq<string>, maxCode: int)
    ensures Scan(CodePass(lines, maxCode)) == KeepShort(Scan(lines), maxCode)
    ensures AllShort(Scan(CodePass(lines, maxCode)), maxCode)
  {
    ScanSplitsFaithfully(lines);
    KeepShortKeeps(Scan(lines), maxCode);
    ScanAfterFlatten(KeepShort(Scan(lines), maxCode));
  }

  lemma CodePassKeepsShortText(lines: seq<string>, maxCode: int)
    requires AllShort(Scan(lines), maxCode)
    ensures CodePass(lines, maxCode) == lines
  {
    ScanSplitsFaithfully(lines);
    KeepShortKeeps(Scan(lines), maxCode);
  }

  // ---------------------------------------------------------------- table runs

  /** How many table lines `lines` starts with. */
  function RunLength(lines: seq<string>): (n: nat)
    ensures n <= |lines|
    ensures forall k :: 0 <= k < n ==> IsTableLine(lines[k])
    ensures n < |lines| ==> !IsTableLine(lines[n])
  {
    if lines == [] || !IsTableLine(lines[0]) then 0 else 1 + RunLength(lines[1..])
  }

  function TablePass(lines: seq<string>, maxRows: int): seq<string>
    decreases |lines|
  {
    if lines == [] then []
    else if IsTableLine(lines[0]) then
      var n := RunLength(lines);
      if n > maxRows then TablePass(lines[n..], maxRows) else lines[..n] + TablePass(lines[n..], maxRows)
    else [lines[0]] + TablePass(lines[1..], maxRows)
  }

  function CountLongRuns(lines: seq<string>, maxRows: int): nat
    decreases |lines|
  {
    if lines == [] then 0
    else if IsTableLine(lines[0]) then
      var n := RunLength(lines);
      (if n > maxRows then 1 else 0) + CountLongRuns(lines[n..], maxRows)
    else CountLongRuns(lines[1..], maxRows)
  }

  /** No run of table lines, wherever it starts, is longer than `maxRows`. */
  ghost predicate RunsShort(lines: seq<string>, maxRows: int) {
    forall i :: 0 <= i < |lines| && IsTableLine(lines[i]) ==> RunLength(lines[i..]) <= maxRows
  }

  lemma {:induction false} TablePassBoundsRuns(lines: seq<string>, maxRows: int)
    ensures RunsShort(TablePass(lines, maxRows), maxRows)
    ensures var out := TablePass(lines, maxRows);
      lines != [] && out != [] && !IsTableLine(lines[0]) ==> out[0] == lines[0]
    decreases |lines|
  {
    if lines != [] {
      var out := TablePass(lines, maxRows);
      if IsTableLine(lines[0]) {
        var n := RunLength(lines);
        TablePassBoundsRuns(lines[n..], maxRows);
        if n <= maxRows {
          RunThenRest(lines[..n], TablePass(lines[n..], maxRows), maxRows);
        } else {
          assert out == TablePass(lines[n..], maxRows);
        }
      } else {
        TablePassBoundsRuns(lines[1..], maxRows);
        forall i | 0 <= i < |out| && IsTableLine(out[i]) ensures RunLength(out[i..]) <= maxRows {
          assert out[i..] == TablePass(lines[1..], maxRows)[i - 1..];
        }
      }
    }
  }

  lemma {:induction false} RunThenRest(run: seq<string>, rest: seq<string>, maxRows: int)
    requires |run| <= maxRows && forall k :: 0 <= k < |run| ==> IsTableLine(run[k])
    requires RunsShort(rest, maxRows) && (rest != [] ==> !IsTableLine(rest[0]))
    ensures RunLength(run + rest) == |run|
    ensures RunsShort(run + rest, maxRows)
  {
    if run == [] {
      assert run + rest == rest;
    } else {
      var out := run + rest;
      assert out[1..] == run[1..] + rest;
      RunThenRest(run[1..], rest, maxRows);
      forall i | 0 <= i < |out| && IsTableLine(out[i]) ensures RunLength(out[i..]) <= maxRows {
        if i == 0 {
          assert out[0..] == out;
        } else {
          assert out[i..] == out[1..][i - 1..];
        }
      }
    }
  }

  lemma {:induction false} TablePassKeepsShortRuns(lines: seq<string>, maxRows: int)
    requires RunsShort(lines, maxRows)
    ensures TablePass(lines, maxRows) == lines && CountLongRuns(lines, maxRows) == 0
    decreases |lines|
  {
    hide IsTableLine;
    if lines != [] {
      assert lines[0..] == lines;
      var n := if IsTableLine(lines[0]) then RunLength(lines) else 1;
      RunsShortInTail(lines, n, maxRows);
      TablePassKeepsShortRuns(lines[n..], maxRows);
      assert lines == lines[..n] + lines[n..];
      assert TablePass(lines, maxRows) == lines[..n] + TablePass(lines[n..], maxRows) by {
        assert lines[..1] == [lines[0]];
      }
    }
  }

  lemma RunsShortInTail(lines: seq<string>, n: nat, maxRows: int)
    requires n <= |lines| && RunsShort(lines, maxRows)
    ensures RunsShort(lines[n..], maxRows)
  {
    forall i | 0 <= i < |lines[n..]| && IsTableLine(lines[n..][i]) ensures RunLength(lines[n..][i..]) <= maxRows {
      assert lines[n..][i..] == lines[n + i..];
    }
  }

  // ---------------------------------------------------------------- the passes together

  /** `after` is `before` without some of its table lines. */
  ghost predicate Thinned(before: seq<string>, after: seq<string>) {
    if before == [] then after == []
    else
      || (after != [] && after[0] == before[0] && Thinned(before[1..], after[1..]))
      || (IsTableLine(before[0]) && Thinned(before[1..], after))
  }

  lemma {:induction false} TablePassThins(lines: seq<string>, maxRows: int)
    ensures Thinned(lines, TablePass(lines, maxRows))
    decreases |lines|
  {
    if lines != [] {
      if IsTableLine(lines[0]) {
        var n := RunLength(lines);
        var rest := TablePass(lines[n..], maxRows);
        TablePassThins(lines[n..], maxRows);
        assert lines[..n] + lines[n..] == lines;
        if n > maxRows {
          DroppingThins(lines[..n], lines[n..], rest);
          assert TablePass(lines, maxRows) == rest;
        } else {
          KeepingThins(lines[..n], lines[n..], rest);
        }
      } else {
        TablePassThins(lines[1..], maxRows);
      }
    }
  }

  lemma {:induction false} DroppingThins(run: seq<string>, before: seq<string>, after: seq<string>)
    requires Thinned(before, after) && forall k :: 0 <= k < |run| ==> IsTableLine(run[k])
    ensures Thinned(run + before, after)
  {
    if run == [] {
      assert run + before == before;
    } else {
      DroppingThins(run[1..], before, after);
      assert (run + before)[1..] == run[1..] + before;
    }
  }

  lemma {:induction false} KeepingThins(run: seq<string>, before: seq<string>, after: seq<string>)
    requires Thinned(before, after)
    ensures Thinned(run + before, run + after)
  {
    if run == [] {
      assert run + before == before && run + after == after;
    } else {
      KeepingThins(run[1..], before, after);
      assert (run + before)[1..] == run[1..] + before && (run + after)[1..] == run[1..] + after;
    }
  }

  /** Thinning cannot move a closing fence behind a new one: it survives, no later than it was. */
  lemma {:induction false} ThinningKeepsCloses(prefix: string, before: seq<string>, after: seq<string>)
    requires AllSpace(prefix) && Thinned(before, after)
    ensures var i, j := CloseAt(prefix, before, 0), CloseAt(prefix, after, 0);
      && j <= i
      && (i < |before| <==> j < |after|)
      && Thinned(before[i..], after[j..])
    decreases |before|
  {
    if before == [] || ClosesFence(prefix, before[0]) {
      if before != [] && IsTableLine(before[0]) {
        TableLinesAreNoFences(before[0], prefix);
      }
      assert before[0..] == before && after[0..] == after;
    } else if after != [] && after[0] == before[0] && Thinned(before[1..], after[1..]) {
      ThinningKeepsCloses(prefix, before[1..], after[1..]);
      CloseAtShifts(prefix, before);
      CloseAtShifts(prefix, after);
    } else {
      ThinningKeepsCloses(prefix, before[1..], after);
      CloseAtShifts(prefix, before);
    }
  }

  lemma CloseAtInTail(prefix: string, lines: seq<string>)
    requires lines != []
    ensures CloseAt(prefix, lines, 1) == 1 + CloseAt(prefix, lines[1..], 0)
  {
    var at := CloseAt(prefix, lines[1..], 0);
    forall k | 1 <= k < at + 1 ensures !ClosesFence(prefix, lines[k]) {
      assert lines[k] == lines[1..][k - 1];
    }
    CloseAtIs(prefix, lines, 1, at + 1);
  }

  lemma CloseAtShifts(prefix: string, lines: seq<string>)
    requires lines != [] && !ClosesFence(prefix, lines[0])
    ensures var at := CloseAt(prefix, lines[1..], 0);
      CloseAt(prefix, lines, 0) == at + 1 && lines[at + 1..] == lines[1..][at..]
  {
    CloseAtInTail(prefix, lines);
  }

  lemma AllShortOfCons(head: Segment, tail: seq<Segment>, maxCode: int)
    ensures AllShort([head] + tail, maxCode) <==> IsShort(head, maxCode) && AllShort(tail, maxCode)
  {
    var all := [head] + tail;
    assert all[0] == head && forall k :: 0 <= k < |tail| ==> tail[k] == all[k + 1];
  }

  /** Removing table lines, even inside a kept block, never makes a block longer or opens a new one. */
  lemma {:induction false} ThinningKeepsBlocksShort(before: seq<string>, after: seq<string>, maxCode: int)
    requires Thinned(before, after) && AllShort(Scan(before), maxCode)
    ensures AllShort(Scan(after), maxCode)
    decreases |before|
  {
    if before != [] {
      var line := before[0];
      if OpensFence(line) {
        if IsTableLine(line) {
          TableLinesAreNoFences(line, "");
        }
        ThinningABlock(before, after);
        AllShortOfCons(Head(before), Scan(Tail(before)), maxCode);
        ThinningKeepsBlocksShort(Tail(before), Tail(after), maxCode);
        AllShortOfCons(Head(after), Scan(Tail(after)), maxCode);
      } else if after != [] && after[0] == line && Thinned(before[1..], after[1..]) {
        AllShortOfCons(Plain(line), Scan(before[1..]), maxCode);
        ThinningKeepsBlocksShort(before[1..], after[1..], maxCode);
        AllShortOfCons(Plain(line), Scan(after[1..]), maxCode);
      } else {
        AllShortOfCons(Plain(line), Scan(before[1..]), maxCode);
        ThinningKeepsBlocksShort(before[1..], after, maxCode);
      }
    }
  }

  /** A fenced block survives thinning with a body no longer than before, and what follows it is thinned too. */
  lemma ThinningABlock(before: seq<string>, after: seq<string>)
    requires before != [] && after != [] && after[0] == before[0] && OpensFence(before[0])
    requires Thinned(before[1..], after[1..])
    ensures Thinned(Tail(before), Tail(after))
    ensures |Head(after).body| <= |Head(before).body|
  {
    var prefix, b, a := Prefix(before[0]), before[1..], after[1..];
    IndentIsMaximal(before[0]);
    ThinningKeepsCloses(prefix, b, a);
    CloseAtInTail(prefix, before);
    CloseAtInTail(prefix, after);
    var i, j := CloseAt(prefix, b, 0), CloseAt(prefix, a, 0);
    if i < |b| {
      TailsOfThinned(b[i..], a[j..], prefix);
      assert b[i..][1..] == Tail(before) && a[j..][1..] == Tail(after);
    }
  }

  lemma TailsOfThinned(before: seq<string>, after: seq<string>, prefix: string)
    requires AllSpace(prefix) && before != [] && after != []
    requires ClosesFence(prefix, before[0]) && Thinned(before, after)
    ensures Thinned(before[1..], after[1..])
  {
    if IsTableLine(before[0]) {
      TableLinesAreNoFences(before[0], prefix);
    }
  }

  // ---------------------------------------------------------------- the whole function

  function Strip(text: string, maxCode: int, maxRows: int): string {
    Unlines(TablePass(Lines(Unlines(CodePass(Lines(text), maxCode))), maxRows))
  }

  /** Every fenced block the scanner finds and every table run is within its limit. */
  ghost predicate Clean(text: string, maxCode: int, maxRows: int) {
    AllShort(Scan(Lines(text)), maxCode) && RunsShort(Lines(text), maxRows)
  }

  /** Lines that a pass keeps are lines it was given. */
  lemma {:induction false} CodePassKeepsLines(lines: seq<string>, maxCode: int)
    ensures Subsequence(CodePass(lines, maxCode), lines)
  {
    ScanSplitsFaithfully(lines);
    KeepShortIsSubsequence(Scan(lines), maxCode);
  }

  lemma {:induction false} KeepShortIsSubsequence(segments: seq<Segment>, maxCode: int)
    ensures Subsequence(Flatten(KeepShort(segments, maxCode)), Flatten(segments))
  {
    if segments != [] {
      KeepShortIsSubsequence(segments[1..], maxCode);
      var head, rest := segments[0], segments[1..];
      assert segments == [head] + rest;
      ConsFacts(head, rest, maxCode);
      ConsFacts(head, KeepShort(rest, maxCode), maxCode);
      SubsequenceKeepsPrefix(Raw(head), Flatten(KeepShort(rest, maxCode)), Flatten(rest));
      SubsequenceSkipsPrefix(Raw(head), Flatten(KeepShort(rest, maxCode)), Flatten(rest));
      assert !IsShort(head, maxCode) ==> KeepShort(segments, maxCode) == KeepShort(rest, maxCode);
    }
  }

  lemma {:induction false} ThinnedIsSubsequence(all: seq<string>, middle: seq<string>, kept: seq<string>)
    requires Subsequence(middle, all) && Thinned(middle, kept)
    ensures Subsequence(kept, all)
    decreases |all|
  {
    if all != [] {
      if middle != [] && middle[0] == all[0] && Subsequence(middle[1..], all[1..]) {
        if kept != [] && kept[0] == middle[0] && Thinned(middle[1..], kept[1..]) {
          ThinnedIsSubsequence(all[1..], middle[1..], kept[1..]);
        } else {
          ThinnedIsSubsequence(all[1..], middle[1..], kept);
        }
      } else {
        ThinnedIsSubsequence(all[1..], middle, kept);
      }
    }
  }

  lemma SubsequenceKeepsNoNewline(kept: seq<string>, all: seq<string>)
    requires Subsequence(kept, all) && forall k :: 0 <= k < |all| ==> '\n' !in all[k]
    ensures forall k :: 0 <= k < |kept| ==> '\n' !in kept[k]
  {
    SubsequenceHasNoOther(kept, all);
  }

  /** The lines after both passes; an emptied text still reads back as one empty line. */
  lemma LinesOfStrip(text: string, maxCode: int, maxRows: int)
    ensures var code := CodePass(Lines(text), maxCode);
            var kept := TablePass(code, maxRows);
            && Subsequence(kept, Lines(text))
            && Thinned(code, kept)
            && Lines(Strip(text, maxCode, maxRows)) == if kept == [] then [""] else kept
  {
    var code := CodePass(Lines(text), maxCode);
    var kept := TablePass(code, maxRows);
    CodePassKeepsLines(Lines(text), maxCode);
    SubsequenceKeepsNoNewline(code, Lines(text));
    SplitAfterJoin(code);
    TablePassThins(code, maxRows);
    ThinnedIsSubsequence(Lines(text), code, kept);
    SubsequenceKeepsNoNewline(kept, Lines(text));
    SplitAfterJoin(kept);
    if code == [] {
      assert TablePass([""], maxRows) == [""] by { assert [""][1..] == []; }
    }
  }

  /** The result is clean and, unless everything went, a subsequence of the input lines. */
  lemma StripIsCleanSubsequence(text: string, maxCode: int, maxRows: int)
    ensures Clean(Strip(text, maxCode, maxRows), maxCode, maxRows)
    ensures var out := Strip(text, maxCode, maxRows);
            out == "" || Subsequence(Lines(out), Lines(text))
  {
    LinesOfStrip(text, maxCode, maxRows);
    var code := CodePass(Lines(text), maxCode);
    var kept := TablePass(code, maxRows);
    CodePassScan(Lines(text), maxCode);
    ThinningKeepsBlocksShort(code, kept, maxCode);
    TablePassBoundsRuns(code, maxRows);
    if kept == [] {
      EmptyTextIsClean(maxCode, maxRows);
      JoinAfterSplit(Strip(text, maxCode, maxRows));
    }
  }

  lemma EmptyTextIsClean(maxCode: int, maxRows: int)
    ensures AllShort(Scan([""]), maxCode) && RunsShort([""], maxRows) && Unlines([""]) == ""
  {
    assert [""][1..] == [];
    assert Scan([""]) == [Plain("")];
  }

  /** A text is left alone exactly when it is clean. */
  lemma StripKeepsExactlyCleanTexts(text: string, maxCode: int, maxRows: int)
    ensures Strip(text, maxCode, maxRows) == text <==> Clean(text, maxCode, maxRows)
  {
    if Clean(text, maxCode, maxRows) {
      CodePassKeepsShortText(Lines(text), maxCode);
      SplitAfterJoin(Lines(text));
      TablePassKeepsShortRuns(Lines(text), maxRows);
      JoinAfterSplit(text);
    }
    StripIsCleanSubsequence(text, maxCode, maxRows);
  }

  /** Running the function again changes nothing. */
  lemma StripIsIdempotent(text: string, maxCode: int, maxRows: int)
    ensures Strip(Strip(text, maxCode, maxRows), maxCode, maxRows) == Strip(text, maxCode, maxRows)
  {
    StripIsCleanSubsequence(text, maxCode, maxRows);
    StripKeepsExactlyCleanTexts(Strip(text, maxCode, maxRows), maxCode, maxRows);
  }

  lemma NothingPassed(maxCode: int)
    ensures CodePass([], maxCode) == [] && CountLong(Scan([]), maxCode) == 0
  {
  }

  method DropLongCode(lines: seq<string>, maxCode: int) returns (out: seq<string>, dropped: nat)
    ensures out == CodePass(lines, maxCode)
    ensures dropped == CountLong(Scan(lines), maxCode)
  {
    NothingPassed(maxCode);
    hide Scan, CodePass, CountLong, Flatten, KeepShort;
    out, dropped := [], 0;
    var i := 0;
    assert lines[0..] == lines;
    while i < |lines|
      invariant 0 <= i <= |lines|
      invariant out + CodePass(lines[i..], maxCode) == CodePass(lines, maxCode)
      invariant dropped + CountLong(Scan(lines[i..]), maxCode) == CountLong(Scan(lines), maxCode)
    {
      CodeStep(lines[i..], maxCode);
      var long, next := false, i + 1;
      if OpensFence(lines[i]) {
        var j := FindClose(lines, i);
        BlockAt(lines, i, j);
        long := j - i - 1 > maxCode;
        next := if j < |lines| then j + 1 else |lines|;
      }
      assert Tail(lines[i..]) == lines[next..];
      if long {
        dropped := dropped + 1;
      } else {
        assert Raw(Head(lines[i..])) == lines[i..next];
        Regroup(out, lines[i..next], CodePass(lines[next..], maxCode));
        out := out + lines[i..next];
      }
      i := next;
    }
    assert lines[i..] == [] && out + [] == out;
  }

  /** The inner scan for the closing fence. */
  method FindClose(lines: seq<string>, i: nat) returns (j: nat)
    requires i < |lines|
    ensures i < j <= |lines|
    ensures forall k :: i + 1 <= k < j ==> !ClosesFence(Prefix(lines[i]), lines[k])
    ensures j < |lines| ==> ClosesFence(Prefix(lines[i]), lines[j])
  {
    j := i + 1;
    while j < |lines| && !ClosesFence(Prefix(lines[i]), lines[j])
      invariant i + 1 <= j <= |lines|
      invariant forall k :: i + 1 <= k < j ==> !ClosesFence(Prefix(lines[i]), lines[k])
    {
      j := j + 1;
    }
  }

  /** What one turn of the loop does to the lines still ahead. */
  lemma CodeStep(lines: seq<string>, maxCode: int)
    requires lines != []
    ensures var rest := CodePass(Tail(lines), maxCode);
      CodePass(lines, maxCode) == if IsShort(Head(lines), maxCode) then Raw(Head(lines)) + rest else rest
    ensures CountLong(Scan(lines), maxCode)
            == (if IsShort(Head(lines), maxCode) then 0 else 1) + CountLong(Scan(Tail(lines)), maxCode)
  {
    ConsFacts(Head(lines), Scan(Tail(lines)), maxCode);
    ConsFacts(Head(lines), KeepShort(Scan(Tail(lines)), maxCode), maxCode);
  }

  /** The indices the loop computes delimit the head segment. */
  lemma BlockAt(lines: seq<string>, i: nat, j: nat)
    requires i < j <= |lines| && OpensFence(lines[i])
    requires forall k :: i + 1 <= k < j ==> !ClosesFence(Prefix(lines[i]), lines[k])
    requires j < |lines| ==> ClosesFence(Prefix(lines[i]), lines[j])
    ensures var next := if j < |lines| then j + 1 else |lines|;
      && Tail(lines[i..]) == lines[next..]
      && Raw(Head(lines[i..])) == lines[i..next]
      && |Head(lines[i..]).body| == j - i - 1
  {
    var here, next := lines[i..], if j < |lines| then j + 1 else |lines|;
    forall k | 1 <= k < j - i ensures !ClosesFence(Prefix(lines[i]), here[k]) {
      assert here[k] == lines[i + k];
    }
    CloseAtIs(Prefix(lines[i]), here, 1, j - i);
    assert Tail(here) == lines[next..];
    HeadAndTail(here);
    assert Raw(Head(here)) == here[..next - i] == lines[i..next];
  }

  method DropLongTables(lines: seq<string>, maxRows: int) returns (out: seq<string>, dropped: nat)
    ensures out == TablePass(lines, maxRows)
    ensures dropped == CountLongRuns(lines, maxRows)
  {
    out, dropped := [], 0;
    var i := 0;
    assert lines[0..] == lines;
    while i < |lines|
      invariant 0 <= i <= |lines|
      invariant out + TablePass(lines[i..], maxRows) == TablePass(lines, maxRows)
      invariant dropped + CountLongRuns(lines[i..], maxRows) == CountLongRuns(lines, maxRows)
    {
      var chunk, next := [lines[i]], i + 1;
      if IsTableLine(lines[i]) {
        next := FindRunEnd(lines, i);
        chunk := if next - i > maxRows then [] else lines[i..next];
        dropped := dropped + if next - i > maxRows then 1 else 0;
      }
      TableStep(lines, i, next, maxRows);
      Regroup(out, chunk, TablePass(lines[next..], maxRows));
      out := out + chunk;
      i := next;
    }
  }

  /** The inner loop over one run of table lines. */
  method FindRunEnd(lines: seq<string>, start: nat) returns (i: nat)
    requires start < |lines| && IsTableLine(lines[start])
    ensures start < i <= |lines|
    ensures forall k :: start <= k < i ==> IsTableLine(lines[k])
    ensures i < |lines| ==> !IsTableLine(lines[i])
  {
    i := start;
    while i < |lines| && IsTableLine(lines[i])
      invariant start <= i <= |lines|
      invariant forall k :: start <= k < i ==> IsTableLine(lines[k])
    {
      i := i + 1;
    }
  }

  lemma TableStep(lines: seq<string>, i: nat, next: nat, maxRows: int)
    requires i < next <= |lines|
    requires if IsTableLine(lines[i])
             then (forall k :: i <= k < next ==> IsTableLine(lines[k])) && (next < |lines| ==> !IsTableLine(lines[next]))
             else next == i + 1
    ensures var chunk := if IsTableLine(lines[i]) && next - i > maxRows then [] else lines[i..next];
      TablePass(lines[i..], maxRows) == chunk + TablePass(lines[next..], maxRows)
    ensures CountLongRuns(lines[i..], maxRows)
            == (if IsTableLine(lines[i]) && next - i > maxRows then 1 else 0) + CountLongRuns(lines[next..], maxRows)
  {
    hide IsTableLine;
    var here := lines[i..];
    if IsTableLine(lines[i]) {
      RunLengthIs(here, next - i);
      assert here[next - i..] == lines[next..] && here[..next - i] == lines[i..next];
    } else {
      assert here[1..] == lines[next..];
    }
  }

  lemma {:induction false} RunLengthIs(lines: seq<string>, n: nat)
    requires n <= |lines| && forall k :: 0 <= k < n ==> IsTableLine(lines[k])
    requires n < |lines| ==> !IsTableLine(lines[n])
    ensures RunLength(lines) == n
  {
  }

  /** The function as the pipeline calls it, with the two counters it reports. */
  method StripLongCodeAndTables(text: string, maxCode: int, maxRows: int)
    returns (stripped: string, codeDropped: nat, tablesDropped: nat)
    ensures stripped == Strip(text, maxCode, maxRows)
    ensures codeDropped == CountLong(Scan(Lines(text)), maxCode)
    ensures tablesDropped == CountLongRuns(Lines(Unlines(CodePass(Lines(text), maxCode))), maxRows)
  {
    var out, dropped := DropLongCode(Lines(text), maxCode);
    codeDropped := dropped;
    out, tablesDropped := DropLongTables(Lines(Unlines(out)), maxRows);
    stripped := Unlines(out);
  }
}
