/**
 What `strip_long_code_and_tables` (BRAIN-DAEMON/quantize/build-calibration.py) takes for a fence, a block and a table,
 and what it does with each of them, in plain characters, line numbers and lengths.
 */
module StripMeaning {
  import opened Helpers
  import opened StripPasses
  import opened TextLines

  // ---------------------------------------------------------------- lines

  /** The 29 characters that the pattern `\s` matches. */
  predicate Blank(c: char) {
    c in "\U{9}\U{A}\U{B}\U{C}\U{D}\U{1C}\U{1D}\U{1E}\U{1F} \U{85}\U{A0}\U{1680}"
       + "\U{2000}\U{2001}\U{2002}\U{2003}\U{2004}\U{2005}\U{2006}\U{2007}\U{2008}\U{2009}\U{200A}"
       + "\U{2028}\U{2029}\U{202F}\U{205F}\U{3000}"
  }

  predicate BlankFrom(line: string, from: nat, to: nat)
    requires from <= to <= |line|
  {
    forall k :: from <= k < to ==> Blank(line[k])
  }

  /** Three backquotes after `n` blanks. */
  predicate FenceAt(line: string, n: nat) {
    n + 3 <= |line| && BlankFrom(line, 0, n) && line[n..n + 3] == "```"
  }

  /** The same indentation, three backquotes, and blanks to the end. */
  predicate FenceAlone(line: string, indent: string) {
    && |indent| + 3 <= |line| && line[..|indent|] == indent && line[|indent|..|indent| + 3] == "```"
    && BlankFrom(line, |indent| + 3, |line|)
  }

  predicate BarAt(line: string, n: nat) {
    n < |line| && BlankFrom(line, 0, n) && line[n] == '|'
  }

  lemma SpacesAreBlank(c: char)
    ensures IsSpace(c) <==> Blank(c)
  {
  }

  lemma AllSpaceIsBlank(line: string, from: nat, to: nat)
    requires from <= to <= |line|
    ensures AllSpace(line[from..to]) <==> BlankFrom(line, from, to)
  {
    forall c: char ensures IsSpace(c) <==> Blank(c) {
      SpacesAreBlank(c);
    }
    hide IsSpace, Blank;
    assert forall k :: from <= k < to ==> line[k] == line[from..to][k - from];
  }

  /** The blanks before a character that is not blank are the indentation. */
  lemma IndentIs(line: string, n: nat)
    requires n < |line| && BlankFrom(line, 0, n) && !Blank(line[n])
    ensures Indent(line) == n
  {
    IndentIsMaximal(line);
    AllSpaceIsBlank(line, 0, n);
    AllSpaceIsBlank(line, 0, Indent(line));
    IndentCovers(line, n);
  }

  lemma IndentBlank(line: string)
    ensures BlankFrom(line, 0, Indent(line))
  {
    IndentIsMaximal(line);
    AllSpaceIsBlank(line, 0, Indent(line));
  }

  /** A block opens on a line with a fence after its blanks, and those blanks are its indentation. */
  lemma OpeningLines(line: string)
    ensures OpensFence(line) <==> exists n: nat :: FenceAt(line, n)
    ensures forall n: nat :: FenceAt(line, n) ==> Prefix(line) == line[..n]
  {
    hide IsSpace;
    IndentBlank(line);
    var m := Indent(line);
    if OpensFence(line) {
      assert line[m..][..3] == line[m..m + 3];
      assert FenceAt(line, m);
    }
    forall n: nat | FenceAt(line, n) ensures Indent(line) == n && OpensFence(line) {
      assert line[n..n + 3][0] == line[n];
      assert !Blank('`');
      IndentIs(line, n);
      assert line[n..][..3] == line[n..n + 3];
    }
  }

  lemma ClosingLines(indent: string, line: string)
    ensures ClosesFence(indent, line) <==> FenceAlone(line, indent)
  {
    hide IsSpace;
    var n := |indent|;
    if n + 3 <= |line| {
      AllSpaceIsBlank(line, n + 3, |line|);
      assert line[n + 3..|line|] == line[n + 3..];
      assert line[..n] + line[n..n + 3] == line[..n + 3];
      assert |"```"| == 3;
    }
  }

  lemma TableLines(line: string)
    ensures IsTableLine(line) <==> exists n: nat :: BarAt(line, n)
  {
    hide IsSpace;
    IndentBlank(line);
    var m := Indent(line);
    if IsTableLine(line) {
      assert line[m..][0] == line[m];
      assert BarAt(line, m);
    }
    forall n: nat | BarAt(line, n) ensures IsTableLine(line) {
      assert !Blank('|');
      IndentIs(line, n);
    }
  }

  // ---------------------------------------------------------------- code blocks

  /** The segment in its lines: outside blocks no line opens a fence; a block ends at the first line that repeats its fence
      with the same indentation, or never, and then nothing follows it. */
  ghost predicate SegmentInText(segment: Segment, last: bool) {
    match segment
    case Plain(line) => forall n: nat :: !FenceAt(line, n)
    case Block(open, body, close) =>
      exists n: nat :: FenceAt(open, n)
        && (forall k :: 0 <= k < |body| ==> !FenceAlone(body[k], open[..n]))
        && (if close.Some? then FenceAlone(close.value, open[..n]) else last)
  }

  lemma FittingIsInText(segment: Segment, last: bool)
    requires Fits(segment, last)
    ensures SegmentInText(segment, last)
  {
    hide OpensFence, ClosesFence, FenceAlone, Prefix, BlankFrom;
    match segment
    case Plain(line) => OpeningLines(line);
    case Block(open, body, close) =>
      OpeningLines(open);
      var n: nat :| FenceAt(open, n);
      forall k | 0 <= k < |body| ensures !FenceAlone(body[k], open[..n]) {
        ClosingLines(open[..n], body[k]);
      }
      if close.Some? {
        ClosingLines(open[..n], close.value);
      }
  }

  lemma {:induction false} SegmentsFit(segments: seq<Segment>, k: nat)
    requires Scannable(segments) && k < |segments|
    ensures Fits(segments[k], k == |segments| - 1)
    decreases k
  {
    hide Fits;
    if k > 0 {
      SegmentsFit(segments[1..], k - 1);
    }
  }

  /** How the scanner cuts a text: the segments are the lines, in order and without loss, and each is as its lines say. */
  lemma ScannedInText(lines: seq<string>)
    ensures Flatten(Scan(lines)) == lines
    ensures forall k :: 0 <= k < |Scan(lines)| ==> SegmentInText(Scan(lines)[k], k == |Scan(lines)| - 1)
  {
    hide *;
    ScanSplitsFaithfully(lines);
    forall k | 0 <= k < |Scan(lines)| ensures SegmentInText(Scan(lines)[k], k == |Scan(lines)| - 1) {
      SegmentsFit(Scan(lines), k);
      FittingIsInText(Scan(lines)[k], k == |Scan(lines)| - 1);
    }
  }

  /** The code pass keeps the segments outside blocks and the blocks of at most `maxCode` lines between their fences, and
      the counter says how many it dropped. */
  lemma {:induction false} KeepsExactlyTheShort(segments: seq<Segment>, maxCode: int)
    ensures forall s :: s in KeepShort(segments, maxCode) <==> s in segments && (s.Block? ==> |s.body| <= maxCode)
    ensures |KeepShort(segments, maxCode)| + CountLong(segments, maxCode) == |segments|
  {
    if segments != [] {
      KeepsExactlyTheShort(segments[1..], maxCode);
      assert segments == [segments[0]] + segments[1..];
    }
  }

  // ---------------------------------------------------------------- table runs

  /** `lines` ends in front of a run: its last line is no table line. */
  predicate EndsOutside(lines: seq<string>) {
    lines != [] ==> !IsTableLine(lines[|lines| - 1])
  }

  predicate StartsOutside(lines: seq<string>) {
    lines != [] ==> !IsTableLine(lines[0])
  }

  predicate AllTable(lines: seq<string>) {
    forall k :: 0 <= k < |lines| ==> IsTableLine(lines[k])
  }

  /** The table pass decides on every maximal run by itself: it goes, and is counted, exactly when it has more than
      `maxRows` lines; what stands before and behind it is treated as if the run were not there. */
  lemma {:induction false} RunsAreDecidedOneByOne(before: seq<string>, run: seq<string>, behind: seq<string>, maxRows: int)
    requires run != [] && AllTable(run) && EndsOutside(before) && StartsOutside(behind)
    ensures TablePass(before + (run + behind), maxRows)
         == TablePass(before, maxRows) + ((if |run| > maxRows then [] else run) + TablePass(behind, maxRows))
    ensures CountLongRuns(before + (run + behind), maxRows)
         == CountLongRuns(before, maxRows) + (if |run| > maxRows then 1 else 0) + CountLongRuns(behind, maxRows)
    decreases |before|
  {
    hide IsTableLine, TablePass, CountLongRuns, RunLength, AllTable;
    if before == [] {
      NothingInFront(run, behind, maxRows);
    } else {
      var n := LinesOfStep(before);
      RunsAreDecidedOneByOne(before[n..], run, behind, maxRows);
      StepInFront(before, n, run + behind, maxRows);
      StepAlone(before, n, maxRows);
      Regroup(if IsTableLine(before[0]) && n > maxRows then [] else before[..n], TablePass(before[n..], maxRows),
              (if |run| > maxRows then [] else run) + TablePass(behind, maxRows));
    }
  }

  lemma NothingInFront(run: seq<string>, behind: seq<string>, maxRows: int)
    requires run != [] && AllTable(run) && StartsOutside(behind)
    ensures TablePass([] + (run + behind), maxRows)
         == TablePass([], maxRows) + ((if |run| > maxRows then [] else run) + TablePass(behind, maxRows))
    ensures CountLongRuns([] + (run + behind), maxRows)
         == CountLongRuns([], maxRows) + (if |run| > maxRows then 1 else 0) + CountLongRuns(behind, maxRows)
  {
    FirstRun(run, behind, maxRows);
    assert [] + (run + behind) == run + behind;
  }

  lemma FirstRun(run: seq<string>, behind: seq<string>, maxRows: int)
    requires run != [] && AllTable(run) && StartsOutside(behind)
    ensures TablePass(run + behind, maxRows) == (if |run| > maxRows then [] else run) + TablePass(behind, maxRows)
    ensures CountLongRuns(run + behind, maxRows) == (if |run| > maxRows then 1 else 0) + CountLongRuns(behind, maxRows)
  {
    hide IsTableLine;
    var lines := run + behind;
    RunLengthIs(lines, |run|);
    assert lines[..|run|] == run && lines[|run|..] == behind && lines[0] == run[0];
  }

  /** How many lines the table pass looks at in its first turn. */
  lemma LinesOfStep(before: seq<string>) returns (n: nat)
    requires before != [] && EndsOutside(before)
    ensures 0 < n <= |before| && EndsOutside(before[n..])
    ensures if IsTableLine(before[0]) then n == RunLength(before) < |before| else n == 1
  {
    hide IsTableLine;
    n := if IsTableLine(before[0]) then RunLength(before) else 1;
  }

  /** That turn does the same whatever stands further on. */
  lemma StepInFront(before: seq<string>, n: nat, rest: seq<string>, maxRows: int)
    requires before != [] && 0 < n <= |before|
    requires if IsTableLine(before[0]) then n == RunLength(before) < |before| else n == 1
    ensures var long := IsTableLine(before[0]) && n > maxRows;
      && TablePass(before + rest, maxRows) == (if long then [] else before[..n]) + TablePass(before[n..] + rest, maxRows)
      && CountLongRuns(before + rest, maxRows) == (if long then 1 else 0) + CountLongRuns(before[n..] + rest, maxRows)
  {
    hide IsTableLine;
    var lines := before + rest;
    assert lines[0] == before[0] && lines[n..] == before[n..] + rest && lines[..n] == before[..n];
    if IsTableLine(before[0]) {
      RunLengthIs(lines, n);
    } else {
      assert before[..1] == [before[0]];
    }
  }

  lemma {:induction false} NoTables(lines: seq<string>, maxRows: int)
    requires forall k :: 0 <= k < |lines| ==> !IsTableLine(lines[k])
    ensures TablePass(lines, maxRows) == lines && CountLongRuns(lines, maxRows) == 0
  {
    hide IsTableLine;
    if lines != [] {
      NoTables(lines[1..], maxRows);
      assert lines == [lines[0]] + lines[1..];
    }
  }

  lemma StepAlone(before: seq<string>, n: nat, maxRows: int)
    requires before != [] && 0 < n <= |before|
    requires if IsTableLine(before[0]) then n == RunLength(before) < |before| else n == 1
    ensures var long := IsTableLine(before[0]) && n > maxRows;
      && TablePass(before, maxRows) == (if long then [] else before[..n]) + TablePass(before[n..], maxRows)
      && CountLongRuns(before, maxRows) == (if long then 1 else 0) + CountLongRuns(before[n..], maxRows)
  {
    var none: seq<string> := [];
    StepInFront(before, n, none, maxRows);
    assert before + none == before && before[n..] + none == before[n..];
  }

  // ---------------------------------------------------------------- clean texts

  /** The lines from `i` to before `j` all start a table row. */
  predicate TableRun(lines: seq<string>, i: nat, j: nat) {
    i < j <= |lines| && forall k :: i <= k < j ==> IsTableLine(lines[k])
  }

  predicate BlocksWithin(segments: seq<Segment>, maxCode: int) {
    forall k :: 0 <= k < |segments| && segments[k].Block? ==> |segments[k].body| <= maxCode
  }

  ghost predicate TablesWithin(lines: seq<string>, maxRows: int) {
    forall i: nat, j: nat :: TableRun(lines, i, j) ==> j - i <= maxRows
  }

  /** A clean text: no block has more than `maxCode` lines inside, and no stretch of table lines more than `maxRows`. */
  lemma CleanInText(text: string, maxCode: int, maxRows: int)
    ensures Clean(text, maxCode, maxRows)
      <==> BlocksWithin(Scan(Lines(text)), maxCode) && TablesWithin(Lines(text), maxRows)
  {
    hide IsTableLine, BlocksWithin, TablesWithin, AllShort, RunsShort;
    ShortInText(Scan(Lines(text)), maxCode);
    RunsInText(Lines(text), maxRows);
  }

  lemma ShortInText(segments: seq<Segment>, maxCode: int)
    ensures AllShort(segments, maxCode) <==> BlocksWithin(segments, maxCode)
  {
  }

  lemma RunsInText(lines: seq<string>, maxRows: int)
    ensures RunsShort(lines, maxRows) <==> TablesWithin(lines, maxRows)
  {
    hide IsTableLine;
    if RunsShort(lines, maxRows) {
      forall i: nat, j: nat | TableRun(lines, i, j) ensures j - i <= maxRows {
        RunCovers(lines, i, j);
      }
    }
    if TablesWithin(lines, maxRows) {
      forall i | 0 <= i < |lines| && IsTableLine(lines[i]) ensures RunLength(lines[i..]) <= maxRows {
        RunIsTableRun(lines, i);
      }
    }
  }

  lemma RunCovers(lines: seq<string>, i: nat, j: nat)
    requires TableRun(lines, i, j)
    ensures j - i <= RunLength(lines[i..]) && IsTableLine(lines[i])
  {
    hide IsTableLine;
    var n := RunLength(lines[i..]);
    assert n < |lines| - i ==> lines[i..][n] == lines[i + n];
  }

  lemma RunIsTableRun(lines: seq<string>, i: nat)
    requires i < |lines| && IsTableLine(lines[i])
    ensures TableRun(lines, i, i + RunLength(lines[i..]))
  {
    hide IsTableLine;
    var n := RunLength(lines[i..]);
    assert lines[i..][0] == lines[i];
    forall k | i <= k < i + n ensures IsTableLine(lines[k]) {
      assert lines[k] == lines[i..][k - i];
    }
  }
}
