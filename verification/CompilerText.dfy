/** Lines, spans and clipping of a prompt's text. */
module CompilerText {

  datatype Line = Line(text: string, start: nat, end: nat)

  datatype Span = Span(start: nat, end: nat)

  /** `indexOf(c, from)`, or the length when there is none. */
  method NextBreak(source: string, from: nat) returns (end: nat)
    requires from < |source|
    ensures from <= end <= |source|
    ensures end < |source| ==> source[end] == '\n'
    ensures forall i :: from <= i < end ==> source[i] != '\n'
  {
    end := from;
    while end < |source| && source[end] != '\n'
      invariant from <= end <= |source|
      invariant forall i :: from <= i < end ==> source[i] != '\n'
    {
      end := end + 1;
    }
  }

  /** A line is its own stretch of the source and holds no break. */
  predicate IsLineOf(source: string, line: Line) {
    line.start <= line.end <= |source| && line.text == source[line.start..line.end] && '\n' !in line.text
  }

  predicate IsBreak(text: string) {
    text == "\n" || text == "\r\n"
  }

  /** From the end of the line to `next` there is one line break. */
  predicate BreakUpTo(source: string, line: Line, next: nat) {
    line.end < next <= |source| && IsBreak(source[line.end..next])
  }

  /** What is left after the last line: a break, a lone carriage return, or nothing. */
  predicate EndsSource(source: string, line: Line) {
    line.end <= |source| && (source[line.end..] in ["", "\r"] || IsBreak(source[line.end..]))
  }

  /** The lines start with the source and follow one another with exactly a line break in between. */
  ghost predicate Chained(source: string, lines: seq<Line>) {
    && (forall i :: 0 <= i < |lines| ==> IsLineOf(source, lines[i]))
    && (lines != [] ==> lines[0].start == 0)
    && (forall i :: 0 < i < |lines| ==> BreakUpTo(source, lines[i - 1], lines[i].start))
  }

  /** The line from `index` to the break at `end`, without a carriage return before the break. */
  function LineAt(source: string, index: nat, end: nat): Line
    requires index <= end <= |source|
  {
    var contentEnd := if end > index && source[end - 1] == '\r' then end - 1 else end;
    Line(source[index..contentEnd], index, contentEnd)
  }

  lemma LineAtIsLine(source: string, index: nat, end: nat)
    requires index <= end <= |source| && forall i :: index <= i < end ==> source[i] != '\n'
    requires end < |source| ==> source[end] == '\n'
    ensures var line := LineAt(source, index, end);
            && IsLineOf(source, line) && line.start == index
            && (if end < |source| then BreakUpTo(source, line, end + 1) else EndsSource(source, line))
  {
    var line := LineAt(source, index, end);
    if end < |source| {
      assert source[line.end..end + 1] == if line.end < end then "\r\n" else "\n";
    } else {
      assert source[line.end..] == if line.end < end then "\r" else "";
    }
  }

  lemma ChainedMore(source: string, lines: seq<Line>, line: Line)
    requires Chained(source, lines) && IsLineOf(source, line)
    requires if lines == [] then line.start == 0 else BreakUpTo(source, lines[|lines| - 1], line.start)
    ensures Chained(source, lines + [line])
  {
  }

  /**
   * Every line slices back to its exact text; between two lines lies one line break and nothing else, so no
   * character of the source is lost or counted twice.
   */
  method SplitLines(source: string) returns (lines: seq<Line>)
    ensures Chained(source, lines)
    ensures if source == "" then lines == [] else lines != [] && EndsSource(source, lines[|lines| - 1])
    // A carriage return before a break is the break's, so a line ends with one only before another.
    ensures forall line <- lines :: line.text != "" && line.text[|line.text| - 1] == '\r' ==>
              line.end < |source| && source[line.end] == '\r'
  {
    lines := [];
    var index := 0;
    while index < |source|
      invariant index <= |source| + 1 && Chained(source, lines)
      invariant (lines == [] <==> index == 0) && (source == "" ==> index == 0)
      invariant forall line <- lines :: line.text != "" && line.text[|line.text| - 1] == '\r' ==>
                  line.end < |source| && source[line.end] == '\r'
      invariant lines != [] ==>
                  if index <= |source| then BreakUpTo(source, lines[|lines| - 1], index)
                  else EndsSource(source, lines[|lines| - 1])
    {
      var end := NextBreak(source, index);
      LineAtIsLine(source, index, end);
      var line := LineAt(source, index, end);
      ChainedMore(source, lines, line);
      lines := lines + [line];
      index := end + 1;
    }
    if lines != [] && index == |source| {
      var last := lines[|lines| - 1];
      assert source[last.end..] == source[last.end..index];
    }
  }

  // ----- Spans -----

  predicate OccursAt(text: string, part: string, i: nat) {
    i + |part| <= |text| && text[i..i + |part|] == part
  }

  /** `text.indexOf(part)`. */
  method IndexOf(text: string, part: string) returns (at: int)
    ensures -1 <= at
    ensures at >= 0 ==> OccursAt(text, part, at) && forall i :: 0 <= i < at ==> !OccursAt(text, part, i)
    ensures at < 0 ==> forall i :: 0 <= i ==> !OccursAt(text, part, i)
  {
    for i := 0 to |text| + 1
      invariant forall j :: 0 <= j < i ==> !OccursAt(text, part, j)
    {
      if OccursAt(text, part, i) {
        return i;
      }
    }
    at := -1;
  }

  ghost predicate Occurs(text: string, part: string) {
    exists i :: 0 <= i && OccursAt(text, part, i)
  }

  /** The span, as part of the source, is the text. */
  predicate Slices(source: string, span: Span, text: string) {
    span.start <= span.end <= |source| && source[span.start..span.end] == text
  }

  lemma SliceOfSlice(source: string, start: nat, end: nat, i: nat, j: nat)
    requires start <= end <= |source| && i <= j <= end - start
    ensures source[start + i..start + j] == source[start..end][i..j]
  {
    var x, y := source[start + i..start + j], source[start..end][i..j];
    assert |x| == |y| && forall k :: 0 <= k < |x| ==> x[k] == y[k];
  }

  /** Whatever the line and the text, the span is as long as the text; for a piece of the line it slices back to it. */
  method DirectiveSpan(ghost source: string, line: Line, text: string) returns (span: Span)
    requires IsLineOf(source, line)
    ensures span.end == span.start + |text|
    ensures Occurs(line.text, text) <==> Slices(source, span, text) && line.start <= span.start && span.end <= line.end
    ensures !Occurs(line.text, text) ==> span.start == line.start
  {
    var rel := IndexOf(line.text, text);
    var at := if rel == -1 then 0 else rel;
    span := Span(line.start + at, line.start + at + |text|);
    if at + |text| <= |line.text| {
      SliceOfSlice(source, line.start, line.end, at, at + |text|);
    }
    assert rel < 0 ==> !OccursAt(line.text, text, 0);
  }

  // ----- Clipping, over UTF-16 code units -----

  type Unit = u: nat | u < 65536

  /** The upper six bits tell the halves of a pair. */
  predicate High(u: Unit)
    ensures High(u) <==> u - u % 0x400 == 0xD800
  {
    0xD800 <= u < 0xDC00
  }

  predicate Low(u: Unit)
    ensures Low(u) <==> u - u % 0x400 == 0xDC00
  {
    0xDC00 <= u < 0xE000
  }

  const ELLIPSIS: Unit := 0x2026

  /** Every high half is followed by a low half, and every low half follows a high one. */
  predicate WellFormed(text: seq<Unit>) {
    && (forall i :: 0 <= i < |text| && High(text[i]) ==> i + 1 < |text| && Low(text[i + 1]))
    && (forall i :: 0 <= i < |text| && Low(text[i]) ==> i > 0 && High(text[i - 1]))
  }

  /** `text.slice(0, end)`: a negative end counts from the back. */
  function SliceTo(text: seq<Unit>, end: int): (r: seq<Unit>)
    requires -1 <= end <= |text|
    ensures |r| <= |text| && r == text[..|r|]
    ensures |r| == if end >= 0 then end else if text == [] then 0 else |text| - 1
  {
    if end >= 0 then text[..end] else if text == [] then [] else text[..|text| - 1]
  }

  /** A pair of the text is cut in half by keeping `n` units. */
  predicate CutsPair(text: seq<Unit>, n: nat) {
    0 < n < |text| && High(text[n - 1]) && Low(text[n])
  }

  predicate LowAt(text: seq<Unit>, i: int) {
    0 <= i < |text| && Low(text[i])
  }

  predicate HighAt(text: seq<Unit>, i: int) {
    0 <= i < |text| && High(text[i])
  }

  /**
   * A short text is left alone; of a longer one a beginning is kept, and an ellipsis follows. The result fits save for
   * two limits no caller uses; a pair is cut in half exactly where a lone low half follows it at the limit, so never in
   * well-formed text, which stays well formed.
   */
  function Clip(text: seq<Unit>, max: nat): (r: seq<Unit>)
    ensures |text| <= max ==> r == text
    ensures |text| > max ==> 1 <= |r| <= |text| + 1 && r == text[..|r| - 1] + [ELLIPSIS]
    ensures |text| > max >= 2 ==> |r| >= max - 1
    ensures |r| <= max <==> |text| <= max || max >= 2 || (max == 1 && !LowAt(text, 0))
    ensures |text| > max >= 2 ==>
              (CutsPair(text, |r| - 1) <==> LowAt(text, max - 1) && LowAt(text, max - 2) && HighAt(text, max - 3))
    ensures max >= 1 && WellFormed(text) ==> WellFormed(r)
  {
    if |text| <= max then text
    else
      var end := if LowAt(text, max - 1) then max - 2 else max - 1;
      var r := SliceTo(text, end) + [ELLIPSIS];
      assert forall i :: 0 <= i < |r| - 1 ==> r[i] == text[i];
      assert max >= 1 && WellFormed(text) && LowAt(text, max - 1) ==> max >= 2 && High(text[max - 2]);
      r
  }
}
