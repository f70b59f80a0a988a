/** The line classifier: whole-line ranges over a source, found in one pass with two limits. */
module Classify {
  import opened Wrappers
  import opened Literal

  const MAX_SOURCE_BYTES: nat := 64 * 1024 * 1024

  /** A line with its terminator: the kind its marker starts, and whether it reads as quoted. */
  datatype Line = Line(start: nat, end: nat, marker: Option<Kind>, quoted: bool)

  /** Where a pattern for wrapped reply headers matched. */
  datatype Span = Span(start: nat, end: nat)

  /** Lines follow one another from the start to the end of the text; only the last may be empty. */
  ghost predicate LinesOf(lines: seq<Line>, n: nat) {
    && (forall i | 0 <= i < |lines| ::
            lines[i].start <= lines[i].end && (i + 1 < |lines| ==> lines[i].start < lines[i].end))
    && (forall i | 0 <= i < |lines| - 1 :: lines[i+1].start == lines[i].end)
    && (lines != [] ==> lines[0].start == 0 && lines[|lines|-1].end == n)
  }

  /** The merged matches of several patterns: in order of their starts, but they may overlap. */
  ghost predicate Merged(spans: seq<Span>) {
    forall i, j | 0 <= i < j < |spans| :: spans[i].start <= spans[j].start
  }

  // ----- the reference: line by line ------------------------------------------------------------------

  ghost predicate Overlaps(s: Span, line: Line) {
    line.start < s.end && s.start < line.end
  }

  ghost predicate Wrapped(spans: seq<Span>, line: Line) {
    exists s :: s in spans && Overlaps(s, line)
  }

  /** The kind that plain lines have after the first `i` lines. */
  function ModeAfter(lines: seq<Line>, cut: nat, i: nat): Kind
    requires i <= |lines|
  {
    if i == 0 then Body
    else if lines[i-1].marker.Some? then lines[i-1].marker.value
    else if lines[i-1].start == cut then Quote
    else ModeAfter(lines, cut, i - 1)
  }

  ghost function LineKind(lines: seq<Line>, spans: seq<Span>, cut: nat, i: nat): Kind
    requires i < |lines|
  {
    if lines[i].marker.Some? then lines[i].marker.value
    else if Wrapped(spans, lines[i]) || lines[i].quoted || lines[i].start == cut then Quote
    else ModeAfter(lines, cut, i)
  }

  /** One more line: the last run grows, or a new one starts. */
  function Extend(before: seq<Range>, kind: Kind, line: Line): seq<Range> {
    if before != [] && before[|before|-1].kind == kind
    then before[..|before|-1] + [before[|before|-1].(end := line.end)]
    else before + [Range(line.start, line.end, kind)]
  }

  /** The runs of equal kinds among the first `m` lines. */
  ghost function Runs(lines: seq<Line>, spans: seq<Span>, cut: nat, m: nat): seq<Range>
    requires m <= |lines|
  {
    if m == 0 then [] else Extend(Runs(lines, spans, cut, m - 1), LineKind(lines, spans, cut, m - 1), lines[m-1])
  }

  /** Ranges without a gap from 0 to `end`, whose neighbours differ in kind. */
  ghost predicate Tiles(ranges: seq<Range>, end: nat) {
    && (forall i | 0 <= i < |ranges| :: ranges[i].start < ranges[i].end)
    && (forall i | 0 <= i < |ranges| - 1 :: ranges[i].end == ranges[i+1].start && ranges[i].kind != ranges[i+1].kind)
    && (ranges == [] ==> end == 0)
    && (ranges != [] ==> ranges[0].start == 0 && ranges[|ranges|-1].end == end)
  }

  lemma ExtendTiles(before: seq<Range>, kind: Kind, line: Line)
    requires Tiles(before, line.start) && line.start < line.end
    ensures var after := Extend(before, kind, line);
            Tiles(after, line.end) && after != [] && after[|after|-1].kind == kind
  {
    var after := Extend(before, kind, line);
    var k := |before| - 1;
    if before != [] && before[k].kind == kind {
      assert |after| == |before| && after[k] == before[k].(end := line.end);
      assert forall i | 0 <= i < k :: after[i] == before[i];
    } else {
      assert |after| == |before| + 1 && after[k + 1] == Range(line.start, line.end, kind);
      assert forall i | 0 <= i < |before| :: after[i] == before[i];
    }
  }

  lemma ExtendKinds(before: seq<Range>, kind: Kind, line: Line, pos: nat)
    requires Tiles(before, line.start) && line.start < line.end
    ensures pos < line.start ==> KindAt(Extend(before, kind, line), pos) == KindAt(before, pos)
    ensures line.start <= pos < line.end ==> KindAt(Extend(before, kind, line), pos) == Some(kind)
  {
    var after := Extend(before, kind, line);
    if before != [] && before[|before|-1].kind == kind {
      var most, last := before[..|before|-1], before[|before|-1];
      assert after == most + [last.(end := line.end)] && before == most + [last];
      LastKind(most, last, pos);
      LastKind(most, last.(end := line.end), pos);
    } else {
      LastKind(before, Range(line.start, line.end, kind), pos);
    }
  }

  lemma LastKind(most: seq<Range>, last: Range, pos: nat)
    ensures KindAt(most + [last], pos) == if last.start <= pos < last.end then Some(last.kind) else KindAt(most, pos)
  {
    assert (most + [last])[..|most|] == most;
  }

  /** The runs of the first lines tile them. */
  lemma {:induction false} RunsTile(lines: seq<Line>, spans: seq<Span>, cut: nat, n: nat, m: nat)
    requires LinesOf(lines, n) && m <= |lines| && forall i | 0 <= i < m :: lines[i].start < lines[i].end
    ensures Tiles(Runs(lines, spans, cut, m), if m == 0 then 0 else lines[m-1].end)
  {
    hide LineKind, Extend, Tiles;
    if m == 0 {
      assert Tiles([], 0) by { NothingTiles(); }
    } else {
      RunsTile(lines, spans, cut, n, m - 1);
      assert m > 1 ==> lines[m-1].start == lines[m-2].end;
      ExtendTiles(Runs(lines, spans, cut, m - 1), LineKind(lines, spans, cut, m - 1), lines[m-1]);
    }
  }

  lemma NothingTiles()
    ensures Tiles([], 0)
  {
  }

  /** Every character of a line has the line's kind. */
  lemma {:induction false} RunsGiveLineKinds(lines: seq<Line>, spans: seq<Span>, cut: nat, n: nat, m: nat, i: nat,
                                             pos: nat)
    requires LinesOf(lines, n) && i < m <= |lines| && (forall k | 0 <= k < m :: lines[k].start < lines[k].end)
    requires lines[i].start <= pos < lines[i].end
    ensures KindAt(Runs(lines, spans, cut, m), pos) == Some(LineKind(lines, spans, cut, i))
  {
    hide LineKind, Extend, Tiles, KindAt;
    RunsTile(lines, spans, cut, n, m - 1);
    assert m > 1 ==> lines[m-1].start == lines[m-2].end;
    ExtendKinds(Runs(lines, spans, cut, m - 1), LineKind(lines, spans, cut, m - 1), lines[m-1], pos);
    if i < m - 1 {
      RunsGiveLineKinds(lines, spans, cut, n, m - 1, i, pos);
      LaterLinesLater(lines, n, i, m - 1);
    }
  }

  lemma {:induction false} LaterLinesLater(lines: seq<Line>, n: nat, i: nat, j: nat)
    requires LinesOf(lines, n) && i < j < |lines|
    ensures lines[i].end <= lines[j].start
  {
    if i + 1 < j {
      LaterLinesLater(lines, n, i, j - 1);
    }
  }

  // ----- the pass ----------------------------------------------------------------------------------------

  /** All spans before `next` end at or before `offset`. */
  ghost predicate Passed(spans: seq<Span>, next: nat, offset: nat) {
    next <= |spans| && forall k | 0 <= k < next :: spans[k].end <= offset
  }

  /** With the passed spans skipped, testing the next one alone tells whether any span overlaps the line. */
  lemma NextSpanDecides(spans: seq<Span>, next: nat, line: Line)
    requires Merged(spans) && Passed(spans, next, line.start) && (next < |spans| ==> spans[next].end > line.start)
    ensures Wrapped(spans, line) <==> next < |spans| && line.start < spans[next].end && line.end > spans[next].start
  {
    if Wrapped(spans, line) {
      var s :| s in spans && Overlaps(s, line);
      var k :| 0 <= k < |spans| && spans[k] == s;
      assert k >= next;
    }
    if next < |spans| && line.start < spans[next].end && line.end > spans[next].start {
      assert Overlaps(spans[next], line);
    }
  }

  /**
   * `classify`. `m` lines were classified; the ranges are their runs, or the first `runLimit`
   * of them. Without a limit reached or a deadline passed, all lines were.
   */
  method Classify(lines: seq<Line>, spans: seq<Span>, cut: nat, n: nat, lineLimit: int, runLimit: int,
                  expired: nat -> bool)
    returns (ranges: seq<Range>, ghost m: nat)
    requires LinesOf(lines, n) && Merged(spans)
    ensures m <= |lines| && forall i | 0 <= i < m :: lines[i].start < lines[i].end
    ensures ranges == Runs(lines, spans, cut, m)
    ensures runLimit > 0 ==> |ranges| <= runLimit
    ensures lineLimit > 0 ==> m <= lineLimit
    ensures expired(0) || runLimit <= 0 || lineLimit <= 0 || n > MAX_SOURCE_BYTES ==> ranges == []
    ensures !(expired(0) || runLimit <= 0 || lineLimit <= 0 || n > MAX_SOURCE_BYTES) ==>
              || (m == |lines| || lines[m].start == lines[m].end)
              || m == lineLimit || expired(m + 1)
              || (|ranges| == runLimit && LineKind(lines, spans, cut, m) != ranges[runLimit - 1].kind)
  {
    hide Wrapped, Merged, ModeAfter, Overlaps, Runs, Open, Passed, LineKind;
    OpenStarts(lines, spans, cut);
    ranges, m := [], 0;
    if expired(0) || runLimit <= 0 || lineLimit <= 0 || n > MAX_SOURCE_BYTES {
      return;
    }
    var next: nat := 0;
    var mode := Body;
    var current: Option<Kind> := None;
    var start, end := 0, 0;
    for visited := 0 to |lines|
      invariant m == visited || (visited == |lines| == m + 1 && lines[m].start == lines[m].end)
      invariant m <= lineLimit && forall i | 0 <= i < m :: lines[i].start < lines[i].end
      invariant Passed(spans, next, if m == 0 then 0 else lines[m-1].start)
      invariant mode == ModeAfter(lines, cut, m)
      invariant Open(ranges, current, start, end) == Runs(lines, spans, cut, m)
      invariant (current.None? ==> ranges == [] && m == 0) && (current.None? <== m == 0) && |ranges| < runLimit
      invariant start == 0 || current.Some?
    {
      var line := lines[visited];
      if line.start == line.end {
        continue;
      }
      if visited >= lineLimit || expired(visited + 1) {
        break;
      }
      next := SkipPassed(spans, next, line.start, if m == 0 then 0 else lines[m-1].start);
      ModeStep(lines, cut, visited);
      if line.start == cut {
        mode := Quote;
      }
      NextSpanDecides(spans, next, line);
      var kind;
      if line.marker.Some? {
        mode, kind := line.marker.value, line.marker.value;
      } else if (next < |spans| && line.start < spans[next].end && line.end > spans[next].start) || line.quoted {
        kind := Quote;
      } else {
        kind := mode;
      }
      LineKindIs(lines, spans, cut, visited);
      RunsGrow(lines, spans, cut, visited, ranges, current, start, end, kind);
      if current.Some? && kind != current.value {
        ranges := ranges + [Range(start, end, current.value)];
        if |ranges| >= runLimit {
          return;
        }
        start := line.start;
      }
      current := Some(kind);
      end := line.end;
      m := m + 1;
    }
    if current.Some? && |ranges| < runLimit {
      ranges := ranges + [Range(start, end, current.value)];
    }
  }

  lemma OpenStarts(lines: seq<Line>, spans: seq<Span>, cut: nat)
    ensures Open([], None, 0, 0) == Runs(lines, spans, cut, 0) == [] && Passed(spans, 0, 0)
    ensures ModeAfter(lines, cut, 0) == Body
    ensures forall ranges, current, start, end ::
        Open(ranges, current, start, end) == if current.None? then ranges
                                             else ranges + [Range(start, end, current.value)]
  {
  }

  lemma LineKindIs(lines: seq<Line>, spans: seq<Span>, cut: nat, i: nat)
    requires i < |lines|
    ensures LineKind(lines, spans, cut, i) ==
            if lines[i].marker.Some? then lines[i].marker.value
            else if Wrapped(spans, lines[i]) || lines[i].quoted || lines[i].start == cut then Quote
            else ModeAfter(lines, cut, i)
  {
  }

  /** What a line does to the open range: it grows, or is given out and a new one starts. */
  lemma RunsGrow(lines: seq<Line>, spans: seq<Span>, cut: nat, i: nat, ranges: seq<Range>, current: Option<Kind>,
                 start: nat, end: nat, kind: Kind)
    requires i < |lines| && kind == LineKind(lines, spans, cut, i)
    requires Open(ranges, current, start, end) == Runs(lines, spans, cut, i) && (current.None? ==> ranges == [])
    requires current.None? ==> lines[i].start == start
    ensures Runs(lines, spans, cut, i + 1) ==
            if current.None? || kind == current.value then Open(ranges, Some(kind), start, lines[i].end)
            else Open(ranges + [Range(start, end, current.value)], Some(kind), lines[i].start, lines[i].end)
  {
    hide LineKind;
    var before := Open(ranges, current, start, end);
    assert current.Some? ==> before[..|before|-1] == ranges;
  }

  lemma ModeStep(lines: seq<Line>, cut: nat, i: nat)
    requires i < |lines|
    ensures ModeAfter(lines, cut, i + 1) ==
            if lines[i].marker.Some? then lines[i].marker.value else if lines[i].start == cut then Quote
                                                    else ModeAfter(lines, cut, i)
  {
  }

  /** The cursor moves past the spans that end at or before the line. */
  method SkipPassed(spans: seq<Span>, from: nat, offset: nat, ghost earlier: nat) returns (next: nat)
    requires Passed(spans, from, earlier) && earlier <= offset
    ensures Passed(spans, next, offset) && (next < |spans| ==> spans[next].end > offset)
  {
    next := from;
    while next < |spans| && spans[next].end <= offset
      invariant Passed(spans, next, offset)
    {
      next := next + 1;
    }
  }

  /** The ranges given so far, and the one being grown. */
  function Open(ranges: seq<Range>, current: Option<Kind>, start: nat, end: nat): seq<Range> {
    if current.None? then ranges else ranges + [Range(start, end, current.value)]
  }

  // ----- what the ranges are -------------------------------------------------------------------------------

  lemma {:induction false} TilesAreOrdered(ranges: seq<Range>, end: nat)
    requires Tiles(ranges, end)
    ensures Ordered(ranges)
  {
    forall i, j | 0 <= i < j < |ranges| ensures ranges[i].end <= ranges[j].start {
      TilesFollow(ranges, end, i, j);
    }
  }

  lemma {:induction false} TilesFollow(ranges: seq<Range>, end: nat, i: nat, j: nat)
    requires Tiles(ranges, end) && i < j < |ranges|
    ensures ranges[i].end <= ranges[j].start
  {
    if i + 1 < j {
      TilesFollow(ranges, end, i, j - 1);
      assert ranges[j-1].end == ranges[j].start;
    }
  }

  /**
   * The classifier's ranges tile a prefix of whole lines with neighbours of different kinds,
   * and give each character of it the kind of its line; so they are fit for the windows.
   */
  lemma RangesAreLineKinds(lines: seq<Line>, spans: seq<Span>, cut: nat, n: nat, m: nat)
    requires LinesOf(lines, n) && m <= |lines| && forall i | 0 <= i < m :: lines[i].start < lines[i].end
    ensures var ranges := Runs(lines, spans, cut, m);
            && Tiles(ranges, if m == 0 then 0 else lines[m-1].end) && Ordered(ranges)
            && forall i, pos: nat | 0 <= i < m && lines[i].start <= pos < lines[i].end ::
                    KindAt(ranges, pos) == Some(LineKind(lines, spans, cut, i))
  {
    hide LineKind, Runs, Tiles, Ordered, KindAt;
    RunsTile(lines, spans, cut, n, m);
    TilesAreOrdered(Runs(lines, spans, cut, m), if m == 0 then 0 else lines[m-1].end);
    forall i, pos: nat | 0 <= i < m && lines[i].start <= pos < lines[i].end
      ensures KindAt(Runs(lines, spans, cut, m), pos) == Some(LineKind(lines, spans, cut, i))
    {
      RunsGiveLineKinds(lines, spans, cut, n, m, i, pos);
    }
  }
}
