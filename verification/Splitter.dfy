/**
 * The chunker's splitters: paragraphs, then sentences, words and token slices
 * of whatever is still over the ceiling.
 */
module Splitter {
  import opened Wrappers
  import opened Text
  import opened Overflow

  // ----- what a list of spans is for -----------------------------------------

  /** The span renders to at most `max` tokens on its own. */
  ghost predicate Fits(tk: Tokenizer, source: string, s: Span, max: nat) {
    Faithful(source, s) && tk.Count(tk.Rendered(source, s.start, s.end)) <= max
  }

  ghost predicate AllFit(tk: Tokenizer, source: string, spans: seq<Span>, max: nat) {
    forall i | 0 <= i < |spans| :: Fits(tk, source, spans[i], max)
  }

  /** The span holds text and starts and ends where trimming would put it. */
  ghost predicate Trimmed(tk: Tokenizer, source: string, s: Span) {
    && Faithful(source, s)
    && !tk.Blank(source, s.start, s.end)
    && tk.Trim(source, s.start, s.end) == (s.start, s.end)
  }

  ghost predicate AllTrimmed(tk: Tokenizer, source: string, spans: seq<Span>) {
    forall i | 0 <= i < |spans| :: Trimmed(tk, source, spans[i])
  }

  ghost predicate Disjoint(spans: seq<Span>) {
    forall i, j | 0 <= i < j < |spans| :: spans[i].end <= spans[j].start
  }

  /** Faithful spans of `[lo, hi)`, in order, that hold every non-whitespace character of it. */
  ghost predicate Pieces(tk: Tokenizer, source: string, spans: seq<Span>, lo: nat, hi: nat) {
    && lo <= hi <= |source|
    && (forall i | 0 <= i < |spans| :: Faithful(source, spans[i]) && lo <= spans[i].start && spans[i].end <= hi)
    && Ordered(spans)
    && (forall p | lo <= p < hi && !tk.space(source[p]) :: Holds(spans, p))
  }

  /** `out` replaces the first `m` spans of `subs`, losing no non-whitespace character. */
  ghost predicate Replaces(tk: Tokenizer, source: string, out: seq<Span>, subs: seq<Span>, m: nat) {
    && m <= |subs|
    && (m == 0 ==> out == [])
    && (forall i | 0 <= i < |out| ::
          Faithful(source, out[i]) && subs[0].start <= out[i].start && out[i].end <= subs[m-1].end)
    && Ordered(out)
    && (forall k, p | 0 <= k < m && subs[k].start <= p < subs[k].end <= |source| && !tk.space(source[p]) ::
            Holds(out, p))
  }

  lemma HoldsAppend(a: seq<Span>, b: seq<Span>, p: int)
    ensures Holds(a + b, p) <==> Holds(a, p) || Holds(b, p)
  {
    if Holds(a, p) {
      var i :| 0 <= i < |a| && a[i].start <= p < a[i].end;
      assert (a + b)[i] == a[i];
    }
    if Holds(b, p) {
      var i :| 0 <= i < |b| && b[i].start <= p < b[i].end;
      assert (a + b)[|a| + i] == b[i];
    }
  }

  lemma ReplaceOne(tk: Tokenizer, source: string, out: seq<Span>, subs: seq<Span>, m: nat, pieces: seq<Span>)
    requires Replaces(tk, source, out, subs, m) && m < |subs|
    requires Disjoint(subs) && forall i | 0 <= i < |subs| :: Faithful(source, subs[i])
    requires Pieces(tk, source, pieces, subs[m].start, subs[m].end)
    ensures Replaces(tk, source, out + pieces, subs, m + 1)
  {
    var all := out + pieces;
    if m > 0 {
      assert subs[m-1].end <= subs[m].start;
      assert subs[0].start <= subs[m].start by {
        if 0 < m { assert subs[0].start <= subs[0].end <= subs[m].start; }
      }
    }
    forall k, p | 0 <= k < m + 1 && subs[k].start <= p < subs[k].end <= |source| && !tk.space(source[p])
      ensures Holds(all, p)
    {
      HoldsAppend(out, pieces, p);
    }
  }

  lemma ReplacedAll(tk: Tokenizer, source: string, out: seq<Span>, subs: seq<Span>, lo: nat, hi: nat)
    requires Pieces(tk, source, subs, lo, hi) && Replaces(tk, source, out, subs, |subs|)
    ensures Pieces(tk, source, out, lo, hi)
  {
    forall p | lo <= p < hi && !tk.space(source[p])
      ensures Holds(out, p)
    {
      var k :| 0 <= k < |subs| && subs[k].start <= p < subs[k].end;
    }
  }

  lemma OnePiece(tk: Tokenizer, source: string, s: Span)
    requires Faithful(source, s)
    ensures Pieces(tk, source, [s], s.start, s.end)
  {
    forall p | s.start <= p < s.end
      ensures Holds([s], p)
    {
      assert [s][0] == s;
    }
  }

  // ----- sub-spans -----------------------------------------------------------

  /** The trimmed span of `[lo, hi)`. */
  function Cut(tk: Tokenizer, source: string, lo: nat, hi: nat): (s: Span)
    requires lo <= hi <= |source|
    ensures Faithful(source, s) && lo <= s.start && s.end <= hi
  {
    var r := tk.Trim(source, lo, hi);
    Span(source[r.0..r.1], r.0, r.1)
  }

  lemma FaithfulBounds(source: string, s: Span)
    requires Faithful(source, s)
    ensures s.start <= s.end <= |source| && |s.text| == s.end - s.start
  {
  }

  lemma BlankSlice(tk: Tokenizer, source: string, lo: nat, hi: nat, from: nat, to: nat)
    requires lo <= hi <= |source| && from <= to <= hi - lo
    ensures tk.Blank(source[lo..hi], from, to) <==> tk.Blank(source, lo + from, lo + to)
  {
    var slice := source[lo..hi];
    if tk.Blank(slice, from, to) {
      forall p | lo + from <= p < lo + to ensures tk.space(source[p]) { assert slice[p - lo] == source[p]; }
    }
  }

  lemma {:induction false} SolidEndSlice(tk: Tokenizer, source: string, lo: nat, hi: nat, to: nat)
    requires lo <= hi <= |source| && to <= hi - lo
    ensures tk.SolidEnd(source[lo..hi], 0, to) + lo == tk.SolidEnd(source, lo, lo + to)
  {
    if 0 < to && tk.space(source[lo + to - 1]) {
      SolidEndSlice(tk, source, lo, hi, to - 1);
    }
  }

  /** The trimmed span of `[lo, hi)`, if it holds any text. */
  function Subspan(tk: Tokenizer, source: string, lo: nat, hi: nat): (r: Option<Span>)
    requires lo <= |source| && hi <= |source|
    ensures r.Some? ==> lo < hi && Faithful(source, r.value) && lo <= r.value.start && r.value.end <= hi
  {
    if hi <= lo || tk.Blank(source, lo, hi) then None else Some(Cut(tk, source, lo, hi))
  }

  lemma SubspanOfSlice(tk: Tokenizer, source: string, lo: nat, hi: nat)
    requires lo < hi <= |source|
    ensures var slice, lead := source[lo..hi], tk.TrimStart(source, lo, hi) - lo;
      var solid := tk.SolidEnd(slice, 0, |slice|);
      && 0 <= lead
      && (tk.Blank(slice, 0, |slice|) ==> Subspan(tk, source, lo, hi) == None)
      && (!tk.Blank(slice, 0, |slice|) ==>
            lead <= solid && Subspan(tk, source, lo, hi) == Some(Span(slice[lead..solid], lo + lead, lo + solid)))
  {
    hide *;
    BlankSlice(tk, source, lo, hi, 0, hi - lo);
    SolidEndSlice(tk, source, lo, hi, hi - lo);
    SubspanParts(tk, source, lo, hi);
    if !tk.Blank(source, lo, hi) {
      SliceOfSlice(source, lo, hi, tk.TrimStart(source, lo, hi) - lo, tk.SolidEnd(source, lo, hi) - lo);
    }
  }

  lemma SubspanParts(tk: Tokenizer, source: string, lo: nat, hi: nat)
    requires lo < hi <= |source|
    ensures tk.Blank(source, lo, hi) ==> Subspan(tk, source, lo, hi) == None
    ensures !tk.Blank(source, lo, hi) ==>
      var a, b := tk.TrimStart(source, lo, hi), tk.SolidEnd(source, lo, hi);
      lo <= a <= b <= hi && Subspan(tk, source, lo, hi) == Some(Span(source[a..b], a, b))
  {
    hide Tokenizer.TrimStart, Tokenizer.SolidEnd;
    if !tk.Blank(source, lo, hi) { tk.TrimEdges(source, lo, hi); }
  }

  lemma FaithfulSlice(source: string, s: Span, a: nat, b: nat)
    requires Faithful(source, s) && a <= b <= |s.text|
    ensures s.start + b <= s.end <= |source| && s.text[a..b] == source[s.start + a..s.start + b]
  {
    SliceOfSlice(source, s.start, s.end, a, b);
  }

  lemma EmptySubspan(tk: Tokenizer, source: string, lo: nat, hi: nat)
    requires lo <= |source| && hi <= lo
    ensures Subspan(tk, source, lo, hi) == None
  {
  }

  /**
   * `_make_subspan`. The drift its `ValueError` guards against cannot happen:
   * the trimmed text is the source at the trimmed offsets.
   */
  method MakeSubspan(tk: Tokenizer, parent: Span, source: string, localStart: nat, localEnd: nat)
    returns (r: Option<Span>)
    requires Faithful(source, parent) && localStart <= |parent.text| && localEnd <= |parent.text|
    ensures r == Subspan(tk, source, parent.start + localStart, parent.start + localEnd)
  {
    hide *;
    ghost var lo, hi := parent.start + localStart, parent.start + localEnd;
    FaithfulBounds(source, parent);
    r := None;
    if localEnd <= localStart {
      EmptySubspan(tk, source, lo, hi);
    } else {
      var sliceText := parent.text[localStart..localEnd];
      FaithfulSlice(source, parent, localStart, localEnd);
      SubspanOfSlice(tk, source, lo, hi);
      if !tk.Blank(sliceText, 0, |sliceText|) {
        var lead := LeadingTrim(tk, source, parent.start + localStart, parent.start + localEnd);
        var trail := |sliceText| - tk.SolidEnd(sliceText, 0, |sliceText|);
        var trimmed := sliceText[lead..|sliceText| - trail];
        r := Some(Span(trimmed, parent.start + localStart + lead, parent.start + localEnd - trail));
      }
    }
  }

  /** The stretch `[mid, hi)` adds its trimmed text, and loses only whitespace. */
  lemma AddStretch(tk: Tokenizer, source: string, subs: seq<Span>, lo: nat, mid: nat, hi: nat)
    requires Pieces(tk, source, subs, lo, mid) && AllTrimmed(tk, source, subs) && Disjoint(subs)
    requires mid <= hi <= |source|
    ensures var sub := Subspan(tk, source, mid, hi);
      var out := if sub.Some? then subs + [sub.value] else subs;
      Pieces(tk, source, out, lo, hi) && AllTrimmed(tk, source, out) && Disjoint(out)
  {
    var sub := Subspan(tk, source, mid, hi);
    if sub.Some? {
      tk.TrimIdempotent(source, mid, hi);
      tk.TrimEdges(source, mid, hi);
      AddPiece(tk, source, subs, sub.value, lo, mid, hi);
    }
  }

  lemma AddPiece(tk: Tokenizer, source: string, subs: seq<Span>, s: Span, lo: nat, mid: nat, hi: nat)
    requires Pieces(tk, source, subs, lo, mid) && Disjoint(subs)
    requires Faithful(source, s) && mid <= s.start && s.end <= hi <= |source|
    requires tk.Blank(source, mid, s.start) && tk.Blank(source, s.end, hi)
    ensures Pieces(tk, source, subs + [s], lo, hi) && Disjoint(subs + [s])
  {
    var out := subs + [s];
    forall p | lo <= p < hi && !tk.space(source[p])
      ensures Holds(out, p)
    {
      HoldsAppend(subs, [s], p);
      assert [s][0] == s;
    }
  }

  lemma SkipBlank(tk: Tokenizer, source: string, subs: seq<Span>, lo: nat, mid: nat, hi: nat)
    requires Pieces(tk, source, subs, lo, mid) && mid <= hi <= |source| && tk.Blank(source, mid, hi)
    ensures Pieces(tk, source, subs, lo, hi)
  {
  }

  lemma NoPieces(tk: Tokenizer, source: string, lo: nat)
    requires lo <= |source|
    ensures Pieces(tk, source, [], lo, lo) && AllTrimmed(tk, source, []) && Disjoint([])
  {
  }

  /** Appends the sub-span of the next stretch of `span`. */
  method Extend(tk: Tokenizer, span: Span, source: string, subs: seq<Span>, from: nat, to: nat) returns (out: seq<Span>)
    requires Faithful(source, span) && from <= to <= |span.text|
    requires Pieces(tk, source, subs, span.start, span.start + from)
    requires AllTrimmed(tk, source, subs) && Disjoint(subs)
    ensures Pieces(tk, source, out, span.start, span.start + to)
    ensures AllTrimmed(tk, source, out) && Disjoint(out)
    ensures span.start + to <= |source|
    ensures out == if tk.Blank(source, span.start + from, span.start + to) then subs
                   else subs + [Cut(tk, source, span.start + from, span.start + to)]
  {
    hide *;
    FaithfulBounds(source, span);
    SubspanCases(tk, source, span.start + from, span.start + to);
    AddStretch(tk, source, subs, span.start, span.start + from, span.start + to);
    var sub := MakeSubspan(tk, span, source, from, to);
    out := if sub.Some? then subs + [sub.value] else subs;
  }

  // ----- scanners --------------------------------------------------------------

  predicate Mark(c: char) {
    c == '.' || c == '!' || c == '?'
  }

  /** A run of sentence marks ends at `p`, before whitespace or the end of the text. */
  predicate SentenceEnd(tk: Tokenizer, text: string, p: nat) {
    0 < p <= |text| && Mark(text[p-1]) && (p == |text| || tk.space(text[p]))
  }

  predicate WordEnd(tk: Tokenizer, text: string, p: nat) {
    0 < p <= |text| && !tk.space(text[p-1]) && (p == |text| || tk.space(text[p]))
  }

  // ----- the patterns the scanners stand for ------------------------------------

  /** `[a, p)` is a whole run of such characters. */
  ghost predicate IsStretch(text: string, within: char -> bool, a: nat, p: nat) {
    && a < p <= |text| && (forall i | a <= i < p :: within(text[i]))
    && (a == 0 || !within(text[a-1]))
  }

  predicate InMarks(c: char) {
    c in ['.', '!', '?']
  }

  function NotSpace(tk: Tokenizer): char -> bool {
    c => !tk.space(c)
  }

  /** A run of full stops, exclamation and question marks that whitespace or the end of the text follows. */
  lemma SentenceEndIs(tk: Tokenizer, text: string, p: nat)
    ensures SentenceEnd(tk, text, p) <==>
            && (exists a: nat :: IsStretch(text, InMarks, a, p))
            && (p == |text| || (p < |text| && tk.space(text[p])))
  {
    if SentenceEnd(tk, text, p) {
      var a := StretchStart(text, InMarks, p);
      assert IsStretch(text, InMarks, a, p);
    }
  }

  /** A run without whitespace that is not followed by more of it. */
  lemma WordEndIs(tk: Tokenizer, text: string, p: nat)
    ensures WordEnd(tk, text, p) <==>
            && (exists a: nat :: IsStretch(text, NotSpace(tk), a, p))
            && (p == |text| || (p < |text| && tk.space(text[p])))
  {
    if WordEnd(tk, text, p) {
      var a := StretchStart(text, NotSpace(tk), p);
      assert IsStretch(text, NotSpace(tk), a, p);
    }
  }

  lemma {:induction false} StretchStart(text: string, within: char -> bool, p: nat) returns (a: nat)
    requires 0 < p <= |text| && within(text[p-1])
    ensures IsStretch(text, within, a, p)
  {
    a := p - 1;
    if a > 0 && within(text[a-1]) {
      a := StretchStart(text, within, p - 1);
    }
  }

  /** A newline, blanks and tabs alone, and another newline. */
  lemma BreakIs(text: string, p: nat)
    requires p < |text|
    ensures var from := p + 1; Break(text, p) <==> text[p] == '\n' && exists q: nat :: BlankUpTo(text, from, q)
  {
    BlankLineIs(text, p + 1);
  }

  ghost predicate BlankUpTo(text: string, p: nat, q: nat) {
    p <= q < |text| && text[q] == '\n' && forall i | p <= i < q :: text[i] == ' ' || text[i] == '\t'
  }

  lemma {:induction false} BlankLineIs(text: string, p: nat)
    ensures BlankLineAt(text, p) <==> exists q: nat :: BlankUpTo(text, p, q)
    decreases |text| - p
  {
    if p < |text| {
      if text[p] == '\n' {
        assert BlankUpTo(text, p, p);
      } else {
        BlankLineIs(text, p + 1);
        var next := p + 1;
        if q: nat :| BlankUpTo(text, next, q) {
          assert (text[p] == ' ' || text[p] == '\t') ==> BlankUpTo(text, p, q);
        }
        if q: nat :| BlankUpTo(text, p, q) {
          assert BlankUpTo(text, p + 1, q);
        }
      }
    }
  }

  ghost predicate Increasing(a: seq<nat>) {
    forall i, j | 0 <= i < j < |a| :: a[i] < a[j]
  }

  /** 0, every sentence end, and the end of the text. */
  method CutPoints(tk: Tokenizer, text: string) returns (cuts: seq<nat>)
    ensures Increasing(cuts) && |cuts| > 0 && cuts[0] == 0 && cuts[|cuts|-1] == |text|
    ensures forall p: nat :: p in cuts <==> p == 0 || p == |text| || SentenceEnd(tk, text, p)
  {
    cuts := [0];
    var p := 0;
    while p < |text|
      invariant p <= |text| && |cuts| > 0 && cuts[0] == 0 && cuts[|cuts|-1] <= p
      invariant Increasing(cuts)
      invariant forall q: nat :: q in cuts <==> q == 0 || (q <= p && SentenceEnd(tk, text, q))
    {
      p := p + 1;
      if SentenceEnd(tk, text, p) {
        cuts := cuts + [p];
      }
    }
    if cuts[|cuts|-1] != |text| {
      cuts := cuts + [|text|];
    }
    assert cuts[|cuts|-1] in cuts;
  }

  ghost predicate AreWordEnds(tk: Tokenizer, text: string, ends: seq<nat>) {
    && Increasing(ends)
    && (forall i | 0 <= i < |ends| :: WordEnd(tk, text, ends[i]))
    && (forall p: nat | WordEnd(tk, text, p) :: p in ends)
  }

  method WordEnds(tk: Tokenizer, text: string) returns (ends: seq<nat>)
    ensures AreWordEnds(tk, text, ends)
  {
    ends := [];
    var p := 0;
    while p < |text|
      invariant p <= |text| && Increasing(ends)
      invariant forall i | 0 <= i < |ends| :: ends[i] <= p && WordEnd(tk, text, ends[i])
      invariant forall q: nat | q <= p && WordEnd(tk, text, q) :: q in ends
    {
      p := p + 1;
      if WordEnd(tk, text, p) {
        ends := ends + [p];
      }
    }
  }

  /** Spaces and tabs, then a newline. */
  predicate BlankLineAt(text: string, p: nat)
    decreases |text| - p
  {
    p < |text| && (text[p] == '\n' || ((text[p] == ' ' || text[p] == '\t') && BlankLineAt(text, p + 1)))
  }

  /** A newline that ends its paragraph: a blank line follows. */
  predicate Break(text: string, p: nat)
    requires p < |text|
  {
    text[p] == '\n' && BlankLineAt(text, p + 1)
  }

  /** `[a, b)` is one paragraph: it starts on a line, holds no break, and cannot be longer. */
  ghost predicate IsParagraph(text: string, a: nat, b: nat) {
    && a < b <= |text|
    && text[a] != '\n'
    && (forall p | a <= p < b :: !Break(text, p))
    && (b == |text| || Break(text, b))
  }

  ghost predicate HoldLines(text: string, spans: seq<Span>, to: nat)
    requires to <= |text|
  {
    forall q | 0 <= q < to && text[q] != '\n' :: Holds(spans, q)
  }

  ghost predicate AreParagraphs(text: string, spans: seq<Span>) {
    forall i | 0 <= i < |spans| :: Faithful(text, spans[i]) && IsParagraph(text, spans[i].start, spans[i].end)
  }

  ghost predicate EndBy(spans: seq<Span>, to: nat) {
    forall i | 0 <= i < |spans| :: spans[i].end <= to
  }

  lemma HoldMore(text: string, spans: seq<Span>, span: Span)
    requires span.start <= span.end <= |text| && HoldLines(text, spans, span.start)
    ensures HoldLines(text, spans + [span], span.end)
  {
    forall q | 0 <= q < span.end && text[q] != '\n'
      ensures Holds(spans + [span], q)
    {
      HoldsAppend(spans, [span], q);
      assert [span][0] == span;
    }
  }

  lemma HoldBreak(text: string, spans: seq<Span>, p: nat)
    requires p < |text| && HoldLines(text, spans, p) && text[p] == '\n' && EndBy(spans, p)
    ensures HoldLines(text, spans, p + 1) && EndBy(spans, p + 1)
  {
    hide Holds;
  }

  lemma AppendParagraph(text: string, spans: seq<Span>, a: nat, b: nat)
    requires IsParagraph(text, a, b) && AreParagraphs(text, spans) && Disjoint(spans) && EndBy(spans, a)
    ensures var spans' := spans + [Span(text[a..b], a, b)];
      AreParagraphs(text, spans') && Disjoint(spans') && EndBy(spans', b)
  {
    var span := Span(text[a..b], a, b);
    var spans' := spans + [span];
    assert AreParagraphs(text, spans') by {
      hide Disjoint, IsParagraph;
      forall i | 0 <= i < |spans'| ensures Faithful(text, spans'[i])
      && IsParagraph(text, spans'[i].start, spans'[i].end) {
        assert i < |spans| ==> spans'[i] == spans[i];
      }
    }
    assert Disjoint(spans') by { hide IsParagraph, AreParagraphs; }
    assert EndBy(spans', b) by { hide Disjoint, IsParagraph; assert a < b by { ParagraphBounds(text, a, b); } }
  }

  lemma ParagraphBounds(text: string, a: nat, b: nat)
    requires IsParagraph(text, a, b)
    ensures a < b <= |text|
  {
  }

  lemma ParagraphsArePieces(tk: Tokenizer, text: string, spans: seq<Span>)
    requires tk.Valid() && AreParagraphs(text, spans) && Disjoint(spans) && HoldLines(text, spans, |text|)
    ensures Pieces(tk, text, spans, 0, |text|)
  {
    hide IsParagraph;
    forall i, j | 0 <= i <= j < |spans|
      ensures spans[i].start <= spans[j].start && spans[i].end <= spans[j].end
    {
      assert spans[i].start <= spans[i].end && spans[j].start <= spans[j].end;
    }
  }

  /** Scans from `start` to the end of its paragraph. */
  method ParagraphEnd(text: string, start: nat) returns (end: nat)
    requires start < |text| && text[start] != '\n'
    ensures IsParagraph(text, start, end)
  {
    end := start;
    while end < |text| && !Break(text, end)
      invariant start <= end <= |text|
      invariant forall q | start <= q < end :: !Break(text, q)
    {
      end := end + 1;
    }
  }

  /** `_paragraph_spans`: the paragraphs of `text`, with nothing but newlines around them. */
  method ParagraphSpans(tk: Tokenizer, text: string) returns (spans: seq<Span>)
    requires tk.Valid()
    ensures AreParagraphs(text, spans) && Disjoint(spans) && HoldLines(text, spans, |text|)
    ensures Pieces(tk, text, spans, 0, |text|)
  {
    spans := [];
    var p := 0;
    assert AreParagraphs(text, spans) && Disjoint(spans) && EndBy(spans, p) && HoldLines(text, spans, p);
    while p < |text|
      invariant p <= |text|
      invariant AreParagraphs(text, spans) && Disjoint(spans) && EndBy(spans, p) && HoldLines(text, spans, p)
    {
      hide *;
      if text[p] == '\n' {
        HoldBreak(text, spans, p);
        p := p + 1;
      } else {
        var start := p;
        p := ParagraphEnd(text, start);
        ParagraphBounds(text, start, p);
        AppendParagraph(text, spans, start, p);
        HoldMore(text, spans, Span(text[start..p], start, p));
        spans := spans + [Span(text[start..p], start, p)];
      }
    }
    ParagraphsArePieces(tk, text, spans);
  }

  // ----- splitters -------------------------------------------------------------

  lemma WordEndsIncrease(tk: Tokenizer, text: string, ends: seq<nat>)
    requires AreWordEnds(tk, text, ends)
    ensures Increasing(ends) && (ends != [] ==> 0 < ends[0])
  {
  }

  /** From `prev`, the leading trim skips only whitespace and stops inside the next word. */
  lemma SkipToWord(tk: Tokenizer, span: Span, source: string, ends: seq<nat>, i: nat, prev: nat)
    requires Faithful(source, span) && AreWordEnds(tk, span.text, ends)
    requires i < |ends| && prev < ends[i]
    ensures ends[i] <= |span.text| && span.start + |span.text| == span.end <= |source|
    ensures var next := tk.TrimStart(source, span.start + prev, span.end) - span.start;
      prev <= next < ends[i] && tk.Blank(source, span.start + prev, span.start + next)
      && InRange(span.text, next, ends, i)
  {
    FaithfulBounds(source, span);
    assert WordEnd(tk, span.text, ends[i]);
    assert span.text[ends[i] - 1] == source[span.start + ends[i] - 1];
    tk.TrimEdges(source, span.start + prev, span.end);
  }

  /**
   * The words `[first, next)` make the piece `s`, whose text starts at `from`: several words
   * were counted together and fit, and the next word would not.
   */
  ghost predicate WordPiece(tk: Tokenizer, source: string, span: Span, ends: seq<nat>, s: Span, from: nat, first: nat,
                            next: nat, max: nat) {
    && first < next <= |ends| && InRange(span.text, from, ends, first)
    && from <= |span.text| && span.start + |span.text| <= |source| && (first > 0 ==> ends[first-1] <= from)
    && tk.Blank(source, span.start + (if first == 0 then 0 else ends[first-1]), span.start + from)
    && s == Cut(tk, source, span.start + from, span.start + (if next == |ends| then |span.text| else ends[next-1]))
    && (first + 1 < next ==> !Over(tk, span.text, from, ends, next - 1, max))
    && (next < |ends| ==> Over(tk, span.text, from, ends, next, max))
  }

  /** The pieces are runs of words, each starting where the one before stopped; `k` words are used up. */
  ghost predicate WordPieces(tk: Tokenizer, source: string, span: Span, ends: seq<nat>, out: seq<Span>,
                             runs: seq<(nat, nat)>, k: nat, max: nat) {
    && |runs| == |out| && (if runs == [] then k == 0 else runs[0].1 == 0)
    && forall m | 0 <= m < |runs| :: WordPieceAt(tk, source, span, ends, out, runs, k, max, m)
  }

  ghost predicate WordPieceAt(tk: Tokenizer, source: string, span: Span, ends: seq<nat>, out: seq<Span>,
                              runs: seq<(nat, nat)>, k: nat, max: nat, m: nat)
    requires m < |runs| == |out|
  {
    WordPiece(tk, source, span, ends, out[m], runs[m].0, runs[m].1, if m + 1 < |runs| then runs[m+1].1 else k, max)
  }

  lemma OneMoreWordPiece(tk: Tokenizer, source: string, span: Span, ends: seq<nat>, out: seq<Span>,
                         runs: seq<(nat, nat)>, max: nat,
                         s: Span, from: nat, first: nat, next: nat)
    requires WordPieces(tk, source, span, ends, out, runs, first, max)
    requires WordPiece(tk, source, span, ends, s, from, first, next, max)
    ensures WordPieces(tk, source, span, ends, out + [s], runs + [(from, first)], next, max)
  {
    var out', runs' := out + [s], runs + [(from, first)];
    hide WordPiece;
    forall m | 0 <= m < |runs'| ensures WordPieceAt(tk, source, span, ends, out', runs', next, max, m) {
      if m < |runs| {
        assert WordPieceAt(tk, source, span, ends, out, runs, first, max, m);
      }
    }
  }

  lemma NoWordPieces(tk: Tokenizer, source: string, span: Span, ends: seq<nat>, max: nat)
    ensures WordPieces(tk, source, span, ends, [], [], 0, max)
  {
  }

  /** A stretch that holds a whole word is not blank. */
  lemma HoldsWord(tk: Tokenizer, source: string, span: Span, ends: seq<nat>, i: nat, from: nat, to: nat)
    requires Faithful(source, span) && AreWordEnds(tk, span.text, ends) && i < |ends|
    requires from < ends[i] <= to <= |span.text|
    ensures span.start + to <= |source| && !tk.Blank(source, span.start + from, span.start + to)
  {
    FaithfulBounds(source, span);
    assert WordEnd(tk, span.text, ends[i]);
    assert span.text[ends[i] - 1] == source[span.start + ends[i] - 1];
  }

  lemma IsWordPiece(tk: Tokenizer, source: string, span: Span, ends: seq<nat>, from: nat, first: nat, next: nat,
                    max: nat)
    requires first < next <= |ends| && InRange(span.text, from, ends, first) && span.start + |span.text| <= |source|
    requires from <= |span.text|
    requires first > 0 ==> ends[first-1] <= from
    requires tk.Blank(source, span.start + (if first == 0 then 0 else ends[first-1]), span.start + from)
    requires first + 1 < next ==> !Over(tk, span.text, from, ends, next - 1, max)
    requires next < |ends| ==> Over(tk, span.text, from, ends, next, max)
    ensures var to := if next == |ends| then |span.text| else ends[next-1];
            from <= to <= |span.text|
            && WordPiece(tk, source, span, ends, Cut(tk, source, span.start + from, span.start + to), from, first, next,
                         max)
  {
  }

  lemma TakeWords(tk: Tokenizer, source: string, span: Span, ends: seq<nat>, out: seq<Span>, runs: seq<(nat, nat)>,
                  max: nat,
                  from: nat, first: nat, next: nat)
    requires Faithful(source, span) && AreWordEnds(tk, span.text, ends)
    requires WordPieces(tk, source, span, ends, out, runs, first, max)
    requires first < next <= |ends| && InRange(span.text, from, ends, first) && span.start + |span.text| <= |source|
    requires from < ends[first] && (first > 0 ==> ends[first-1] <= from)
    requires from <= |span.text| && tk.Blank(source, span.start + (if first == 0 then 0 else ends[first-1]),
                                             span.start + from)
    requires first + 1 < next ==> !Over(tk, span.text, from, ends, next - 1, max)
    requires next < |ends| ==> Over(tk, span.text, from, ends, next, max)
    ensures var to := if next == |ends| then |span.text| else ends[next-1];
            && from <= to <= |span.text| && !tk.Blank(source, span.start + from, span.start + to)
            && WordPieces(tk, source, span, ends, out + [Cut(tk, source, span.start + from, span.start + to)],
                          runs + [(from, first)], next, max)
  {
    hide WordPieces, WordPiece, Over, AreWordEnds, Faithful;
    WordEndsIncrease(tk, span.text, ends);
    var to := if next == |ends| then |span.text| else ends[next-1];
    IncreasingAt(ends, first, next - 1);
    FaithfulBounds(source, span);
    IsWordPiece(tk, source, span, ends, from, first, next, max);
    HoldsWord(tk, source, span, ends, first, from, to);
    OneMoreWordPiece(tk, source, span, ends, out, runs, max, Cut(tk, source, span.start + from, span.start + to), from,
                     first, next);
  }

  /**
   * `_split_by_word`. Pieces are runs of whole words with the whitespace between them, each as
   * long as the count allows.
   */
  method SplitByWord(tk: Tokenizer, span: Span, source: string, max: nat)
    returns (out: seq<Span>, ghost words: seq<nat>, ghost runs: seq<(nat, nat)>)
    requires Trimmed(tk, source, span)
    ensures Pieces(tk, source, out, span.start, span.end)
    ensures AllTrimmed(tk, source, out) && Disjoint(out)
    ensures AreWordEnds(tk, span.text, words)
    ensures if words == [] then out == [span] else WordPieces(tk, source, span, words, out, runs, |words|, max)
  {
    hide *;
    var text := span.text;
    var ends := WordEnds(tk, text);
    words, runs := ends, [];
    NoWordPieces(tk, source, span, ends, max);
    TrimmedFits(tk, source, span, max);
    FaithfulBounds(source, span);
    if ends == [] {
      return [span], words, runs;
    }
    WordEndsIncrease(tk, text, ends);
    SkipToWord(tk, span, source, ends, 0, 0);
    var segmentStart := LeadingTrim(tk, source, span.start, span.end);
    var k := 0;
    NoPieces(tk, source, span.start);
    SkipBlank(tk, source, [], span.start, span.start, span.start + segmentStart);
    out := [];
    while true
      invariant k < |ends| && segmentStart < ends[k] && InRange(text, segmentStart, ends, k)
      invariant k > 0 ==> ends[k-1] <= segmentStart
      invariant tk.Blank(source, span.start + (if k == 0 then 0 else ends[k-1]), span.start + segmentStart)
      invariant Pieces(tk, source, out, span.start, span.start + segmentStart)
      invariant AllTrimmed(tk, source, out) && Disjoint(out)
      invariant WordPieces(tk, source, span, ends, out, runs, k, max)
      decreases |ends| - k
    {
      Narrow(text, segmentStart, ends, k);
      var i := FirstOverflow(tk, text, segmentStart, ends, k + 1, max);
      TakeWords(tk, source, span, ends, out, runs, max, segmentStart, k, i);
      if i >= |ends| {
        break;
      }
      var prevEnd := ends[i-1];
      IncreasingAt(ends, k, i - 1);
      IncreasingAt(ends, i - 1, i);
      out := Extend(tk, span, source, out, segmentStart, prevEnd);
      runs := runs + [(segmentStart, k)];
      SkipToWord(tk, span, source, ends, i, prevEnd);
      var lead := LeadingTrim(tk, source, span.start + prevEnd, span.end);
      SkipBlank(tk, source, out, span.start, span.start + prevEnd, span.start + prevEnd + lead);
      segmentStart := prevEnd + lead;
      k := i;
    }
    out := Extend(tk, span, source, out, segmentStart, |text|);
    runs := runs + [(segmentStart, k)];
  }

  lemma Narrow(text: string, start: nat, ends: seq<nat>, lo: nat)
    requires InRange(text, start, ends, lo)
    ensures InRange(text, start, ends, lo + 1)
  {
  }

  lemma IncreasingAt(a: seq<nat>, i: nat, j: nat)
    requires Increasing(a) && i <= j < |a|
    ensures a[i] <= a[j] && (i < j ==> a[i] < a[j])
  {
  }

  /** One token slice: its sub-span fits by the margin. */
  lemma SliceFits(tk: Tokenizer, span: Span, source: string, max: nat, i: nat, j: nat)
    requires Faithful(source, span) && tk.Forward(span.text) && tk.Margin(max)
    requires i < j <= |tk.encode(span.text)| && j - i <= SliceSize(max)
    ensures var o := tk.encode(span.text);
      var lo, hi := span.start + o[i].start, span.start + o[j-1].end;
      lo <= hi <= span.end <= |source| &&
      (!tk.Blank(source, lo, hi) ==> Fits(tk, source, Cut(tk, source, lo, hi), max))
  {
    hide *;
    var o := tk.encode(span.text);
    FaithfulBounds(source, span);
    ForwardOffsets(tk, span, source);
    OffsetsAt(o, i, j - 1);
    var lo, hi := span.start + o[i].start, span.start + o[j-1].end;
    if !tk.Blank(source, lo, hi) {
      var cut := Cut(tk, source, lo, hi);
      CutTrimmed(tk, source, lo, hi);
      var a, b := cut.start - span.start, cut.end - span.start;
      SliceIsTokens(tk, span, source, i, j, a, b);
      FaithfulSlice(source, span, a, b);
      MarginAt(tk, span.text, i, j, a, b, max);
    }
  }

  /** A cut trims whitespace only and renders to its own text. */
  lemma CutTrimmed(tk: Tokenizer, source: string, lo: nat, hi: nat)
    requires lo <= hi <= |source| && !tk.Blank(source, lo, hi)
    ensures var cut := Cut(tk, source, lo, hi);
      && tk.Blank(source, lo, cut.start) && tk.Blank(source, cut.end, hi)
      && cut.start <= cut.end && cut.text == source[cut.start..cut.end]
      && forall max: nat :: Fits(tk, source, cut, max) <==> tk.Count(cut.text) <= max
  {
    hide Tokenizer.TrimStart, Tokenizer.SolidEnd, Tokenizer.Blank;
    tk.TrimEdges(source, lo, hi);
    tk.TrimIdempotent(source, lo, hi);
  }

  lemma MarginAt(tk: Tokenizer, text: string, i: nat, j: nat, a: nat, b: nat, max: nat)
    requires tk.Margin(max) && tk.TokenSlice(text, i, j, a, b) && j - i <= SliceSize(max)
    ensures a <= b <= |text| && tk.Count(text[a..b]) <= max
  {
    hide Tokenizer.Count, Tokenizer.Blank;
  }

  lemma SliceIsTokens(tk: Tokenizer, span: Span, source: string, i: nat, j: nat, a: nat, b: nat)
    requires Faithful(source, span)
    requires i < j <= |tk.encode(span.text)|
    requires var o := tk.encode(span.text);
      && o[i].start <= a <= b <= o[j-1].end <= |span.text|
      && tk.Blank(source, span.start + o[i].start, span.start + a)
      && tk.Blank(source, span.start + b, span.start + o[j-1].end)
    ensures tk.TokenSlice(span.text, i, j, a, b)
  {
    var o := tk.encode(span.text);
    BlankSlice(tk, source, span.start, span.end, o[i].start, a);
    BlankSlice(tk, source, span.start, span.end, b, o[j-1].end);
  }

  /**
   * The raw slices taken so far of the text at `base` with token offsets `o`:
   * non-blank, moving forward, and holding the text of tokens `[0, i)`.
   */
  ghost predicate Slices(tk: Tokenizer, source: string, base: nat, o: seq<Offset>, raws: seq<(nat, nat)>, i: nat) {
    i <= |o| && Solid(tk, source, base, raws) && MoveForward(raws) && Before(base, raws, o, i)
    && HoldTokens(tk, source, base, o, raws, i)
  }

  ghost predicate Solid(tk: Tokenizer, source: string, base: nat, raws: seq<(nat, nat)>) {
    forall k | 0 <= k < |raws| ::
      base <= raws[k].0 <= raws[k].1 <= |source| && !tk.Blank(source, raws[k].0, raws[k].1)
  }

  ghost predicate MoveForward(raws: seq<(nat, nat)>) {
    forall k, l | 0 <= k <= l < |raws| :: raws[k].0 <= raws[l].0 && raws[k].1 <= raws[l].1
  }

  ghost predicate Before(base: nat, raws: seq<(nat, nat)>, o: seq<Offset>, i: nat) {
    forall k, j | 0 <= k < |raws| && i <= j < |o| :: raws[k].0 <= base + o[j].start && raws[k].1 <= base + o[j].end
  }

  ghost predicate HoldTokens(tk: Tokenizer, source: string, base: nat, o: seq<Offset>, raws: seq<(nat, nat)>, i: nat)
    requires i <= |o|
  {
    forall j, p | 0 <= j < i && base + o[j].start <= p < base + o[j].end && p < |source| && !tk.space(source[p]) ::
        InSlice(raws, p)
  }

  ghost predicate InSlice(raws: seq<(nat, nat)>, p: int) {
    exists k :: 0 <= k < |raws| && raws[k].0 <= p < raws[k].1
  }

  ghost predicate CutsOf(tk: Tokenizer, source: string, out: seq<Span>, raws: seq<(nat, nat)>) {
    && |raws| == |out|
    && (forall k | 0 <= k < |raws| ::
          raws[k].0 <= raws[k].1 <= |source| && out[k] == Cut(tk, source, raws[k].0, raws[k].1))
  }

  ghost predicate OffsetsForward(o: seq<Offset>) {
    forall k, l | 0 <= k <= l < |o| :: o[k].start <= o[l].start && o[k].end <= o[l].end
  }

  lemma OffsetsAt(o: seq<Offset>, k: nat, l: nat)
    requires OffsetsForward(o) && k <= l < |o|
    ensures o[k].start <= o[l].start && o[k].end <= o[l].end
  {
  }

  lemma NextSlice(tk: Tokenizer, source: string, base: nat, o: seq<Offset>, raws: seq<(nat, nat)>, i: nat, j: nat)
    requires Slices(tk, source, base, o, raws, i) && i < j <= |o| && OffsetsForward(o)
    requires o[i].start <= o[j-1].end && base + o[j-1].end <= |source|
    ensures var lo, hi := base + o[i].start, base + o[j-1].end;
      Slices(tk, source, base, o, if tk.Blank(source, lo, hi) then raws else raws + [(lo, hi)], j)
  {
    hide *;
    SlicesParts(tk, source, base, o, raws, i);
    var lo, hi := base + o[i].start, base + o[j-1].end;
    var raws' := if tk.Blank(source, lo, hi) then raws else raws + [(lo, hi)];
    NextBefore(base, raws, o, i, j);
    NextForward(base, raws, o, i, j);
    NextHold(tk, source, base, o, raws, i, j);
    NextSolid(tk, source, base, raws, lo, hi);
    SlicesParts(tk, source, base, o, raws', j);
  }

  lemma SlicesParts(tk: Tokenizer, source: string, base: nat, o: seq<Offset>, raws: seq<(nat, nat)>, i: nat)
    ensures Slices(tk, source, base, o, raws, i) <==>
      i <= |o| && Solid(tk, source, base, raws) && MoveForward(raws) && Before(base, raws, o, i)
      && HoldTokens(tk, source, base, o, raws, i)
  {
    hide Solid, MoveForward, Before, HoldTokens;
  }

  lemma NextSolid(tk: Tokenizer, source: string, base: nat, raws: seq<(nat, nat)>, lo: nat, hi: nat)
    requires Solid(tk, source, base, raws) && base <= lo <= hi <= |source|
    ensures Solid(tk, source, base, if tk.Blank(source, lo, hi) then raws else raws + [(lo, hi)])
  {
    hide Tokenizer.Blank;
  }

  lemma NextBefore(base: nat, raws: seq<(nat, nat)>, o: seq<Offset>, i: nat, j: nat)
    requires Before(base, raws, o, i) && i < j <= |o| && OffsetsForward(o)
    ensures Before(base, raws, o, j) && Before(base, raws + [(base + o[i].start, base + o[j-1].end)], o, j)
  {
  }

  lemma NextForward(base: nat, raws: seq<(nat, nat)>, o: seq<Offset>, i: nat, j: nat)
    requires Before(base, raws, o, i) && MoveForward(raws) && i < j <= |o| && OffsetsForward(o)
    ensures MoveForward(raws + [(base + o[i].start, base + o[j-1].end)])
  {
    assert forall k | 0 <= k < |raws| :: raws[k].0 <= base + o[i].start && raws[k].1 <= base + o[j-1].end;
  }

  lemma NextHold(tk: Tokenizer, source: string, base: nat, o: seq<Offset>, raws: seq<(nat, nat)>, i: nat, j: nat)
    requires i < j <= |o| && OffsetsForward(o) && HoldTokens(tk, source, base, o, raws, i)
    requires o[i].start <= o[j-1].end && base + o[j-1].end <= |source|
    ensures var lo, hi := base + o[i].start, base + o[j-1].end;
      HoldTokens(tk, source, base, o, if tk.Blank(source, lo, hi) then raws else raws + [(lo, hi)], j)
  {
    var lo, hi := base + o[i].start, base + o[j-1].end;
    var raws' := if tk.Blank(source, lo, hi) then raws else raws + [(lo, hi)];
    forall m, p | 0 <= m < j && base + o[m].start <= p < base + o[m].end && p < |source| && !tk.space(source[p])
      ensures InSlice(raws', p)
    {
      if m < i {
        var k :| 0 <= k < |raws| && raws[k].0 <= p < raws[k].1;
        assert raws'[k] == raws[k];
      } else {
        OffsetsAt(o, i, m);
        OffsetsAt(o, m, j - 1);
        assert raws'[|raws|] == (lo, hi);
      }
    }
  }

  lemma CutsForward(tk: Tokenizer, source: string, out: seq<Span>, raws: seq<(nat, nat)>, lo: nat, hi: nat)
    requires tk.Valid() && hi <= |source| && CutsOf(tk, source, out, raws)
    requires Solid(tk, source, lo, raws) && MoveForward(raws) && forall k | 0 <= k < |raws| :: raws[k].1 <= hi
    ensures Ordered(out)
    ensures forall k | 0 <= k < |out| :: Faithful(source, out[k]) && lo <= out[k].start && out[k].end <= hi
  {
    forall k, l | 0 <= k <= l < |out|
      ensures out[k].start <= out[l].start && out[k].end <= out[l].end
    {
      tk.TrimMonotone(source, raws[k].0, raws[k].1, raws[l].0, raws[l].1);
    }
  }

  lemma CutHolds(tk: Tokenizer, source: string, out: seq<Span>, raws: seq<(nat, nat)>, p: nat)
    requires CutsOf(tk, source, out, raws) && InSlice(raws, p)
    requires p < |source| && !tk.space(source[p])
    ensures Holds(out, p)
  {
    var k :| 0 <= k < |raws| && raws[k].0 <= p < raws[k].1;
    tk.TrimEdges(source, raws[k].0, raws[k].1);
    assert out[k].start <= p < out[k].end;
  }

  lemma SlicesArePieces(tk: Tokenizer, span: Span, source: string, out: seq<Span>, raws: seq<(nat, nat)>)
    requires tk.Valid() && span.start + |span.text| == span.end <= |source| && tk.Forward(span.text)
    requires CutsOf(tk, source, out, raws)
    requires Slices(tk, source, span.start, tk.encode(span.text), raws, |tk.encode(span.text)|)
    requires forall k | 0 <= k < |raws| :: raws[k].1 <= span.end
    ensures Pieces(tk, source, out, span.start, span.end)
  {
    CutsForward(tk, source, out, raws, span.start, span.end);
    forall p | span.start <= p < span.end && !tk.space(source[p])
      ensures Holds(out, p)
    {
      assert tk.InToken(span.text, p - span.start);
      CutHolds(tk, source, out, raws, p);
    }
  }

  lemma PiecesNonEmpty(tk: Tokenizer, source: string, out: seq<Span>, lo: nat, hi: nat)
    requires Pieces(tk, source, out, lo, hi) && !tk.Blank(source, lo, hi)
    ensures out != []
  {
    var p :| lo <= p < hi && !tk.space(source[p]);
    assert Holds(out, p);
  }

  lemma FitAppend(tk: Tokenizer, source: string, a: seq<Span>, b: seq<Span>, max: nat)
    requires AllFit(tk, source, a, max) && AllFit(tk, source, b, max)
    ensures AllFit(tk, source, a + b, max)
  {
  }

  /** A trimmed span renders to its own text, so counting that text is enough. */
  lemma TrimmedFits(tk: Tokenizer, source: string, s: Span, max: nat)
    requires Trimmed(tk, source, s)
    ensures AllTrimmed(tk, source, [s]) && Disjoint([s])
    ensures AllFit(tk, source, [s], max) <==> tk.Count(s.text) <= max
    ensures Faithful(source, s) && !tk.Blank(source, s.start, s.end) && Pieces(tk, source, [s], s.start, s.end)
  {
    OnePiece(tk, source, s);
    assert tk.Rendered(source, s.start, s.end) == s.text;
    assert [s][0] == s;
  }

  /** `i` is a whole number of slices from the first token. */
  predicate RunStart(i: nat, size: nat)
    requires size > 0
  {
    i == 0 || (i >= size && RunStart(i - size, size))
  }

  predicate IsMultiple(i: nat, size: nat, n: nat) {
    i == n * size
  }

  /** The runs start at the multiples of their size. */
  lemma {:induction false} RunStartIs(i: nat, size: nat)
    requires size > 0
    ensures RunStart(i, size) <==> exists n: nat :: IsMultiple(i, size, n)
  {
    if i == 0 {
      assert IsMultiple(0, size, 0);
    } else if i >= size {
      var before := i - size;
      RunStartIs(before, size);
      if n: nat :| IsMultiple(before, size, n) {
        assert IsMultiple(i, size, n + 1);
      }
      if n: nat :| IsMultiple(i, size, n) {
        assert n > 0;
        assert IsMultiple(before, size, n - 1);
      }
    } else {
      forall n: nat ensures !IsMultiple(i, size, n) {
        if n > 0 { assert n * size >= size; }
      }
    }
  }

  /** The span is the text of one full slice of tokens, or of the last ones. */
  ghost predicate TokenRun(tk: Tokenizer, source: string, span: Span, size: nat, s: Span, i: nat)
    requires size > 0
  {
    var o := tk.encode(span.text);
    && RunStart(i, size) && i < |o|
    && var last := (if i + size < |o| then i + size else |o|) - 1;
       o[i].start <= o[last].end && span.start + o[last].end <= |source|
       && s == Cut(tk, source, span.start + o[i].start, span.start + o[last].end)
  }

  ghost predicate TokenRuns(tk: Tokenizer, source: string, span: Span, size: nat, out: seq<Span>)
    requires size > 0
  {
    forall m | 0 <= m < |out| :: IsRun(tk, source, span, size, out[m])
  }

  ghost predicate IsRun(tk: Tokenizer, source: string, span: Span, size: nat, s: Span)
    requires size > 0
  {
    exists i: nat :: TokenRun(tk, source, span, size, s, i)
  }

  lemma OneMoreTokenRun(tk: Tokenizer, source: string, span: Span, size: nat, out: seq<Span>, s: Span, i: nat)
    requires size > 0 && TokenRuns(tk, source, span, size, out) && TokenRun(tk, source, span, size, s, i)
    ensures TokenRuns(tk, source, span, size, out + [s])
  {
    assert IsRun(tk, source, span, size, s);
    hide IsRun;
  }

  lemma IsTokenRun(tk: Tokenizer, source: string, span: Span, size: nat, i: nat)
    requires size > 0 && RunStart(i, size) && i < |tk.encode(span.text)|
    ensures TokenRuns(tk, source, span, size, []) && RunStart(0, size) && RunStart(i + size, size)
    ensures var o := tk.encode(span.text);
            var last := (if i + size < |o| then i + size else |o|) - 1;
            o[i].start <= o[last].end && span.start + o[last].end <= |source| ==>
              TokenRun(tk, source, span, size, Cut(tk, source, span.start + o[i].start, span.start + o[last].end), i)
  {
  }

  lemma NoTokenRuns(tk: Tokenizer, source: string, span: Span, size: nat)
    requires size > 0
    ensures TokenRuns(tk, source, span, size, []) && RunStart(0, size)
  {
  }

  /**
   * `_split_by_tokens`. Slices of token runs; neighbours may share a character,
   * so the pieces move forward without being disjoint.
   */
  method SplitByTokens(tk: Tokenizer, span: Span, source: string, max: nat) returns (out: seq<Span>)
    requires tk.Valid() && Trimmed(tk, source, span)
    requires tk.Forward(span.text) && tk.Margin(max)
    ensures Pieces(tk, source, out, span.start, span.end)
    ensures AllFit(tk, source, out, max)
    ensures out == [span] || TokenRuns(tk, source, span, if max > 9 then max - 8 else 1, out)
    ensures |tk.encode(span.text)| <= max ==> out == [span]
  {
    hide *;
    var offsets := tk.encode(span.text);
    var n := |offsets|;
    TrimmedFits(tk, source, span, max);
    if n <= max {
      CountEncodes(tk, span.text);
      return [span];
    }
    FaithfulBounds(source, span);
    ForwardOffsets(tk, span, source);
    var size := SliceSize(max);
    SliceSizeIs(max);
    out := [];
    ghost var raws: seq<(nat, nat)> := [];
    NoSlices(tk, source, span.start, offsets, max);
    NoTokenRuns(tk, source, span, size);
    var i := 0;
    while i < n
      invariant i <= n && (i < n ==> RunStart(i, size)) && TokenRuns(tk, source, span, size, out)
      invariant AllFit(tk, source, out, max)
      invariant Slices(tk, source, span.start, offsets, raws, i) && CutsOf(tk, source, out, raws)
      invariant forall k | 0 <= k < |raws| :: raws[k].1 <= span.end
      decreases n - i
    {
      var last := (if i + size < n then i + size else n) - 1;
      var localStart, localEnd := offsets[i].start, offsets[last].end;
      ghost var lo, hi := span.start + localStart, span.start + localEnd;
      OffsetsAt(offsets, i, last);
      SliceFits(tk, span, source, max, i, last + 1);
      NextSlice(tk, source, span.start, offsets, raws, i, last + 1);
      SubspanCases(tk, source, lo, hi);
      IsTokenRun(tk, source, span, size, i);
      if localStart < localEnd {
        var sub := MakeSubspan(tk, span, source, localStart, localEnd);
        if sub.Some? {
          FitsAlone(tk, source, sub.value, max);
          FitAppend(tk, source, out, [sub.value], max);
          CutAppend(tk, source, out, raws, lo, hi);
          OneMoreTokenRun(tk, source, span, size, out, sub.value, i);
          out := out + [sub.value];
          raws := raws + [(lo, hi)];
        }
      }
      i := last + 1;
    }
    SlicesArePieces(tk, span, source, out, raws);
    PiecesNonEmpty(tk, source, out, span.start, span.end);
    if out == [] {
      return [span];
    }
  }

  lemma ForwardOffsets(tk: Tokenizer, span: Span, source: string)
    requires tk.Forward(span.text) && span.start + |span.text| == span.end <= |source|
    ensures var o := tk.encode(span.text);
      && OffsetsForward(o)
      && (forall k | 0 <= k < |o| :: o[k].start <= o[k].end <= |span.text|)
  {
  }

  lemma CutAppend(tk: Tokenizer, source: string, out: seq<Span>, raws: seq<(nat, nat)>, lo: nat, hi: nat)
    requires CutsOf(tk, source, out, raws) && lo <= hi <= |source|
    ensures CutsOf(tk, source, out + [Cut(tk, source, lo, hi)], raws + [(lo, hi)])
  {
  }

  lemma SliceSizeIs(max: nat)
    ensures SliceSize(max) == if max > 9 then max - 8 else 1
  {
  }

  lemma CountEncodes(tk: Tokenizer, text: string)
    ensures tk.Count(text) == (if text == "" then 0 else |tk.encode(text)|)
  {
  }

  lemma NoSlices(tk: Tokenizer, source: string, base: nat, o: seq<Offset>, max: nat)
    ensures AllFit(tk, source, [], max) && CutsOf(tk, source, [], []) && Slices(tk, source, base, o, [], 0)
  {
  }

  lemma FitsAlone(tk: Tokenizer, source: string, s: Span, max: nat)
    ensures Fits(tk, source, s, max) <==> AllFit(tk, source, [s], max)
  {
    assert [s][0] == s;
  }

  lemma SubspanCases(tk: Tokenizer, source: string, lo: nat, hi: nat)
    requires lo <= hi <= |source|
    ensures Subspan(tk, source, lo, hi) == if tk.Blank(source, lo, hi) then None else Some(Cut(tk, source, lo, hi))
    ensures lo == hi ==> tk.Blank(source, lo, hi)
  {
  }

  /** The sentences `[first, next)`: they fit and one more would not, or they are one that does not fit alone. */
  ghost predicate SentenceGroup(tk: Tokenizer, text: string, cuts: seq<nat>, first: nat, next: nat, max: nat) {
    && first < next < |cuts| - 1 && InRange(text, cuts[first], cuts, first + 1)
    && if Over(tk, text, cuts[first], cuts, next, max) then next == first + 1
       else Over(tk, text, cuts[first], cuts, next + 1, max)
  }

  /** The closed groups, one sub-span each, up to the cut `k`. */
  ghost predicate SentenceGroups(tk: Tokenizer, source: string, span: Span, cuts: seq<nat>, subs: seq<Span>,
                                 firsts: seq<nat>, k: nat, max: nat) {
    && |subs| == |firsts| && span.start + |span.text| <= |source| && (if firsts == [] then k == 0 else firsts[0] == 0)
    && forall m | 0 <= m < |firsts| :: GroupAt(tk, source, span, cuts, subs, firsts, k, max, m)
  }

  ghost predicate GroupAt(tk: Tokenizer, source: string, span: Span, cuts: seq<nat>, subs: seq<Span>, firsts: seq<nat>,
                          k: nat, max: nat, m: nat)
    requires m < |firsts| == |subs|
  {
    Group(tk, source, span, cuts, subs[m], firsts[m], if m + 1 < |firsts| then firsts[m+1] else k, max)
  }

  ghost predicate Group(tk: Tokenizer, source: string, span: Span, cuts: seq<nat>, sub: Span, first: nat, next: nat,
                        max: nat) {
    && SentenceGroup(tk, span.text, cuts, first, next, max) && span.start + |span.text| <= |source|
    && cuts[first] <= cuts[next] <= |span.text|
    && sub == Cut(tk, source, span.start + cuts[first], span.start + cuts[next])
  }

  /** All groups: the closed ones, and the rest from cut `k`, which fits or is one sentence. */
  ghost predicate Sentences(tk: Tokenizer, source: string, span: Span, cuts: seq<nat>, subs: seq<Span>,
                            firsts: seq<nat>, k: nat, max: nat) {
    && k < |cuts| - 1 && cuts[k] <= |span.text| && span.start + |span.text| <= |source|
    && |firsts| <= |subs| <= |firsts| + 1
    && InRange(span.text, cuts[k], cuts, k + 1)
    && SentenceGroups(tk, source, span, cuts, subs[..|firsts|], firsts, k, max)
    && (k + 2 == |cuts| || !Over(tk, span.text, cuts[k], cuts, |cuts| - 1, max))
    && subs[|firsts|..] == if tk.Blank(source, span.start + cuts[k], span.start + |span.text|) then []
                           else [Cut(tk, source, span.start + cuts[k], span.start + |span.text|)]
  }

  lemma NoSentences(tk: Tokenizer, source: string, span: Span, cuts: seq<nat>, max: nat)
    requires span.start + |span.text| <= |source|
    ensures SentenceGroups(tk, source, span, cuts, [], [], 0, max)
  {
  }

  lemma OneMoreGroup(tk: Tokenizer, source: string, span: Span, cuts: seq<nat>, subs: seq<Span>, firsts: seq<nat>,
                     k: nat, next: nat, max: nat)
    requires SentenceGroups(tk, source, span, cuts, subs, firsts, k, max)
    requires SentenceGroup(tk, span.text, cuts, k, next, max)
    requires cuts[k] <= cuts[next] <= |span.text|
    ensures SentenceGroups(tk, source, span, cuts,
                           subs + [Cut(tk, source, span.start + cuts[k],
                                       span.start + cuts[next])], firsts + [k], next, max)
  {
    var sub := Cut(tk, source, span.start + cuts[k], span.start + cuts[next]);
    assert Group(tk, source, span, cuts, sub, k, next, max);
    hide Group;
    var subs', firsts' := subs + [sub], firsts + [k];
    forall m | 0 <= m < |firsts'| ensures GroupAt(tk, source, span, cuts, subs', firsts', next, max, m) {
      if m < |firsts| {
        assert GroupAt(tk, source, span, cuts, subs, firsts, k, max, m);
      }
    }
  }

  lemma ClosesGroup(tk: Tokenizer, text: string, cuts: seq<nat>, k: nat, i: nat, max: nat)
    requires k + 2 < |cuts| && InRange(text, cuts[k], cuts, k + 1) && k + 1 <= i < |cuts|
    requires k + 1 < i ==> !Over(tk, text, cuts[k], cuts, i - 1, max)
    requires Over(tk, text, cuts[k], cuts, i, max)
    ensures SentenceGroup(tk, text, cuts, k, if i - 1 > k + 1 then i - 1 else k + 1, max)
  {
  }

  /** A group of sentences before the last holds a sentence mark, so it is not blank. */
  lemma HoldsSentence(tk: Tokenizer, source: string, span: Span, cuts: seq<nat>, k: nat, next: nat)
    requires tk.Valid() && Faithful(source, span) && Increasing(cuts) && k < next < |cuts| - 1
    requires cuts[|cuts|-1] == |span.text|
    requires forall p: nat :: p in cuts <==> p == 0 || p == |span.text| || SentenceEnd(tk, span.text, p)
    ensures span.start + cuts[next] <= |source| && !tk.Blank(source, span.start + cuts[k], span.start + cuts[next])
  {
    FaithfulBounds(source, span);
    assert cuts[next] in cuts && cuts[next] < cuts[|cuts|-1] && cuts[k] < cuts[next];
    assert SentenceEnd(tk, span.text, cuts[next]);
    assert span.text[cuts[next] - 1] == source[span.start + cuts[next] - 1];
  }

  lemma TheSentences(tk: Tokenizer, source: string, span: Span, cuts: seq<nat>, subs: seq<Span>, firsts: seq<nat>,
                     k: nat, max: nat, all: seq<Span>)
    requires SentenceGroups(tk, source, span, cuts, subs, firsts, k, max) && k < |cuts| - 1 && cuts[k] <= |span.text|
    requires InRange(span.text, cuts[k], cuts, k + 1)
    requires (k + 2 == |cuts| || !Over(tk, span.text, cuts[k], cuts, |cuts| - 1, max))
    requires all == if tk.Blank(source, span.start + cuts[k], span.start + |span.text|) then subs
                    else subs + [Cut(tk, source, span.start + cuts[k], span.start + |span.text|)]
    ensures Sentences(tk, source, span, cuts, all, firsts, k, max)
  {
    assert all[..|firsts|] == subs;
  }

  /** Spans that fit are kept as they are. */
  ghost predicate FittingStay(tk: Tokenizer, source: string, subs: seq<Span>, out: seq<Span>, max: nat) {
    forall m | 0 <= m < |subs| && tk.Count(subs[m].text) <= max :: subs[m] in out
  }

  /** `_split_by_sentence`: sentences, then words, then token slices, none over the ceiling. */
  method SplitBySentence(tk: Tokenizer, span: Span, source: string, max: nat)
    returns (out: seq<Span>, ghost sentences: seq<nat>, ghost subs: seq<Span>, ghost firsts: seq<nat>, ghost tail: nat)
    requires tk.Valid() && tk.Margin(max) && forall t :: tk.Forward(t)
    requires Faithful(source, span) && !tk.Blank(source, span.start, span.end)
    ensures Pieces(tk, source, out, span.start, span.end)
    ensures AllFit(tk, source, out, max)
    ensures forall p: nat :: p in sentences <==> p == 0 || p == |span.text| || SentenceEnd(tk, span.text, p)
    ensures |span.text| > 0 ==> Sentences(tk, source, span, sentences, subs, firsts, tail, max)
    ensures FittingStay(tk, source, subs, out, max)
  {
    hide *;
    var text := span.text;
    var cuts := CutPoints(tk, text);
    sentences, firsts := cuts, [];
    FaithfulBounds(source, span);
    CutsInRange(text, cuts);
    NoPieces(tk, source, span.start);
    NoSentences(tk, source, span, cuts, max);
    TextOfSpan(tk, source, span);
    CutsCount(cuts, |text|);
    var groups := [];
    var k := 0;
    var last := |cuts| - 1;
    while k + 1 < last
      invariant k < last && (k + 1 < last ==> InRange(text, cuts[k], cuts, k + 1))
      invariant Pieces(tk, source, groups, span.start, span.start + cuts[k])
      invariant AllTrimmed(tk, source, groups) && Disjoint(groups)
      invariant SentenceGroups(tk, source, span, cuts, groups, firsts, k, max)
      decreases last - k
    {
      var i := FirstOverflow(tk, text, cuts[k], cuts, k + 1, max);
      var cut := if i - 1 > k + 1 then i - 1 else k + 1;
      if cut >= last {
        LastFits(tk, text, cuts, k, i, max);
        break;
      }
      ClosesGroup(tk, text, cuts, k, i, max);
      IncreasingAt(cuts, k, cut);
      IncreasingAt(cuts, cut, last);
      HoldsSentence(tk, source, span, cuts, k, cut);
      OneMoreGroup(tk, source, span, cuts, groups, firsts, k, cut, max);
      groups := Extend(tk, span, source, groups, cuts[k], cuts[cut]);
      firsts := firsts + [k];
      k := cut;
    }
    IncreasingAt(cuts, k, last);
    ghost var closed := groups;
    groups := Extend(tk, span, source, groups, cuts[k], |text|);
    TheSentences(tk, source, span, cuts, closed, firsts, k, max, groups);
    subs, tail := groups, k;
    out := ReduceAll(tk, groups, source, max);
    ReplacedAll(tk, source, out, groups, span.start, span.end);
    PiecesNonEmpty(tk, source, out, span.start, span.end);
    if out == [] {
      out := [span];
    }
  }

  lemma TextOfSpan(tk: Tokenizer, source: string, span: Span)
    requires Faithful(source, span) && !tk.Blank(source, span.start, span.end)
    ensures |span.text| > 0 && span.start + |span.text| == span.end <= |source|
  {
  }

  lemma CutsCount(cuts: seq<nat>, n: nat)
    requires |cuts| > 0 && cuts[0] == 0 && cuts[|cuts|-1] == n && n > 0
    ensures |cuts| >= 2
  {
  }

  lemma LastFits(tk: Tokenizer, text: string, cuts: seq<nat>, k: nat, i: nat, max: nat)
    requires k + 2 < |cuts| && InRange(text, cuts[k], cuts, k + 1) && k + 1 <= i <= |cuts|
    requires k + 1 < i ==> !Over(tk, text, cuts[k], cuts, i - 1, max)
    ensures (if i - 1 > k + 1 then i - 1 else k + 1) >= |cuts| - 1 ==> !Over(tk, text, cuts[k], cuts, |cuts| - 1, max)
  {
  }

  lemma CutsInRange(text: string, cuts: seq<nat>)
    requires Increasing(cuts) && |cuts| > 0 && cuts[|cuts|-1] == |text|
    ensures forall k | 0 <= k < |cuts| :: cuts[k] <= |text| && InRange(text, cuts[k], cuts, k + 1)
  {
  }

  lemma NothingReplaced(tk: Tokenizer, source: string, subs: seq<Span>, max: nat)
    ensures Replaces(tk, source, [], subs, 0) && AllFit(tk, source, [], max)
  {
  }

  lemma TrimmedAt(tk: Tokenizer, source: string, subs: seq<Span>, m: nat)
    requires AllTrimmed(tk, source, subs) && m < |subs|
    ensures Trimmed(tk, source, subs[m]) && forall i | 0 <= i < |subs| :: Faithful(source, subs[i])
  {
  }

  method ReduceAll(tk: Tokenizer, subs: seq<Span>, source: string, max: nat) returns (out: seq<Span>)
    requires tk.Valid() && tk.Margin(max) && forall t :: tk.Forward(t)
    requires AllTrimmed(tk, source, subs) && Disjoint(subs)
    ensures Replaces(tk, source, out, subs, |subs|) && AllFit(tk, source, out, max)
    ensures FittingStay(tk, source, subs, out, max)
  {
    hide *;
    NothingReplaced(tk, source, subs, max);
    out := [];
    NoneStay(tk, source, subs, out, max);
    for m := 0 to |subs|
      invariant Replaces(tk, source, out, subs, m)
      invariant AllFit(tk, source, out, max)
      invariant FittingStay(tk, source, subs[..m], out, max)
    {
      TrimmedAt(tk, source, subs, m);
      var pieces := Reduce(tk, subs[m], source, max);
      OneMoreStays(tk, source, subs, m, out, pieces, max);
      ReplaceOne(tk, source, out, subs, m, pieces);
      FitAppend(tk, source, out, pieces, max);
      out := out + pieces;
    }
    assert subs[..|subs|] == subs;
  }

  lemma NoneStay(tk: Tokenizer, source: string, subs: seq<Span>, out: seq<Span>, max: nat)
    ensures FittingStay(tk, source, subs[..0], out, max)
  {
  }

  lemma OneMoreStays(tk: Tokenizer, source: string, subs: seq<Span>, m: nat, out: seq<Span>, pieces: seq<Span>,
                     max: nat)
    requires m < |subs| && FittingStay(tk, source, subs[..m], out, max)
    requires tk.Count(subs[m].text) <= max ==> subs[m] in pieces
    ensures FittingStay(tk, source, subs[..m+1], out + pieces, max)
  {
    var more := subs[..m+1];
    forall j | 0 <= j < |more| && tk.Count(more[j].text) <= max ensures more[j] in out + pieces {
      if j < m {
        assert subs[..m][j] == more[j];
      }
    }
  }

  /** A sentence group under the ceiling stays; a larger one goes to words, a larger word to tokens. */
  method Reduce(tk: Tokenizer, sub: Span, source: string, max: nat) returns (out: seq<Span>)
    requires tk.Valid() && tk.Margin(max) && forall t :: tk.Forward(t)
    requires Trimmed(tk, source, sub)
    ensures Pieces(tk, source, out, sub.start, sub.end)
    ensures AllFit(tk, source, out, max)
    ensures tk.Count(sub.text) <= max ==> out == [sub]
    ensures tk.Count(sub.text) > max ==>
        exists words, ends, runs :: FromWords(tk, source, sub, out, words, ends, runs, max)
  {
    hide *;
    TrimmedFits(tk, source, sub, max);
    if tk.Count(sub.text) <= max {
      return [sub];
    }
    var words, ends, runs := SplitByWord(tk, sub, source, max);
    NothingReplaced(tk, source, words, max);
    out := [];
    NoneStay(tk, source, words, out, max);
    for m := 0 to |words|
      invariant Replaces(tk, source, out, words, m)
      invariant AllFit(tk, source, out, max)
      invariant FittingStay(tk, source, words[..m], out, max)
    {
      TrimmedAt(tk, source, words, m);
      TrimmedFits(tk, source, words[m], max);
      var pieces := [words[m]];
      if tk.Count(words[m].text) > max {
        pieces := SplitByTokens(tk, words[m], source, max);
      }
      ReplaceOne(tk, source, out, words, m, pieces);
      FitAppend(tk, source, out, pieces, max);
      OneMoreStays(tk, source, words, m, out, pieces, max);
      out := out + pieces;
    }
    assert words[..|words|] == words;
    ReplacedAll(tk, source, out, words, sub.start, sub.end);
    AreFromWords(tk, source, sub, out, words, ends, runs, max);
  }

  /** The pieces come of the span's runs of words: those that fit are kept, the others are cut in place. */
  ghost predicate FromWords(tk: Tokenizer, source: string, sub: Span, out: seq<Span>, words: seq<Span>, ends: seq<nat>,
                            runs: seq<(nat, nat)>, max: nat) {
    && AreWordEnds(tk, sub.text, ends)
    && (if ends == [] then words == [sub] else WordPieces(tk, source, sub, ends, words, runs, |ends|, max))
    && Replaces(tk, source, out, words, |words|) && FittingStay(tk, source, words, out, max)
  }

  lemma AreFromWords(tk: Tokenizer, source: string, sub: Span, out: seq<Span>, words: seq<Span>, ends: seq<nat>,
                     runs: seq<(nat, nat)>, max: nat)
    requires AreWordEnds(tk, sub.text, ends)
    requires if ends == [] then words == [sub] else WordPieces(tk, source, sub, ends, words, runs, |ends|, max)
    requires Replaces(tk, source, out, words, |words|) && FittingStay(tk, source, words, out, max)
    ensures exists w, e, r :: FromWords(tk, source, sub, out, w, e, r, max)
  {
    assert FromWords(tk, source, sub, out, words, ends, runs, max);
  }

  /** `_enforce_max_tokens`. */
  method EnforceMaxTokens(tk: Tokenizer, spans: seq<Span>, source: string, max: nat) returns (out: seq<Span>)
    requires tk.Valid() && tk.Margin(max) && forall t :: tk.Forward(t)
    requires Pieces(tk, source, spans, 0, |source|) && Disjoint(spans)
    ensures Pieces(tk, source, out, 0, |source|)
    ensures AllFit(tk, source, out, max)
    ensures forall m | 0 <= m < |spans| && Fits(tk, source, spans[m], max) :: spans[m] in out
  {
    hide Pieces, Replaces, AllFit, Fits, SentenceEnd, Sentences, FittingStay, Disjoint, Tokenizer.Valid;
    hide Tokenizer.Margin, Tokenizer.Forward;
    out := [];
    NothingReplaced(tk, source, spans, max);
    for m := 0 to |spans|
      invariant Replaces(tk, source, out, spans, m)
      invariant AllFit(tk, source, out, max)
      invariant forall j | 0 <= j < m && Fits(tk, source, spans[j], max) :: spans[j] in out
    {
      SpanOfPieces(tk, source, spans, m, max);
      var pieces := [spans[m]];
      if tk.Count(tk.Rendered(source, spans[m].start, spans[m].end)) > max {
        var split, _, _, _, _ := SplitBySentence(tk, spans[m], source, max);
        pieces := split;
      }
      ReplaceOne(tk, source, out, spans, m, pieces);
      FitAppend(tk, source, out, pieces, max);
      out := out + pieces;
    }
    ReplacedAll(tk, source, out, spans, 0, |source|);
  }

  lemma SpanOfPieces(tk: Tokenizer, source: string, spans: seq<Span>, m: nat, max: nat)
    requires Pieces(tk, source, spans, 0, |source|) && m < |spans|
    ensures forall i | 0 <= i < |spans| :: Faithful(source, spans[i])
    ensures Pieces(tk, source, [spans[m]], spans[m].start, spans[m].end)
    ensures Fits(tk, source, spans[m], max) <==> tk.Count(tk.Rendered(source, spans[m].start, spans[m].end)) <= max
    ensures Fits(tk, source, spans[m], max) <==> AllFit(tk, source, [spans[m]], max)
    ensures tk.Count(tk.Rendered(source, spans[m].start, spans[m].end)) > max ==>
        !tk.Blank(source, spans[m].start, spans[m].end)
  {
    OnePiece(tk, source, spans[m]);
    FitsAlone(tk, source, spans[m], max);
  }

  // ----- token slices that start at the same character -------------------------------------

  /** One token a character, but in "xyz" the first token ends inside the first character. */
  function Straddling(): Tokenizer {
    Tokenizer((t: string) =>
                if t == "xyz" then [Offset(0, 1), Offset(0, 2), Offset(2, 3)]
                else if t == "xy" then [Offset(0, 2)]
                else seq(|t|, i requires 0 <= i < |t| => Offset(i, i + 1)),
              {'\n', '\t', ' '})
  }

  lemma StraddlingIsForward(text: string)
    ensures Straddling().Forward(text)
  {
    var tk := Straddling();
    var o := tk.encode(text);
    forall p | 0 <= p < |text| ensures tk.InToken(text, p) {
      if text == "xyz" {
        assert o[if p == 0 then 0 else p].end == p + 1;
      } else if text == "xy" {
        assert o[0] == Offset(0, 2);
      } else {
        assert o[p] == Offset(p, p + 1);
      }
    }
  }

  lemma StraddlingHasMargin()
    ensures Straddling().Margin(1)
  {
    var tk := Straddling();
    forall text, i: nat, j: nat, lo: nat, hi: nat | tk.TokenSlice(text, i, j, lo, hi) && j - i <= SliceSize(1)
      ensures tk.Count(text[lo..hi]) <= 1
    {
      var o := tk.encode(text);
      assert j == i + 1 && o[i].start <= lo <= hi <= o[i].end;
      if text == "xyz" && i == 1 {
        assert lo == 0 by { assert !tk.space(text[0]); }
        assert hi == 2 by { assert !tk.space(text[1]); }
        assert text[0..2] == "xy";
      }
    }
  }

  /**
   * A tokenizer may keep all that is asked of it and still give two slices that start at one
   * character: neighbouring spans can share a start.
   */
  lemma SlicesMayShareStart()
    ensures var tk, span := Straddling(), Span("xyz", 0, 3);
            && tk.Valid() && tk.Margin(1) && (forall t :: tk.Forward(t)) && Trimmed(tk, "xyz", span)
            && TokenRun(tk, "xyz", span, SliceSize(1), Span("x", 0, 1), 0)
            && TokenRun(tk, "xyz", span, SliceSize(1), Span("xy", 0, 2), 1)
  {
    var tk, span := Straddling(), Span("xyz", 0, 3);
    StraddlingHasMargin();
    forall t ensures tk.Forward(t) {
      StraddlingIsForward(t);
    }
    hide Tokenizer.Margin, Tokenizer.Forward;
    assert tk.encode("xyz") == [Offset(0, 1), Offset(0, 2), Offset(2, 3)];
    assert RunStart(1, 1) by { assert RunStart(0, 1); }
    CutsOfThree();
    assert "xyz"[0..1] == "x" && "xyz"[0..2] == "xy" && "xyz"[0..3] == "xyz";
  }

  lemma CutsOfThree()
    ensures forall hi | 1 <= hi <= 3 :: Cut(Straddling(), "xyz", 0, hi) == Span("xyz"[0..hi], 0, hi)
  {
    var tk := Straddling();
    forall hi | 1 <= hi <= 3 ensures Cut(tk, "xyz", 0, hi) == Span("xyz"[0..hi], 0, hi) {
      assert !tk.space("xyz"[0]) && !tk.space("xyz"[hi-1]);
      tk.FirstSolidFinds("xyz", 0, hi, 0);
      tk.SolidEndFinds("xyz", 0, hi, hi);
      tk.TabsFromFinds("xyz", 0, 0, 0);
    }
  }
}
