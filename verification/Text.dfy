/**
 * The tokenizer, a list of character offsets per text whose count is neither additive nor
 * monotone, and the whitespace trimming every chunk edge goes through.
 */
module Text {

  /** The characters one token stands for, as offsets into the encoded text. */
  datatype Offset = Offset(start: nat, end: nat)

  datatype Tokenizer = Tokenizer(encode: string -> seq<Offset>, spaces: set<char>) {

    /** `str.isspace` on one character. */
    predicate space(c: char) {
      c in spaces
    }

    /** `estimate_tokens`. */
    function Count(text: string): nat {
      if text == "" then 0 else |encode(text)|
    }

    /** Newlines and tabs are whitespace, sentence marks are not; the rest is left open. */
    predicate Valid() {
      space('\n') && space('\t') && !space('.') && !space('!') && !space('?')
    }

    predicate Blank(s: string, lo: nat, hi: nat)
      requires lo <= hi <= |s|
    {
      forall p | lo <= p < hi :: space(s[p])
    }

    /** Token offsets move forward and cover the text; neighbours may share characters. */
    ghost predicate Forward(text: string) {
      var o := encode(text);
      && (forall i | 0 <= i < |o| :: o[i].start <= o[i].end <= |text|)
      && (forall i, j | 0 <= i <= j < |o| :: o[i].start <= o[j].start && o[i].end <= o[j].end)
      && (forall p | 0 <= p < |text| :: InToken(text, p))
    }

    ghost predicate InToken(text: string, p: nat) {
      exists i :: 0 <= i < |encode(text)| && encode(text)[i].start <= p < encode(text)[i].end
    }

    /** `[lo, hi)` is the slice of tokens `[i, j)` of `text` with only whitespace cut from its ends. */
    ghost predicate TokenSlice(text: string, i: nat, j: nat, lo: nat, hi: nat) {
      var o := encode(text);
      && i < j <= |o|
      && o[i].start <= lo <= hi <= o[j-1].end <= |text|
      && Blank(text, o[i].start, lo)
      && Blank(text, hi, o[j-1].end)
    }

    /**
     * The re-encoding margin `_split_by_tokens` states: a slice of at most
     * `max(1, max - 8)` tokens takes at most `max` tokens when encoded again.
     */
    ghost predicate Margin(max: nat) {
      forall text, i: nat, j: nat, lo: nat, hi: nat | TokenSlice(text, i, j, lo, hi) && j - i <= SliceSize(max) ::
        Count(text[lo..hi]) <= max
    }

    // ----- trimming ---------------------------------------------------------

    /** The first position of `[lo, hi)` that is not whitespace, or `hi`. */
    function FirstSolid(s: string, lo: nat, hi: nat): (r: nat)
      requires lo <= hi <= |s|
      ensures lo <= r <= hi
      decreases hi - lo
    {
      if lo < hi && space(s[lo]) then FirstSolid(s, lo + 1, hi) else lo
    }

    lemma {:induction false} FirstSolidFinds(s: string, lo: nat, hi: nat, f: nat)
      requires lo <= f <= hi <= |s|
      ensures FirstSolid(s, lo, hi) == f <==> Blank(s, lo, f) && (f < hi ==> !space(s[f]))
      decreases hi - lo
    {
      if lo < hi && space(s[lo]) {
        if lo < f {
          FirstSolidFinds(s, lo + 1, hi, f);
        }
      }
    }

    /** The end of the last non-whitespace character of `[lo, hi)`, or `lo`. */
    function SolidEnd(s: string, lo: nat, hi: nat): (r: nat)
      requires lo <= hi <= |s|
      ensures lo <= r <= hi
      decreases hi - lo
    {
      if lo < hi && space(s[hi-1]) then SolidEnd(s, lo, hi - 1) else hi
    }

    lemma {:induction false} SolidEndFinds(s: string, lo: nat, hi: nat, e: nat)
      requires lo <= e <= hi <= |s|
      ensures SolidEnd(s, lo, hi) == e <==> Blank(s, e, hi) && (lo < e ==> !space(s[e-1]))
      decreases hi - lo
    {
      if lo < hi && space(s[hi-1]) {
        if e < hi {
          SolidEndFinds(s, lo, hi - 1, e);
        }
      }
    }

    /** The start of the run of tabs in `[lo, first)` that ends at `first`. */
    function TabsFrom(s: string, lo: nat, first: nat): (r: nat)
      requires lo <= first <= |s|
      ensures lo <= r <= first
      decreases first - lo
    {
      if lo < first && s[first-1] == '\t' then TabsFrom(s, lo, first - 1) else first
    }

    lemma {:induction false} TabsFromFinds(s: string, lo: nat, first: nat, t: nat)
      requires lo <= t <= first <= |s|
      ensures TabsFrom(s, lo, first) == t <==>
        (forall p | t <= p < first :: s[p] == '\t') && (lo < t ==> s[t-1] != '\t')
      decreases first - lo
    {
      if lo < first && s[first-1] == '\t' {
        if t < first {
          TabsFromFinds(s, lo, first - 1, t);
        }
      }
    }

    /** Whether the tabs of `[t, first)` open a line. */
    predicate OpensLine(s: string, t: nat, first: nat)
      requires t <= first <= |s|
    {
      t < first && (t == 0 || s[t-1] == '\n')
    }

    /** `[t, first)` is tabs alone, all there are before `first`, and a line starts at `t`. */
    ghost predicate TabsOpen(s: string, lo: nat, t: nat, first: nat)
      requires first <= |s|
    {
      && lo <= t < first && (forall p | t <= p < first :: s[p] == '\t')
      && (t == lo || s[t-1] != '\t') && (t == 0 || s[t-1] == '\n')
    }

    /** Where `[lo, hi)` starts once its leading whitespace is dropped: tabs that open a line stay. */
    function TrimStart(s: string, lo: nat, hi: nat): (r: nat)
      requires lo <= hi <= |s|
      ensures lo <= r <= hi
    {
      var first := FirstSolid(s, lo, hi);
      if first == hi then hi
      else
        var t := TabsFrom(s, lo, first);
        if OpensLine(s, t, first) then t else first
    }

    /** The trimmed range of `[lo, hi)`; `(lo, lo)` when it is all whitespace. */
    function Trim(s: string, lo: nat, hi: nat): (r: (nat, nat))
      requires lo <= hi <= |s|
      ensures lo <= r.0 <= r.1 <= hi
    {
      if Blank(s, lo, hi) then (lo, lo)
      else
        TrimEdges(s, lo, hi);
        (TrimStart(s, lo, hi), SolidEnd(s, lo, hi))
    }

    /** The text a range renders to. */
    function Rendered(s: string, lo: nat, hi: nat): string
      requires lo <= hi <= |s|
    {
      var r := Trim(s, lo, hi);
      s[r.0..r.1]
    }

    /** Trimming cuts whitespace only, and leaves text at both ends. */
    lemma TrimEdges(s: string, lo: nat, hi: nat)
      requires lo <= hi <= |s| && !Blank(s, lo, hi)
      ensures var a, f, b := TrimStart(s, lo, hi), FirstSolid(s, lo, hi), SolidEnd(s, lo, hi);
        && lo <= a <= f < b <= hi
        && Blank(s, lo, a) && Blank(s, b, hi)
        && Blank(s, lo, f) && !space(s[f]) && !space(s[b-1])
        && (a < f ==> OpensLine(s, a, f) && TabsFrom(s, lo, f) == a)
        && (a == f ==> !OpensLine(s, TabsFrom(s, lo, f), f))
        && (a < f ==> TabsOpen(s, lo, a, f))
        && (a == f ==> forall t: nat :: !TabsOpen(s, lo, t, f))
    {
      forall t: nat | TabsOpen(s, lo, t, FirstSolid(s, lo, hi)) ensures t == TabsFrom(s, lo, FirstSolid(s, lo, hi)) {
        TabsFromFinds(s, lo, FirstSolid(s, lo, hi), t);
      }
      TabsFromFinds(s, lo, FirstSolid(s, lo, hi), TabsFrom(s, lo, FirstSolid(s, lo, hi)));
      FirstSolidFinds(s, lo, hi, FirstSolid(s, lo, hi));
      SolidEndFinds(s, lo, hi, SolidEnd(s, lo, hi));
      var p :| lo <= p < hi && !space(s[p]);
    }

    /** Trimming a trimmed range changes nothing, so a span renders to its own text. */
    lemma TrimIdempotent(s: string, lo: nat, hi: nat)
      requires lo <= hi <= |s| && !Blank(s, lo, hi)
      ensures var r := Trim(s, lo, hi); !Blank(s, r.0, r.1) && Trim(s, r.0, r.1) == r
    {
      TrimEdges(s, lo, hi);
      var a, f, b := TrimStart(s, lo, hi), FirstSolid(s, lo, hi), SolidEnd(s, lo, hi);
      FirstSolidFinds(s, a, b, f);
      SolidEndFinds(s, a, b, b);
      if a < f {
        TabsFromFinds(s, lo, f, a);
        TabsFromFinds(s, a, f, a);
      } else {
        TabsFromFinds(s, f, f, f);
      }
    }

    /** Ranges that move forward have trimmed ranges that move forward. */
    lemma TrimMonotone(s: string, lo: nat, hi: nat, lo': nat, hi': nat)
      requires Valid()
      requires lo <= hi <= |s| && lo' <= hi' <= |s| && lo <= lo' && hi <= hi'
      requires !Blank(s, lo, hi) && !Blank(s, lo', hi')
      ensures Trim(s, lo, hi).0 <= Trim(s, lo', hi').0
      ensures Trim(s, lo, hi).1 <= Trim(s, lo', hi').1
    {
      TrimEdges(s, lo, hi);
      TrimEdges(s, lo', hi');
      var f, f' := FirstSolid(s, lo, hi), FirstSolid(s, lo', hi');
      assert f <= f';
      if f < f' {
        assert f < lo';
      } else {
        var t, t' := TabsFrom(s, lo, f), TabsFrom(s, lo', f);
        TabsFromFinds(s, lo, f, t);
        TabsFromFinds(s, lo', f, t');
        assert t <= t' && (t < t' ==> s[t'-1] == '\t');
      }
      assert SolidEnd(s, lo, hi) <= SolidEnd(s, lo', hi');
    }
  }

  /** Tokens per slice of the last-resort splitter. */
  function SliceSize(max: nat): (r: nat)
    ensures 1 <= r
  {
    if max <= 9 then 1 else max - 8
  }

  // ----- spans ---------------------------------------------------------------

  /** `_Span`: a slice of the normalized text with its offsets. */
  datatype Span = Span(text: string, start: nat, end: nat)

  predicate Faithful(source: string, s: Span) {
    s.start <= s.end <= |source| && s.text == source[s.start..s.end]
  }

  /** Span starts and ends both move forward; neighbours may overlap. */
  ghost predicate Ordered(spans: seq<Span>) {
    forall i, j | 0 <= i <= j < |spans| :: spans[i].start <= spans[j].start && spans[i].end <= spans[j].end
  }

  ghost predicate Holds(spans: seq<Span>, p: int) {
    exists i :: 0 <= i < |spans| && spans[i].start <= p < spans[i].end
  }

  /** `_leading_trim`: how many leading characters of `source[start:end]` to drop. */
  method LeadingTrim(tk: Tokenizer, source: string, start: nat, end: nat) returns (n: nat)
    requires start <= end <= |source|
    ensures n == tk.TrimStart(source, start, end) - start
  {
    var first := start;
    while first < end && tk.space(source[first])
      invariant start <= first <= end
      invariant tk.Blank(source, start, first)
    {
      first := first + 1;
    }
    tk.FirstSolidFinds(source, start, end, first);
    if first == end {
      return end - start;
    }
    var tabsFrom := first;
    while tabsFrom > start && source[tabsFrom-1] == '\t'
      invariant start <= tabsFrom <= first
      invariant forall p | tabsFrom <= p < first :: source[p] == '\t'
    {
      tabsFrom := tabsFrom - 1;
    }
    tk.TabsFromFinds(source, start, first, tabsFrom);
    if tabsFrom < first && (tabsFrom == 0 || source[tabsFrom-1] == '\n') {
      return tabsFrom - start;
    }
    return first - start;
  }
}
