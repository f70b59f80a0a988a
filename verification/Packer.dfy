/** `_pack_spans` and `_overlap_tail`: greedy packing of spans into overlapping groups. */
module Packer {
  import opened Text

  // ----- sums over a span list -----------------------------------------------

  function Tok(tk: Tokenizer, s: seq<Span>, k: nat): nat
    requires k < |s|
  {
    tk.Count(s[k].text)
  }

  /** Tokens of the spans `[a, b)`, each counted alone. */
  function TokSum(tk: Tokenizer, s: seq<Span>, a: nat, b: nat): nat
    requires b <= |s|
  {
    if b <= a then 0 else TokSum(tk, s, a, b - 1) + Tok(tk, s, b - 1)
  }

  function Between(source: string, from: nat, to: nat): string
    requires to <= |source|
  {
    if from <= to then source[from..to] else ""
  }

  /** Tokens of the source between span `k` and the span before it. */
  function Gap(tk: Tokenizer, source: string, s: seq<Span>, k: nat): nat
    requires k < |s| && s[k].start <= |source|
  {
    if k == 0 then 0 else tk.Count(Between(source, s[k-1].end, s[k].start))
  }

  /** The gap is the text from the end of the span before it to its start, and empty where they overlap. */
  lemma GapIsBetween(tk: Tokenizer, source: string, s: seq<Span>, k: nat)
    requires 0 < k < |s| && s[k].start <= |source|
    ensures s[k-1].end <= s[k].start ==> Gap(tk, source, s, k) == tk.Count(source[s[k-1].end..s[k].start])
    ensures s[k-1].end > s[k].start ==> Gap(tk, source, s, k) == tk.Count("")
  {
  }

  ghost predicate Inside(source: string, s: seq<Span>) {
    forall k | 0 <= k < |s| :: s[k].start <= |source|
  }

  /** Tokens of the spans `[a, b)` and of the gaps between them, each counted alone. */
  function Budget(tk: Tokenizer, source: string, s: seq<Span>, a: nat, b: nat): nat
    requires b <= |s| && Inside(source, s)
  {
    if b <= a then 0
    else Budget(tk, source, s, a, b - 1) + Tok(tk, s, b - 1) + if a < b - 1 then Gap(tk, source, s, b - 1) else 0
  }

  lemma {:induction false} TokSumFront(tk: Tokenizer, s: seq<Span>, a: nat, b: nat)
    requires a < b <= |s|
    ensures TokSum(tk, s, a, b) == Tok(tk, s, a) + TokSum(tk, s, a + 1, b)
  {
    if a + 1 < b { TokSumFront(tk, s, a, b - 1); }
  }

  lemma {:induction false} BudgetFront(tk: Tokenizer, source: string, s: seq<Span>, a: nat, b: nat)
    requires a < b <= |s| && Inside(source, s)
    ensures Budget(tk, source, s, a, b)
         == Tok(tk, s, a) + (if a + 1 < b then Gap(tk, source, s, a + 1) else 0) + Budget(tk, source, s, a + 1, b)
  {
    if a + 1 < b { BudgetFront(tk, source, s, a, b - 1); }
  }

  lemma {:induction false} TokSumSlice(tk: Tokenizer, s: seq<Span>, lo: nat, hi: nat, a: nat, b: nat)
    requires lo <= hi <= |s| && b <= hi - lo
    ensures TokSum(tk, s[lo..hi], a, b) == TokSum(tk, s, lo + a, lo + b)
  {
    if a < b { TokSumSlice(tk, s, lo, hi, a, b - 1); }
  }

  lemma {:induction false} TokSumSuffix(tk: Tokenizer, s: seq<Span>, a: nat, b: nat, c: nat)
    requires a <= b <= c <= |s|
    ensures TokSum(tk, s, b, c) <= TokSum(tk, s, a, c)
    decreases b - a
  {
    if a < b {
      TokSumFront(tk, s, a, c);
      TokSumSuffix(tk, s, a + 1, b, c);
    }
  }

  // ----- the overlap tail ------------------------------------------------------

  /** A seed of at most one span, or of spans within the overlap budget. */
  ghost predicate SeedOk(tk: Tokenizer, s: seq<Span>, a: nat, b: nat, overlap: int)
    requires b <= |s|
  {
    b - a <= 1 || TokSum(tk, s, a, b) <= overlap
  }

  /**
   * `[k, b)` is what the spans `[a, b)` carry forward: nothing when no overlap is asked for
   * or there is no span to spare; else the spans from the end, one at least, up to the first
   * that reaches the overlap or before the one that exceeds it, and never all of them.
   */
  ghost predicate LongestTail(tk: Tokenizer, s: seq<Span>, overlap: int, a: nat, k: nat, b: nat)
    requires a <= b <= |s|
  {
    if overlap <= 0 || b - a <= 1 then k == b
    else
      && a < k < b
      && (k == b - 1 || TokSum(tk, s, k, b) <= overlap)
      && (forall m: nat | k < m < b :: TokSum(tk, s, m, b) < overlap)
      && (k == a + 1 || TokSum(tk, s, k, b) >= overlap || TokSum(tk, s, k - 1, b) > overlap)
  }

  /**
   * `_overlap_tail`: the proper suffix `group[k..]` carried forward. It is as long as
   * the overlap budget allows, and at least one span when there is one to spare.
   */
  method OverlapTail(tk: Tokenizer, group: seq<Span>, overlap: int) returns (tail: seq<Span>, ghost k: nat)
    ensures k <= |group| && tail == group[k..] && (group != [] ==> 1 <= k)
    ensures SeedOk(tk, group, k, |group|, overlap)
    ensures overlap <= 0 ==> tail == []
    ensures 0 < overlap && 2 <= |group| ==> k < |group|
    ensures 0 < overlap && 1 < k < |group| ==>
      TokSum(tk, group, k, |group|) >= overlap || TokSum(tk, group, k - 1, |group|) > overlap
    ensures LongestTail(tk, group, overlap, 0, k, |group|)
  {
    k := |group|;
    tail := [];
    if overlap <= 0 || group == [] {
      return;
    }
    var total := 0;
    var i := |group|;
    while i > 0
      invariant 0 <= i <= |group| && k == i && tail == group[i..]
      invariant total == TokSum(tk, group, i, |group|) && (tail != [] ==> total < overlap)
      invariant forall m: nat | i < m < |group| :: TokSum(tk, group, m, |group|) < overlap
    {
      var spanTokens := tk.Count(group[i-1].text);
      TokSumFront(tk, group, i - 1, |group|);
      if tail != [] && total + spanTokens > overlap {
        break;
      }
      tail := [group[i-1]] + tail;
      total := total + spanTokens;
      i := i - 1;
      k := i;
      if total >= overlap {
        break;
      }
    }
    if |tail| == |group| {
      TokSumFront(tk, group, 0, |group|);
      tail := tail[1..];
      k := 1;
    }
  }

  // ----- packing ---------------------------------------------------------------

  /** Spans that start together follow gaps of the same size, so a gap can be looked up by its start. */
  ghost predicate GapsAgree(tk: Tokenizer, source: string, s: seq<Span>)
    requires Inside(source, s)
  {
    forall j, k | 0 <= j < k < |s| && s[j].start == s[k].start :: Gap(tk, source, s, j) == Gap(tk, source, s, k)
  }

  /** The gaps as they are kept: the last one written for each start. */
  function KeptGaps(tk: Tokenizer, source: string, s: seq<Span>, i: nat): map<nat, nat>
    requires i <= |s| && forall k | 0 <= k < |s| :: s[k].start <= |source|
  {
    if i == 0 then map[] else KeptGaps(tk, source, s, i - 1)[s[i-1].start := Gap(tk, source, s, i - 1)]
  }

  lemma {:induction false} KeptIsLast(tk: Tokenizer, source: string, s: seq<Span>, i: nat, k: nat)
    requires Inside(source, s) && k < i <= |s|
    ensures s[k].start in KeptGaps(tk, source, s, i)
    ensures exists j :: k <= j < i && s[j].start == s[k].start
                        && KeptGaps(tk, source, s, i)[s[k].start] == Gap(tk, source, s, j)
  {
    if s[i-1].start != s[k].start {
      KeptIsLast(tk, source, s, i - 1, k);
    }
  }

  /** With `i` spans packed, span `k`'s gap is the one found under its start. */
  ghost predicate KeptAt(tk: Tokenizer, source: string, s: seq<Span>, i: nat, k: nat)
    requires k < i <= |s| && Inside(source, s)
  {
    var kept := KeptGaps(tk, source, s, i);
    s[k].start in kept && kept[s[k].start] == Gap(tk, source, s, k)
  }

  /** However far packing got, every gap is found under its start exactly when spans that start together agree. */
  lemma GapsAreKept(tk: Tokenizer, source: string, s: seq<Span>)
    requires Inside(source, s)
    ensures GapsAgree(tk, source, s) <==> forall i, k | 0 <= k < i <= |s| :: KeptAt(tk, source, s, i, k)
  {
    hide Gap;
    if GapsAgree(tk, source, s) {
      forall i, k | 0 <= k < i <= |s| ensures KeptAt(tk, source, s, i, k) {
        KeptIsLast(tk, source, s, i, k);
      }
    }
    if forall i, k | 0 <= k < i <= |s| :: KeptAt(tk, source, s, i, k) {
      forall j, k | 0 <= j < k < |s|
             && s[j].start == s[k].start
        ensures Gap(tk, source, s, j) == Gap(tk, source, s, k)
      {
        assert KeptAt(tk, source, s, k + 1, j) && KeptAt(tk, source, s, k + 1, k);
      }
    }
  }

  ghost function LastEnd(bounds: seq<(nat, nat)>): nat {
    if bounds == [] then 0 else bounds[|bounds|-1].1
  }

  /** Where the group before `g` ends: past it, `g` is new. */
  ghost function PrevEnd(bounds: seq<(nat, nat)>, g: nat): nat
    requires g <= |bounds|
  {
    if g == 0 then 0 else bounds[g-1].1
  }

  /** Group `g` is the contiguous span range `bounds[g]`. */
  ghost predicate GroupsAre(s: seq<Span>, groups: seq<seq<Span>>, bounds: seq<(nat, nat)>) {
    && |groups| == |bounds|
    && (forall g | 0 <= g < |bounds| ::
          bounds[g].0 < bounds[g].1 <= |s| && groups[g] == s[bounds[g].0..bounds[g].1])
  }

  /** Each group starts inside or right after the one before, and ends past it. */
  ghost predicate Advancing(bounds: seq<(nat, nat)>) {
    && (bounds != [] ==> bounds[0].0 == 0)
    && (forall g | 0 < g < |bounds| :: bounds[g-1].0 < bounds[g].0 <= bounds[g-1].1 < bounds[g].1)
  }

  /** What packing promises of each group, as counted span by span and gap by gap. */
  ghost predicate GroupOk(tk: Tokenizer, source: string, s: seq<Span>, p: Params, e: nat, a: nat, b: nat)
    requires b <= |s| && Inside(source, s)
  {
    && (a < e <= b ==> SeedOk(tk, s, a, e, p.overlap))
    && (forall m: nat | e < m < b :: TokSum(tk, s, a, m) < p.target)
    && (GapsAgree(tk, source, s) && b - a > 1 ==> Budget(tk, source, s, a, b) <= p.max)
  }

  /** A group closes at the target, or because the next span and its gap would not fit. */
  ghost predicate ClosedOk(tk: Tokenizer, source: string, s: seq<Span>, p: Params, a: nat, b: nat)
    requires b <= |s| && Inside(source, s)
  {
    GapsAgree(tk, source, s) && TokSum(tk, s, a, b) < p.target ==>
      b < |s| && Budget(tk, source, s, a, b) + Gap(tk, source, s, b) + Tok(tk, s, b) > p.max
  }

  /**
   * A group starts where the one before, `[a0, b)`, left its overlap, or later, because the
   * spans from the one before its start on did not fit beside the next span and its gap.
   */
  ghost predicate StartOk(tk: Tokenizer, source: string, s: seq<Span>, p: Params, a0: nat, b: nat, a: nat)
    requires a0 <= b <= |s| && Inside(source, s)
  {
    exists k: nat :: LongestTail(tk, s, p.overlap, a0, k, b) && StartsFrom(tk, source, s, p, b, k, a)
  }

  ghost predicate StartsFrom(tk: Tokenizer, source: string, s: seq<Span>, p: Params, b: nat, k: nat, a: nat)
    requires b <= |s| && Inside(source, s)
  {
    && k <= a <= b
    && (k < a && GapsAgree(tk, source, s) ==>
          b < |s| && Budget(tk, source, s, a - 1, b) + Gap(tk, source, s, b) + Tok(tk, s, b) > p.max)
  }

  /** Every group after the first starts with the overlap of the one before. */
  ghost predicate StartsOk(tk: Tokenizer, source: string, s: seq<Span>, p: Params, bounds: seq<(nat, nat)>)
    requires Inside(source, s)
  {
    forall g: nat | g < |bounds| :: StartAt(tk, source, s, p, bounds, g)
  }

  ghost predicate StartAt(tk: Tokenizer, source: string, s: seq<Span>, p: Params, bounds: seq<(nat, nat)>, g: nat)
    requires g < |bounds| && Inside(source, s)
  {
    g > 0 ==>
      && bounds[g-1].0 <= bounds[g-1].1 <= |s|
      && StartOk(tk, source, s, p, bounds[g-1].0, bounds[g-1].1, bounds[g].0)
  }

  /** The open group starts where the last closed one left its overlap. */
  ghost predicate SeedIs(tk: Tokenizer, s: seq<Span>, p: Params, bounds: seq<(nat, nat)>, a: nat) {
    bounds != [] ==>
      var last := bounds[|bounds|-1];
      last.0 <= last.1 <= |s| && LongestTail(tk, s, p.overlap, last.0, a, last.1)
  }

  /** The open group starts as `StartOk` says. */
  ghost predicate OpensOk(tk: Tokenizer, source: string, s: seq<Span>, p: Params, bounds: seq<(nat, nat)>, a: nat)
    requires Inside(source, s)
  {
    bounds != [] ==>
      var last := bounds[|bounds|-1];
      last.0 <= last.1 <= |s| && StartOk(tk, source, s, p, last.0, last.1, a)
  }

  ghost predicate GroupsOk(tk: Tokenizer, source: string, s: seq<Span>, p: Params, bounds: seq<(nat, nat)>)
    requires Inside(source, s)
  {
    && (forall g | 0 <= g < |bounds| :: bounds[g].1 <= |s|)
    && (forall g | 0 <= g < |bounds| ::
          GroupOk(tk, source, s, p, PrevEnd(bounds, g), bounds[g].0, bounds[g].1))
  }

  ghost predicate AllClosedOk(tk: Tokenizer, source: string, s: seq<Span>, p: Params, bounds: seq<(nat, nat)>)
    requires Inside(source, s)
  {
    forall g | 0 <= g < |bounds| :: bounds[g].1 <= |s| && ClosedOk(tk, source, s, p, bounds[g].0, bounds[g].1)
  }

  datatype Params = Params(target: int, max: nat, overlap: int)

  /** The closed groups so far, and where the open one `[a, i)` stands against them. */
  ghost predicate Packed(tk: Tokenizer, source: string, s: seq<Span>, p: Params,
                         groups: seq<seq<Span>>, bounds: seq<(nat, nat)>, a: nat, i: nat)
    requires Inside(source, s)
  {
    && GroupsAre(s, groups, bounds) && Advancing(bounds)
    && GroupsOk(tk, source, s, p, bounds) && AllClosedOk(tk, source, s, p, bounds)
    && a <= LastEnd(bounds) <= i <= |s|
    && (if bounds == [] then a == 0 else bounds[|bounds|-1].0 < a)
    && (a < LastEnd(bounds) ==> SeedOk(tk, s, a, LastEnd(bounds), p.overlap))
    && StartsOk(tk, source, s, p, bounds) && OpensOk(tk, source, s, p, bounds, a)
  }

  ghost predicate GapsKept(tk: Tokenizer, source: string, s: seq<Span>, gaps: map<nat, nat>, i: nat)
    requires i <= |s| && Inside(source, s)
  {
    forall k | 0 <= k < i ::
        s[k].start in gaps && (GapsAgree(tk, source, s) ==> gaps[s[k].start] == Gap(tk, source, s, k))
  }

  /** `current` is `s[a..i]`, with its running counts. */
  ghost predicate Counted(tk: Tokenizer, source: string, s: seq<Span>, current: seq<Span>, a: nat, i: nat, tokens: int,
                          rendered: int)
    requires Inside(source, s)
  {
    && a <= i <= |s| && current == s[a..i]
    && tokens == TokSum(tk, s, a, i)
    && (GapsAgree(tk, source, s) ==> rendered == Budget(tk, source, s, a, i))
  }

  method SumTokens(tk: Tokenizer, source: string, ghost s: seq<Span>, current: seq<Span>, gaps: map<nat, nat>,
                   ghost a: nat, ghost i: nat)
    returns (tokens: int, rendered: int)
    requires Inside(source, s) && a <= i <= |s| && current == s[a..i] && GapsKept(tk, source, s, gaps, i)
    ensures Counted(tk, source, s, current, a, i, tokens, rendered)
  {
    tokens, rendered := 0, 0;
    for k := 0 to |current|
      invariant tokens == TokSum(tk, s, a, a + k)
      invariant GapsAgree(tk, source, s) ==> rendered == Budget(tk, source, s, a, a + k)
    {
      assert current[k] == s[a + k];
      var t := tk.Count(current[k].text);
      tokens := tokens + t;
      rendered := rendered + t + if k > 0 then gaps[current[k].start] else 0;
    }
  }

  lemma CloseStep(tk: Tokenizer, source: string, s: seq<Span>, p: Params, groups: seq<seq<Span>>,
                  bounds: seq<(nat, nat)>,
                  a: nat, i: nat, k: nat)
    requires Inside(source, s) && Packed(tk, source, s, p, groups, bounds, a, i) && LastEnd(bounds) < i
    requires GroupOk(tk, source, s, p, LastEnd(bounds), a, i) && ClosedOk(tk, source, s, p, a, i)
    requires 1 <= k <= i - a && SeedOk(tk, s[a..i], k, i - a, p.overlap)
    requires LongestTail(tk, s[a..i], p.overlap, 0, k, i - a)
    ensures Packed(tk, source, s, p, groups + [s[a..i]], bounds + [(a, i)], a + k, i)
    ensures SeedIs(tk, s, p, bounds + [(a, i)], a + k)
    ensures LastEnd(bounds + [(a, i)]) == i
  {
    hide *;
    PackedParts(tk, source, s, p, groups, bounds, a, i);
    AppendGroup(s, groups, bounds, a, i);
    AppendBounds(bounds, a, i);
    AppendOk(tk, source, s, p, bounds, a, i);
    AppendClosed(tk, source, s, p, bounds, a, i);
    AppendStart(tk, source, s, p, bounds, a, i);
    TailSeed(tk, s, p, a, i, k);
    TailIs(tk, source, s, p, bounds, a, i, k);
    RepackedParts(tk, source, s, p, groups + [s[a..i]], bounds + [(a, i)], a + k, i);
  }

  lemma PackedParts(tk: Tokenizer, source: string, s: seq<Span>, p: Params, groups: seq<seq<Span>>,
                    bounds: seq<(nat, nat)>,
                    a: nat, i: nat)
    requires Inside(source, s) && Packed(tk, source, s, p, groups, bounds, a, i)
    ensures GroupsAre(s, groups, bounds) && Advancing(bounds)
    ensures GroupsOk(tk, source, s, p, bounds) && AllClosedOk(tk, source, s, p, bounds)
    ensures a <= LastEnd(bounds) <= i <= |s| && (bounds != [] ==> bounds[|bounds|-1].0 < a) && (bounds == [] ==> a == 0)
    ensures a < LastEnd(bounds) ==> SeedOk(tk, s, a, LastEnd(bounds), p.overlap)
    ensures StartsOk(tk, source, s, p, bounds) && OpensOk(tk, source, s, p, bounds, a)
  {
    hide GroupsAre, Advancing, GroupsOk, AllClosedOk, SeedOk, StartsOk, OpensOk;
  }

  lemma RepackedParts(tk: Tokenizer, source: string, s: seq<Span>, p: Params, groups: seq<seq<Span>>,
                      bounds: seq<(nat, nat)>,
                      a: nat, i: nat)
    requires Inside(source, s) && GroupsAre(s, groups, bounds) && Advancing(bounds)
    requires GroupsOk(tk, source, s, p, bounds) && AllClosedOk(tk, source, s, p, bounds)
    requires a <= LastEnd(bounds) <= i <= |s| && bounds != [] && bounds[|bounds|-1].0 < a
    requires a < LastEnd(bounds) ==> SeedOk(tk, s, a, LastEnd(bounds), p.overlap)
    requires StartsOk(tk, source, s, p, bounds) && OpensOk(tk, source, s, p, bounds, a)
    ensures Packed(tk, source, s, p, groups, bounds, a, i)
  {
    hide GroupsAre, Advancing, GroupsOk, AllClosedOk, SeedOk, StartsOk, OpensOk;
  }

  lemma TailSeed(tk: Tokenizer, s: seq<Span>, p: Params, a: nat, i: nat, k: nat)
    requires a <= i <= |s| && k <= i - a && SeedOk(tk, s[a..i], k, i - a, p.overlap)
    ensures SeedOk(tk, s, a + k, i, p.overlap)
  {
    TokSumSlice(tk, s, a, i, k, i - a);
  }

  /** What the closed group carries forward, in terms of the whole list. */
  lemma TailIs(tk: Tokenizer, source: string, s: seq<Span>, p: Params, bounds: seq<(nat, nat)>, a: nat, i: nat, k: nat)
    requires a < i <= |s| && k <= i - a && Inside(source, s) && LongestTail(tk, s[a..i], p.overlap, 0, k, i - a)
    ensures SeedIs(tk, s, p, bounds + [(a, i)], a + k) && OpensOk(tk, source, s, p, bounds + [(a, i)], a + k)
  {
    hide Inside, GapsAgree;
    forall m: nat | a < m <= i ensures TokSum(tk, s, m, i) == TokSum(tk, s[a..i], m - a, i - a) {
      TokSumSlice(tk, s, a, i, m - a, i - a);
    }
    assert LongestTail(tk, s, p.overlap, a, a + k, i);
    assert StartsFrom(tk, source, s, p, i, a + k, a + k);
  }

  lemma AppendStart(tk: Tokenizer, source: string, s: seq<Span>, p: Params, bounds: seq<(nat, nat)>, a: nat, i: nat)
    requires Inside(source, s) && StartsOk(tk, source, s, p, bounds) && OpensOk(tk, source, s, p, bounds, a)
    ensures StartsOk(tk, source, s, p, bounds + [(a, i)])
  {
    hide StartOk, Inside;
    var bounds' := bounds + [(a, i)];
    forall g: nat | g < |bounds'| ensures StartAt(tk, source, s, p, bounds', g) {
      if g < |bounds| {
        assert StartAt(tk, source, s, p, bounds, g);
      }
    }
  }

  lemma AppendGroup(s: seq<Span>, groups: seq<seq<Span>>, bounds: seq<(nat, nat)>, a: nat, i: nat)
    requires GroupsAre(s, groups, bounds) && a < i <= |s|
    ensures GroupsAre(s, groups + [s[a..i]], bounds + [(a, i)]) && LastEnd(bounds + [(a, i)]) == i
  {
    var groups', bounds' := groups + [s[a..i]], bounds + [(a, i)];
    forall g | 0 <= g < |bounds'|
      ensures bounds'[g].0 < bounds'[g].1 <= |s| && groups'[g] == s[bounds'[g].0..bounds'[g].1]
    {
      assert g < |bounds| ==> bounds'[g] == bounds[g] && groups'[g] == groups[g];
    }
  }

  lemma AppendBounds(bounds: seq<(nat, nat)>, a: nat, i: nat)
    requires Advancing(bounds) && a <= LastEnd(bounds) < i
    requires if bounds == [] then a == 0 else bounds[|bounds|-1].0 < a
    ensures Advancing(bounds + [(a, i)])
  {
    var bounds' := bounds + [(a, i)];
    forall g | 0 < g < |bounds'|
      ensures bounds'[g-1].0 < bounds'[g].0 <= bounds'[g-1].1 < bounds'[g].1
    {
      assert bounds'[g-1] == bounds[g-1];
      assert g < |bounds| ==> bounds'[g] == bounds[g];
    }
  }

  lemma AppendOk(tk: Tokenizer, source: string, s: seq<Span>, p: Params, bounds: seq<(nat, nat)>, a: nat, i: nat)
    requires Inside(source, s) && GroupsOk(tk, source, s, p, bounds) && i <= |s|
    requires GroupOk(tk, source, s, p, LastEnd(bounds), a, i)
    ensures GroupsOk(tk, source, s, p, bounds + [(a, i)])
  {
    hide GroupOk, Inside;
    var bounds' := bounds + [(a, i)];
    forall g | 0 <= g < |bounds'|
      ensures bounds'[g].1 <= |s| && GroupOk(tk, source, s, p, PrevEnd(bounds', g), bounds'[g].0, bounds'[g].1)
    {
      assert g < |bounds| ==> bounds'[g] == bounds[g] && PrevEnd(bounds', g) == PrevEnd(bounds, g);
      assert PrevEnd(bounds', |bounds|) == LastEnd(bounds);
    }
  }

  lemma AppendClosed(tk: Tokenizer, source: string, s: seq<Span>, p: Params, bounds: seq<(nat, nat)>, a: nat, i: nat)
    requires Inside(source, s) && AllClosedOk(tk, source, s, p, bounds) && i <= |s| && ClosedOk(tk, source, s, p, a, i)
    ensures AllClosedOk(tk, source, s, p, bounds + [(a, i)])
  {
    hide ClosedOk, Inside;
  }

  /** `close()`: the open group joins the closed ones and leaves its overlap tail open. */
  method Close(tk: Tokenizer, source: string, ghost s: seq<Span>, p: Params, groups: seq<seq<Span>>,
               ghost bounds: seq<(nat, nat)>,
               current: seq<Span>, gaps: map<nat, nat>, ghost a: nat, ghost i: nat)
    returns (groups': seq<seq<Span>>, seed: seq<Span>, tokens: int, rendered: int, ghost a': nat)
    requires Inside(source, s) && Packed(tk, source, s, p, groups, bounds, a, i) && LastEnd(bounds) < i
    requires GroupOk(tk, source, s, p, LastEnd(bounds), a, i) && ClosedOk(tk, source, s, p, a, i)
    requires a < i <= |s| && current == s[a..i] && GapsKept(tk, source, s, gaps, i)
    ensures groups' == groups + [current] && LastEnd(bounds + [(a, i)]) == i
    ensures Packed(tk, source, s, p, groups', bounds + [(a, i)], a', i)
    ensures SeedIs(tk, s, p, bounds + [(a, i)], a') && Counted(tk, source, s, seed, a', i, tokens, rendered)
  {
    hide *;
    ghost var k;
    seed, k := OverlapTail(tk, current, p.overlap);
    CloseStep(tk, source, s, p, groups, bounds, a, i, k);
    groups' := groups + [current];
    a' := a + k;
    assert seed == s[a'..i];
    tokens, rendered := SumTokens(tk, source, s, seed, gaps, a', i);
  }

  lemma PopFront(tk: Tokenizer, source: string, s: seq<Span>, current: seq<Span>, gaps: map<nat, nat>, a: nat, i: nat,
                 tokens: int, rendered: int)
    requires Inside(source, s) && Counted(tk, source, s, current, a, i, tokens, rendered) && current != []
    requires GapsKept(tk, source, s, gaps, i)
    ensures a < i && |current[1..]| == |current| - 1 && (current[1..] != [] ==> current[1..][0].start in gaps)
    ensures var dropped := tk.Count(current[0].text);
      Counted(tk, source, s, current[1..], a + 1, i, tokens - dropped,
              rendered - (dropped + if current[1..] != [] then gaps[current[1..][0].start] else 0))
  {
    TokSumFront(tk, s, a, i);
    BudgetFront(tk, source, s, a, i);
    assert current[0] == s[a];
    assert current[1..] == s[a + 1..i];
    assert current[1..] != [] ==> current[1..][0] == s[a + 1];
  }

  /** What the count of `s[a..i]` loses with its spans before `b`, and with the kept gaps after each of them. */
  function Dropped(tk: Tokenizer, s: seq<Span>, gaps: map<nat, nat>, a: nat, b: nat, i: nat): nat
    requires b <= |s|
  {
    if b <= a then 0
    else
      Dropped(tk, s, gaps, a, b - 1, i) + Tok(tk, s, b - 1)
      + if b < i && b < |s| && s[b].start in gaps then gaps[s[b].start] else 0
  }

  /** Drops spans from the front of `current` only until `need` more tokens fit beside it. */
  method DropFront(tk: Tokenizer, source: string, ghost s: seq<Span>, current0: seq<Span>, gaps: map<nat, nat>,
                   need: nat, max: nat,
                   ghost a0: nat, ghost i: nat, tokens0: int, rendered0: int)
    returns (current: seq<Span>, tokens: int, rendered: int, ghost a: nat)
    requires Inside(source, s) && Counted(tk, source, s, current0, a0, i, tokens0, rendered0)
    requires GapsKept(tk, source, s, gaps, i)
    ensures a0 <= a <= i && Counted(tk, source, s, current, a, i, tokens, rendered)
    ensures i <= |s| && rendered == rendered0 - Dropped(tk, s, gaps, a0, a, i)
    ensures current == [] || rendered + need <= max
    ensures forall b: nat | a0 <= b < a :: rendered0 - Dropped(tk, s, gaps, a0, b, i) + need > max
    ensures GapsAgree(tk, source, s) && a0 < a ==> Budget(tk, source, s, a - 1, i) + need > max
    ensures current0 == [] || rendered0 + need <= max ==> a == a0
  {
    hide *;
    current, tokens, rendered, a := current0, tokens0, rendered0, a0;
    DroppedNone(tk, source, s, current0, gaps, a0, i, tokens0, rendered0);
    Counts(tk, source, s, current0, a0, i, tokens0, rendered0);
    while current != [] && rendered + need > max
      invariant a0 <= a <= i && Counted(tk, source, s, current, a, i, tokens, rendered)
      invariant current0 == [] || rendered0 + need <= max ==> a == a0 && current == current0 && rendered == rendered0
      invariant i <= |s| && rendered == rendered0 - Dropped(tk, s, gaps, a0, a, i)
      invariant forall b: nat | a0 <= b < a :: rendered0 - Dropped(tk, s, gaps, a0, b, i) + need > max
      invariant GapsAgree(tk, source, s) && a0 < a ==> Budget(tk, source, s, a - 1, i) + need > max
      decreases |current|
    {
      Counts(tk, source, s, current, a, i, tokens, rendered);
      DroppedMore(tk, source, s, current, gaps, a0, a, i, tokens, rendered);
      PopFront(tk, source, s, current, gaps, a, i, tokens, rendered);
      var dropped := tk.Count(current[0].text);
      current := current[1..];
      tokens := tokens - dropped;
      rendered := rendered - (dropped + if current != [] then gaps[current[0].start] else 0);
      a := a + 1;
    }
  }

  lemma DroppedNone(tk: Tokenizer, source: string, s: seq<Span>, current: seq<Span>, gaps: map<nat, nat>, a: nat,
                    i: nat,
                    tokens: int, rendered: int)
    requires Inside(source, s) && Counted(tk, source, s, current, a, i, tokens, rendered)
    ensures a <= i <= |s| && Dropped(tk, s, gaps, a, a, i) == 0
  {
  }

  lemma DroppedMore(tk: Tokenizer, source: string, s: seq<Span>, current: seq<Span>, gaps: map<nat, nat>, a0: nat,
                    a: nat, i: nat, tokens: int, rendered: int)
    requires Inside(source, s) && Counted(tk, source, s, current, a, i, tokens, rendered)
    requires a0 <= a && current != [] && GapsKept(tk, source, s, gaps, i)
    ensures a < i <= |s| && (current[1..] != [] ==> current[1..][0].start in gaps)
    ensures Dropped(tk, s, gaps, a0, a + 1, i) == Dropped(tk, s, gaps, a0, a, i) + tk.Count(current[0].text)
                                                  + if current[1..] != [] then gaps[current[1..][0].start] else 0
  {
    assert current[0] == s[a];
    if current[1..] != [] { assert current[1..][0] == s[a + 1]; }
  }

  /** The seed loses spans only beside the first span after a close. */
  lemma DropStep(tk: Tokenizer, source: string, s: seq<Span>, p: Params, groups: seq<seq<Span>>,
                 bounds: seq<(nat, nat)>,
                 a: nat, a': nat, i: nat)
    requires Inside(source, s) && Packed(tk, source, s, p, groups, bounds, a, i) && a <= a' <= LastEnd(bounds)
    requires a < a' ==>
               && i < |s| && LastEnd(bounds) == i && SeedIs(tk, s, p, bounds, a)
               && (GapsAgree(tk, source, s) ==>
                     Budget(tk, source, s, a' - 1, i) + Gap(tk, source, s, i) + Tok(tk, s, i) > p.max)
    ensures Packed(tk, source, s, p, groups, bounds, a', i)
  {
    hide GroupsAre, Advancing, GroupsOk, AllClosedOk, StartsOk, GapsAgree, LongestTail, SeedOk, Inside;
    if a < a' && bounds != [] {
      assert StartsFrom(tk, source, s, p, i, a, a');
    }
    if a' < LastEnd(bounds) { SeedShrinks(tk, s, p, a, a', LastEnd(bounds)); }
  }

  lemma SeedShrinks(tk: Tokenizer, s: seq<Span>, p: Params, a: nat, a': nat, b: nat)
    requires a <= a' <= b <= |s| && SeedOk(tk, s, a, b, p.overlap)
    ensures SeedOk(tk, s, a', b, p.overlap)
  {
    TokSumSuffix(tk, s, a, a', b);
  }

  lemma NextSpan(tk: Tokenizer, source: string, s: seq<Span>, p: Params, groups: seq<seq<Span>>,
                 bounds: seq<(nat, nat)>, a: nat, i: nat)
    requires Inside(source, s) && Packed(tk, source, s, p, groups, bounds, a, i) && i < |s|
    ensures Packed(tk, source, s, p, groups, bounds, a, i + 1)
  {
    hide GroupsAre, Advancing, GroupsOk, AllClosedOk, SeedOk, StartsOk, OpensOk;
  }

  lemma KeepGap(tk: Tokenizer, source: string, s: seq<Span>, gaps: map<nat, nat>, i: nat)
    requires i < |s| && Inside(source, s) && GapsKept(tk, source, s, gaps, i)
    ensures GapsKept(tk, source, s, gaps[s[i].start := Gap(tk, source, s, i)], i + 1)
  {
  }

  lemma Push(tk: Tokenizer, source: string, s: seq<Span>, current: seq<Span>, a: nat, i: nat, tokens: int,
             rendered: int)
    requires Inside(source, s) && Counted(tk, source, s, current, a, i, tokens, rendered) && i < |s|
    ensures Counted(tk, source, s, current + [s[i]], a, i + 1, tokens + Tok(tk, s, i),
                    rendered + Tok(tk, s, i) + if current != [] then Gap(tk, source, s, i) else 0)
    ensures current == [] <==> a == i
  {
    hide GapsAgree, Gap, Tok;
  }

  /** The open group after span `i` joins it, given that the group was not at its target before. */
  lemma OpenOk(tk: Tokenizer, source: string, s: seq<Span>, p: Params, groups: seq<seq<Span>>, bounds: seq<(nat, nat)>,
               a: nat, i: nat)
    requires Inside(source, s) && i < |s| && Packed(tk, source, s, p, groups, bounds, a, i)
    requires var e := LastEnd(bounds); e == i || (GroupOk(tk, source, s, p, e, a, i) && TokSum(tk, s, a, i) < p.target)
    requires GapsAgree(tk, source, s) && a < i ==>
        Budget(tk, source, s, a, i) + Gap(tk, source, s, i) + Tok(tk, s, i) <= p.max
    ensures GroupOk(tk, source, s, p, LastEnd(bounds), a, i + 1)
  {
    hide GroupsAre, Advancing, GroupsOk, AllClosedOk, StartsOk, OpensOk;
  }

  lemma StartPacking(tk: Tokenizer, source: string, s: seq<Span>, p: Params)
    requires Inside(source, s)
    ensures Packed(tk, source, s, p, [], [], 0, 0) && Counted(tk, source, s, [], 0, 0, 0, 0)
    ensures GapsKept(tk, source, s, map[], 0) && LastEnd([]) == 0 && SeedIs(tk, s, p, [], 0)
  {
  }

  lemma PackedBounds(tk: Tokenizer, source: string, s: seq<Span>, p: Params, groups: seq<seq<Span>>,
                     bounds: seq<(nat, nat)>,
                     a: nat, i: nat)
    requires Inside(source, s) && Packed(tk, source, s, p, groups, bounds, a, i)
    ensures a <= LastEnd(bounds) <= i <= |s|
  {
  }

  /** Overflow or reaching the target is a reason to close. */
  lemma Cause(tk: Tokenizer, source: string, s: seq<Span>, p: Params, current: seq<Span>, a: nat, i: nat, tokens: int,
              rendered: int)
    requires Inside(source, s) && Counted(tk, source, s, current, a, i, tokens, rendered)
    requires tokens >= p.target || (i < |s| && rendered + Gap(tk, source, s, i) + Tok(tk, s, i) > p.max)
    ensures ClosedOk(tk, source, s, p, a, i)
  {
  }

  lemma Counts(tk: Tokenizer, source: string, s: seq<Span>, current: seq<Span>, a: nat, i: nat, tokens: int,
               rendered: int)
    requires Inside(source, s) && Counted(tk, source, s, current, a, i, tokens, rendered)
    ensures a <= i <= |s| && current == s[a..i] && tokens == TokSum(tk, s, a, i)
    ensures GapsAgree(tk, source, s) ==> rendered == Budget(tk, source, s, a, i)
    ensures current == [] <==> a == i
  {
  }

  lemma EarlierGaps(tk: Tokenizer, source: string, s: seq<Span>, gaps: map<nat, nat>, i: nat)
    requires i < |s| && Inside(source, s) && GapsKept(tk, source, s, gaps, i + 1)
    ensures GapsKept(tk, source, s, gaps, i)
  {
  }

  lemma CountsAre(tk: Tokenizer, source: string, s: seq<Span>, i: nat)
    requires i < |s| && Inside(source, s)
    ensures s[i].start <= |source|
    ensures Tok(tk, s, i) == tk.Count(s[i].text)
    ensures Gap(tk, source, s, i) == if i == 0 then 0 else tk.Count(Between(source, s[i-1].end, s[i].start))
  {
  }

  /** Every span is in a group; the ones past the last group are equal to spans in it. */
  ghost predicate NoneLost(s: seq<Span>, groups: seq<seq<Span>>, bounds: seq<(nat, nat)>) {
    forall k | LastEnd(bounds) <= k < |s| :: groups != [] && s[k] in groups[|groups|-1]
  }

  /** The groups are these span ranges, and what packing promises of them holds. */
  ghost predicate PackedAs(tk: Tokenizer, source: string, s: seq<Span>, p: Params, groups: seq<seq<Span>>,
                           bounds: seq<(nat, nat)>) {
    && GroupsAre(s, groups, bounds) && Advancing(bounds) && NoneLost(s, groups, bounds)
    && Inside(source, s) && GroupsOk(tk, source, s, p, bounds) && StartsOk(tk, source, s, p, bounds)
    && forall g | 0 <= g < |bounds| - 1 :: bounds[g].1 <= |s| && ClosedOk(tk, source, s, p, bounds[g].0, bounds[g].1)
  }

  lemma ArePackedAs(tk: Tokenizer, source: string, s: seq<Span>, p: Params, groups: seq<seq<Span>>,
                    bounds: seq<(nat, nat)>)
    ensures PackedAs(tk, source, s, p, groups, bounds) <==>
            && GroupsAre(s, groups, bounds) && Advancing(bounds) && NoneLost(s, groups, bounds)
            && Inside(source, s) && GroupsOk(tk, source, s, p, bounds) && StartsOk(tk, source, s, p, bounds)
            && forall g | 0 <= g < |bounds| - 1 ::
                    bounds[g].1 <= |s| && ClosedOk(tk, source, s, p, bounds[g].0, bounds[g].1)
  {
  }

  /**
   * `_pack_spans`. Groups are contiguous, overlap only backwards and each holds new
   * spans; each but the last closes for a reason; each stays in its budgets.
   */
  method PackSpans(tk: Tokenizer, s: seq<Span>, source: string, p: Params)
    returns (groups: seq<seq<Span>>, ghost bounds: seq<(nat, nat)>)
    requires Inside(source, s)
    ensures PackedAs(tk, source, s, p, groups, bounds)
    ensures exists b :: PackedAs(tk, source, s, p, groups, b)
  {
    hide *;
    groups, bounds := [], [];
    var current: seq<Span>, tokens, rendered, seedOnly := [], 0, 0, false;
    var gaps: map<nat, nat> := map[];
    ghost var a: nat := 0;
    StartPacking(tk, source, s, p);
    for i := 0 to |s|
      invariant Packed(tk, source, s, p, groups, bounds, a, i)
      invariant Counted(tk, source, s, current, a, i, tokens, rendered) && GapsKept(tk, source, s, gaps, i)
      invariant seedOnly <==> current != [] && LastEnd(bounds) == i
      invariant current == [] ==> LastEnd(bounds) == i
      invariant LastEnd(bounds) == i ==> SeedIs(tk, s, p, bounds, a)
      invariant LastEnd(bounds) == i
          || (GroupOk(tk, source, s, p, LastEnd(bounds), a, i) && TokSum(tk, s, a, i) < p.target)
    {
      CountsAre(tk, source, s, i);
      var spanTokens := tk.Count(s[i].text);
      var gap := if i == 0 then 0 else tk.Count(Between(source, s[i-1].end, s[i].start));
      KeepGap(tk, source, s, gaps, i);
      gaps := gaps[s[i].start := gap];
      EarlierGaps(tk, source, s, gaps, i);
      PackedBounds(tk, source, s, p, groups, bounds, a, i);
      Counts(tk, source, s, current, a, i, tokens, rendered);
      if current != [] && !seedOnly && rendered + gap + spanTokens > p.max {
        Cause(tk, source, s, p, current, a, i, tokens, rendered);
        ghost var from := a;
        groups, current, tokens, rendered, a := Close(tk, source, s, p, groups, bounds, current, gaps, a, i);
        bounds := bounds + [(from, i)];
      }
      ghost var from := a;
      current, tokens, rendered, a :=
        DropFront(tk, source, s, current, gaps, gap + spanTokens, p.max, a, i, tokens, rendered);
      DropStep(tk, source, s, p, groups, bounds, from, a, i);
      Counts(tk, source, s, current, a, i, tokens, rendered);
      OpenOk(tk, source, s, p, groups, bounds, a, i);
      Push(tk, source, s, current, a, i, tokens, rendered);
      NextSpan(tk, source, s, p, groups, bounds, a, i);
      rendered := rendered + spanTokens + if current != [] then gap else 0;
      current := current + [s[i]];
      seedOnly := false;
      tokens := tokens + spanTokens;
      Counts(tk, source, s, current, a, i + 1, tokens, rendered);
      PackedBounds(tk, source, s, p, groups, bounds, a, i);
      if tokens >= p.target {
        Cause(tk, source, s, p, current, a, i + 1, tokens, rendered);
        from := a;
        groups, current, tokens, rendered, a := Close(tk, source, s, p, groups, bounds, current, gaps, a, i + 1);
        bounds := bounds + [(from, i + 1)];
        seedOnly := current != [];
        Counts(tk, source, s, current, a, i + 1, tokens, rendered);
      }
    }
    Counts(tk, source, s, current, a, |s|, tokens, rendered);
    Finished(tk, source, s, p, groups, bounds, a);
    assert current == s[a..];
    PackedBounds(tk, source, s, p, groups, bounds, a, |s|);
    SeedIsTail(tk, source, s, p, groups, bounds, a);
    if current != [] {
      var isOverlapOnly := groups != [] && |current| <= |groups[|groups|-1]|
        && forall k | 0 <= k < |current| :: current[k] in groups[|groups|-1];
      if isOverlapOnly {
        assert forall k | a <= k < |s| :: s[k] == current[k - a] && current[k - a] in groups[|groups|-1];
      } else {
        LastGroup(tk, source, s, p, groups, bounds, a, current);
        groups, bounds := groups + [current], bounds + [(a, |s|)];
      }
    }
    ArePackedAs(tk, source, s, p, groups, bounds);
  }

  lemma Finished(tk: Tokenizer, source: string, s: seq<Span>, p: Params, groups: seq<seq<Span>>,
                 bounds: seq<(nat, nat)>, a: nat)
    requires Inside(source, s) && Packed(tk, source, s, p, groups, bounds, a, |s|)
    ensures GroupsAre(s, groups, bounds) && Advancing(bounds) && GroupsOk(tk, source, s, p, bounds)
    ensures StartsOk(tk, source, s, p, bounds)
    ensures forall g | 0 <= g < |bounds| - 1 ::
        bounds[g].1 <= |s| && ClosedOk(tk, source, s, p, bounds[g].0, bounds[g].1)
    ensures groups != [] && (forall k | a <= k < |s| :: s[k] in groups[|groups|-1]) ==> NoneLost(s, groups, bounds)
    ensures a == |s| ==> NoneLost(s, groups, bounds)
  {
  }

  /** A bare overlap seed lies in the last group, so it is always dropped. */
  lemma SeedIsTail(tk: Tokenizer, source: string, s: seq<Span>, p: Params, groups: seq<seq<Span>>,
                   bounds: seq<(nat, nat)>, a: nat)
    requires Inside(source, s) && Packed(tk, source, s, p, groups, bounds, a, |s|)
    ensures LastEnd(bounds) == |s| && a < |s| ==>
      && groups != [] && |s| - a <= |groups[|groups|-1]|
      && forall k | 0 <= k < |s[a..]| :: s[a..][k] in groups[|groups|-1]
  {
    hide Packed, GroupsOk, AllClosedOk, Advancing, SeedOk, Inside, GroupsAre, StartsOk, OpensOk;
    PackedParts(tk, source, s, p, groups, bounds, a, |s|);
    if LastEnd(bounds) == |s| && a < |s| {
      LastGroupIs(s, groups, bounds);
      SuffixIn(s, bounds[|bounds|-1].0, a);
    }
  }

  lemma LastGroupIs(s: seq<Span>, groups: seq<seq<Span>>, bounds: seq<(nat, nat)>)
    requires GroupsAre(s, groups, bounds) && bounds != []
    ensures var b := bounds[|bounds|-1];
      groups != [] && b.0 < b.1 <= |s| && groups[|groups|-1] == s[b.0..b.1]
  {
  }

  lemma SuffixIn(s: seq<Span>, lo: nat, a: nat)
    requires lo <= a <= |s|
    ensures forall k | 0 <= k < |s[a..]| :: s[a..][k] in s[lo..|s|]
  {
    forall k | 0 <= k < |s[a..]| ensures s[a..][k] in s[lo..|s|] { assert s[lo..|s|][a + k - lo] == s[a..][k]; }
  }

  lemma LastGroup(tk: Tokenizer, source: string, s: seq<Span>, p: Params, groups: seq<seq<Span>>,
                  bounds: seq<(nat, nat)>, a: nat, last: seq<Span>)
    requires a < |s| && LastEnd(bounds) < |s| && last == s[a..] && Inside(source, s)
    requires GroupOk(tk, source, s, p, LastEnd(bounds), a, |s|)
    requires Packed(tk, source, s, p, groups, bounds, a, |s|)
    ensures PackedAs(tk, source, s, p, groups + [last], bounds + [(a, |s|)])
  {
    hide GroupOk, ClosedOk, GroupsAre, Advancing, GroupsOk, Packed, StartsOk, OpensOk;
    var n: nat := |s|;
    PackedParts(tk, source, s, p, groups, bounds, a, n);
    assert s[a..n] == s[a..];
    AppendGroup(s, groups, bounds, a, n);
    AppendBounds(bounds, a, n);
    AppendOk(tk, source, s, p, bounds, a, n);
    AppendStart(tk, source, s, p, bounds, a, n);
  }
}
