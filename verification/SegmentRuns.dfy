/** `_render_group`, `_fit_rendered` and `_pack_segment`: the runs of spans one segment is cut into. */
module SegmentRuns {
  import opened Wrappers
  import opened Text
  import opened Splitter
  import opened Packer

  // ----- rendering a group -----------------------------------------------------

  ghost predicate Renderable(source: string, group: seq<Span>) {
    Ordered(group) && forall i | 0 <= i < |group| :: group[i].start <= group[i].end <= |source|
  }

  lemma GroupBounds(source: string, group: seq<Span>)
    requires Renderable(source, group) && group != []
    ensures group[0].start <= group[|group|-1].end <= |source|
  {
    assert group[0].start <= group[|group|-1].start;
  }

  lemma SubGroup(source: string, group: seq<Span>, a: nat, b: nat)
    requires Renderable(source, group) && a <= b <= |group|
    ensures Renderable(source, group[a..b])
  {
    var sub := group[a..b];
    forall i, j | 0 <= i <= j < |sub|
      ensures sub[i].start <= sub[j].start && sub[i].end <= sub[j].end
    {
      assert sub[i] == group[a + i] && sub[j] == group[a + j];
    }
  }

  /** `_render_group`: the group's text and its trimmed offsets. */
  function RenderGroup(tk: Tokenizer, source: string, group: seq<Span>): (string, nat, nat)
    requires Renderable(source, group)
  {
    if group == [] then ("", 0, 0)
    else
      GroupBounds(source, group);
      var r := tk.Trim(source, group[0].start, group[|group|-1].end);
      (source[r.0..r.1], r.0, r.1)
  }

  function GroupTokens(tk: Tokenizer, source: string, group: seq<Span>): nat
    requires Renderable(source, group)
  {
    tk.Count(RenderGroup(tk, source, group).0)
  }

  ghost predicate RunFits(tk: Tokenizer, source: string, run: seq<Span>, max: nat) {
    run != [] && Renderable(source, run) && (|run| == 1 || GroupTokens(tk, source, run) <= max)
  }

  /** `cuts` cuts `group` into `runs`. */
  ghost predicate CutInto(group: seq<Span>, runs: seq<seq<Span>>, cuts: seq<nat>) {
    && |cuts| == |runs| + 1 && cuts[0] == 0
    && (forall r | 0 <= r < |runs| :: CutAt(group, runs, cuts, r))
  }

  ghost predicate CutAt(group: seq<Span>, runs: seq<seq<Span>>, cuts: seq<nat>, r: nat)
    requires r < |runs| && |cuts| == |runs| + 1
  {
    cuts[r] < cuts[r+1] <= |group| && runs[r] == group[cuts[r]..cuts[r+1]]
  }

  ghost predicate AllRunsFit(tk: Tokenizer, source: string, runs: seq<seq<Span>>, max: nat) {
    forall r | 0 <= r < |runs| :: RunFits(tk, source, runs[r], max)
  }

  /** Each cut is where one more span would overflow. */
  ghost predicate TightCuts(tk: Tokenizer, source: string, group: seq<Span>, cuts: seq<nat>, max: nat) {
    forall r | 0 <= r < |cuts| - 1 :: TightAt(tk, source, group, cuts, r, max)
  }

  ghost predicate TightAt(tk: Tokenizer, source: string, group: seq<Span>, cuts: seq<nat>, r: nat, max: nat)
    requires r + 1 < |cuts|
  {
    cuts[r+1] == |group| || TightCut(tk, source, group, cuts[r], cuts[r+1], max)
  }

  ghost predicate TightCut(tk: Tokenizer, source: string, group: seq<Span>, a: nat, b: nat, max: nat) {
    && a <= b < |group| && Renderable(source, group[a..b+1])
    && GroupTokens(tk, source, group[a..b+1]) > max
  }

  /** One cut: the prefix length the binary search over rendered prefixes settles on. */
  method FitPrefix(tk: Tokenizer, source: string, group: seq<Span>, max: nat) returns (fits: nat)
    requires Renderable(source, group) && 1 < |group| && GroupTokens(tk, source, group) > max
    ensures 1 <= fits < |group| && RunFits(tk, source, group[..fits], max)
    ensures TightCut(tk, source, group, 0, fits, max)
  {
    hide GroupTokens, Renderable;
    fits := 1;
    var overflows := |group|;
    assert group[..|group|] == group;
    SubGroup(source, group, 0, 1);
    while overflows - fits > 1
      invariant 1 <= fits < overflows <= |group|
      invariant RunFits(tk, source, group[..fits], max)
      invariant Renderable(source, group[..overflows]) && GroupTokens(tk, source, group[..overflows]) > max
    {
      var mid := (fits + overflows) / 2;
      SubGroup(source, group, 0, mid);
      if GroupTokens(tk, source, group[..mid]) <= max { fits := mid; } else { overflows := mid; }
    }
    assert group[0..fits + 1] == group[..overflows];
  }

  /** `_fit_rendered`: consecutive runs whose rendered text fits; a single span is never cut. */
  method FitRendered(tk: Tokenizer, source: string, group: seq<Span>, max: nat)
    returns (runs: seq<seq<Span>>, ghost cuts: seq<nat>)
    requires Renderable(source, group) && group != []
    ensures CutInto(group, runs, cuts) && cuts[|runs|] == |group|
    ensures AllRunsFit(tk, source, runs, max)
    ensures TightCuts(tk, source, group, cuts, max)
  {
    hide *;
    runs, cuts := [], [0];
    var rest := group;
    ghost var c: nat := 0;
    StartCutting(tk, source, group, max);
    while |rest| > 1 && GroupTokens(tk, source, rest) > max
      invariant c < |group| && rest == group[c..] && Renderable(source, rest)
      invariant |cuts| == |runs| + 1 && CutInto(group, runs, cuts) && cuts[|runs|] == c
      invariant AllRunsFit(tk, source, runs, max) && TightCuts(tk, source, group, cuts, max)
      decreases |rest|
    {
      var fits := FitPrefix(tk, source, rest, max);
      SubGroup(source, rest, fits, |rest|);
      Cut1(tk, source, group, runs, cuts, max, c, fits);
      runs := runs + [rest[..fits]];
      cuts := cuts + [c + fits];
      assert rest[fits..|rest|] == rest[fits..];
      rest := rest[fits..];
      c := c + fits;
    }
    LastFits(tk, source, rest, max);
    CutLast(tk, source, group, runs, cuts, max, c);
    runs := runs + [rest];
    cuts := cuts + [|group|];
  }

  lemma StartCutting(tk: Tokenizer, source: string, group: seq<Span>, max: nat)
    ensures CutInto(group, [], [0]) && AllRunsFit(tk, source, [], max) && TightCuts(tk, source, group, [0], max)
    ensures group[0..] == group
  {
  }

  lemma AppendFit(tk: Tokenizer, source: string, runs: seq<seq<Span>>, run: seq<Span>, max: nat)
    requires AllRunsFit(tk, source, runs, max) && RunFits(tk, source, run, max)
    ensures AllRunsFit(tk, source, runs + [run], max)
  {
    hide RunFits;
  }

  lemma AppendTight(tk: Tokenizer, source: string, group: seq<Span>, cuts: seq<nat>, max: nat, c: nat)
    requires TightCuts(tk, source, group, cuts, max) && cuts != []
    requires c == |group| || TightCut(tk, source, group, cuts[|cuts|-1], c, max)
    ensures TightCuts(tk, source, group, cuts + [c], max)
  {
    hide TightCut;
    var cuts' := cuts + [c];
    forall r | 0 <= r < |cuts'| - 1 ensures TightAt(tk, source, group, cuts', r, max) {
      assert cuts'[r] == cuts[r];
      if r < |cuts| - 1 {
        assert TightAt(tk, source, group, cuts, r, max);
        assert cuts'[r+1] == cuts[r+1];
      }
    }
  }

  lemma Cut1(tk: Tokenizer, source: string, group: seq<Span>, runs: seq<seq<Span>>, cuts: seq<nat>, max: nat, c: nat,
             fits: nat)
    requires CutInto(group, runs, cuts) && |cuts| == |runs| + 1 && cuts[|runs|] == c
    requires AllRunsFit(tk, source, runs, max) && TightCuts(tk, source, group, cuts, max)
    requires c <= c + fits < |group| && 1 <= fits && RunFits(tk, source, group[c..][..fits], max)
    requires TightCut(tk, source, group[c..], 0, fits, max)
    ensures var runs', cuts' := runs + [group[c..][..fits]], cuts + [c + fits];
      CutInto(group, runs', cuts') && AllRunsFit(tk, source, runs', max) && TightCuts(tk, source, group, cuts', max)
    ensures group[c..][fits..] == group[c + fits..]
  {
    hide *;
    assert group[c..][..fits] == group[c..c + fits];
    assert group[c..][fits..] == group[c + fits..];
    ExtendCut(group, runs, cuts, c, c + fits);
    AppendFit(tk, source, runs, group[c..][..fits], max);
    ShiftTight(tk, source, group, c, fits, max);
    AppendTight(tk, source, group, cuts, max, c + fits);
  }

  lemma CutLast(tk: Tokenizer, source: string, group: seq<Span>, runs: seq<seq<Span>>, cuts: seq<nat>, max: nat, c: nat)
    requires CutInto(group, runs, cuts) && |cuts| == |runs| + 1 && cuts[|runs|] == c < |group|
    requires AllRunsFit(tk, source, runs, max) && TightCuts(tk, source, group, cuts, max)
    requires RunFits(tk, source, group[c..], max)
    ensures var runs', cuts' := runs + [group[c..]], cuts + [|group|];
      CutInto(group, runs', cuts') && AllRunsFit(tk, source, runs', max) && TightCuts(tk, source, group, cuts', max)
  {
    hide *;
    assert group[c..] == group[c..|group|];
    ExtendCut(group, runs, cuts, c, |group|);
    AppendFit(tk, source, runs, group[c..], max);
    AppendTight(tk, source, group, cuts, max, |group|);
  }

  lemma LastFits(tk: Tokenizer, source: string, rest: seq<Span>, max: nat)
    requires Renderable(source, rest) && rest != [] && (|rest| == 1 || GroupTokens(tk, source, rest) <= max)
    ensures RunFits(tk, source, rest, max)
  {
  }

  lemma ShiftTight(tk: Tokenizer, source: string, group: seq<Span>, c: nat, fits: nat, max: nat)
    requires c <= |group| && TightCut(tk, source, group[c..], 0, fits, max)
    ensures TightCut(tk, source, group, c, c + fits, max)
  {
    assert group[c..][0..fits + 1] == group[c..c + fits + 1];
  }

  lemma ExtendCut(group: seq<Span>, runs: seq<seq<Span>>, cuts: seq<nat>, c: nat, c': nat)
    requires CutInto(group, runs, cuts) && cuts[|runs|] == c < c' <= |group|
    ensures CutInto(group, runs + [group[c..c']], cuts + [c'])
  {
    var runs', cuts' := runs + [group[c..c']], cuts + [c'];
    forall r | 0 <= r < |runs'|
      ensures CutAt(group, runs', cuts', r)
    {
      assert cuts'[r] == cuts[r];
      if r < |runs| {
        assert CutAt(group, runs, cuts, r);
        assert cuts'[r+1] == cuts[r+1] && runs'[r] == runs[r];
      }
    }
  }

  // ----- one segment -------------------------------------------------------------

  /** Span `k` lies inside the range of some run. */
  ghost predicate SpanHeld(spans: seq<Span>, ranges: seq<(nat, nat)>, k: nat)
    requires k < |spans|
  {
    exists r :: 0 <= r < |ranges| && HeldBy(spans, ranges, k, r)
  }

  ghost predicate HeldBy(spans: seq<Span>, ranges: seq<(nat, nat)>, k: nat, r: nat)
    requires k < |spans| && r < |ranges|
  {
    && ranges[r].0 < ranges[r].1 <= |spans|
    && spans[ranges[r].0].start <= spans[k].start && spans[k].end <= spans[ranges[r].1 - 1].end
  }

  /** Every run ends past every earlier one, so it holds a span no earlier run holds. */
  ghost predicate EndsAdvance(runs: seq<seq<Span>>) {
    && (forall r | 0 <= r < |runs| :: runs[r] != [])
    && (forall q, r | 0 <= q < r < |runs| :: runs[q][|runs[q]|-1].end < runs[r][|runs[r]|-1].end)
  }

  /** The runs kept so far, holding the spans `[0, e)`. */
  ghost predicate Kept(spans: seq<Span>, runs: seq<seq<Span>>, ranges: seq<(nat, nat)>, e: nat) {
    && e <= |spans| && GroupsAre(spans, runs, ranges) && EndsAdvance(runs)
    && LastEnd(ranges) <= e
    && AllHeld(spans, ranges, e)
  }

  ghost predicate AllHeld(spans: seq<Span>, ranges: seq<(nat, nat)>, e: nat)
    requires e <= |spans|
  {
    forall k | 0 <= k < e :: SpanHeld(spans, ranges, k)
  }

  /** `runs` and the next run: kept when it ends further than the last one. */
  function KeepRun(runs: seq<seq<Span>>, run: seq<Span>): seq<seq<Span>> {
    if runs == [] || RunEnd(run) > RunEnd(runs[|runs|-1]) then runs + [run] else runs
  }

  function RunEnd(run: seq<Span>): nat {
    if run == [] then 0 else run[|run|-1].end
  }

  function KeepAll(runs: seq<seq<Span>>, parts: seq<seq<Span>>): seq<seq<Span>> {
    if parts == [] then runs else KeepRun(KeepAll(runs, parts[..|parts|-1]), parts[|parts|-1])
  }

  /** The runs are those of the groups, each cut only where it must be, of which the ones that end further are kept. */
  ghost predicate FromGroups(tk: Tokenizer, source: string, groups: seq<seq<Span>>, runs: seq<seq<Span>>, max: nat) {
    if groups == [] then runs == []
    else
      var rest, last := groups[..|groups|-1], groups[|groups|-1];
      exists before :: FromGroups(tk, source, rest, before, max) && MoreFrom(tk, source, last, before, runs, max)
  }

  ghost predicate MoreFrom(tk: Tokenizer, source: string, group: seq<Span>, before: seq<seq<Span>>,
                           runs: seq<seq<Span>>, max: nat) {
    exists parts, cuts :: FromGroup(tk, source, group, before, parts, cuts, runs, max)
  }

  ghost predicate FromGroup(tk: Tokenizer, source: string, group: seq<Span>, before: seq<seq<Span>>,
                            parts: seq<seq<Span>>, cuts: seq<nat>,
                            runs: seq<seq<Span>>, max: nat) {
    && CutInto(group, parts, cuts) && cuts[|parts|] == |group| && TightCuts(tk, source, group, cuts, max)
    && runs == KeepAll(before, parts)
  }

  lemma OneMoreGroupIn(tk: Tokenizer, source: string, groups: seq<seq<Span>>, g: nat, before: seq<seq<Span>>,
                       runs: seq<seq<Span>>,
                       parts: seq<seq<Span>>, cuts: seq<nat>, max: nat)
    requires g < |groups| && FromGroups(tk, source, groups[..g], before, max)
    requires FromGroup(tk, source, groups[g], before, parts, cuts, runs, max)
    ensures FromGroups(tk, source, groups[..g+1], runs, max)
  {
    assert MoreFrom(tk, source, groups[g], before, runs, max);
    assert groups[..g+1][..g] == groups[..g];
  }

  lemma NoGroupsYet(tk: Tokenizer, source: string, groups: seq<seq<Span>>, max: nat)
    ensures FromGroups(tk, source, groups[..0], [], max) && groups[..|groups|] == groups
  {
  }

  lemma KeepAllMore(runs: seq<seq<Span>>, parts: seq<seq<Span>>, r: nat)
    ensures KeepAll(runs, []) == runs && parts[..0] == [] && parts[..|parts|] == parts
    ensures r < |parts| ==> KeepAll(runs, parts[..r+1]) == KeepRun(KeepAll(runs, parts[..r]), parts[r])
  {
    if r < |parts| {
      assert parts[..r+1][..r] == parts[..r];
    }
  }

  lemma LastRun(spans: seq<Span>, runs: seq<seq<Span>>, ranges: seq<(nat, nat)>)
    requires GroupsAre(spans, runs, ranges) && runs != []
    ensures |ranges| == |runs|
    ensures var (lo, hi) := ranges[|ranges|-1]; var last := runs[|runs|-1];
      lo < hi <= |spans| && last != [] && last[|last|-1] == spans[hi-1] && hi == LastEnd(ranges)
  {
    var (lo, hi) := ranges[|ranges|-1];
    assert spans[lo..hi][hi - lo - 1] == spans[hi-1];
  }

  lemma KeepHeld(spans: seq<Span>, ranges: seq<(nat, nat)>, e: nat, lo: nat, hi: nat)
    requires Ordered(spans) && e <= |spans| && AllHeld(spans, ranges, e) && lo < hi <= |spans| && lo <= e
    ensures AllHeld(spans, ranges + [(lo, hi)], if e < hi then hi else e)
  {
    var ranges' := ranges + [(lo, hi)];
    forall k | 0 <= k < if e < hi then hi else e
      ensures SpanHeld(spans, ranges', k)
    {
      if k < e {
        assert SpanHeld(spans, ranges, k);
        var r :| 0 <= r < |ranges| && HeldBy(spans, ranges, k, r);
        assert ranges'[r] == ranges[r] && HeldBy(spans, ranges', k, r);
      } else {
        assert ranges'[|ranges|] == (lo, hi) && HeldBy(spans, ranges', k, |ranges|);
      }
    }
  }

  /** A dropped run holds nothing the last kept run does not. */
  lemma DropHeld(spans: seq<Span>, ranges: seq<(nat, nat)>, e: nat, hi: nat)
    requires Ordered(spans) && e <= |spans| && AllHeld(spans, ranges, e) && 0 < hi <= |spans|
    requires ranges != [] && LastEnd(ranges) <= e
    requires var b := ranges[|ranges|-1]; b.0 < b.1 <= |spans| && spans[hi-1].end <= spans[b.1-1].end
    ensures AllHeld(spans, ranges, if e < hi then hi else e)
  {
    forall k | 0 <= k < if e < hi then hi else e
      ensures SpanHeld(spans, ranges, k)
    {
      if e <= k {
        assert HeldBy(spans, ranges, k, |ranges| - 1);
      }
    }
  }

  lemma KeepAdvances(runs: seq<seq<Span>>, run: seq<Span>)
    requires EndsAdvance(runs) && run != []
    requires runs != [] ==> run[|run|-1].end > runs[|runs|-1][|runs[|runs|-1]|-1].end
    ensures EndsAdvance(runs + [run])
  {
    var runs': seq<seq<Span>> := runs + [run];
    forall q, r | 0 <= q < r < |runs'|
      ensures runs'[q][|runs'[q]|-1].end < runs'[r][|runs'[r]|-1].end
    {
      assert runs'[q] == runs[q];
    }
  }

  lemma KeepStep(spans: seq<Span>, runs: seq<seq<Span>>, ranges: seq<(nat, nat)>, e: nat, lo: nat, hi: nat)
    requires Ordered(spans) && Kept(spans, runs, ranges, e) && lo < hi <= |spans| && lo <= e
    requires runs != [] ==> runs[|runs|-1] != []
    ensures spans[lo..hi] != []
    ensures var runs' := KeepRun(runs, spans[lo..hi]);
      Kept(spans, runs', if |runs'| == |runs| then ranges else ranges + [(lo, hi)], if e < hi then hi else e)
  {
    hide Ordered, GroupsAre, EndsAdvance, AllHeld, SpanHeld;
    var run := spans[lo..hi];
    assert run[|run|-1] == spans[hi-1];
    if runs != [] {
      LastRun(spans, runs, ranges);
    }
    if |KeepRun(runs, run)| == |runs| {
      DropHeld(spans, ranges, e, hi);
    } else {
      KeepHeld(spans, ranges, e, lo, hi);
      KeepAdvances(runs, run);
      AppendGroup(spans, runs, ranges, lo, hi);
    }
  }

  // ----- packing one segment -------------------------------------------------------

  ghost predicate AllRunTokens(tk: Tokenizer, source: string, runs: seq<seq<Span>>, max: nat) {
    forall r | 0 <= r < |runs| :: RunTokens(tk, source, runs[r], max)
  }

  ghost predicate RunTokens(tk: Tokenizer, source: string, run: seq<Span>, max: nat) {
    run != [] && Renderable(source, run) && GroupTokens(tk, source, run) <= max
  }

  lemma PiecesRender(tk: Tokenizer, source: string, spans: seq<Span>)
    requires Pieces(tk, source, spans, 0, |source|)
    ensures Renderable(source, spans) && Ordered(spans) && Inside(source, spans)
  {
  }

  /** A run that fits as a group, or alone as a bounded span. */
  lemma RunIsBounded(tk: Tokenizer, source: string, spans: seq<Span>, lo: nat, hi: nat, max: nat)
    requires AllFit(tk, source, spans, max) && lo < hi <= |spans| && RunFits(tk, source, spans[lo..hi], max)
    ensures RunTokens(tk, source, spans[lo..hi], max)
  {
    var run := spans[lo..hi];
    if |run| == 1 {
      assert run[0] == spans[lo] && Fits(tk, source, spans[lo], max);
      SingleTokens(tk, source, run);
    }
  }

  lemma SingleTokens(tk: Tokenizer, source: string, run: seq<Span>)
    requires |run| == 1 && Renderable(source, run)
    ensures GroupTokens(tk, source, run) == tk.Count(tk.Rendered(source, run[0].start, run[0].end))
  {
    hide Tokenizer.Trim, Tokenizer.Count;
  }

  lemma KeepTokens(tk: Tokenizer, source: string, runs: seq<seq<Span>>, run: seq<Span>, max: nat)
    requires AllRunTokens(tk, source, runs, max) && RunTokens(tk, source, run, max)
    requires runs != [] ==> runs[|runs|-1] != []
    ensures AllRunTokens(tk, source, KeepRun(runs, run), max)
  {
    hide RunTokens;
  }

  lemma RunsNonEmpty(spans: seq<Span>, runs: seq<seq<Span>>, ranges: seq<(nat, nat)>, e: nat)
    requires Kept(spans, runs, ranges, e)
    ensures runs != [] ==> runs[|runs|-1] != []
    ensures e <= |spans|
  {
  }

  /** Adds the runs of one packed group `spans[a..b]`, keeping those that end further. */
  method AddGroup(tk: Tokenizer, source: string, ghost spans: seq<Span>, group: seq<Span>, ghost a: nat, ghost b: nat,
                  max: nat,
                  runs0: seq<seq<Span>>, ghost ranges0: seq<(nat, nat)>, ghost e: nat)
    returns (runs: seq<seq<Span>>, ghost ranges: seq<(nat, nat)>, ghost parts: seq<seq<Span>>, ghost cuts: seq<nat>)
    requires Pieces(tk, source, spans, 0, |source|) && AllFit(tk, source, spans, max)
    requires a < b <= |spans| && a <= e && e < b && group == spans[a..b]
    requires Kept(spans, runs0, ranges0, e) && AllRunTokens(tk, source, runs0, max)
    ensures Kept(spans, runs, ranges, b) && AllRunTokens(tk, source, runs, max)
    ensures FromGroup(tk, source, group, runs0, parts, cuts, runs, max)
  {
    hide *;
    PiecesRender(tk, source, spans);
    SubGroup(source, spans, a, b);
    runs, ranges := runs0, ranges0;
    var fitted;
    fitted, cuts := FitRendered(tk, source, group, max);
    parts := fitted;
    ghost var held: nat := e;
    CutsStart(group, fitted, cuts);
    KeepAllMore(runs0, fitted, 0);
    for r := 0 to |fitted|
      invariant Kept(spans, runs, ranges, held) && AllRunTokens(tk, source, runs, max)
      invariant runs == KeepAll(runs0, fitted[..r])
      invariant cuts[r] <= |group| && held == (if e < a + cuts[r] then a + cuts[r] else e)
    {
      CutPart(group, parts, cuts, r);
      ghost var lo, hi := a + cuts[r], a + cuts[r+1];
      SliceOfSlice(spans, a, b, cuts[r], cuts[r+1]);
      RunAt(tk, source, parts, r, max);
      RunsNonEmpty(spans, runs, ranges, held);
      RunIsBounded(tk, source, spans, lo, hi, max);
      KeepTokens(tk, source, runs, parts[r], max);
      KeepStep(spans, runs, ranges, held, lo, hi);
      KeepAllMore(runs0, fitted, r);
      ghost var before := |runs|;
      runs := KeepRun(runs, fitted[r]);
      ranges := if |runs| == before then ranges else ranges + [(lo, hi)];
      held := if held < hi then hi else held;
    }
    IsFromGroup(tk, source, group, runs0, parts, cuts, runs, max);
  }

  lemma IsFromGroup(tk: Tokenizer, source: string, group: seq<Span>, before: seq<seq<Span>>, parts: seq<seq<Span>>,
                    cuts: seq<nat>,
                    runs: seq<seq<Span>>, max: nat)
    requires CutInto(group, parts, cuts) && cuts[|parts|] == |group| && TightCuts(tk, source, group, cuts, max)
    requires runs == KeepAll(before, parts[..|parts|])
    ensures FromGroup(tk, source, group, before, parts, cuts, runs, max)
  {
    assert parts[..|parts|] == parts;
  }

  lemma CutsStart(group: seq<Span>, runs: seq<seq<Span>>, cuts: seq<nat>)
    requires CutInto(group, runs, cuts)
    ensures |cuts| == |runs| + 1 && cuts[0] == 0
  {
  }

  lemma CutPart(group: seq<Span>, runs: seq<seq<Span>>, cuts: seq<nat>, r: nat)
    requires CutInto(group, runs, cuts) && r < |runs|
    ensures |cuts| == |runs| + 1 && cuts[r] < cuts[r+1] <= |group| && runs[r] == group[cuts[r]..cuts[r+1]]
    ensures runs[r] != []
  {
    assert CutAt(group, runs, cuts, r);
  }

  lemma RunAt(tk: Tokenizer, source: string, runs: seq<seq<Span>>, r: nat, max: nat)
    requires AllRunsFit(tk, source, runs, max) && r < |runs|
    ensures RunFits(tk, source, runs[r], max)
  {
  }

  lemma GroupAt(s: seq<Span>, groups: seq<seq<Span>>, bounds: seq<(nat, nat)>, g: nat)
    requires GroupsAre(s, groups, bounds) && Advancing(bounds) && g < |groups|
    ensures |groups| == |bounds| && bounds[g].0 <= PrevEnd(bounds, g) < bounds[g].1 <= |s|
    ensures groups[g] == s[bounds[g].0..bounds[g].1]
  {
  }

  lemma NoneKept(tk: Tokenizer, source: string, spans: seq<Span>, bounds: seq<(nat, nat)>, max: nat)
    ensures PrevEnd(bounds, 0) == 0
    ensures Kept(spans, [], [], 0) && AllRunTokens(tk, source, [], max)
  {
  }

  /** The spans past the last group equal spans in it, so they are held too. */
  lemma AllSpansHeld(spans: seq<Span>, runs: seq<seq<Span>>, ranges: seq<(nat, nat)>, groups: seq<seq<Span>>,
                     bounds: seq<(nat, nat)>)
    requires Kept(spans, runs, ranges, LastEnd(bounds)) && NoneLost(spans, groups, bounds)
    requires GroupsAre(spans, groups, bounds)
    ensures AllHeld(spans, ranges, |spans|)
  {
    hide EndsAdvance;
    forall k | 0 <= k < |spans|
      ensures SpanHeld(spans, ranges, k)
    {
      if LastEnd(bounds) <= k {
        LastGroupIs(spans, groups, bounds);
        var b := bounds[|bounds|-1];
        var i :| 0 <= i < b.1 - b.0 && spans[b.0..b.1][i] == spans[k];
        assert SpanHeld(spans, ranges, b.0 + i);
        var r :| 0 <= r < |ranges| && HeldBy(spans, ranges, b.0 + i, r);
        assert HeldBy(spans, ranges, k, r);
      }
    }
  }

  /** How the runs came about: the paragraphs, and the packed groups of the bounded spans. */
  datatype Packing = Packing(paragraphs: seq<Span>, groups: seq<seq<Span>>, bounds: seq<(nat, nat)>)

  /**
   * Paragraphs that fit are spans; the spans are packed into groups, each of which but the last
   * closes for a reason; and the runs are the groups, cut only where they must be.
   */
  ghost predicate IsPacking(tk: Tokenizer, source: string, p: Params, spans: seq<Span>, runs: seq<seq<Span>>,
                            k: Packing) {
    && AreParagraphs(source, k.paragraphs)
    && (forall m | 0 <= m < |k.paragraphs| && Fits(tk, source, k.paragraphs[m], p.max) :: k.paragraphs[m] in spans)
    && PackedAs(tk, source, spans, p, k.groups, k.bounds)
    && FromGroups(tk, source, k.groups, runs, p.max)
  }

  lemma ThePacking(tk: Tokenizer, source: string, p: Params, spans: seq<Span>, runs: seq<seq<Span>>, k: Packing)
    requires AreParagraphs(source, k.paragraphs)
    requires forall m | 0 <= m < |k.paragraphs| && Fits(tk, source, k.paragraphs[m], p.max) :: k.paragraphs[m] in spans
    requires PackedAs(tk, source, spans, p, k.groups, k.bounds)
    requires FromGroups(tk, source, k.groups, runs, p.max)
    ensures IsPacking(tk, source, p, spans, runs, k)
  {
  }

  /**
   * `_pack_segment`: contiguous runs of spans, each within the ceiling, each ending
   * past the one before, and together holding every span.
   */
  method PackSegment(tk: Tokenizer, source: string, p: Params)
    returns (runs: seq<seq<Span>>, ghost spans: seq<Span>, ghost ranges: seq<(nat, nat)>, ghost packing: Packing)
    requires tk.Valid() && tk.Margin(p.max) && forall t :: tk.Forward(t)
    ensures Pieces(tk, source, spans, 0, |source|) && GroupsAre(spans, runs, ranges)
    ensures AllRunTokens(tk, source, runs, p.max) && EndsAdvance(runs)
    ensures AllHeld(spans, ranges, |spans|)
    ensures IsPacking(tk, source, p, spans, runs, packing)
  {
    hide *;
    var paragraphs := ParagraphSpans(tk, source);
    var split := EnforceMaxTokens(tk, paragraphs, source, p.max);
    spans := split;
    PiecesRender(tk, source, spans);
    ghost var bounds;
    var groups;
    groups, bounds := PackSpans(tk, split, source, p);
    ArePackedAs(tk, source, split, p, groups, bounds);
    runs, ranges := [], [];
    NoneKept(tk, source, spans, bounds, p.max);
    NoGroupsYet(tk, source, groups, p.max);
    for g := 0 to |groups|
      invariant g <= |bounds| && Kept(spans, runs, ranges, PrevEnd(bounds, g)) && AllRunTokens(tk, source, runs, p.max)
      invariant FromGroups(tk, source, groups[..g], runs, p.max)
    {
      GroupAt(spans, groups, bounds, g);
      ghost var before, parts, cuts := runs, [], [];
      runs, ranges, parts, cuts :=
        AddGroup(tk, source, spans, groups[g], bounds[g].0, bounds[g].1, p.max, runs, ranges, PrevEnd(bounds, g));
      PrevEnds(bounds, g);
      OneMoreGroupIn(tk, source, groups, g, before, runs, parts, cuts, p.max);
    }
    packing := Packing(paragraphs, groups, bounds);
    NoGroupsYet(tk, source, groups, p.max);
    ThePacking(tk, source, p, spans, runs, packing);
    AllPacked(spans, groups, bounds);
    KeptParts(spans, runs, ranges, LastEnd(bounds));
    AllSpansHeld(spans, runs, ranges, groups, bounds);
  }

  lemma PrevEnds(bounds: seq<(nat, nat)>, g: nat)
    requires g < |bounds|
    ensures PrevEnd(bounds, g + 1) == bounds[g].1
  {
  }

  lemma AllPacked(spans: seq<Span>, groups: seq<seq<Span>>, bounds: seq<(nat, nat)>)
    requires GroupsAre(spans, groups, bounds)
    ensures |groups| == |bounds| && PrevEnd(bounds, |bounds|) == LastEnd(bounds)
  {
  }

  lemma KeptParts(spans: seq<Span>, runs: seq<seq<Span>>, ranges: seq<(nat, nat)>, e: nat)
    requires Kept(spans, runs, ranges, e)
    ensures GroupsAre(spans, runs, ranges) && EndsAdvance(runs)
  {
  }
}
