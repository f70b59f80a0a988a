/** `chunk_segments`: from segments to the chunks that are embedded. */
module Chunker {
  import opened Wrappers
  import opened Text
  import opened Normalize
  import opened Splitter
  import opened Packer
  import opened SegmentRuns

  datatype Segment = Segment(kind: string, text: string)

  datatype MessageChunk = MessageChunk(index: nat, text: string, charStart: nat, charEnd: nat, tokenEst: nat,
                                       kind: string)

  datatype Error = BadTarget | BadOverlap | UnknownKind

  const CHUNK_KINDS: set<string> := {"body", "quote", "signature", "forwarded", "calendar", "attachment"}

  // ----- one segment's chunks ------------------------------------------------------

  /** The chunk is the text of `source` at its offsets, trimmed, within the ceiling. */
  ghost predicate ChunkOf(tk: Tokenizer, source: string, c: MessageChunk, offset: nat, max: nat) {
    && offset <= c.charStart < c.charEnd <= offset + |source|
    && c.text == source[c.charStart - offset..c.charEnd - offset]
    && tk.Trim(source, c.charStart - offset, c.charEnd - offset) == (c.charStart - offset, c.charEnd - offset)
    && c.tokenEst == tk.Count(c.text) <= max
  }

  ghost predicate AllChunksOf(tk: Tokenizer, source: string, chunks: seq<MessageChunk>, offset: nat, max: nat,
                              kind: string) {
    forall i | 0 <= i < |chunks| :: ChunkOf(tk, source, chunks[i], offset, max) && chunks[i].kind == kind
  }

  ghost predicate IndexesRise(chunks: seq<MessageChunk>, lo: nat, hi: nat) {
    && (forall i | 0 <= i < |chunks| :: lo <= chunks[i].index < hi)
    && (forall i, j | 0 <= i < j < |chunks| :: chunks[i].index < chunks[j].index)
  }

  ghost predicate InChunk(chunks: seq<MessageChunk>, p: int) {
    exists i :: 0 <= i < |chunks| && chunks[i].charStart <= p < chunks[i].charEnd
  }

  /** Every non-whitespace character that runs `[0, r)` range over is in a chunk. */
  ghost predicate RunsChunked(tk: Tokenizer, source: string, runs: seq<seq<Span>>, chunks: seq<MessageChunk>,
                              offset: nat, r: nat)
    requires r <= |runs|
  {
    forall q, p | 0 <= q < r && runs[q] != [] && runs[q][0].start <= p < runs[q][|runs[q]|-1].end && p < |source|
           && !tk.space(source[p]) ::
      InChunk(chunks, offset + p)
  }

  ghost predicate Covered(tk: Tokenizer, source: string, chunks: seq<MessageChunk>, offset: nat) {
    forall p | 0 <= p < |source| && !tk.space(source[p]) :: InChunk(chunks, offset + p)
  }

  lemma InChunkMore(a: seq<MessageChunk>, b: seq<MessageChunk>, p: int)
    requires InChunk(a, p) || InChunk(b, p)
    ensures InChunk(a + b, p)
  {
    if InChunk(a, p) {
      var i :| 0 <= i < |a| && a[i].charStart <= p < a[i].charEnd;
      assert (a + b)[i] == a[i];
    } else {
      var i :| 0 <= i < |b| && b[i].charStart <= p < b[i].charEnd;
      assert (a + b)[|a| + i] == b[i];
    }
  }

  /** The chunk of one run, or nothing when the run renders empty. */
  function ChunkRun(tk: Tokenizer, source: string, run: seq<Span>, index: nat, offset: nat,
                    kind: string): seq<MessageChunk>
    requires Renderable(source, run)
  {
    var (text, start, end) := RenderGroup(tk, source, run);
    if text == "" then [] else [MessageChunk(index, text, offset + start, offset + end, tk.Count(text), kind)]
  }

  lemma ChunkRunOk(tk: Tokenizer, source: string, run: seq<Span>, index: nat, offset: nat, kind: string, max: nat)
    requires RunTokens(tk, source, run, max)
    ensures Renderable(source, run) && run != []
    ensures var cs := ChunkRun(tk, source, run, index, offset, kind);
      && |cs| <= 1
      && (cs != [] ==> ChunkOf(tk, source, cs[0], offset, max) && cs[0].kind == kind && cs[0].index == index)
      && forall p: nat | run[0].start <= p < run[|run|-1].end && p < |source| && !tk.space(source[p]) ::
              InChunk(cs, offset + p)
  {
    GroupBounds(source, run);
    if !tk.Blank(source, run[0].start, run[|run|-1].end) {
      ChunkTrimmed(tk, source, run, index, offset, kind, max);
      ChunkHolds(tk, source, run, index, offset, kind);
    }
  }

  lemma ChunkTrimmed(tk: Tokenizer, source: string, run: seq<Span>, index: nat, offset: nat, kind: string, max: nat)
    requires RunTokens(tk, source, run, max)
    requires run[0].start <= run[|run|-1].end <= |source| && !tk.Blank(source, run[0].start, run[|run|-1].end)
    ensures var cs := ChunkRun(tk, source, run, index, offset, kind);
      |cs| == 1 && ChunkOf(tk, source, cs[0], offset, max) && cs[0].kind == kind && cs[0].index == index
  {
    hide Tokenizer.Blank, Tokenizer.TrimStart, Tokenizer.SolidEnd, Tokenizer.Count;
    tk.TrimEdges(source, run[0].start, run[|run|-1].end);
    tk.TrimIdempotent(source, run[0].start, run[|run|-1].end);
  }

  lemma ChunkHolds(tk: Tokenizer, source: string, run: seq<Span>, index: nat, offset: nat, kind: string)
    requires Renderable(source, run) && run != []
    requires run[0].start <= run[|run|-1].end <= |source| && !tk.Blank(source, run[0].start, run[|run|-1].end)
    ensures var cs := ChunkRun(tk, source, run, index, offset, kind);
      forall p: nat | run[0].start <= p < run[|run|-1].end && !tk.space(source[p]) :: InChunk(cs, offset + p)
  {
    var lo, hi := run[0].start, run[|run|-1].end;
    tk.TrimEdges(source, lo, hi);
    var cs := ChunkRun(tk, source, run, index, offset, kind);
    forall p: nat | lo <= p < hi && !tk.space(source[p])
      ensures InChunk(cs, offset + p)
    {
      assert cs[0].charStart <= offset + p < cs[0].charEnd;
    }
  }

  lemma AddChunks(tk: Tokenizer, source: string, runs: seq<seq<Span>>, chunks: seq<MessageChunk>, r: nat, lo: nat,
                  index: nat,
                  offset: nat, kind: string, max: nat)
    requires r < |runs| && RunTokens(tk, source, runs[r], max) && lo <= index
    requires AllChunksOf(tk, source, chunks, offset, max, kind) && IndexesRise(chunks, lo, index)
    requires RunsChunked(tk, source, runs, chunks, offset, r)
    ensures Renderable(source, runs[r])
    ensures var chunks' := chunks + ChunkRun(tk, source, runs[r], index, offset, kind);
      AllChunksOf(tk, source, chunks', offset, max, kind) && IndexesRise(chunks', lo, index + 1)
      && RunsChunked(tk, source, runs, chunks', offset, r + 1)
  {
    hide RunTokens, ChunkRun, ChunkOf, Renderable;
    ChunkRunOk(tk, source, runs[r], index, offset, kind, max);
    var cs := ChunkRun(tk, source, runs[r], index, offset, kind);
    var chunks' := chunks + cs;
    forall q, p | 0 <= q < r + 1 && runs[q] != [] && runs[q][0].start <= p < runs[q][|runs[q]|-1].end
           && p < |source| && !tk.space(source[p])
      ensures InChunk(chunks', offset + p)
    {
      InChunkMore(chunks, cs, offset + p);
    }
  }

  lemma AllCovered(tk: Tokenizer, source: string, spans: seq<Span>, runs: seq<seq<Span>>, ranges: seq<(nat, nat)>,
                   chunks: seq<MessageChunk>, offset: nat)
    requires Pieces(tk, source, spans, 0, |source|) && GroupsAre(spans, runs, ranges) && AllHeld(spans, ranges, |spans|)
    requires RunsChunked(tk, source, runs, chunks, offset, |runs|)
    ensures Covered(tk, source, chunks, offset)
  {
    forall p | 0 <= p < |source| && !tk.space(source[p])
      ensures InChunk(chunks, offset + p)
    {
      assert Holds(spans, p);
      var k :| 0 <= k < |spans| && spans[k].start <= p < spans[k].end;
      assert SpanHeld(spans, ranges, k);
      var r :| 0 <= r < |ranges| && HeldBy(spans, ranges, k, r);
      RunEdges(spans, runs, ranges, r);
    }
  }

  lemma RunEdges(spans: seq<Span>, runs: seq<seq<Span>>, ranges: seq<(nat, nat)>, r: nat)
    requires GroupsAre(spans, runs, ranges) && r < |ranges|
    ensures r < |runs| && ranges[r].0 < ranges[r].1 <= |spans| && runs[r] != []
    ensures runs[r][0] == spans[ranges[r].0] && runs[r][|runs[r]|-1] == spans[ranges[r].1 - 1]
  {
  }

  /** The chunks of one normalized segment, with the index after its last run. */
  method ChunkSegment(tk: Tokenizer, kind: string, source: string, p: Params, offset: nat, index0: nat)
    returns (chunks: seq<MessageChunk>, index: nat, ghost runs: seq<seq<Span>>, ghost spans: seq<Span>,
             ghost packing: Packing)
    requires tk.Valid() && tk.Margin(p.max) && forall t :: tk.Forward(t)
    ensures index0 <= index && IndexesRise(chunks, index0, index)
    ensures AllChunksOf(tk, source, chunks, offset, p.max, kind)
    ensures Covered(tk, source, chunks, offset)
    ensures IsPacking(tk, source, p, spans, runs, packing)
    ensures index == index0 + |runs| && ChunksAre(tk, source, runs, chunks, |runs|, index0, offset, kind)
  {
    hide *;
    ghost var ranges;
    var packed;
    packed, spans, ranges, packing := PackSegment(tk, source, p);
    runs := packed;
    chunks, index := [], index0;
    NoChunksOf(tk, source, packed, index0, offset, kind);
    NoChunks(tk, source, packed, offset, p.max, kind, index0);
    for r := 0 to |packed|
      invariant index == index0 + r && AllChunksOf(tk, source, chunks, offset, p.max, kind)
      invariant IndexesRise(chunks, index0, index) && RunsChunked(tk, source, packed, chunks, offset, r)
      invariant ChunksAre(tk, source, packed, chunks, r, index0, offset, kind)
    {
      RunTokensAt(tk, source, packed, r, p.max);
      AddChunks(tk, source, packed, chunks, r, index0, index, offset, kind, p.max);
      OneMoreRun(tk, source, packed, chunks, r, index0, offset, kind);
      chunks := chunks + ChunkRun(tk, source, packed[r], index, offset, kind);
      index := index + 1;
    }
    AllCovered(tk, source, spans, packed, ranges, chunks, offset);
  }

  /** The chunks are those of the first `n` runs, in order, each run using up an index. */
  ghost predicate ChunksAre(tk: Tokenizer, source: string, runs: seq<seq<Span>>, chunks: seq<MessageChunk>, n: nat,
                            index0: nat, offset: nat, kind: string)
    requires n <= |runs|
    decreases n
  {
    if n == 0 then chunks == []
    else
      && Renderable(source, runs[n-1])
      && var last := ChunkRun(tk, source, runs[n-1], index0 + n - 1, offset, kind);
         |last| <= |chunks| && ChunksAre(tk, source, runs, chunks[..|chunks| - |last|], n - 1, index0, offset, kind)
         && chunks[|chunks| - |last|..] == last
  }

  lemma NoChunksOf(tk: Tokenizer, source: string, runs: seq<seq<Span>>, index0: nat, offset: nat, kind: string)
    ensures ChunksAre(tk, source, runs, [], 0, index0, offset, kind)
  {
  }

  lemma OneMoreRun(tk: Tokenizer, source: string, runs: seq<seq<Span>>, chunks: seq<MessageChunk>, r: nat, index0: nat,
                   offset: nat, kind: string)
    requires r < |runs| && Renderable(source, runs[r]) && ChunksAre(tk, source, runs, chunks, r, index0, offset, kind)
    ensures ChunksAre(tk, source, runs, chunks + ChunkRun(tk, source, runs[r], index0 + r, offset, kind), r + 1, index0,
                      offset, kind)
  {
    var last := ChunkRun(tk, source, runs[r], index0 + r, offset, kind);
    assert (chunks + last)[..|chunks|] == chunks;
    assert (chunks + last)[|chunks|..] == last;
  }

  lemma NoChunks(tk: Tokenizer, source: string, runs: seq<seq<Span>>, offset: nat, max: nat, kind: string, index: nat)
    ensures AllChunksOf(tk, source, [], offset, max, kind) && IndexesRise([], index, index)
    ensures RunsChunked(tk, source, runs, [], offset, 0)
  {
  }

  lemma RunTokensAt(tk: Tokenizer, source: string, runs: seq<seq<Span>>, r: nat, max: nat)
    requires AllRunTokens(tk, source, runs, max) && r < |runs|
    ensures RunTokens(tk, source, runs[r], max)
  {
  }

  // ----- all segments ----------------------------------------------------------------

  /** The normalized segments joined by a blank line; empty ones leave nothing. */
  function Joined(segments: seq<Segment>): string {
    if segments == [] then ""
    else
      var before, last := Joined(segments[..|segments|-1]), NormalizeBody(segments[|segments|-1].text);
      if last == "" then before else if before == "" then last else before + "\n\n" + last
  }

  /** Where the next non-empty segment starts in the joined text. */
  function NextOffset(segments: seq<Segment>): nat {
    if Joined(segments) == "" then 0 else |Joined(segments)| + 2
  }

  /** The chunk is cut from segment `k` alone, and its offsets point into the joined text. */
  ghost predicate FromSegment(tk: Tokenizer, segments: seq<Segment>, c: MessageChunk, k: nat, max: nat) {
    && k < |segments| && c.kind == segments[k].kind
    && ChunkOf(tk, NormalizeBody(segments[k].text), c, NextOffset(segments[..k]), max)
    && c.charEnd <= |Joined(segments)|
    && c.text == Joined(segments)[c.charStart..c.charEnd]
  }

  ghost predicate FromSegments(tk: Tokenizer, segments: seq<Segment>, chunks: seq<MessageChunk>, owners: seq<nat>,
                               max: nat) {
    && |owners| == |chunks|
    && (forall i | 0 <= i < |chunks| :: FromSegment(tk, segments, chunks[i], owners[i], max))
    && (forall i, j | 0 <= i <= j < |owners| :: owners[i] <= owners[j])
  }

  /** The joined text after one more segment, and where the segment sits in it. */
  lemma JoinOne(segments: seq<Segment>, k: nat)
    requires k < |segments|
    ensures var before, n, after := Joined(segments[..k]), NormalizeBody(segments[k].text), Joined(segments[..k+1]);
      && |before| <= |after| && after[..|before|] == before
      && (n == "" ==> after == before)
      && (n != "" ==> NextOffset(segments[..k]) + |n| == |after| && after[NextOffset(segments[..k])..] == n)
      && (n != "" ==> forall p | |before| <= p < NextOffset(segments[..k]) :: after[p] == '\n')
  {
    hide NormalizeBody;
    assert segments[..k+1][..k] == segments[..k];
  }

  lemma SubSlice(a: string, n: string, o: nat, lo: nat, hi: nat)
    requires o <= |a| && a[o..] == n && lo <= hi <= |n|
    ensures o + hi <= |a| && a[o + lo..o + hi] == n[lo..hi]
  {
    assert a[o..][lo..hi] == a[o + lo..o + hi];
  }

  lemma PrefixSlice(a: string, b: string, lo: nat, hi: nat)
    requires |a| <= |b| && b[..|a|] == a && lo <= hi <= |a|
    ensures b[lo..hi] == a[lo..hi]
  {
    assert b[..|a|][lo..hi] == b[lo..hi];
  }

  lemma KeepOld(tk: Tokenizer, segments: seq<Segment>, k: nat, c: MessageChunk, owner: nat, max: nat)
    requires k < |segments| && FromSegment(tk, segments[..k], c, owner, max)
    ensures FromSegment(tk, segments[..k+1], c, owner, max)
  {
    hide NormalizeBody, Joined, NextOffset;
    JoinOne(segments, k);
    PrefixSlice(Joined(segments[..k]), Joined(segments[..k+1]), c.charStart, c.charEnd);
    assert segments[..k+1][..owner] == segments[..k][..owner];
  }

  lemma FromNew(tk: Tokenizer, segments: seq<Segment>, k: nat, c: MessageChunk, max: nat)
    requires k < |segments| && c.kind == segments[k].kind && NormalizeBody(segments[k].text) != ""
    requires ChunkOf(tk, NormalizeBody(segments[k].text), c, NextOffset(segments[..k]), max)
    ensures FromSegment(tk, segments[..k+1], c, k, max)
  {
    hide NormalizeBody, Joined, NextOffset;
    JoinOne(segments, k);
    var o := NextOffset(segments[..k]);
    SubSlice(Joined(segments[..k+1]), NormalizeBody(segments[k].text), o, c.charStart - o, c.charEnd - o);
    assert segments[..k+1][..k] == segments[..k];
  }

  lemma AddSegment(tk: Tokenizer, segments: seq<Segment>, k: nat, chunks: seq<MessageChunk>, owners: seq<nat>,
                   more: seq<MessageChunk>, max: nat)
    requires k < |segments| && NormalizeBody(segments[k].text) != ""
    requires FromSegments(tk, segments[..k], chunks, owners, max)
    requires AllChunksOf(tk, NormalizeBody(segments[k].text), more, NextOffset(segments[..k]), max, segments[k].kind)
    ensures FromSegments(tk, segments[..k+1], chunks + more, owners + seq(|more|, _ => k), max)
  {
    hide NormalizeBody, Joined, NextOffset, ChunkOf;
    var owners' := owners + seq(|more|, _ => k);
    forall i | 0 <= i < |chunks + more|
      ensures FromSegment(tk, segments[..k+1], (chunks + more)[i], owners'[i], max)
    {
      if i < |chunks| {
        KeepOld(tk, segments, k, chunks[i], owners[i], max);
      } else {
        FromNew(tk, segments, k, more[i - |chunks|], max);
      }
    }
    forall i, j | 0 <= i <= j < |owners'|
      ensures owners'[i] <= owners'[j]
    {
      assert i < |owners| ==> FromSegment(tk, segments[..k], chunks[i], owners[i], max);
    }
  }

  lemma SkipSegment(tk: Tokenizer, segments: seq<Segment>, k: nat, chunks: seq<MessageChunk>, owners: seq<nat>,
                    max: nat)
    requires k < |segments| && NormalizeBody(segments[k].text) == ""
    requires FromSegments(tk, segments[..k], chunks, owners, max)
    ensures FromSegments(tk, segments[..k+1], chunks, owners, max) && Joined(segments[..k+1]) == Joined(segments[..k])
  {
    hide NormalizeBody, Joined, NextOffset, ChunkOf;
    JoinOne(segments, k);
    forall i | 0 <= i < |chunks|
      ensures FromSegment(tk, segments[..k+1], chunks[i], owners[i], max)
    {
      KeepOld(tk, segments, k, chunks[i], owners[i], max);
    }
  }

  lemma CoverMore(tk: Tokenizer, segments: seq<Segment>, k: nat, chunks: seq<MessageChunk>, more: seq<MessageChunk>)
    requires tk.Valid() && k < |segments| && NormalizeBody(segments[k].text) != ""
    requires Covered(tk, Joined(segments[..k]), chunks, 0)
    requires Covered(tk, NormalizeBody(segments[k].text), more, NextOffset(segments[..k]))
    ensures Covered(tk, Joined(segments[..k+1]), chunks + more, 0)
  {
    hide NormalizeBody, Joined, NextOffset, InChunk;
    JoinOne(segments, k);
    var before, n, after := Joined(segments[..k]), NormalizeBody(segments[k].text), Joined(segments[..k+1]);
    var o := NextOffset(segments[..k]);
    forall p | 0 <= p < |after| && !tk.space(after[p])
      ensures InChunk(chunks + more, 0 + p)
    {
      if p < |before| {
        assert after[..|before|][p] == before[p];
        assert InChunk(chunks, 0 + p);
      } else {
        assert o <= p;
        assert after[o..][p - o] == n[p - o];
        assert InChunk(more, o + (p - o));
      }
      InChunkMore(chunks, more, p);
    }
  }

  lemma RiseMore(chunks: seq<MessageChunk>, more: seq<MessageChunk>, a: nat, b: nat, c: nat)
    requires IndexesRise(chunks, a, b) && IndexesRise(more, b, c) && a <= b <= c
    ensures IndexesRise(chunks + more, a, c)
  {
  }

  ghost predicate KindsKnown(segments: seq<Segment>, k: nat)
    requires k <= |segments|
  {
    forall j | 0 <= j < k :: segments[j].kind in CHUNK_KINDS
  }

  lemma KindKnown(segments: seq<Segment>, k: nat)
    requires k < |segments| && KindsKnown(segments, k)
    ensures if segments[k].kind in CHUNK_KINDS then KindsKnown(segments, k + 1) else !KindsKnown(segments, |segments|)
  {
  }

  lemma NoSegments(tk: Tokenizer, segments: seq<Segment>, max: nat)
    ensures segments[..0] == [] && segments[..|segments|] == segments && KindsKnown(segments, 0)
    ensures NextOffset(segments[..0]) == 0 && FromSegments(tk, segments[..0], [], [], max)
    ensures Covered(tk, Joined(segments[..0]), [], 0) && IndexesRise([], 0, 0)
  {
    assert segments[..0] == [];
  }

  /**
   * The chunker's contract. Every chunk is its text's slice of the joined normalized
   * segments, comes from one segment, and takes at most `max` tokens; indexes strictly
   * increase; and no non-whitespace character of the joined text is lost.
   */
  method ChunkSegments(tk: Tokenizer, segments: seq<Segment>, p: Params)
    returns (r: Result<seq<MessageChunk>, Error>, ghost owners: seq<nat>)
    requires tk.Valid() && tk.Margin(p.max) && forall t :: tk.Forward(t)
    ensures if !(0 < p.target <= p.max) then r == Failure(BadTarget)
            else if !(0 <= p.overlap < p.target) then r == Failure(BadOverlap)
            else if !KindsKnown(segments, |segments|) then r == Failure(UnknownKind)
            else r.Success?
    ensures r.Success? ==>
      && FromSegments(tk, segments, r.value, owners, p.max)
      && Covered(tk, Joined(segments), r.value, 0)
      && (forall c | c in r.value :: |tk.encode(c.text)| == c.tokenEst <= p.max)
      && exists n: nat :: IndexesRise(r.value, 0, n)
  {
    hide *;
    owners := [];
    if !(0 < p.target <= p.max) {
      return Failure(BadTarget), [];
    }
    if p.overlap < 0 || p.overlap >= p.target {
      return Failure(BadOverlap), [];
    }
    var chunks, index, offset := [], 0, 0;
    NoSegments(tk, segments, p.max);
    for k := 0 to |segments|
      invariant KindsKnown(segments, k) && 0 <= index
      invariant offset == NextOffset(segments[..k])
      invariant FromSegments(tk, segments[..k], chunks, owners, p.max)
      invariant Covered(tk, Joined(segments[..k]), chunks, 0) && IndexesRise(chunks, 0, index)
    {
      KindKnown(segments, k);
      if segments[k].kind !in CHUNK_KINDS {
        return Failure(UnknownKind), [];
      }
      var normalized := NormalizeBody(segments[k].text);
      OffsetMoves(segments, k);
      if normalized == "" {
        SkipSegment(tk, segments, k, chunks, owners, p.max);
        continue;
      }
      var more, next, _, _, _ := ChunkSegment(tk, segments[k].kind, normalized, p, offset, index);
      AddSegment(tk, segments, k, chunks, owners, more, p.max);
      CoverMore(tk, segments, k, chunks, more);
      RiseMore(chunks, more, 0, index, next);
      chunks, owners := chunks + more, owners + seq(|more|, _ => k);
      index := next;
      offset := offset + |normalized| + 2;
    }
    ChunksEncode(tk, segments, chunks, owners, p.max);
    r := Success(chunks);
  }

  lemma ChunksEncode(tk: Tokenizer, segments: seq<Segment>, chunks: seq<MessageChunk>, owners: seq<nat>, max: nat)
    requires FromSegments(tk, segments, chunks, owners, max)
    ensures forall c | c in chunks :: |tk.encode(c.text)| == c.tokenEst <= max
  {
    hide NormalizeBody, NextOffset, Tokenizer.Trim;
    forall c | c in chunks ensures |tk.encode(c.text)| == c.tokenEst <= max {
      var i :| 0 <= i < |chunks| && chunks[i] == c;
      assert FromSegment(tk, segments, chunks[i], owners[i], max);
      CountEncodes(tk, c.text);
    }
  }

  lemma OffsetMoves(segments: seq<Segment>, k: nat)
    requires k < |segments|
    ensures var n := NormalizeBody(segments[k].text);
      NextOffset(segments[..k+1]) == if n == "" then NextOffset(segments[..k]) else NextOffset(segments[..k]) + |n| + 2
  {
    hide NormalizeBody;
    assert segments[..k+1][..k] == segments[..k];
  }
}
