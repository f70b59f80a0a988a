/**
 * Exact-text indexes: overlapping windows over a source, the gram tokens of each, and
 * the sweep that clips classified ranges to windows.
 */
module Literal {
  import opened Wrappers

  const FRAGMENT_CHARS: nat := 8192
  const OVERLAP: nat := 999
  const LONGEST_MATCH: nat := OVERLAP + 1
  const READ_BYTES: nat := 32768
  const MAX_WINDOWS: nat := 10_000
  const MAX_BYTES: nat := 128 * 1024 * 1024
  const MAX_METADATA: nat := 64 * 1024 * 1024
  const MAX_MEMBERSHIP: nat := 16 * 1024 * 1024

  // ----- fragments -----------------------------------------------------------------------------

  function Min(a: nat, b: nat): nat {
    if a < b then a else b
  }

  function FragmentCount(n: nat): nat {
    (n + FRAGMENT_CHARS - 1) / FRAGMENT_CHARS
  }

  lemma FragmentBounds(n: nat, k: nat)
    ensures k < FragmentCount(n) <==> k * FRAGMENT_CHARS < n
  {
  }

  function Fragment(text: string, k: nat): string
    requires k * FRAGMENT_CHARS <= |text|
  {
    text[k * FRAGMENT_CHARS..Min((k + 1) * FRAGMENT_CHARS, |text|)]
  }

  /** The pieces of 8192 characters a text is stored in; only the last may be shorter. */
  ghost predicate AreFragments(pieces: seq<string>, text: string) {
    |pieces| == FragmentCount(|text|)
    && forall k | 0 <= k < |pieces| :: k * FRAGMENT_CHARS < |text| && pieces[k] == Fragment(text, k)
  }

  /** How many bytes UTF-8 gives a character. */
  function Utf8Size(c: char): (n: nat)
    ensures 1 <= n <= 4
  {
    if c < '\U{80}' then 1 else if c < '\U{800}' then 2 else if c < '\U{10000}' then 3 else 4
  }

  /**
   * How many codes `n` bytes hold: seven bits alone, else five bits in the first byte (one less
   * for each byte more) and six in each other.
   */
  function Utf8Capacity(n: nat): nat {
    if n <= 0 then 0 else if n == 1 then 0x80 else if n == 2 then 32 * 64 else Utf8Capacity(n - 1) / 2 * 64
  }

  /** A character takes the fewest bytes that hold its code (section 3 of RFC 3629). */
  lemma Utf8SizeIsLeast(c: char)
    ensures Utf8Capacity(Utf8Size(c) - 1) <= c as nat < Utf8Capacity(Utf8Size(c))
  {
    assert Utf8Capacity(3) == 0x10000 && Utf8Capacity(4) == 0x200000;
  }

  function Utf8Length(s: string): nat {
    if s == [] then 0 else Utf8Length(s[..|s|-1]) + Utf8Size(s[|s|-1])
  }

  lemma {:induction false} Utf8Splits(s: string, k: nat)
    requires k <= |s|
    ensures Utf8Length(s) == Utf8Length(s[..k]) + Utf8Length(s[k..])
    ensures k < |s| ==> Utf8Length(s[..k]) < Utf8Length(s)
  {
    if k < |s| {
      var rest := s[..|s|-1];
      Utf8Splits(rest, k);
      assert s[k..][..|s|-k-1] == rest[k..] && rest[..k] == s[..k];
    } else {
      assert s[..k] == s;
    }
  }

  /** What an incremental decoder has given after `m` bytes: the whole characters among them. */
  ghost predicate DecodedSoFar(text: string, m: nat, k: nat) {
    k <= |text| && Utf8Length(text[..k]) <= m && (k < |text| ==> m < Utf8Length(text[..k+1]))
  }

  /** The decoder's next characters, once `m` bytes of the text were fed. */
  method Decode(text: string, from: nat, ghost fed: nat, m: nat) returns (chars: string)
    requires DecodedSoFar(text, fed, from) && fed <= m
    ensures from + |chars| <= |text| && chars == text[from..from + |chars|]
    ensures DecodedSoFar(text, m, from + |chars|)
  {
    var k := from;
    while k < |text| && Utf8Length(text[..k+1]) <= m
      invariant from <= k <= |text| && Utf8Length(text[..k]) <= m
    {
      k := k + 1;
    }
    chars := text[from..k];
  }

  /** `_attachment_fragments`: reading 32 KiB at a time gives just the text's fragments. */
  method AttachmentFragments(text: string) returns (pieces: seq<string>)
    ensures AreFragments(pieces, text)
  {
    hide DecodedSoFar, Emitted, Utf8Length;
    pieces := [];
    var length := Utf8Length(text);
    var left := length;
    var pending: string := [];
    NoneDecoded(text);
    assert Pending(text, pieces, pending) by { NothingPending(text); }
    while left > 0
      invariant left <= length && Pending(text, pieces, pending) && |pending| < FRAGMENT_CHARS
      invariant DecodedSoFar(text, length - left, |pieces| * FRAGMENT_CHARS + |pending|)
    {
      var raw := Min(left, READ_BYTES);
      left := left - raw;
      var chars := Decode(text, |pieces| * FRAGMENT_CHARS + |pending|, length - left - raw, length - left);
      PendingMore(text, pieces, pending, chars);
      pieces, pending := EmitWhole(text, pieces, pending + chars);
    }
    AllDecoded(text, |pieces| * FRAGMENT_CHARS + |pending|);
    if pending != [] {
      EmitOneMore(pieces, text, pending);
      pieces := pieces + [pending];
    }
    AllEmitted(text, pieces);
  }

  /** What was emitted are the first fragments, and what is pending follows them. */
  ghost predicate Pending(text: string, pieces: seq<string>, pending: string) {
    var start := |pieces| * FRAGMENT_CHARS;
    Emitted(pieces, text) && start + |pending| <= |text| && pending == text[start..start + |pending|]
  }

  lemma NothingPending(text: string)
    ensures Pending(text, [], [])
  {
  }

  lemma PendingMore(text: string, pieces: seq<string>, pending: string, chars: string)
    requires Pending(text, pieces, pending)
    requires var k := |pieces| * FRAGMENT_CHARS + |pending|; k + |chars| <= |text| && chars == text[k..k + |chars|]
    ensures Pending(text, pieces, pending + chars)
  {
    var start := |pieces| * FRAGMENT_CHARS;
    var k := start + |pending|;
    assert text[start..k] + text[k..k + |chars|] == text[start..k + |chars|];
  }

  /** The inner loop: whole fragments go out. */
  method EmitWhole(text: string, pieces0: seq<string>, pending0: string) returns (pieces: seq<string>, pending: string)
    requires Pending(text, pieces0, pending0)
    ensures Pending(text, pieces, pending) && |pending| < FRAGMENT_CHARS
    ensures |pieces| * FRAGMENT_CHARS + |pending| == |pieces0| * FRAGMENT_CHARS + |pending0|
  {
    hide Emitted;
    pieces, pending := pieces0, pending0;
    while |pending| >= FRAGMENT_CHARS
      invariant Pending(text, pieces, pending)
      invariant |pieces| * FRAGMENT_CHARS + |pending| == |pieces0| * FRAGMENT_CHARS + |pending0|
      decreases |pending|
    {
      var start := |pieces| * FRAGMENT_CHARS;
      SliceOfSlice(text, start, start + |pending|, 0, FRAGMENT_CHARS);
      SliceOfSlice(text, start, start + |pending|, FRAGMENT_CHARS, |pending|);
      EmitOneMore(pieces, text, pending[..FRAGMENT_CHARS]);
      pieces := pieces + [pending[..FRAGMENT_CHARS]];
      pending := pending[FRAGMENT_CHARS..];
    }
  }

  lemma AllEmitted(text: string, pieces: seq<string>)
    requires Emitted(pieces, text)
    requires |pieces| * FRAGMENT_CHARS >= |text|
    ensures AreFragments(pieces, text)
  {
    FragmentBounds(|text|, |pieces|);
    if |pieces| > 0 {
      FragmentBounds(|text|, |pieces| - 1);
    }
  }

  ghost predicate Emitted(pieces: seq<string>, text: string) {
    forall k | 0 <= k < |pieces| :: k * FRAGMENT_CHARS < |text| && pieces[k] == Fragment(text, k)
  }

  lemma EmitOneMore(pieces: seq<string>, text: string, piece: string)
    requires Emitted(pieces, text) && piece != [] && |pieces| * FRAGMENT_CHARS + |piece| <= |text|
    requires piece == text[|pieces| * FRAGMENT_CHARS..|pieces| * FRAGMENT_CHARS + |piece|]
    requires |piece| == FRAGMENT_CHARS || (|piece| < FRAGMENT_CHARS && |pieces| * FRAGMENT_CHARS + |piece| == |text|)
    ensures Emitted(pieces + [piece], text)
  {
    var k := |pieces|;
    assert (k + 1) * FRAGMENT_CHARS == k * FRAGMENT_CHARS + FRAGMENT_CHARS;
    assert piece == Fragment(text, k);
  }

  lemma NoneDecoded(text: string)
    ensures DecodedSoFar(text, 0, 0)
  {
    if text != [] {
      assert text[..1][..0] == [];
    }
  }

  lemma AllDecoded(text: string, k: nat)
    requires DecodedSoFar(text, Utf8Length(text), k)
    ensures k == |text|
  {
    if k < |text| {
      Utf8Splits(text, k + 1);
      assert false;
    }
  }

  // ----- windows -----------------------------------------------------------------------------------

  function WindowEnd(n: nat, k: nat): nat {
    Min((k + 1) * FRAGMENT_CHARS + OVERLAP, n)
  }

  function WindowText(text: string, k: nat): string
    requires k * FRAGMENT_CHARS <= |text|
  {
    text[k * FRAGMENT_CHARS..WindowEnd(|text|, k)]
  }

  /** A fragment and the start of the next one are the window's text. */
  lemma WindowOfFragments(pieces: seq<string>, text: string, k: nat)
    requires AreFragments(pieces, text) && k < |pieces|
    ensures k * FRAGMENT_CHARS < |text|
    ensures var following := if k + 1 < |pieces| then pieces[k+1][..Min(OVERLAP, |pieces[k+1]|)] else [];
            pieces[k] + following == WindowText(text, k)
  {
    var n := |text|;
    var start := k * FRAGMENT_CHARS;
    FragmentBounds(n, k + 1);
    if k + 1 < |pieces| {
      var next := start + FRAGMENT_CHARS;
      assert pieces[k] == text[start..next];
      var end := Min(next + FRAGMENT_CHARS, n);
      assert pieces[k+1] == text[next..end];
      SliceOfSlice(text, next, end, 0, Min(OVERLAP, end - next));
      assert pieces[k+1][..Min(OVERLAP, |pieces[k+1]|)] == text[next..Min(next + OVERLAP, n)];
      assert text[start..next] + text[next..Min(next + OVERLAP, n)] == text[start..Min(next + OVERLAP, n)];
    } else {
      assert pieces[k] == text[start..n];
    }
  }

  /** Every stretch of at most 1000 characters lies whole in the window of the fragment it starts in. */
  lemma StretchInWindow(text: string, p: nat, q: nat)
    requires p < q <= |text| && q - p <= LONGEST_MATCH
    ensures var k := p / FRAGMENT_CHARS;
            && k < FragmentCount(|text|) && k * FRAGMENT_CHARS <= p && q <= WindowEnd(|text|, k)
            && text[p..q] == WindowText(text, k)[p - k * FRAGMENT_CHARS..q - k * FRAGMENT_CHARS]
  {
    FragmentBounds(|text|, p / FRAGMENT_CHARS);
  }

  // ----- case folding and grams ---------------------------------------------------------------------

  /** Full case folding, one character at a time (section 3.13 of the Unicode Standard). */
  type Folding = char -> string

  function CaseFold(fold: Folding, s: string): string {
    if s == [] then [] else CaseFold(fold, s[..|s|-1]) + fold(s[|s|-1])
  }

  lemma {:induction false} FoldSplits(fold: Folding, a: string, b: string)
    ensures CaseFold(fold, a + b) == CaseFold(fold, a) + CaseFold(fold, b)
  {
    if b == [] {
      assert a + b == a;
    } else {
      var most := b[..|b|-1];
      assert (a + b)[..|a + b|-1] == a + most;
      FoldSplits(fold, a, most);
    }
  }

  /** The folding of a stretch is a stretch of the folding. */
  lemma FoldOfStretch(fold: Folding, s: string, i: nat, j: nat)
    requires i <= j <= |s|
    ensures var at := |CaseFold(fold, s[..i])|;
            var part := CaseFold(fold, s[i..j]);
            at + |part| <= |CaseFold(fold, s)| && CaseFold(fold, s)[at..at + |part|] == part
  {
    assert s == s[..i] + (s[i..j] + s[j..]);
    FoldSplits(fold, s[..i], s[i..j] + s[j..]);
    FoldSplits(fold, s[i..j], s[j..]);
  }

  function HexDigit(d: nat): char
    requires d < 16
  {
    if d < 10 then '0' + d as char else 'a' + (d - 10) as char
  }

  function Hex(n: nat, width: nat): (s: string)
    ensures |s| == width
  {
    if width == 0 then [] else Hex(n / 16, width - 1) + [HexDigit(n % 16)]
  }

  function Codes(s: string): (r: string)
    ensures |r| == 6 * |s|
  {
    if s == [] then [] else Codes(s[..|s|-1]) + Hex(s[|s|-1] as nat, 6)
  }

  /** `gram_token`: six hexadecimal digits a character. */
  function GramToken(s: string): string {
    "g" + Codes(s)
  }

  /** A hexadecimal digit, and what it stands for. */
  predicate IsHexDigit(c: char, d: nat) {
    d < 16 && c == "0123456789abcdef"[d]
  }

  /** The number that some digits of the form stand for, the last one least. */
  ghost predicate Reads(s: string, n: nat)
    decreases |s|
  {
    if s == [] then n == 0
    else IsHexDigit(s[|s|-1], n % 16) && Reads(s[..|s|-1], n / 16)
  }

  /** The digits read back. */
  lemma {:induction false} HexReads(n: nat, width: nat)
    requires n < Pow16(width)
    ensures Reads(Hex(n, width), n)
  {
    if width > 0 {
      HexReads(n / 16, width - 1);
      var s := Hex(n, width);
      assert s[..|s|-1] == Hex(n / 16, width - 1) && s[|s|-1] == HexDigit(n % 16);
      DigitReads(n % 16);
    }
  }

  lemma DigitReads(d: nat)
    requires d < 16
    ensures IsHexDigit(HexDigit(d), d)
  {
    assert "0123456789abcdef"[d] == if d < 10 then '0' + d as char else 'a' + (d - 10) as char;
  }

  lemma SixDigits()
    ensures Pow16(6) == 0x100_0000
  {
    assert Pow16(5) == 0x10_0000 by {
      assert Pow16(4) == 0x1_0000 by { assert Pow16(3) == 0x1000 by { assert Pow16(2) == 0x100; } }
    }
  }

  /**
   * The token is a `g` and, for each character, its code in six hexadecimal digits: one word of
   * ASCII letters and digits.
   */
  lemma {:induction false} GramTokenReads(s: string, i: nat)
    requires i < |s|
    ensures |GramToken(s)| == 1 + 6 * |s| && GramToken(s)[0] == 'g'
    ensures Reads(GramToken(s)[1 + 6 * i..7 + 6 * i], s[i] as nat)
  {
    var codes, rest := Codes(s), s[..|s|-1];
    if i == |s| - 1 {
      SixDigits();
      HexReads(s[i] as nat, 6);
      assert GramToken(s)[1 + 6 * i..7 + 6 * i] == Hex(s[i] as nat, 6);
    } else {
      GramTokenReads(rest, i);
      assert rest[i] == s[i];
      assert GramToken(s)[1 + 6 * i..7 + 6 * i] == GramToken(rest)[1 + 6 * i..7 + 6 * i];
    }
  }

  lemma {:induction false} HexIsExact(a: nat, b: nat, width: nat)
    requires Hex(a, width) == Hex(b, width)
    requires a < Pow16(width) && b < Pow16(width)
    ensures a == b
  {
    if width > 0 {
      var x, y := Hex(a, width), Hex(b, width);
      assert x[width-1] == y[width-1] && x[..width-1] == y[..width-1];
      HexIsExact(a / 16, b / 16, width - 1);
    }
  }

  function Pow16(n: nat): nat {
    if n == 0 then 1 else 16 * Pow16(n - 1)
  }

  /** Different grams have different tokens. */
  lemma {:induction false} GramTokenIsExact(a: string, b: string)
    requires GramToken(a) == GramToken(b)
    ensures a == b
  {
    var x, y := Codes(a), Codes(b);
    assert GramToken(a)[1..] == x && GramToken(b)[1..] == y;
    if a != [] {
      var p, q := a[..|a|-1], b[..|b|-1];
      assert x[..6 * |p|] == Codes(p) && y[..6 * |q|] == Codes(q);
      assert x[6 * |p|..] == Hex(a[|a|-1] as nat, 6) && y[6 * |q|..] == Hex(b[|b|-1] as nat, 6);
      SixDigits();
      HexIsExact(a[|a|-1] as nat, b[|b|-1] as nat, 6);
      assert GramToken(p)[1..] == GramToken(q)[1..];
      assert "g" + Codes(p) == "g" + Codes(q);
      GramTokenIsExact(p, q);
    }
  }

  // ----- ranges and kinds ----------------------------------------------------------------------------

  datatype Kind = Body | Quote | Signature | Forwarded

  /** A stretch of a source and what it is. */
  datatype Range = Range(start: nat, end: nat, kind: Kind)

  function Scope(k: Kind): char {
    match k
    case Body => 'a'
    case Quote => 'q'
    case Signature => 's'
    case Forwarded => 'f'
  }

  ghost predicate Ordered(ranges: seq<Range>) {
    && (forall i | 0 <= i < |ranges| :: ranges[i].start < ranges[i].end)
    && forall i, j | 0 <= i < j < |ranges| :: ranges[i].end <= ranges[j].start
  }

  function KindAt(ranges: seq<Range>, pos: nat): Option<Kind> {
    if ranges == [] then None
    else if ranges[|ranges|-1].start <= pos < ranges[|ranges|-1].end then Some(ranges[|ranges|-1].kind)
    else KindAt(ranges[..|ranges|-1], pos)
  }

  predicate Meets(r: Range, start: nat, end: nat) {
    r.start < end && start < r.end
  }

  function Clip(r: Range, start: nat, end: nat): Range
    requires start <= end && Meets(r, start, end)
  {
    Range(if r.start < start then 0 else r.start - start, Min(r.end, end) - start, r.kind)
  }

  /** The ranges that meet a window, clipped to it. */
  function Clipped(ranges: seq<Range>, start: nat, end: nat): seq<Range>
    requires start <= end
  {
    if ranges == [] then []
    else
      var r := ranges[|ranges|-1];
      Clipped(ranges[..|ranges|-1], start, end) + if Meets(r, start, end) then [Clip(r, start, end)] else []
  }

  /** Clipping keeps the kind of every character of the window. */
  lemma {:induction false} ClippedKinds(ranges: seq<Range>, start: nat, end: nat, pos: nat)
    requires start + pos < end
    ensures KindAt(Clipped(ranges, start, end), pos) == KindAt(ranges, start + pos)
  {
    if ranges != [] {
      var r, rest := ranges[|ranges|-1], ranges[..|ranges|-1];
      ClippedKinds(rest, start, end, pos);
      var c := Clipped(ranges, start, end);
      if Meets(r, start, end) {
        assert c[..|c|-1] == Clipped(rest, start, end);
      } else {
        assert c == Clipped(rest, start, end);
      }
    }
  }

  lemma {:induction false} ClippedWithin(ranges: seq<Range>, start: nat, end: nat)
    requires start < end && Ordered(ranges)
    ensures forall r | r in Clipped(ranges, start, end) :: r.start < r.end <= end - start
  {
    if ranges != [] {
      ClippedWithin(ranges[..|ranges|-1], start, end);
    }
  }

  lemma {:induction false} NothingMeets(ranges: seq<Range>, from: nat, start: nat, end: nat)
    requires start <= end && from <= |ranges| && forall i | from <= i < |ranges| :: !Meets(ranges[i], start, end)
    ensures Clipped(ranges, start, end) == Clipped(ranges[..from], start, end)
  {
    if from < |ranges| {
      var rest := ranges[..|ranges|-1];
      NothingMeets(rest, from, start, end);
      assert rest[..from] == ranges[..from];
    } else {
      assert ranges[..from] == ranges;
    }
  }

  /** The sweep of one window: `first` is the first range not wholly before it. */
  method Scoped(ranges: seq<Range>, first0: nat, start: nat, end: nat) returns (scoped: seq<Range>, first: nat)
    requires Ordered(ranges) && first0 <= |ranges| && start <= end
    requires forall i | 0 <= i < first0 :: ranges[i].end <= start
    ensures scoped == Clipped(ranges, start, end)
    ensures first <= |ranges| && forall i | 0 <= i < first :: ranges[i].end <= start
  {
    hide Clipped;
    first := first0;
    while first < |ranges| && ranges[first].end <= start
      invariant first <= |ranges| && forall i | 0 <= i < first :: ranges[i].end <= start
    {
      first := first + 1;
    }
    scoped := [];
    NothingMeets(ranges[..first], 0, start, end);
    assert Clipped([], start, end) == [] by { ClippedStep(ranges, 0, start, end); }
    assert ranges[..first][..0] == [];
    var i := first;
    while i < |ranges| && ranges[i].start < end
      invariant first <= i <= |ranges| && scoped == Clipped(ranges[..i], start, end)
    {
      ClippedStep(ranges, i, start, end);
      assert ranges[i].end > start;
      scoped := scoped + [Clip(ranges[i], start, end)];
      i := i + 1;
    }
    NothingMeets(ranges, i, start, end);
  }

  lemma ClippedStep(ranges: seq<Range>, i: nat, start: nat, end: nat)
    requires start <= end
    ensures Clipped([], start, end) == []
    ensures i < |ranges| ==>
              Clipped(ranges[..i+1], start, end) ==
              Clipped(ranges[..i], start, end) + if Meets(ranges[i], start, end) then [Clip(ranges[i], start, end)]
                                                 else []
  {
    if i < |ranges| {
      assert ranges[..i+1][..i] == ranges[..i];
    }
  }

  // ----- tokens ----------------------------------------------------------------------------------------

  function LongTokens(fold: Folding, text: string): set<string> {
    var folded := CaseFold(fold, text);
    set i | 0 <= i <= |folded| - 3 :: GramToken(Trigram(folded, i))
  }

  function Trigram(s: string, i: nat): string
    requires i + 3 <= |s|
  {
    s[i..i+3]
  }

  /** The token of three folded characters, where there are three, is among these. */
  ghost predicate HasGram(folded: string, n: nat, tokens: set<string>) {
    n + 3 <= |folded| ==> GramToken(folded[n..n+3]) in tokens
  }

  /** The token is of three characters of the folded text. */
  ghost predicate IsGram(folded: string, n: nat, token: string) {
    n + 3 <= |folded| && token == GramToken(folded[n..n+3])
  }

  lemma LongTokensAre(fold: Folding, text: string)
    ensures forall n: nat :: HasGram(CaseFold(fold, text), n, LongTokens(fold, text))
    ensures forall token | token in LongTokens(fold, text) :: exists n: nat :: IsGram(CaseFold(fold, text), n, token)
  {
    hide CaseFold, GramToken;
    var folded := CaseFold(fold, text);
    forall n: nat ensures HasGram(folded, n, LongTokens(fold, text)) {
      if n + 3 <= |folded| {
        assert GramToken(Trigram(folded, n)) in LongTokens(fold, text);
      }
    }
    forall token | token in LongTokens(fold, text) ensures exists n: nat :: IsGram(folded, n, token) {
      var i :| 0 <= i <= |folded| - 3 && token == GramToken(Trigram(folded, i));
      assert IsGram(folded, i, token);
    }
  }

  /** What one or two adjacent characters give the short index. */
  function SpanTokens(fold: Folding, text: string, ranges: seq<Range>, attachment: bool, i: nat,
                      count: nat): set<string>
    requires 1 <= count <= 2 && i + count <= |text|
  {
    var piece := CaseFold(fold, text[i..i+count]);
    var kind := KindAt(ranges, i);
    if 1 <= |piece| <= 2 then
      {[if attachment then 't' else 'b'] + GramToken(piece)}
      + if !attachment && kind.Some? && (count == 1 || kind == KindAt(ranges, i + 1))
          then {[Scope(kind.value)] + GramToken(piece)} else {}
    else {}
  }

  function ShortTokens(fold: Folding, text: string, ranges: seq<Range>, attachment: bool, n: nat): set<string>
    requires n <= |text|
  {
    if n == 0 then {}
    else
      ShortTokens(fold, text, ranges, attachment, n - 1)
      + SpanTokens(fold, text, ranges, attachment, n - 1, 1)
      + if n == |text| then {} else SpanTokens(fold, text, ranges, attachment, n - 1, 2)
  }

  lemma {:induction false} ShortTokensHold(fold: Folding, text: string, ranges: seq<Range>, attachment: bool, n: nat,
                                           i: nat, count: nat)
    requires 1 <= count <= 2 && i < n <= |text| && i + count <= |text|
    ensures SpanTokens(fold, text, ranges, attachment, i, count) <= ShortTokens(fold, text, ranges, attachment, n)
  {
    hide SpanTokens;
    if i < n - 1 {
      ShortTokensHold(fold, text, ranges, attachment, n - 1, i, count);
    }
  }

  /**
   * The token is that of one or two characters, whose folding has one or two, in the whole
   * body or attachment, or in the one kind they share.
   */
  ghost predicate IsShort(fold: Folding, text: string, ranges: seq<Range>, attachment: bool, i: nat, count: nat,
                          token: string) {
    && 1 <= count <= 2 && i + count <= |text|
    && var piece := CaseFold(fold, text[i..i+count]);
       && 1 <= |piece| <= 2
       && (token == [if attachment then 't' else 'b'] + GramToken(piece)
           || (!attachment && KindAt(ranges, i).Some? && KindAt(ranges, i + count - 1) == KindAt(ranges, i)
               && token == [Scope(KindAt(ranges, i).value)] + GramToken(piece)))
  }

  /** No token is there for anything else. */
  lemma {:induction false} OnlyShortTokens(fold: Folding, text: string, ranges: seq<Range>, attachment: bool, n: nat,
                                           token: string) returns (i: nat, count: nat)
    requires n <= |text| && token in ShortTokens(fold, text, ranges, attachment, n)
    ensures IsShort(fold, text, ranges, attachment, i, count, token)
  {
    hide CaseFold, GramToken, KindAt, Scope;
    i, count := n - 1, 1;
    if token in SpanTokens(fold, text, ranges, attachment, n - 1, 1) {
    } else if n < |text| && token in SpanTokens(fold, text, ranges, attachment, n - 1, 2) {
      count := 2;
    } else {
      i, count := OnlyShortTokens(fold, text, ranges, attachment, n - 1, token);
    }
  }

  /** The kind of a character is that of the range that holds it. */
  lemma {:induction false} KindIs(ranges: seq<Range>, pos: nat)
    requires Ordered(ranges)
    ensures forall kind :: KindAt(ranges, pos) == Some(kind) <==>
                           exists r :: r in ranges && r.start <= pos < r.end && r.kind == kind
  {
    if ranges != [] {
      var last, rest := ranges[|ranges|-1], ranges[..|ranges|-1];
      KindIs(rest, pos);
      assert ranges == rest + [last];
      if last.start <= pos < last.end {
        forall r | r in rest ensures !(r.start <= pos < r.end) {
          var i :| 0 <= i < |rest| && rest[i] == r;
          assert ranges[i].end <= ranges[|ranges|-1].start;
        }
      }
    }
  }

  /** A token names its index: the body, an attachment or one kind, and the characters. */
  lemma ShortTokenIsExact(a: char, x: string, b: char, y: string)
    requires [a] + GramToken(x) == [b] + GramToken(y)
    ensures a == b && x == y
    ensures forall k, l: Kind :: Scope(k) == Scope(l) ==> k == l
    ensures forall k: Kind :: Scope(k) !in {'b', 't'}
  {
    assert ([a] + GramToken(x))[1..] == GramToken(x) && ([b] + GramToken(y))[1..] == GramToken(y);
    assert ([a] + GramToken(x))[0] == ([b] + GramToken(y))[0];
    GramTokenIsExact(x, y);
  }

  /** `kinds`: each range paints its stretch, later ranges over earlier ones. */
  method PaintKinds(length: nat, ranges: seq<Range>) returns (kinds: seq<Option<Kind>>)
    requires forall r | r in ranges :: r.start < r.end <= length
    ensures |kinds| == length && forall j | 0 <= j < length :: kinds[j] == KindAt(ranges, j)
  {
    kinds := seq(length, _ => None);
    for i := 0 to |ranges|
      invariant |kinds| == length && forall j | 0 <= j < length :: kinds[j] == KindAt(ranges[..i], j)
    {
      var r := ranges[i];
      assert ranges[..i+1][..i] == ranges[..i];
      kinds := kinds[..r.start] + seq(r.end - r.start, _ => Some(r.kind)) + kinds[r.end..];
    }
    assert ranges[..|ranges|] == ranges;
  }

  /** A short piece of one or two characters has its tokens. */
  ghost predicate HasShort(fold: Folding, text: string, ranges: seq<Range>, attachment: bool, i: nat, count: nat,
                           tokens: set<string>) {
    1 <= count <= 2 && i + count <= |text| && 1 <= |CaseFold(fold, text[i..i+count])| <= 2 ==>
      var gram := GramToken(CaseFold(fold, text[i..i+count]));
      && [if attachment then 't' else 'b'] + gram in tokens
      && (!attachment && KindAt(ranges, i).Some? && KindAt(ranges, i + count - 1) == KindAt(ranges, i) ==>
            [Scope(KindAt(ranges, i).value)] + gram in tokens)
  }

  /** The tokens of a window: those of its folded trigrams, and of its short pieces, and no others. */
  ghost predicate AreTokens(fold: Folding, text: string, ranges: seq<Range>, attachment: bool, long: set<string>,
                            short: set<string>) {
    && (forall n: nat :: HasGram(CaseFold(fold, text), n, long))
    && (forall token | token in long :: exists n: nat :: IsGram(CaseFold(fold, text), n, token))
    && (forall i: nat, count: nat :: HasShort(fold, text, ranges, attachment, i, count, short))
    && (forall token | token in short ::
          exists i: nat, count: nat :: IsShort(fold, text, ranges, attachment, i, count, token))
  }

  lemma TheseAreTokens(fold: Folding, text: string, ranges: seq<Range>, attachment: bool)
    ensures AreTokens(fold, text, ranges, attachment, LongTokens(fold, text),
                      ShortTokens(fold, text, ranges, attachment, |text|))
  {
    hide LongTokens, ShortTokens, HasGram, IsGram, IsShort, HasShort;
    LongTokensAre(fold, text);
    var short := ShortTokens(fold, text, ranges, attachment, |text|);
    forall i: nat, count: nat ensures HasShort(fold, text, ranges, attachment, i, count, short) {
      ShortIsThere(fold, text, ranges, attachment, i, count);
    }
    forall token | token in short
      ensures exists i: nat, count: nat :: IsShort(fold, text, ranges, attachment, i, count, token)
    {
      var i, count := OnlyShortTokens(fold, text, ranges, attachment, |text|, token);
    }
  }

  lemma ShortIsThere(fold: Folding, text: string, ranges: seq<Range>, attachment: bool, i: nat, count: nat)
    ensures HasShort(fold, text, ranges, attachment, i, count, ShortTokens(fold, text, ranges, attachment, |text|))
  {
    hide CaseFold, GramToken, KindAt, Scope, ShortTokens;
    if 1 <= count <= 2 && i + count <= |text| {
      ShortTokensHold(fold, text, ranges, attachment, |text|, i, count);
    }
  }

  /** `_tokens`. */
  method Tokens(fold: Folding, text: string, ranges: seq<Range>, attachment: bool)
    returns (long: set<string>, short: set<string>)
    requires forall r | r in ranges :: r.start < r.end <= |text|
    ensures long == LongTokens(fold, text)
    ensures short == ShortTokens(fold, text, ranges, attachment, |text|)
    ensures AreTokens(fold, text, ranges, attachment, long, short)
  {
    hide KindAt, GramToken, LongTokens, AreTokens;
    TheseAreTokens(fold, text, ranges, attachment);
    long := LongTokens(fold, text);
    short := {};
    var kinds := PaintKinds(|text|, ranges);
    for i := 0 to |text|
      invariant short == ShortTokens(fold, text, ranges, attachment, i)
    {
      for count := 1 to 3
        invariant short == ShortTokens(fold, text, ranges, attachment, i)
                           + (if count > 1 then SpanTokens(fold, text, ranges, attachment, i, 1) else {})
                           + (if count > 2 && i + 1 < |text|
                              then SpanTokens(fold, text, ranges, attachment, i, 2) else {})
      {
        if count == 1 || i + 1 < |text| {
          var piece := CaseFold(fold, text[i..i+count]);
          if 1 <= |piece| <= 2 {
            short := short + {[if attachment then 't' else 'b'] + GramToken(piece)};
            if !attachment && kinds[i].Some? && (count == 1 || kinds[i] == kinds[i+1]) {
              short := short + {[Scope(kinds[i].value)] + GramToken(piece)};
            }
          }
        }
      }
    }
  }

  // ----- the budget -----------------------------------------------------------------------------------

  /** What a rebuild has been charged. */
  datatype Spent = Spent(windows: nat, sourceBytes: nat, metadata: nat, membership: nat)

  /** With a window of this text and these ranges: every gram it makes is charged, distinct or not. */
  function SpentWith(fold: Folding, around: Surroundings, s: Spent, text: string, ranges: seq<Range>): Spent {
    var folded := |CaseFold(fold, text)|;
    Spent(s.windows + 1, s.sourceBytes + Utf8Length(text),
          s.metadata + around.rangesSize(ranges) + 2 * around.claimantSize + 256,
          s.membership + (if folded < 2 then 0 else folded - 2) * 20 + |text| * 48)
  }

  /** The window is stored: there is disk space and time, and the charge stays within every limit. */
  predicate Fits(fold: Folding, around: Surroundings, s: Spent, text: string, ranges: seq<Range>) {
    var n := SpentWith(fold, around, s, text, ranges);
    && around.available(s.windows) && !around.expired(s.windows)
    && n.windows <= MAX_WINDOWS && n.sourceBytes <= MAX_BYTES
    && n.metadata <= MAX_METADATA && n.membership <= MAX_MEMBERSHIP
  }

  /** With the limits written out. */
  lemma FitsWithin(fold: Folding, around: Surroundings, s: Spent, text: string, ranges: seq<Range>)
    ensures var grams := |CaseFold(fold, text)| - 2;
      Fits(fold, around, s, text, ranges) <==>
        && around.available(s.windows) && !around.expired(s.windows)
        && s.windows < 10_000
        && s.sourceBytes + Utf8Length(text) <= 134_217_728
        && s.metadata + around.rangesSize(ranges) + 2 * around.claimantSize + 256 <= 67_108_864
        && s.membership + (if grams > 0 then 20 * grams else 0) + 48 * |text| <= 16_777_216
    ensures Fits(fold, around, s, text, ranges) ==>
              SpentWith(fold, around, s, text, ranges).windows == s.windows + 1
              && SpentWith(fold, around, s, text, ranges).sourceBytes == s.sourceBytes + Utf8Length(text)
  {
    hide CaseFold, Utf8Length;
  }

  /** Every window is charged: as many windows, and the bytes of all their texts. */
  lemma {:induction false} SpentIsSum(fold: Folding, around: Surroundings, s: Spent, windows: seq<Window>)
    ensures var n := SpentOn(fold, around, s, windows);
      && n.windows == s.windows + |windows| && n.sourceBytes == s.sourceBytes + Utf8Length(Texts(windows))
      && n.membership >= s.membership + 48 * |Texts(windows)| && n.metadata >= s.metadata + 256 * |windows|
  {
    hide CaseFold, Utf8Length;
    if windows == [] {
      NothingLong();
    } else {
      var rest, last := windows[..|windows|-1], windows[|windows|-1];
      SpentIsSum(fold, around, s, rest);
      Utf8Splits(Texts(windows), |Texts(rest)|);
      assert Texts(windows)[..|Texts(rest)|] == Texts(rest) && Texts(windows)[|Texts(rest)|..] == last.text;
    }
  }

  lemma NothingLong()
    ensures Utf8Length([]) == 0
  {
  }

  function Texts(windows: seq<Window>): string {
    if windows == [] then [] else Texts(windows[..|windows|-1]) + windows[|windows|-1].text
  }

  function SpentOn(fold: Folding, around: Surroundings, s: Spent, windows: seq<Window>): Spent {
    if windows == [] then s
    else
      var last := windows[|windows|-1];
      SpentWith(fold, around, SpentOn(fold, around, s, windows[..|windows|-1]), last.text, last.ranges)
  }

  function SpentOnAll(fold: Folding, around: Surroundings, s: Spent, sources: seq<seq<Window>>): Spent {
    if sources == [] then s
    else SpentOn(fold, around, SpentOnAll(fold, around, s, sources[..|sources|-1]), sources[|sources|-1])
  }

  function AllWindows(sources: seq<seq<Window>>): seq<Window> {
    if sources == [] then [] else AllWindows(sources[..|sources|-1]) + sources[|sources|-1]
  }

  /** The sources are charged as all their windows in a row. */
  lemma {:induction false} SpentIsAll(fold: Folding, around: Surroundings, s: Spent, sources: seq<seq<Window>>)
    ensures SpentOnAll(fold, around, s, sources) == SpentOn(fold, around, s, AllWindows(sources))
  {
    hide SpentOn;
    if sources == [] {
      NothingSpent(fold, around, s);
    } else {
      var rest, last := sources[..|sources|-1], sources[|sources|-1];
      SpentIsAll(fold, around, s, rest);
      SpentOnBoth(fold, around, s, AllWindows(rest), last);
    }
  }

  lemma NothingSpent(fold: Folding, around: Surroundings, s: Spent)
    ensures SpentOn(fold, around, s, []) == s
  {
  }

  lemma {:induction false} SpentOnBoth(fold: Folding, around: Surroundings, s: Spent, a: seq<Window>, b: seq<Window>)
    ensures SpentOn(fold, around, s, a + b) == SpentOn(fold, around, SpentOn(fold, around, s, a), b)
  {
    hide SpentWith;
    if b == [] {
      assert a + b == a;
    } else {
      SpentOnBoth(fold, around, s, a, b[..|b|-1]);
      assert (a + b)[..|a + b|-1] == a + b[..|b|-1];
    }
  }

  class Budget {
    var windows: nat
    var sourceBytes: nat
    var metadata: nat
    var membership: nat
    var capped: bool

    constructor ()
      ensures Within() && !capped && windows == 0
    {
      windows, sourceBytes, metadata, membership, capped := 0, 0, 0, 0, false;
    }

    function Now(): Spent
      reads this
    {
      Spent(windows, sourceBytes, metadata, membership)
    }

    predicate Within()
      reads this
    {
      windows <= MAX_WINDOWS && sourceBytes <= MAX_BYTES && metadata <= MAX_METADATA && membership <= MAX_MEMBERSHIP
    }

    /** `admit`: a window is charged whole, or nothing is and the budget is capped for good. */
    method Admit(size: nat, meta: nat, members: nat, expired: bool) returns (ok: bool)
      requires Within()
      modifies this
      ensures Within()
      ensures ok <==> !expired && old(windows) < MAX_WINDOWS && old(sourceBytes) + size <= MAX_BYTES
                      && old(metadata) + meta <= MAX_METADATA && old(membership) + members <= MAX_MEMBERSHIP
      ensures ok ==> windows == old(windows) + 1 && sourceBytes == old(sourceBytes) + size
                     && metadata == old(metadata) + meta && membership == old(membership) + members
                     && capped == old(capped)
      ensures !ok ==> capped && windows == old(windows) && sourceBytes == old(sourceBytes)
                      && metadata == old(metadata) && membership == old(membership)
    {
      if windows + 1 > MAX_WINDOWS || sourceBytes + size > MAX_BYTES || metadata + meta > MAX_METADATA
         || membership + members > MAX_MEMBERSHIP || expired {
        capped := true;
        return false;
      }
      windows, sourceBytes := windows + 1, sourceBytes + size;
      metadata, membership := metadata + meta, membership + members;
      ok := true;
    }
  }

  // ----- rebuilding ------------------------------------------------------------------------------------

  datatype Window = Window(ordinal: nat, text: string, ranges: seq<Range>, long: set<string>, short: set<string>)

  /** A body source: its stored fragments and its classified ranges. */
  datatype Part = Part(pieces: seq<string>, ranges: seq<Range>)

  /** What a rebuild cannot know in advance: the size of a window's encoded ranges, disk space, and the deadline. */
  datatype Surroundings = Surroundings(rangesSize: seq<Range> -> nat, claimantSize: nat, available: nat -> bool,
                                       expired: nat -> bool)

  ghost predicate IsWindow(fold: Folding, w: Window, text: string, ranges: seq<Range>, attachment: bool, k: nat)
    requires k * FRAGMENT_CHARS <= |text|
  {
    && w.ordinal == k && w.text == WindowText(text, k)
    && w.ranges == Clipped(ranges, k * FRAGMENT_CHARS, WindowEnd(|text|, k))
    && w.long == LongTokens(fold, w.text)
    && w.short == ShortTokens(fold, w.text, w.ranges, attachment, |w.text|)
  }

  ghost predicate AreWindows(fold: Folding, windows: seq<Window>, text: string, ranges: seq<Range>, attachment: bool) {
    |windows| <= FragmentCount(|text|)
    && forall k | 0 <= k < |windows| ::
            k * FRAGMENT_CHARS < |text| && IsWindow(fold, windows[k], text, ranges, attachment, k)
  }

  /** `_write_window`: the tokens of a window, once the budget admits it. */
  method WriteWindow(fold: Folding, budget: Budget, around: Surroundings, ordinal: nat, text: string,
                     ranges: seq<Range>, attachment: bool)
    returns (w: Option<Window>)
    requires budget.Within() && forall r | r in ranges :: r.start < r.end <= |text|
    modifies budget
    ensures budget.Within() && budget.capped == (old(budget.capped) || w.None?)
    ensures w.Some? <==> Fits(fold, around, old(budget.Now()), text, ranges)
    ensures w.Some? ==>
        w.value == Window(ordinal, text, ranges, LongTokens(fold, text),
                          ShortTokens(fold, text, ranges, attachment, |text|))
    ensures budget.Now() == if w.Some? then SpentWith(fold, around, old(budget.Now()), text, ranges)
                            else old(budget.Now())
  {
    var folded := |CaseFold(fold, text)|;
    var membership := (if folded < 2 then 0 else folded - 2) * 20 + |text| * 48;
    var metadata := around.rangesSize(ranges) + 2 * around.claimantSize + 256;
    if !around.available(budget.windows) {
      budget.capped := true;
      return None;
    }
    var ok := budget.Admit(Utf8Length(text), metadata, membership, around.expired(budget.windows));
    if !ok {
      return None;
    }
    var long, short := Tokens(fold, text, ranges, attachment);
    w := Some(Window(ordinal, text, ranges, long, short));
  }

  /** The windows stop at the first that does not fit. */
  ghost predicate StopsWhenFull(fold: Folding, around: Surroundings, s: Spent, text: string, ranges: seq<Range>,
                                n: nat) {
    n < FragmentCount(|text|) ==>
      && n * FRAGMENT_CHARS < |text|
      && var start, end := n * FRAGMENT_CHARS, WindowEnd(|text|, n);
         start <= end && !Fits(fold, around, s, WindowText(text, n), Clipped(ranges, start, end))
  }

  /** One source of `rebuild_body` or `rebuild_attachments`: a window a fragment, until the budget is capped. */
  method RebuildSource(fold: Folding, budget: Budget, around: Surroundings, part: Part, attachment: bool,
                       ghost text: string)
    returns (windows: seq<Window>)
    requires budget.Within() && AreFragments(part.pieces, text) && Ordered(part.ranges)
    modifies budget
    ensures budget.Within() && (old(budget.capped) ==> budget.capped)
    ensures AreWindows(fold, windows, text, part.ranges, attachment) && |windows| <= FragmentCount(|text|)
    ensures budget.capped <==> old(budget.capped) || |windows| < FragmentCount(|text|)
    ensures budget.Now() == SpentOn(fold, around, old(budget.Now()), windows)
    ensures StopsWhenFull(fold, around, budget.Now(), text, part.ranges, |windows|)
  {
    hide LongTokens, ShortTokens, Clipped, WindowText, Fragment, IsWindow, Fits, SpentWith;
    windows := [];
    var first: nat := 0;
    var k := 0;
    while k < |part.pieces|
      invariant k <= |part.pieces| && |windows| == k && budget.Within() && budget.capped == old(budget.capped)
      invariant budget.Now() == SpentOn(fold, around, old(budget.Now()), windows)
      invariant first <= |part.ranges| && forall i | 0 <= i < first :: part.ranges[i].end <= k * FRAGMENT_CHARS
      invariant AreWindows(fold, windows, text, part.ranges, attachment)
    {
      var window := part.pieces[k] + if k + 1 < |part.pieces| then part.pieces[k+1][..Min(OVERLAP, |part.pieces[k+1]|)]
                                     else [];
      WindowOfFragments(part.pieces, text, k);
      WindowShape(text, k);
      var start := k * FRAGMENT_CHARS;
      var end := start + |window|;
      var scoped;
      scoped, first := Scoped(part.ranges, first, start, end);
      ClippedWithin(part.ranges, start, end);
      var w := WriteWindow(fold, budget, around, k, window, scoped, attachment);
      if w.None? {
        return;
      }
      IsThatWindow(fold, w.value, text, part.ranges, attachment, k);
      assert (windows + [w.value])[..|windows|] == windows;
      windows := windows + [w.value];
      k := k + 1;
    }
  }

  lemma WindowShape(text: string, k: nat)
    requires k * FRAGMENT_CHARS < |text|
    ensures WindowText(text, k) != [] && k * FRAGMENT_CHARS + |WindowText(text, k)| == WindowEnd(|text|, k)
  {
  }

  lemma IsThatWindow(fold: Folding, w: Window, text: string, ranges: seq<Range>, attachment: bool, k: nat)
    requires k * FRAGMENT_CHARS < |text|
    requires var scoped := Clipped(ranges, k * FRAGMENT_CHARS, WindowEnd(|text|, k));
             var source := WindowText(text, k);
             w == Window(k, source, scoped, LongTokens(fold, source),
                         ShortTokens(fold, source, scoped, attachment, |source|))
    ensures IsWindow(fold, w, text, ranges, attachment, k)
  {
  }

  /** `rebuild_body`: its sources in order, until the budget is capped. */
  method RebuildBody(fold: Folding, budget: Budget, around: Surroundings, parts: seq<Part>, ghost texts: seq<string>)
    returns (windows: seq<seq<Window>>)
    requires budget.Within() && !budget.capped && |texts| == |parts|
    requires forall i | 0 <= i < |parts| :: AreFragments(parts[i].pieces, texts[i]) && Ordered(parts[i].ranges)
    modifies budget
    ensures budget.Within() && |windows| <= |parts|
    ensures forall i | 0 <= i < |windows| :: AreWindows(fold, windows[i], texts[i], parts[i].ranges, false)
    ensures forall i | 0 <= i < |windows| - 1 :: |windows[i]| == FragmentCount(|texts[i]|)
    ensures budget.Now() == SpentOnAll(fold, around, old(budget.Now()), windows)
    ensures if budget.capped then
              && windows != []
              && var n := |windows| - 1;
                 |windows[n]| < FragmentCount(|texts[n]|)
                 && StopsWhenFull(fold, around, budget.Now(), texts[n], parts[n].ranges, |windows[n]|)
            else |windows| == |parts| && forall i | 0 <= i < |parts| :: |windows[i]| == FragmentCount(|texts[i]|)
  {
    hide AreWindows, AreFragments, Ordered, SpentOn, StopsWhenFull;
    windows := [];
    for i := 0 to |parts|
      invariant budget.Within() && |windows| == i && !budget.capped
      invariant forall j | 0 <= j < i :: AreWindows(fold, windows[j], texts[j], parts[j].ranges, false)
      invariant forall j | 0 <= j < i :: |windows[j]| == FragmentCount(|texts[j]|)
      invariant budget.Now() == SpentOnAll(fold, around, old(budget.Now()), windows)
    {
      var part := RebuildSource(fold, budget, around, parts[i], false, texts[i]);
      assert (windows + [part])[..i] == windows;
      windows := windows + [part];
      if budget.capped {
        return;
      }
    }
  }

  // ----- no match is missed ----------------------------------------------------------------------------

  /**
   * When a rebuild was not capped, every stretch of at most 1000 characters lies whole in one
   * window, and every trigram of its case folding is a token of that window.
   */
  lemma NoMissedMatch(fold: Folding, windows: seq<Window>, text: string, ranges: seq<Range>, attachment: bool, p: nat,
                      q: nat)
    requires AreWindows(fold, windows, text, ranges, attachment) && |windows| == FragmentCount(|text|)
    requires p < q <= |text| && q - p <= LONGEST_MATCH
    ensures var k := p / FRAGMENT_CHARS;
            && k < |windows|
            && var i, j := p - k * FRAGMENT_CHARS, q - k * FRAGMENT_CHARS;
            && i < j <= |windows[k].text| && windows[k].text[i..j] == text[p..q]
            && forall n: nat :: HasGram(CaseFold(fold, text[p..q]), n, windows[k].long)
  {
    hide LongTokens, CaseFold, GramToken;
    var k := p / FRAGMENT_CHARS;
    StretchInWindow(text, p, q);
    var w := windows[k];
    assert IsWindow(fold, w, text, ranges, attachment, k);
    LongTokensOfStretch(fold, w.text, p - k * FRAGMENT_CHARS, q - k * FRAGMENT_CHARS);
    LongTokensAre(fold, text[p..q]);
    forall n: nat ensures HasGram(CaseFold(fold, text[p..q]), n, w.long) {
      assert HasGram(CaseFold(fold, text[p..q]), n, LongTokens(fold, text[p..q]));
    }
  }

  /** And no window has a token of anything but its own text. */
  lemma OnlyOwnGrams(fold: Folding, windows: seq<Window>, text: string, ranges: seq<Range>, attachment: bool, k: nat,
                     token: string)
    requires AreWindows(fold, windows, text, ranges, attachment) && k < |windows|
    ensures token in windows[k].long ==> exists n: nat :: IsGram(CaseFold(fold, windows[k].text), n, token)
    ensures token in windows[k].short ==>
              exists i: nat, count: nat ::
                  IsShort(fold, windows[k].text, windows[k].ranges, attachment, i, count, token)
  {
    hide LongTokens, ShortTokens, CaseFold, GramToken, IsShort;
    var w := windows[k];
    assert IsWindow(fold, w, text, ranges, attachment, k);
    LongTokensAre(fold, w.text);
    if token in w.short {
      var i, count := OnlyShortTokens(fold, w.text, w.ranges, attachment, |w.text|, token);
    }
  }

  /** The folding of a text is its characters' foldings, one after another. */
  lemma FoldIsByCharacter(fold: Folding, a: string, c: char, b: string)
    ensures CaseFold(fold, a + [c] + b) == CaseFold(fold, a) + fold(c) + CaseFold(fold, b)
  {
    FoldSplits(fold, a + [c], b);
    assert (a + [c])[..|a|] == a;
  }

  lemma LongTokensOfStretch(fold: Folding, text: string, i: nat, j: nat)
    requires i <= j <= |text|
    ensures LongTokens(fold, text[i..j]) <= LongTokens(fold, text)
  {
    FoldOfStretch(fold, text, i, j);
    var at, part, whole := |CaseFold(fold, text[..i])|, CaseFold(fold, text[i..j]), CaseFold(fold, text);
    forall n | 0 <= n <= |part| - 3 ensures GramToken(Trigram(part, n)) in LongTokens(fold, text) {
      SliceOfSlice(whole, at, at + |part|, n, n + 3);
      assert Trigram(part, n) == Trigram(whole, at + n);
    }
  }

  /**
   * One or two characters whose folding has one or two characters are tokens of their window,
   * and, within one classified kind, tokens of that kind too.
   */
  lemma NoMissedShortMatch(fold: Folding, windows: seq<Window>, text: string, ranges: seq<Range>, attachment: bool,
                           p: nat, count: nat)
    requires AreWindows(fold, windows, text, ranges, attachment) && |windows| == FragmentCount(|text|)
    requires 1 <= count <= 2 && p + count <= |text| && 1 <= |CaseFold(fold, text[p..p+count])| <= 2
    ensures var k := p / FRAGMENT_CHARS;
            && k < |windows|
            && [if attachment then 't' else 'b'] + GramToken(CaseFold(fold, text[p..p+count])) in windows[k].short
            && (!attachment && KindAt(ranges, p).Some? && KindAt(ranges, p + count - 1) == KindAt(ranges, p) ==>
                  [Scope(KindAt(ranges, p).value)] + GramToken(CaseFold(fold, text[p..p+count])) in windows[k].short)
  {
    hide ShortTokens, LongTokens, KindAt, GramToken, CaseFold;
    var k := p / FRAGMENT_CHARS;
    StretchInWindow(text, p, p + count);
    var w := windows[k];
    assert IsWindow(fold, w, text, ranges, attachment, k);
    var i := p - k * FRAGMENT_CHARS;
    ClippedKinds(ranges, k * FRAGMENT_CHARS, WindowEnd(|text|, k), i);
    if count == 2 {
      ClippedKinds(ranges, k * FRAGMENT_CHARS, WindowEnd(|text|, k), i + 1);
    }
    ShortTokensHold(fold, w.text, w.ranges, attachment, |w.text|, i, count);
  }
}
