/**
 * The P11 comparison: a mailbox file, without its one X-TUID field and with CRLF
 * restored, against the bytes a server served.
 */
module P11 {
  newtype byte = x: int | 0 <= x < 256
  type Bytes = seq<byte>

  const CR: byte := 13
  const LF: byte := 10

  /** "x-tuid:" */
  const TUID_NAME: Bytes := [0x78, 0x2d, 0x74, 0x75, 0x69, 0x64, 0x3a]

  // ----- line endings ----------------------------------------------------------------------------

  /** `replace(b"\r\n", b"\n")`. */
  function LfOnly(s: Bytes): Bytes {
    if s == [] then []
    else if |s| >= 2 && s[0] == CR && s[1] == LF then [LF] + LfOnly(s[2..])
    else [s[0]] + LfOnly(s[1..])
  }

  /** `replace(b"\n", b"\r\n")`. */
  function CrLf(s: Bytes): Bytes {
    if s == [] then []
    else (if s[0] == LF then [CR, LF] else [s[0]]) + CrLf(s[1..])
  }

  predicate BareLf(s: Bytes, i: nat) {
    i < |s| && s[i] == LF && (i == 0 || s[i-1] != CR)
  }

  predicate BareCr(s: Bytes, i: nat) {
    i < |s| && s[i] == CR && (i + 1 == |s| || s[i+1] != LF)
  }

  /** `_bare`. */
  function Bare(s: Bytes): nat {
    |set i | 0 <= i < |s| && BareLf(s, i)| + |set i | 0 <= i < |s| && BareCr(s, i)|
  }

  lemma NoneBare(s: Bytes)
    ensures Bare(s) == 0 <==> forall i | 0 <= i < |s| :: !BareLf(s, i) && !BareCr(s, i)
  {
    var lfs, crs := set i | 0 <= i < |s| && BareLf(s, i), set i | 0 <= i < |s| && BareCr(s, i);
    assert forall i | 0 <= i < |s| :: (i in lfs <==> BareLf(s, i)) && (i in crs <==> BareCr(s, i));
    if forall i | 0 <= i < |s| :: !BareLf(s, i) && !BareCr(s, i) {
      assert lfs == {};
      assert crs == {};
    }
  }

  /** Without bare CR or LF, only whole CRLFs are left, and restoring them gives the bytes back. */
  lemma {:induction false} EndingsRoundTrip(s: Bytes)
    requires forall i | 0 <= i < |s| :: !BareLf(s, i) && !BareCr(s, i)
    ensures CrLf(LfOnly(s)) == s && CR !in LfOnly(s)
  {
    if s != [] {
      assert !BareLf(s, 0) && !BareCr(s, 0);
      if s[0] == CR {
        forall i | 0 <= i < |s| - 2 ensures !BareLf(s[2..], i) && !BareCr(s[2..], i) {
          assert !BareLf(s, i + 2) && !BareCr(s, i + 2);
          assert s[2] != LF by { if |s| > 2 { assert !BareLf(s, 2); } }
        }
        EndingsRoundTrip(s[2..]);
        assert s == [CR, LF] + s[2..];
      } else {
        forall i | 0 <= i < |s| - 1 ensures !BareLf(s[1..], i) && !BareCr(s[1..], i) {
          assert !BareLf(s, i + 1) && !BareCr(s, i + 1);
        }
        EndingsRoundTrip(s[1..]);
      }
    }
  }

  lemma {:induction false} NoCrNoChange(s: Bytes)
    requires CR !in s
    ensures LfOnly(s) == s
  {
    if s != [] {
      NoCrNoChange(s[1..]);
    }
  }

  lemma {:induction false} CrLfIsExact(a: Bytes, b: Bytes)
    requires CR !in a && CR !in b && CrLf(a) == CrLf(b)
    ensures a == b
  {
    if a != [] && b != [] {
      assert CrLf(a)[0] == (if a[0] == LF then CR else a[0]);
      assert CrLf(b)[0] == (if b[0] == LF then CR else b[0]);
      var n := if a[0] == LF then 2 else 1;
      assert CrLf(a)[n..] == CrLf(a[1..]) && CrLf(b)[n..] == CrLf(b[1..]);
      CrLfIsExact(a[1..], b[1..]);
    }
  }

  /** Bytes whose restored endings hold no bare CR or LF held no CR at all. */
  lemma {:induction false} RestoredHasNoCr(s: Bytes)
    requires forall i | 0 <= i < |CrLf(s)| :: !BareLf(CrLf(s), i) && !BareCr(CrLf(s), i)
    ensures CR !in s
  {
    if s != [] {
      var all, rest := CrLf(s), CrLf(s[1..]);
      var n := if s[0] == LF then 2 else 1;
      assert |all| == n + |rest| && all[n..] == rest;
      assert !BareCr(all, 0);
      assert rest == [] || rest[0] != LF by { FirstIsNotLf(s[1..]); }
      forall i | 0 <= i < |rest| ensures !BareLf(rest, i) && !BareCr(rest, i) {
        assert !BareLf(all, n + i) && !BareCr(all, n + i);
        assert all[n + i] == rest[i] && (i > 0 ==> all[n + i - 1] == rest[i - 1])
               && (i + 1 < |rest| ==> all[n + i + 1] == rest[i + 1]);
      }
      RestoredHasNoCr(s[1..]);
    }
  }

  lemma FirstIsNotLf(s: Bytes)
    ensures CrLf(s) == [] || CrLf(s)[0] != LF
  {
  }

  // ----- lines and the header block ---------------------------------------------------------------

  /** `split(b"\n")`. */
  function Lines(s: Bytes): (r: seq<Bytes>)
    ensures |r| >= 1
  {
    if s == [] then [[]]
    else
      var rest := Lines(s[1..]);
      if s[0] == LF then [[]] + rest else [[s[0]] + rest[0]] + rest[1..]
  }

  /** `b"\n".join(lines)`. */
  function Join(lines: seq<Bytes>): Bytes {
    if lines == [] then []
    else if |lines| == 1 then lines[0]
    else lines[0] + [LF] + Join(lines[1..])
  }

  lemma {:induction false} JoinLines(s: Bytes)
    ensures Join(Lines(s)) == s
    ensures forall line | line in Lines(s) :: LF !in line
  {
    if s != [] {
      JoinLines(s[1..]);
      var rest := Lines(s[1..]);
      if s[0] == LF {
        assert Lines(s)[1..] == rest;
      } else if |rest| > 1 {
        assert Lines(s)[1..] == rest[1..];
      }
    }
  }

  lemma {:induction false} LinesOfOne(line: Bytes)
    requires LF !in line
    ensures Lines(line) == [line]
  {
    if line != [] {
      LinesOfOne(line[1..]);
      assert line[0] != LF && [line[0]] + line[1..] == line;
    }
  }

  lemma {:induction false} LinesOfTwo(line: Bytes, rest: Bytes)
    requires LF !in line
    ensures Lines(line + [LF] + rest) == [line] + Lines(rest)
  {
    var s := line + [LF] + rest;
    if line == [] {
      assert s[1..] == rest;
    } else {
      assert s[1..] == line[1..] + [LF] + rest;
      LinesOfTwo(line[1..], rest);
      var after := Lines(s[1..]);
      assert s[0] == line[0] && line[0] != LF && [line[0]] + line[1..] == line;
      assert after[0] == line[1..] && after[1..] == Lines(rest);
    }
  }

  predicate BlankAt(s: Bytes, i: nat) {
    i + 2 <= |s| && s[i] == LF && s[i+1] == LF
  }

  /** Where the first empty line starts, or the end. */
  function BlankFrom(s: Bytes, i: nat): (r: nat)
    requires i <= |s|
    ensures i <= r <= |s|
    decreases |s| - i
  {
    if i == |s| || BlankAt(s, i) then i else BlankFrom(s, i + 1)
  }

  lemma {:induction false} BlankFromIs(s: Bytes, i: nat, r: nat)
    requires i <= r <= |s| && (r == |s| || BlankAt(s, r))
    requires forall k | i <= k < r :: !BlankAt(s, k)
    ensures BlankFrom(s, i) == r
    decreases |s| - i
  {
    if i < r {
      BlankFromIs(s, i + 1, r);
    }
  }

  lemma {:induction false} BeforeBlank(s: Bytes, i: nat)
    requires i <= |s|
    ensures forall k | i <= k < BlankFrom(s, i) :: !BlankAt(s, k)
    ensures BlankFrom(s, i) == |s| || BlankAt(s, BlankFrom(s, i))
    decreases |s| - i
  {
    if i < |s| && !BlankAt(s, i) {
      BeforeBlank(s, i + 1);
    }
  }

  /** `partition(b"\n\n")`: the head, and the separator with what follows. */
  function Head(s: Bytes): Bytes {
    s[..BlankFrom(s, 0)]
  }

  function Tail(s: Bytes): Bytes {
    s[BlankFrom(s, 0)..]
  }

  // ----- the comparison ------------------------------------------------------------------------------

  function Lower(b: byte): byte {
    if 65 <= b <= 90 then b + 32 else b
  }

  predicate IsTuid(line: Bytes) {
    |line| >= |TUID_NAME| && forall i | 0 <= i < |TUID_NAME| :: Lower(line[i]) == TUID_NAME[i]
  }

  /** The field is known by its name, in letters of either case, with its colon. */
  lemma TuidIs(line: Bytes)
    ensures IsTuid(line) <==>
            && |line| >= 7 && line[0] in {0x58, 0x78} && line[1] == 0x2d && line[2] in {0x54, 0x74}
            && line[3] in {0x55, 0x75} && line[4] in {0x49, 0x69} && line[5] in {0x44, 0x64} && line[6] == 0x3a
  {
    assert |line| >= 7 ==>
        (IsTuid(line) <==>
          Lower(line[0]) == 0x78 && Lower(line[1]) == 0x2d && Lower(line[2]) == 0x74 && Lower(line[3]) == 0x75
          && Lower(line[4]) == 0x69 && Lower(line[5]) == 0x64 && Lower(line[6]) == 0x3a);
  }

  function HeaderLines(data: Bytes): seq<Bytes> {
    Lines(Head(LfOnly(data)))
  }

  function Tuids(lines: seq<Bytes>): nat {
    if lines == [] then 0 else (if IsTuid(lines[0]) then 1 else 0) + Tuids(lines[1..])
  }

  function WithoutTuids(lines: seq<Bytes>): seq<Bytes> {
    if lines == [] then [] else (if IsTuid(lines[0]) then [] else [lines[0]]) + WithoutTuids(lines[1..])
  }

  function CountTuid(data: Bytes): nat {
    Tuids(HeaderLines(data))
  }

  /** `_reconstitute` before its last step. */
  function Stripped(file: Bytes): Bytes {
    var text := LfOnly(file);
    Join(WithoutTuids(Lines(Head(text)))) + Tail(text)
  }

  function Reconstitute(file: Bytes): Bytes {
    CrLf(Stripped(file))
  }

  datatype Verdict = Equal | Different | PreconditionFailed

  datatype Result = Result(verdict: Verdict, tuidInFile: nat, bareInServed: nat, tuidInServed: nat)

  type Hash = Bytes -> string

  function Compare(hash: Hash, file: Bytes, served: Bytes): Result {
    var tuidFile, bare, tuidServed := CountTuid(file), Bare(served), CountTuid(served);
    if tuidFile != 1 || bare != 0 || tuidServed != 0 then Result(PreconditionFailed, tuidFile, bare, tuidServed)
    else Result(if hash(Reconstitute(file)) == hash(served) then Equal else Different, tuidFile, bare, tuidServed)
  }

  // ----- isync's copy -----------------------------------------------------------------------------------

  /** LF endings and one X-TUID field, after the first header line. */
  function AsFile(served: Bytes, field: Bytes): Bytes {
    var text := LfOnly(served);
    var lines := Lines(Head(text));
    Join([lines[0], field] + lines[1..]) + Tail(text)
  }

  lemma {:induction false} NoTuidsKeepsAll(lines: seq<Bytes>)
    requires Tuids(lines) == 0
    ensures WithoutTuids(lines) == lines
  {
    if lines != [] {
      NoTuidsKeepsAll(lines[1..]);
    }
  }

  /** The copy's text splits where the original's did, with the field as the second header line. */
  lemma CopySplits(text: Bytes, field: Bytes)
    requires LF !in field && field != []
    ensures var lines := Lines(Head(text));
            var copy := Join([lines[0], field] + lines[1..]) + Tail(text);
            Lines(Head(copy)) == [lines[0], field] + lines[1..] && Tail(copy) == Tail(text)
  {
    hide Lines, Join, BlankFrom;
    var head := Head(text);
    var lines := Lines(head);
    JoinLines(head);
    var first, others := lines[0], lines[1..];
    assert lines == [first] + others && [first, field] + others == [first] + ([field] + others);
    JoinCons(first, others);
    JoinCons(field, others);
    JoinCons(first, [field] + others);
    if others == [] {
      LinesOfTwo(first, field);
      LinesOfOne(field);
      CopyOfOneLine(text, field);
    } else {
      var rest := Join(others);
      LinesOfTwo(first, field + [LF] + rest);
      LinesOfTwo(field, rest);
      LinesOfTwo(first, rest);
      assert Lines(rest) == others;
      CopyOfLines(text, first, rest, field);
    }
  }

  lemma JoinCons(line: Bytes, rest: seq<Bytes>)
    ensures Join([line] + rest) == if rest == [] then line else line + [LF] + Join(rest)
  {
    assert ([line] + rest)[1..] == rest;
  }

  lemma CopyOfOneLine(text: Bytes, field: Bytes)
    requires LF !in field && field != [] && LF !in Head(text)
    ensures var head' := Head(text) + [LF] + field;
            Head(head' + Tail(text)) == head' && Tail(head' + Tail(text)) == Tail(text)
  {
    var first, tail := Head(text), Tail(text);
    var head' := first + [LF] + field;
    var copy := head' + tail;
    BeforeBlank(text, 0);
    assert text == first + tail;
    forall k | 0 <= k < |head'| ensures !BlankAt(copy, k) {
      assert k < |first| ==> copy[k] == first[k];
      assert k == |first| ==> copy[k+1] == field[0];
      assert k > |first| ==> copy[k] == field[k - |first| - 1];
    }
    BlankFromIs(copy, 0, |head'|);
  }

  lemma CopyOfLines(text: Bytes, first: Bytes, rest: Bytes, field: Bytes)
    requires LF !in field && field != [] && LF !in first && Head(text) == first + [LF] + rest
    ensures var head' := first + [LF] + (field + [LF] + rest);
            Head(head' + Tail(text)) == head' && Tail(head' + Tail(text)) == Tail(text)
  {
    var head, tail := Head(text), Tail(text);
    var head' := first + [LF] + (field + [LF] + rest);
    var copy := head' + tail;
    var shift := |field| + 1;
    BeforeBlank(text, 0);
    assert text == head + tail;
    assert copy[|first| + shift..] == [LF] + rest + tail == text[|first|..];
    forall k | 0 <= k < |head'| ensures !BlankAt(copy, k) {
      assert k < |first| ==> copy[k] == first[k];
      assert k == |first| ==> copy[k+1] == field[0];
      assert |first| < k < |first| + shift ==> copy[k] == field[k - |first| - 1];
      if k >= |first| + shift {
        assert copy[k] == copy[|first| + shift..][k - |first| - shift];
        assert k + 1 < |copy| ==> copy[k+1] == copy[|first| + shift..][k + 1 - |first| - shift];
        assert !BlankAt(text, k - shift);
      }
    }
    BlankFromIs(copy, 0, |head'|);
  }

  /**
   * The copy of served bytes, with no bare CR or LF and no X-TUID field, reconstitutes to
   * them, and compares equal under any hash.
   */
  lemma CopyComparesEqual(hash: Hash, served: Bytes, field: Bytes)
    requires Bare(served) == 0 && CountTuid(served) == 0
    requires IsTuid(field) && CR !in field && LF !in field
    ensures Reconstitute(AsFile(served, field)) == served
    ensures Compare(hash, AsFile(served, field), served) == Result(Equal, 1, 0, 0)
  {
    hide LfOnly, Lines, Join, BlankFrom, Bare, Tuids, WithoutTuids, IsTuid, CrLf;
    NoneBare(served);
    EndingsRoundTrip(served);
    var text := LfOnly(served);
    var lines := Lines(Head(text));
    var file := AsFile(served, field);
    var copied := [lines[0], field] + lines[1..];
    assert CR !in file by { CopyHasNoCr(text, field); }
    NoCrNoChange(file);
    assert field != [] by { TuidIsNotEmpty(field); }
    CopySplits(text, field);
    StripsToOriginal(lines, field);
    JoinLines(Head(text));
    assert Join(lines) + Tail(text) == text;
  }

  lemma TuidIsNotEmpty(field: Bytes)
    requires IsTuid(field)
    ensures field != []
  {
  }

  lemma StripsToOriginal(lines: seq<Bytes>, field: Bytes)
    requires |lines| >= 1 && Tuids(lines) == 0 && IsTuid(field)
    ensures var copied := [lines[0], field] + lines[1..];
            WithoutTuids(copied) == lines && Tuids(copied) == 1
  {
    hide IsTuid, Tuids, WithoutTuids;
    var first, rest := lines[0], lines[1..];
    assert lines == [first] + rest && [first, field] + rest == [first] + ([field] + rest);
    TuidsCons(first, rest);
    NoTuidsKeepsAll(rest);
    TuidsCons(field, rest);
    TuidsCons(first, [field] + rest);
  }

  lemma TuidsCons(line: Bytes, rest: seq<Bytes>)
    ensures Tuids([line] + rest) == (if IsTuid(line) then 1 else 0) + Tuids(rest)
    ensures WithoutTuids([line] + rest) == (if IsTuid(line) then [] else [line]) + WithoutTuids(rest)
  {
    hide IsTuid;
    assert ([line] + rest)[1..] == rest;
  }

  lemma CopyHasNoCr(text: Bytes, field: Bytes)
    requires CR !in text && CR !in field
    ensures var lines := Lines(Head(text)); CR !in Join([lines[0], field] + lines[1..]) + Tail(text)
  {
    var lines := Lines(Head(text));
    LinesHold(Head(text));
    JoinHolds([lines[0], field] + lines[1..]);
  }

  lemma {:induction false} LinesHold(s: Bytes)
    ensures forall line, b | line in Lines(s) && b in line :: b in s
  {
    if s != [] {
      LinesHold(s[1..]);
    }
  }

  lemma {:induction false} JoinHolds(lines: seq<Bytes>)
    ensures forall b | b in Join(lines) :: b == LF || exists line :: line in lines && b in line
  {
    if |lines| > 1 {
      JoinHolds(lines[1..]);
    }
  }

  // ----- what a verdict of equal proves ------------------------------------------------------------------

  /** Where the one X-TUID line is, and the lines without it. */
  lemma {:induction false} OneTuid(lines: seq<Bytes>) returns (i: nat)
    requires Tuids(lines) == 1
    ensures i < |lines| && IsTuid(lines[i]) && WithoutTuids(lines) == lines[..i] + lines[i+1..]
    ensures forall j | 0 <= j < |lines| && j != i :: !IsTuid(lines[j])
  {
    hide IsTuid;
    if IsTuid(lines[0]) {
      i := 0;
      NoTuidsKeepsAll(lines[1..]);
      NoTuidsMeansNone(lines[1..]);
    } else {
      var j := OneTuid(lines[1..]);
      i := j + 1;
      assert lines[..i] == [lines[0]] + lines[1..][..j];
      assert lines[1..][j+1..] == lines[i+1..];
    }
  }

  lemma {:induction false} NoTuidsMeansNone(lines: seq<Bytes>)
    requires Tuids(lines) == 0
    ensures forall line | line in lines :: !IsTuid(line)
  {
    if lines != [] {
      NoTuidsMeansNone(lines[1..]);
    }
  }

  /**
   * Under an injective hash `equal` means what it says: the file has one X-TUID line, and
   * without that line, with CRLF restored, it is the served bytes.
   */
  lemma EqualMeansIdentical(hash: Hash, file: Bytes, served: Bytes) returns (i: nat)
    requires forall a, b | hash(a) == hash(b) :: a == b
    requires Compare(hash, file, served).verdict.Equal?
    ensures var text := LfOnly(file);
            var lines := Lines(Head(text));
            && i < |lines| && IsTuid(lines[i]) && (forall j | 0 <= j < |lines| && j != i :: !IsTuid(lines[j]))
            && served == CrLf(Join(lines[..i] + lines[i+1..]) + Tail(text))
  {
    i := OneTuid(HeaderLines(file));
  }

  /** Files that compare equal with the same bytes differ only in their X-TUID line and line endings. */
  lemma EqualFilesAgree(hash: Hash, a: Bytes, b: Bytes, served: Bytes)
    requires forall x, y | hash(x) == hash(y) :: x == y
    requires Compare(hash, a, served).verdict.Equal? && Compare(hash, b, served).verdict.Equal?
    ensures Stripped(a) == Stripped(b)
  {
    NoneBare(served);
    RestoredHasNoCr(Stripped(a));
    RestoredHasNoCr(Stripped(b));
    CrLfIsExact(Stripped(a), Stripped(b));
  }
}
