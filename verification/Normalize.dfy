/** `normalize_body`: the form of a body the chunker's offsets point into. */
module Normalize {

  function CrLfToLf(s: string): (r: string)
    ensures |r| <= |s|
  {
    if s == "" then ""
    else if |s| >= 2 && s[0] == '\r' && s[1] == '\n' then "\n" + CrLfToLf(s[2..])
    else [s[0]] + CrLfToLf(s[1..])
  }

  function CrToLf(s: string): (r: string)
    ensures |r| == |s|
    ensures forall i | 0 <= i < |s| :: r[i] == if s[i] == '\r' then '\n' else s[i]
  {
    seq(|s|, i requires 0 <= i < |s| => if s[i] == '\r' then '\n' else s[i])
  }

  /** Every run of newlines cut to two; `run` newlines stand directly before `s`. */
  function CollapseNewlines(s: string, run: nat): string {
    if s == "" then ""
    else if s[0] != '\n' then [s[0]] + CollapseNewlines(s[1..], 0)
    else if run >= 2 then CollapseNewlines(s[1..], run + 1)
    else "\n" + CollapseNewlines(s[1..], run + 1)
  }

  function StripNewlines(s: string): (r: string)
    ensures r != "" ==> r[0] != '\n' && r[|r|-1] != '\n'
  {
    if s == "" then ""
    else if s[0] == '\n' then StripNewlines(s[1..])
    else if s[|s|-1] == '\n' then StripNewlines(s[..|s|-1])
    else s
  }

  function NormalizeBody(body: string): string {
    StripNewlines(CollapseNewlines(CrToLf(CrLfToLf(body)), 0))
  }

  /** No carriage return, at most one blank line in a row, no newline at either end. */
  ghost predicate IsNormal(s: string) {
    && NoCr(s)
    && NoTriple(s)
    && (s != "" ==> s[0] != '\n' && s[|s|-1] != '\n')
  }

  ghost predicate NoCr(s: string) {
    forall i | 0 <= i < |s| :: s[i] != '\r'
  }

  ghost predicate NoTriple(s: string) {
    forall i | 0 <= i < |s| - 2 :: s[i] != '\n' || s[i+1] != '\n' || s[i+2] != '\n'
  }

  /** How many newlines `s` starts with, up to two. */
  ghost function Leading(s: string): nat {
    if s == "" || s[0] != '\n' then 0
    else if |s| == 1 || s[1] != '\n' then 1
    else 2
  }

  /** The characters of `s` that are not line endings, in order. */
  ghost function Content(s: string): string {
    if s == "" then ""
    else if s[0] == '\n' || s[0] == '\r' then Content(s[1..])
    else [s[0]] + Content(s[1..])
  }

  lemma {:induction false} CollapseShape(s: string, run: nat)
    requires NoCr(s)
    ensures var r := CollapseNewlines(s, run);
      NoCr(r) && NoTriple(r) && (run >= 1 ==> Leading(r) <= 1) && (run >= 2 ==> Leading(r) == 0)
  {
    if s == "" {
    } else if s[0] != '\n' {
      CollapseShape(s[1..], 0);
    } else {
      CollapseShape(s[1..], run + 1);
    }
  }

  lemma {:induction false} StripShape(s: string)
    requires NoCr(s) && NoTriple(s)
    ensures NoCr(StripNewlines(s)) && NoTriple(StripNewlines(s))
  {
    if s == "" {
    } else if s[0] == '\n' {
      StripShape(s[1..]);
    } else if s[|s|-1] == '\n' {
      StripShape(s[..|s|-1]);
    }
  }

  lemma {:induction false} CollapseKeepsNormal(s: string, run: nat)
    requires NoTriple(s)
    requires run == 0 || (run == 1 && Leading(s) <= 1) || (run == 2 && Leading(s) == 0)
    ensures CollapseNewlines(s, run) == s
  {
    if s == "" {
    } else {
      assert s == [s[0]] + s[1..];
      CollapseKeepsNormal(s[1..], if s[0] != '\n' then 0 else run + 1);
    }
  }

  lemma {:induction false} CrLfKeeps(s: string)
    requires NoCr(s)
    ensures CrLfToLf(s) == s
  {
    if s != "" {
      assert s == [s[0]] + s[1..];
      CrLfKeeps(s[1..]);
    }
  }

  /** Normal bodies are exactly the fixed points, and every result is one. */
  lemma NormalizeIsNormal(body: string)
    ensures IsNormal(NormalizeBody(body))
    ensures NormalizeBody(body) == body <==> IsNormal(body)
    ensures NormalizeBody(NormalizeBody(body)) == NormalizeBody(body)
  {
    ResultIsNormal(body);
    if IsNormal(body) { NormalIsFixed(body); }
    NormalIsFixed(NormalizeBody(body));
  }

  lemma ResultIsNormal(body: string)
    ensures IsNormal(NormalizeBody(body))
  {
    var lf := CrToLf(CrLfToLf(body));
    CollapseShape(lf, 0);
    StripShape(CollapseNewlines(lf, 0));
  }

  lemma NormalIsFixed(s: string)
    requires IsNormal(s)
    ensures NormalizeBody(s) == s
  {
    CrLfKeeps(s);
    assert CrToLf(s) == s;
    CollapseKeepsNormal(s, 0);
  }

  lemma {:induction false} ContentOfAppend(a: string, b: string)
    ensures Content(a + b) == Content(a) + Content(b)
  {
    if a == "" {
      assert a + b == b;
    } else {
      assert (a + b)[1..] == a[1..] + b;
      ContentOfAppend(a[1..], b);
    }
  }

  /** Only line endings change: every other character survives, in order. */
  lemma NormalizeKeepsContent(body: string)
    ensures Content(NormalizeBody(body)) == Content(body)
  {
    var crlf := CrLfToLf(body);
    CrLfContent(body);
    CrContent(crlf);
    CollapseContent(CrToLf(crlf), 0);
    StripContent(CollapseNewlines(CrToLf(crlf), 0));
  }

  lemma {:induction false} CrLfContent(s: string)
    ensures Content(CrLfToLf(s)) == Content(s)
  {
    if s == "" {
    } else if |s| >= 2 && s[0] == '\r' && s[1] == '\n' {
      CrLfContent(s[2..]);
      assert s[1..][1..] == s[2..];
    } else {
      CrLfContent(s[1..]);
    }
  }

  lemma {:induction false} CrContent(s: string)
    ensures Content(CrToLf(s)) == Content(s)
  {
    if s != "" {
      CrContent(s[1..]);
      assert CrToLf(s)[1..] == CrToLf(s[1..]);
    }
  }

  lemma {:induction false} CollapseContent(s: string, run: nat)
    ensures Content(CollapseNewlines(s, run)) == Content(s)
  {
    if s != "" {
      CollapseContent(s[1..], if s[0] != '\n' then 0 else run + 1);
    }
  }

  lemma {:induction false} StripContent(s: string)
    ensures Content(StripNewlines(s)) == Content(s)
  {
    if s == "" {
    } else if s[0] == '\n' {
      StripContent(s[1..]);
    } else if s[|s|-1] == '\n' {
      StripContent(s[..|s|-1]);
      assert s == s[..|s|-1] + "\n";
      ContentOfAppend(s[..|s|-1], "\n");
      assert Content("\n") == "";
    }
  }

  // ----- the whole form ------------------------------------------------------------------

  /** A character that is no line ending, and how many line endings stand before it. */
  datatype Broken = Broken(breaks: nat, c: char)

  /** The characters of a body with the line endings before each; a CR and LF in a row are one. */
  function Read(s: string, breaks: nat): seq<Broken> {
    if s == "" then []
    else if |s| >= 2 && s[0] == '\r' && s[1] == '\n' then Read(s[2..], breaks + 1)
    else if s[0] == '\r' || s[0] == '\n' then Read(s[1..], breaks + 1)
    else [Broken(breaks, s[0])] + Read(s[1..], 0)
  }

  function Newlines(n: nat): string {
    if n == 0 then "" else Newlines(n - 1) + "\n"
  }

  /** A text with so many newlines before each character, and none after the last. */
  function Write(cs: seq<Broken>): string {
    if cs == [] then "" else Write(cs[..|cs|-1]) + Newlines(cs[|cs|-1].breaks) + [cs[|cs|-1].c]
  }

  /** No more than two line endings in a row. */
  function Capped(cs: seq<Broken>): (r: seq<Broken>)
    ensures |r| == |cs|
  {
    seq(|cs|, i requires 0 <= i < |cs| => cs[i].(breaks := if cs[i].breaks > 2 then 2 else cs[i].breaks))
  }

  /** None before the first character. */
  function Started(cs: seq<Broken>): seq<Broken> {
    if cs == [] then [] else [cs[0].(breaks := 0)] + cs[1..]
  }

  /**
   * The normalized body is the body's characters with at most two newlines between any two,
   * as many as there were line endings, and none at either end.
   */
  lemma NormalizeIs(body: string)
    ensures NormalizeBody(body) == Write(Started(Capped(Read(body, 0))))
  {
    hide CrLfToLf, CollapseNewlines, StripNewlines, Read, Capped, Started, Write;
    var lf := CrToLf(CrLfToLf(body));
    ReadLf(body, 0);
    ReadCollapsed(lf, 0);
    CollapseShape(lf, 0);
    var collapsed := CollapseNewlines(lf, 0);
    StripShape(collapsed);
    ReadStripped(collapsed, 0);
    WriteReads(NormalizeBody(body));
  }

  lemma {:induction false} ReadLf(s: string, breaks: nat)
    ensures Read(CrToLf(CrLfToLf(s)), breaks) == Read(s, breaks)
  {
    hide CrToLf;
    if s == "" {
    } else if |s| >= 2 && s[0] == '\r' && s[1] == '\n' {
      ReadLf(s[2..], breaks + 1);
      CrToLfCons('\n', CrLfToLf(s[2..]));
      ReadCons('\n', CrToLf(CrLfToLf(s[2..])), breaks);
    } else {
      var rest := CrLfToLf(s[1..]);
      ReadLf(s[1..], if s[0] == '\r' || s[0] == '\n' then breaks + 1 else 0);
      CrToLfCons(s[0], rest);
      ReadCons(if s[0] == '\r' then '\n' else s[0], CrToLf(rest), breaks);
    }
  }

  lemma CrToLfCons(c: char, s: string)
    ensures CrToLf([c] + s) == [if c == '\r' then '\n' else c] + CrToLf(s)
  {
  }

  lemma ReadCons(c: char, s: string, breaks: nat)
    requires c != '\r'
    ensures Read([c] + s, breaks) == if c == '\n' then Read(s, breaks + 1) else [Broken(breaks, c)] + Read(s, 0)
  {
    assert ([c] + s)[1..] == s;
  }

  lemma {:induction false} ReadCollapsed(s: string, run: nat)
    requires NoCr(s)
    ensures Read(CollapseNewlines(s, run), if run > 2 then 2 else run) == Capped(Read(s, run))
  {
    hide Capped;
    if s == "" {
      CappedCons(Broken(0, 'a'), []);
    } else if s[0] != '\n' {
      ReadCollapsed(s[1..], 0);
      ReadCons(s[0], CollapseNewlines(s[1..], 0), if run > 2 then 2 else run);
      CappedCons(Broken(run, s[0]), Read(s[1..], 0));
    } else {
      ReadCollapsed(s[1..], run + 1);
      ReadCons('\n', CollapseNewlines(s[1..], run + 1), run);
    }
  }

  lemma CappedCons(b: Broken, cs: seq<Broken>)
    ensures Capped([]) == []
    ensures Capped([b] + cs) == [b.(breaks := if b.breaks > 2 then 2 else b.breaks)] + Capped(cs)
  {
  }

  lemma {:induction false} ReadStripped(s: string, breaks: nat)
    requires NoCr(s)
    ensures Read(StripNewlines(s), 0) == Started(Read(s, breaks))
  {
    if s == "" {
    } else if s[0] == '\n' {
      ReadStripped(s[1..], breaks + 1);
    } else if s[|s|-1] == '\n' {
      ReadStripped(s[..|s|-1], breaks);
      EndsUnread(s[..|s|-1], breaks);
      assert s == s[..|s|-1] + "\n";
    }
  }

  lemma {:induction false} EndsUnread(s: string, breaks: nat)
    requires NoCr(s)
    ensures Read(s + "\n", breaks) == Read(s, breaks)
  {
    if s == "" {
      assert s + "\n" == "\n";
    } else {
      EndsUnread(s[1..], if s[0] == '\n' then breaks + 1 else 0);
      assert (s + "\n")[1..] == s[1..] + "\n";
    }
  }

  /** Writing what was read gives a text without CR that ends in a character back. */
  lemma WriteReads(s: string)
    requires NoCr(s) && (s != "" ==> s[|s|-1] != '\n')
    ensures Write(Read(s, 0)) == s
  {
    WriteReadsFrom(s, 0);
  }

  lemma {:induction false} WriteReadsFrom(s: string, breaks: nat)
    requires NoCr(s) && (s != "" ==> s[|s|-1] != '\n')
    ensures Read(s, breaks) == [] ==> s == ""
    ensures s != "" ==> Write(Read(s, breaks)) == Newlines(breaks) + s
    ensures s == "" ==> Write(Read(s, breaks)) == ""
  {
    hide Write;
    WriteNothing();
    if s != "" {
      var rest := s[1..];
      assert s == [s[0]] + rest;
      if s[0] == '\n' {
        WriteReadsFrom(rest, breaks + 1);
        assert rest != "";
        assert Newlines(breaks + 1) + rest == Newlines(breaks) + ("\n" + rest);
      } else {
        WriteReadsFrom(rest, 0);
        WriteCons(Broken(breaks, s[0]), Read(rest, 0));
        assert Newlines(breaks) + [s[0]] + rest == Newlines(breaks) + s;
        assert Newlines(0) + rest == rest;
      }
    }
  }

  lemma WriteNothing()
    ensures Write([]) == ""
  {
  }

  lemma {:induction false} WriteCons(b: Broken, cs: seq<Broken>)
    ensures Write([b] + cs) == Newlines(b.breaks) + [b.c] + Write(cs)
  {
    if cs == [] {
      assert [b] + cs == [b] && [b][..0] == [];
    } else {
      var most, last := cs[..|cs|-1], cs[|cs|-1];
      WriteCons(b, most);
      assert ([b] + cs)[..|cs|] == [b] + most;
    }
  }
}
