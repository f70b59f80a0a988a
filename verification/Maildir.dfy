/** Maildir file names and the locators made of them. */
module Maildir {
  import opened Wrappers

  /** A message file below the account's root: its directory components and its name. */
  datatype Path = Path(dirs: seq<string>, name: string)

  /** Where the last `:2,` of `name[..n]` starts, or `n` when there is none. */
  function SeparatorBefore(name: string, n: nat): (r: nat)
    requires n <= |name|
    ensures r <= n
  {
    if n < 3 then n
    else if name[n-3..n] == ":2," then n - 3
    else
      var r := SeparatorBefore(name, n - 1);
      if r == n - 1 then n else r
  }

  predicate HasFlags(name: string) {
    SeparatorBefore(name, |name|) < |name|
  }

  /** `get_uniq`: the name up to its last flag separator. */
  function Uniq(name: string): string {
    name[..SeparatorBefore(name, |name|)]
  }

  function Letters(s: string): set<char> {
    set c | c in s
  }

  function Flags(name: string): set<char> {
    if HasFlags(name) && SeparatorBefore(name, |name|) + 3 <= |name|
    then Letters(name[SeparatorBefore(name, |name|) + 3..])
    else {}
  }

  predicate IsTrashed(p: Path) {
    'T' in Flags(p.name)
  }

  datatype MessageState = MessageState(seen: bool, flagged: bool, replied: bool)

  function StateOf(p: Path): MessageState {
    MessageState('S' in Flags(p.name), 'F' in Flags(p.name), 'R' in Flags(p.name))
  }

  /** `folder_name`: child components lose the dot mbsync gives them. */
  function FolderName(dirs: seq<string>): string {
    if dirs == [] then "."
    else if |dirs| == 1 then dirs[0]
    else
      var last := dirs[|dirs|-1];
      FolderName(dirs[..|dirs|-1]) + "/" + if last != "" && last[0] == '.' then last[1..] else last
  }

  datatype Locator = Locator(folder: string, uniq: string)

  /** `locate`: the folder is two levels above the file, past `cur` or `new`. */
  function Locate(p: Path): Locator {
    Locator(FolderName(if p.dirs == [] then [] else p.dirs[..|p.dirs|-1]), Uniq(p.name))
  }

  /** Whatever flags a file carries after its separator, its uniq and folder stay. */
  lemma {:induction false} SeparatorFound(u: string, f: string, n: nat)
    requires ':' !in f
    requires |u| + 3 <= n <= |u| + 3 + |f|
    ensures SeparatorBefore(u + ":2," + f, n) == |u|
  {
    var name := u + ":2," + f;
    assert name[|u|] == ':' && name[|u| + 1] == '2' && name[|u| + 2] == ',';
    assert name[n-3..n][0] == name[n-3];
    if n == |u| + 3 {
      assert name[n-3..n] == ":2,";
    } else {
      assert name[n-3] != ':' by {
        if n - 3 >= |u| + 3 {
          assert name[n-3] == f[n - 6 - |u|];
        }
      }
      assert name[n-3..n] != ":2,";
      SeparatorFound(u, f, n - 1);
    }
  }

  lemma FlagRename(dirs: seq<string>, u: string, f: string, g: string)
    requires ':' !in f && ':' !in g
    ensures Locate(Path(dirs, u + ":2," + f)) == Locate(Path(dirs, u + ":2," + g))
    ensures Uniq(u + ":2," + f) == u && Flags(u + ":2," + f) == Letters(f)
    ensures StateOf(Path(dirs, u + ":2," + f)) == MessageState('S' in f, 'F' in f, 'R' in f)
    ensures IsTrashed(Path(dirs, u + ":2," + f)) <==> 'T' in f
  {
    var a, b := u + ":2," + f, u + ":2," + g;
    SeparatorFound(u, f, |a|);
    SeparatorFound(u, g, |b|);
    assert a[..|u|] == u && b[..|u|] == u;
    assert a[|u| + 3..] == f;
  }

  /** A name without a separator is its own uniq, and says unread. */
  lemma {:induction false} NoFlags(dirs: seq<string>, u: string, n: nat)
    requires ':' !in u && n <= |u|
    ensures SeparatorBefore(u, n) == n
    ensures n == |u| ==> Uniq(u) == u && StateOf(Path(dirs, u)) == MessageState(false, false, false)
                         && !IsTrashed(Path(dirs, u))
  {
    if n >= 3 {
      assert u[n-3..n][0] == u[n-3];
      NoFlags(dirs, u, n - 1);
    }
  }

  /** The directories mbsync writes for a folder: each child component gets a leading dot. */
  function ChildDirs(parts: seq<string>): (dirs: seq<string>)
    ensures |dirs| == |parts|
  {
    if |parts| <= 1 then parts else ChildDirs(parts[..|parts|-1]) + ["." + parts[|parts|-1]]
  }

  function Joined(parts: seq<string>): string {
    if parts == [] then "" else if |parts| == 1 then parts[0] else parts[0] + "/" + Joined(parts[1..])
  }

  lemma {:induction false} JoinedLast(parts: seq<string>, last: string)
    requires parts != []
    ensures Joined(parts + [last]) == Joined(parts) + "/" + last
  {
    if |parts| > 1 {
      assert (parts + [last])[1..] == parts[1..] + [last];
      JoinedLast(parts[1..], last);
    } else {
      assert (parts + [last])[1..] == [last];
    }
  }

  /** They name the folder: its components, joined. */
  lemma {:induction false} FolderReadsBack(parts: seq<string>)
    requires parts != []
    ensures FolderName(ChildDirs(parts)) == Joined(parts)
  {
    if |parts| > 1 {
      var rest, last := parts[..|parts|-1], parts[|parts|-1];
      FolderReadsBack(rest);
      JoinedLast(rest, last);
      assert parts == rest + [last];
      assert ("." + last)[1..] == last;
      var dirs := ChildDirs(parts);
      assert dirs[..|dirs|-1] == ChildDirs(rest);
    }
  }

  /** The locator of a file is its folder's name and its uniq, whatever its subdirectory and its flags. */
  lemma LocatorReads(parts: seq<string>, sub: string, u: string, f: string)
    requires parts != [] && ':' !in f
    ensures Locate(Path(ChildDirs(parts) + [sub], u + ":2," + f)) == Locator(Joined(parts), u)
  {
    FolderReadsBack(parts);
    FlagRename(ChildDirs(parts) + [sub], u, f, f);
    assert (ChildDirs(parts) + [sub])[..|parts|] == ChildDirs(parts);
  }

  // ----- sorted paths ---------------------------------------------------------------------

  /** Paths compare component by component. */
  predicate PartsPrecede(a: seq<string>, b: seq<string>) {
    b != [] && (a == [] || Precedes(a[0], b[0]) || (a[0] == b[0] && PartsPrecede(a[1..], b[1..])))
  }

  predicate PathPrecedes(p: Path, q: Path) {
    PartsPrecede(p.dirs + [p.name], q.dirs + [q.name])
  }

  /** The one goes on where the other ends, or has the greater component, after the same `k` components. */
  predicate PartsExceed(a: seq<string>, b: seq<string>, k: nat) {
    k <= |a| && k < |b| && a[..k] == b[..k] && (k == |a| || Precedes(a[k], b[k]))
  }

  lemma {:induction false} PartsPrecedeIff(a: seq<string>, b: seq<string>)
    ensures PartsPrecede(a, b) <==> exists k: nat :: PartsExceed(a, b, k)
  {
    hide Precedes;
    forall k: nat | PartsExceed(a, b, k) && k > 0 ensures a != [] && b != [] && a[0] == b[0] {
      assert a[..k][0] == b[..k][0];
    }
    if a != [] && b != [] && a[0] == b[0] {
      PrecedesIsNotOwn(a[0]);
      PartsPrecedeIff(a[1..], b[1..]);
      if k: nat :| PartsExceed(a[1..], b[1..], k) {
        assert a[..k + 1] == [a[0]] + a[1..][..k] && b[..k + 1] == [b[0]] + b[1..][..k];
        assert PartsExceed(a, b, k + 1);
      }
      if k: nat :| PartsExceed(a, b, k) {
        assert a[1..][..k - 1] == a[..k][1..] && b[1..][..k - 1] == b[..k][1..];
        assert PartsExceed(a[1..], b[1..], k - 1);
      }
    } else if PartsPrecede(a, b) {
      assert PartsExceed(a, b, 0);
    }
  }

  lemma PrecedesIsNotOwn(a: string)
    ensures !Precedes(a, a)
  {
    if Precedes(a, a) { PrecedesIsStrict(a, a); }
  }

  lemma {:induction false} PartsAreTotal(a: seq<string>, b: seq<string>)
    ensures a == b || PartsPrecede(a, b) || PartsPrecede(b, a)
  {
    if a != [] && b != [] {
      PrecedesIsTotal(a[0], b[0]);
      PartsAreTotal(a[1..], b[1..]);
      assert a == [a[0]] + a[1..] && b == [b[0]] + b[1..];
    }
  }

  lemma {:induction false} PartsAreTransitive(a: seq<string>, b: seq<string>, c: seq<string>)
    requires PartsPrecede(a, b) && PartsPrecede(b, c)
    ensures PartsPrecede(a, c)
  {
    hide Precedes;
    if a != [] {
      if Precedes(a[0], b[0]) && Precedes(b[0], c[0]) { PrecedesIsTransitive(a[0], b[0], c[0]); }
      if a[0] == b[0] == c[0] && !Precedes(a[0], b[0]) && PartsPrecede(a[1..], b[1..]) && PartsPrecede(b[1..], c[1..]) {
        PartsAreTransitive(a[1..], b[1..], c[1..]);
      }
      if Precedes(a[0], b[0]) { PrecedesIsStrict(a[0], b[0]); }
      if Precedes(b[0], c[0]) { PrecedesIsStrict(b[0], c[0]); }
    }
  }

  lemma {:induction false} PartsAreStrict(a: seq<string>, b: seq<string>)
    ensures !PartsPrecede(a, b) || !PartsPrecede(b, a)
  {
    hide Precedes;
    if a != [] && b != [] {
      if Precedes(a[0], b[0]) { PrecedesIsStrict(a[0], b[0]); }
      if Precedes(b[0], a[0]) { PrecedesIsStrict(b[0], a[0]); }
      PartsAreStrict(a[1..], b[1..]);
    }
  }

  predicate IsLeastPath(s: set<Path>, p: Path) {
    p in s && forall q | q in s :: q == p || PathPrecedes(p, q)
  }

  lemma OneLeastPath(s: set<Path>, p: Path, q: Path)
    requires IsLeastPath(s, p) && IsLeastPath(s, q)
    ensures p == q
  {
    hide PartsPrecede;
    if p != q {
      PartsAreStrict(p.dirs + [p.name], q.dirs + [q.name]);
    }
  }

  lemma SamePath(p: Path, q: Path)
    requires p.dirs + [p.name] == q.dirs + [q.name]
    ensures p == q
  {
    var a, b := p.dirs + [p.name], q.dirs + [q.name];
    assert a[|a|-1] == p.name && a[..|a|-1] == p.dirs;
    assert b[|b|-1] == q.name && b[..|b|-1] == q.dirs;
  }

  lemma {:induction false} LeastPathExists(s: set<Path>) returns (p: Path)
    requires s != {}
    ensures IsLeastPath(s, p)
  {
    p :| p in s;
    if s != {p} {
      var q := LeastPathExists(s - {p});
      forall r | r in s ensures r == p || r in s - {p} {
      }
      LesserPath(s, p, q);
      if PathPrecedes(q, p) { p := q; }
    }
  }

  /** The lesser of a path and the least of the others is the least. */
  lemma LesserPath(s: set<Path>, p: Path, q: Path)
    requires p in s && IsLeastPath(s - {p}, q)
    ensures IsLeastPath(s, if PathPrecedes(q, p) then q else p)
  {
    hide PartsPrecede;
    PartsAreTotal(p.dirs + [p.name], q.dirs + [q.name]);
    if p.dirs + [p.name] == q.dirs + [q.name] { SamePath(p, q); }
    forall r | r in s && r != p && PathPrecedes(p, q) ensures PathPrecedes(p, r) {
      assert r in s - {p};
      if r != q {
        PartsAreTransitive(p.dirs + [p.name], q.dirs + [q.name], r.dirs + [r.name]);
      }
    }
  }

  /** `sorted`. */
  ghost function Sorted(s: set<Path>): (r: seq<Path>)
    ensures SetOf(r) == s && |r| == |s|
  {
    if s == {} then []
    else
      var least := Least(s);
      var rest := Sorted(s - {least});
      SortedIs(s, least, rest);
      [least] + rest
  }

  lemma SortedIs(s: set<Path>, p: Path, rest: seq<Path>)
    requires p in s && SetOf(rest) == s - {p} && |rest| == |s - {p}|
    ensures SetOf([p] + rest) == s && |[p] + rest| == |s|
  {
    assert s == s - {p} + {p};
  }

  /** Each path comes before those after it. */
  lemma {:induction false} SortedIncreases(s: set<Path>, i: nat, j: nat)
    requires i < j < |s|
    ensures PathPrecedes(Sorted(s)[i], Sorted(s)[j])
  {
    hide PathPrecedes, Sorted;
    var least := Least(s);
    var rest := Sorted(s - {least});
    SortedStep(s);
    assert |rest| == |s| - 1 && Sorted(s)[j] == rest[j - 1] && Sorted(s)[0] == least;
    if i == 0 {
      assert rest[j - 1] in SetOf(rest);
    } else {
      SortedIncreases(s - {least}, i - 1, j - 1);
    }
  }

  lemma SortedStep(s: set<Path>)
    requires s != {}
    ensures Sorted(s) == [Least(s)] + Sorted(s - {Least(s)}) && |s - {Least(s)}| == |s| - 1
  {
    hide PathPrecedes;
  }

  ghost function Least(s: set<Path>): (p: Path)
    requires s != {}
    ensures IsLeastPath(s, p)
  {
    assert exists p :: IsLeastPath(s, p) by { var p := LeastPathExists(s); }
    var p :| IsLeastPath(s, p);
    p
  }

  /** The next path in order, and the others. */
  method NextPath(s: set<Path>) returns (p: Path)
    requires s != {}
    ensures p in s && Sorted(s) == [p] + Sorted(s - {p})
  {
    hide PathPrecedes;
    p :| p in s;
    var rest := s - {p};
    var done: set<Path> := {p};
    while rest != {}
      invariant done + rest == s && done !! rest && IsLeastPath(done, p)
      decreases rest
    {
      var q :| q in rest;
      rest := rest - {q};
      assert done + {q} - {q} == done;
      LesserPath(done + {q}, q, p);
      done := done + {q};
      if !PathPrecedes(p, q) {
        p := q;
      }
    }
    assert done == s;
    OneLeastPath(s, p, Least(s));
  }
}
