/**
 * Exactly when the two looks of a vanished retirement share an instant, and runs to a
 * retirement while the folder holds the bytes all along.
 */
module ColdInventory {
  import opened Wrappers
  import opened Maildir
  import opened Mailbox
  import opened MailboxStore
  import opened FileEvidence
  import opened ScanTransactions

  // ----- a retirement as the calls see it ------------------------------------------------

  /** Some file of the folder with the path's uniq holds the bytes. */
  ghost predicate FolderHolds(facts: Facts, w: World, path: Path, content: seq<byte>) {
    exists p: Path :: InFolder(path, p) && Holds(facts, w, p, content)
  }

  predicate InFolder(path: Path, p: Path) {
    Uniq(p.name) == Uniq(path.name) && (p.dirs == path.dirs || Some(p.dirs) == Sibling(path.dirs))
  }

  /** Each recorded listing was the directory's at an earlier call, under its signature. */
  ghost predicate RecordedIn(facts: Facts, c: Calls, i: Inventory) {
    forall d | d in i.entries && i.entries[d].Some? :: RecordedBefore(facts, c, d, i.entries[d].value, i.tick)
  }

  ghost predicate RecordedBefore(facts: Facts, c: Calls, d: Dir, l: Listing, t: nat) {
    IsListing(facts, d, l) && exists s: nat :: s < t && DirAt(c.worlds(s), d) == l.signature
  }

  /** The inventory warmed from `start` and then, inside the transaction, found to hold no candidate. */
  ghost predicate Retires(facts: Facts, c: Calls, path: Path, start: Inventory, began: Inventory, ended: Inventory) {
    && Honest(facts, c.worlds) && RecordedIn(facts, c, start)
    && began == CandidatesLook(c, start, path).1 && CandidatesLook(c, began, path) == (Some({}), ended)
  }

  /** The sibling, if there is one, was inventoried before the transaction. */
  predicate Warm(path: Path, began: Inventory) {
    Sibling(path.dirs).Some? ==> Sibling(path.dirs).value in began.entries
  }

  /** If the sibling is there when the own directory is looked at, it is there at the last look. */
  predicate Stays(c: Calls, path: Path, began: Inventory, ended: Inventory) {
    ended.tick > 0 && Sibling(path.dirs).Some? && Sibling(path.dirs).value in c.worlds(OwnLook(c, path, began)).dirs ==>
      Sibling(path.dirs).value in c.worlds(ended.tick - 1).dirs
  }

  /** At some tick of the transaction no file of the folder held the bytes. */
  ghost predicate Absent(facts: Facts, c: Calls, path: Path, content: seq<byte>, began: Inventory, ended: Inventory) {
    exists t: nat :: began.tick <= t < ended.tick && !FolderHolds(facts, c.worlds(t), path, content)
  }

  // ----- with the sibling warm and still there ---------------------------------------------

  lemma RecordedLater(facts: Facts, c: Calls, d: Dir, l: Listing, t: nat, later: nat)
    requires RecordedBefore(facts, c, d, l, t) && t <= later
    ensures RecordedBefore(facts, c, d, l, later)
  {
  }

  lemma InventoriedKeeps(facts: Facts, c: Calls, i: Inventory, d: Dir)
    requires Honest(facts, c.worlds) && RecordedIn(facts, c, i)
    ensures var known := Inventoried(c, i, d);
      RecordedIn(facts, c, known) && i.tick <= known.tick && d in known.entries && i.entries.Keys <= known.entries.Keys
    ensures forall k | k in i.entries :: Inventoried(c, i, d).entries[k] == i.entries[k]
  {
    hide Honest, IsListing, RecordedBefore, FirstLook;
    if d !in i.entries {
      FirstLookEnds(c, d, i.tick);
      var (l, t) := FirstLook(c, d, i.tick);
      forall k | k in i.entries && i.entries[k].Some? ensures RecordedBefore(facts, c, k, i.entries[k].value, t) {
        RecordedLater(facts, c, k, i.entries[k].value, i.tick, t);
      }
      if l.Some? {
        FirstLookIsListing(facts, c, d, i.tick);
        RecordedAt(facts, c, d, l.value, i.tick, t);
      }
    }
  }

  lemma FirstLookEnds(c: Calls, d: Dir, t: nat)
    ensures t < FirstLook(c, d, t).1
  {
  }

  lemma RecordedAt(facts: Facts, c: Calls, d: Dir, l: Listing, s: nat, t: nat)
    requires IsListing(facts, d, l) && s < t && DirAt(c.worlds(s), d) == l.signature
    ensures RecordedBefore(facts, c, d, l, t)
  {
  }

  lemma DirectoryKeeps(facts: Facts, c: Calls, i: Inventory, d: Dir)
    requires Honest(facts, c.worlds) && RecordedIn(facts, c, i)
    ensures var (found, known) := DirectoryLook(c, i, d);
      && RecordedIn(facts, c, known) && i.tick <= known.tick && d in known.entries
      && (forall k | k in i.entries :: k in known.entries && known.entries[k] == i.entries[k])
      && (found.Some? ==>
            && i.tick < known.tick && known.entries[d] == Some(Listing(DirAt(c.worlds(known.tick - 1), d), found.value))
            && RecordedBefore(facts, c, d, known.entries[d].value, known.tick - 1))
  {
    hide Honest, RecordedBefore, Inventoried, DirAt;
    InventoriedKeeps(facts, c, i, d);
    var known := Inventoried(c, i, d);
    forall k | k in known.entries && known.entries[k].Some?
      ensures RecordedBefore(facts, c, k, known.entries[k].value, known.tick + 1)
    {
      RecordedLater(facts, c, k, known.entries[k].value, known.tick, known.tick + 1);
    }
  }

  lemma CandidatesKeep(facts: Facts, c: Calls, i: Inventory, path: Path)
    requires Honest(facts, c.worlds) && RecordedIn(facts, c, i)
    ensures RecordedIn(facts, c, CandidatesLook(c, i, path).1) && i.tick <= CandidatesLook(c, i, path).1.tick
  {
    hide Honest, RecordedIn, DirectoryLook, WithUniq;
    DirectoryKeeps(facts, c, i, path.dirs);
    if Sibling(path.dirs).Some? {
      DirectoryKeeps(facts, c, DirectoryLook(c, i, path.dirs).1, Sibling(path.dirs).value);
    }
  }

  /** A listing that is the directory's now lists it now. */
  lemma RecordedLists(facts: Facts, c: Calls, d: Dir, l: Listing, t: nat)
    requires Honest(facts, c.worlds) && IsListing(facts, d, l) && DirAt(c.worlds(t), d) == l.signature
    ensures forall p: Path | p.dirs == d && p in c.worlds(t).names :: p in l.children
  {
    hide Honest, IsListing, DirAt;
    ListedAt(facts, c.worlds, d, l, t);
  }

  /** A listing recorded before `t` and found unchanged after it lists the directory at `t`, if that is there later. */
  lemma ListsBetween(facts: Facts, c: Calls, d: Dir, l: Listing, t: nat, later: nat)
    requires Honest(facts, c.worlds) && RecordedBefore(facts, c, d, l, t) && t <= later
    requires DirAt(c.worlds(later), d) == l.signature
    requires d in c.worlds(t).dirs ==> d in c.worlds(later).dirs
    ensures forall p: Path | p.dirs == d && p in c.worlds(t).names :: p in l.children
  {
    hide Honest, IsListing;
    if d in c.worlds(t).dirs {
      var s: nat :| s < t && DirAt(c.worlds(s), d) == l.signature;
      DirUnchanged(facts, c.worlds, d, s, t, later);
      RecordedLists(facts, c, d, l, t);
    } else {
      NotThere(facts, c, d, t);
    }
  }

  lemma NotThere(facts: Facts, c: Calls, d: Dir, t: nat)
    requires Honest(facts, c.worlds) && d !in c.worlds(t).dirs
    ensures forall p: Path | p.dirs == d :: p !in c.worlds(t).names
  {
    assert Consistent(facts, c.worlds(t));
  }

  lemma NotListedNotHeld(facts: Facts, w: World, path: Path, own: set<Path>, other: set<Path>, content: seq<byte>)
    requires WithUniq(own, path) == {} && WithUniq(other, path) == {}
    requires forall p: Path | p.dirs == path.dirs && p in w.names :: p in own
    requires forall p: Path | Some(p.dirs) == Sibling(path.dirs) && p in w.names :: p in other
    ensures !FolderHolds(facts, w, path, content)
  {
    hide Uniq, Sibling;
    forall p: Path | InFolder(path, p) ensures !Holds(facts, w, p, content) {
      assert p in own ==> p in WithUniq(own, path);
      assert p in other ==> p in WithUniq(other, path);
    }
  }

  lemma WarmIsAbsent(facts: Facts, c: Calls, path: Path, content: seq<byte>, start: Inventory, began: Inventory,
                     ended: Inventory)
    requires Retires(facts, c, path, start, began, ended) && Warm(path, began) && Stays(c, path, began, ended)
    ensures Absent(facts, c, path, content, began, ended)
  {
    hide Honest, RecordedIn, RecordedBefore, DirectoryLook, WithUniq, IsListing, DirAt, FolderHolds, Sibling;
    CandidatesKeep(facts, c, start, path);
    DirectoryKeeps(facts, c, began, path.dirs);
    var (own, looked) := DirectoryLook(c, began, path.dirs);
    var t := OwnLook(c, path, began);
    assert RecordedBefore(facts, c, path.dirs, looked.entries[path.dirs].value, t);
    ListsBetween(facts, c, path.dirs, looked.entries[path.dirs].value, t, t);
    var other: set<Path> := {};
    if Sibling(path.dirs).Some? {
      var sibling := Sibling(path.dirs).value;
      DirectoryKeeps(facts, c, looked, sibling);
      other := DirectoryLook(c, looked, sibling).0.value;
      var l := ended.entries[sibling].value;
      assert began.entries[sibling] == Some(l);
      KnownAt(facts, c, began, sibling, l, t);
      ListsBetween(facts, c, sibling, l, t, ended.tick - 1);
    } else {
      NoneWithUniq(path);
    }
    assert WithUniq(own.value, path) == {} && WithUniq(other, path) == {};
    NotListedNotHeld(facts, c.worlds(t), path, own.value, other, content);
  }

  lemma KnownAt(facts: Facts, c: Calls, i: Inventory, d: Dir, l: Listing, t: nat)
    requires RecordedIn(facts, c, i) && d in i.entries && i.entries[d] == Some(l) && i.tick <= t
    ensures RecordedBefore(facts, c, d, l, t)
  {
    RecordedLater(facts, c, d, l, i.tick, t);
  }

  // ----- a file on its way from `new` to `cur` ------------------------------------------------

  const CUR: Dir := ["in", "cur"]
  const NEW: Dir := ["in", "new"]

  /** The file is elsewhere, then in `new`, then in `cur`; `new` stays or goes with the last move. */
  function MovingWorld(size: nat, stays: bool, phase: nat): World {
    if phase == 0 then World(map[], map[], map[CUR := Identity(0, 0, 2, 0, 0)])
    else if phase == 1 then
      World(map[Path(NEW, "u") := Entry(Inode(0, 1), false)], map[Inode(0, 1) := Identity(size, 0, 1, 0, 0)],
            map[CUR := Identity(0, 0, 2, 0, 0), NEW := Identity(0, 0, 3, 1, 0)])
    else
      World(map[Path(CUR, "u") := Entry(Inode(0, 1), false)], map[Inode(0, 1) := Identity(size, 0, 1, 1, 0)],
            if stays then map[CUR := Identity(0, 0, 2, 1, 0), NEW := Identity(0, 0, 3, 2, 0)]
            else map[CUR := Identity(0, 0, 2, 1, 0)])
  }

  function PhaseAt(first: nat, second: nat, t: nat): nat {
    if t < first then 0 else if t < second then 1 else 2
  }

  function Moving(size: nat, stays: bool, first: nat, second: nat): nat -> World {
    (t: nat) => MovingWorld(size, stays, PhaseAt(first, second, t))
  }

  function MovingFacts(content: seq<byte>, hash: seq<byte> -> Digest): Facts {
    Facts(id => content, id => true, (id: Identity) => if id.ctime == 1 then {"u"} else {}, hash)
  }

  lemma TheDirsDiffer()
    ensures CUR != NEW && Sibling(CUR) == Some(NEW)
  {
    assert "cur"[0] != "new"[0];
    assert CUR[1] != NEW[1];
    assert CUR[..1] + ["new"] == NEW;
  }

  lemma MovingIsConsistent(content: seq<byte>, hash: seq<byte> -> Digest, stays: bool, phase: nat)
    ensures Consistent(MovingFacts(content, hash), MovingWorld(|content|, stays, phase))
  {
    TheDirsDiffer();
    var facts, w := MovingFacts(content, hash), MovingWorld(|content|, stays, phase);
    forall d, name | d in w.dirs ensures name in facts.listing(w.dirs[d]) <==> Path(d, name) in w.names {
      assert w.dirs[d].ctime == 1 <==> phase > 0 && d == (if phase == 1 then NEW else CUR);
    }
  }

  /** The phases bring nothing back: what two of them share the ones between have. */
  lemma NothingReturns(size: nat, stays: bool, p: Path, n: Inode, d: Dir, x: nat, y: nat, z: nat)
    requires x <= y <= z <= 2
    ensures var a, b, c := MovingWorld(size, stays, x), MovingWorld(size, stays, y), MovingWorld(size, stays, z);
      && (StatAt(a, p).Some? && StatAt(a, p) == StatAt(c, p) ==> StatAt(b, p) == StatAt(a, p))
      && (NodeAt(a, n).Some? && NodeAt(a, n) == NodeAt(c, n) ==> NodeAt(b, n) == NodeAt(a, n))
      && (DirAt(a, d).Some? && DirAt(a, d) == DirAt(c, d) ==> DirAt(b, d) == DirAt(a, d))
  {
    TheDirsDiffer();
  }

  lemma MovingIsHonest(content: seq<byte>, hash: seq<byte> -> Digest, stays: bool, first: nat, second: nat)
    ensures Honest(MovingFacts(content, hash), Moving(|content|, stays, first, second))
  {
    hide MovingWorld, Consistent, StatAt, NodeAt, DirAt;
    var worlds := Moving(|content|, stays, first, second);
    forall t: nat ensures Consistent(MovingFacts(content, hash), worlds(t)) {
      MovingIsConsistent(content, hash, stays, PhaseAt(first, second, t));
    }
    var path, node := Path(CUR, "u"), Inode(0, 1);
    forall p ensures PathOnce(worlds, p) {
      forall i: nat, j: nat, k: nat | i <= j <= k && StatAt(worlds(i), p).Some?
      && StatAt(worlds(i), p) == StatAt(worlds(k), p)
        ensures StatAt(worlds(j), p) == StatAt(worlds(i), p)
      {
        NothingReturns(|content|, stays, p, node, CUR, PhaseAt(first, second, i), PhaseAt(first, second, j),
                       PhaseAt(first, second, k));
      }
    }
    forall n ensures NodeOnce(worlds, n) {
      forall i: nat, j: nat, k: nat | i <= j <= k && NodeAt(worlds(i), n).Some?
      && NodeAt(worlds(i), n) == NodeAt(worlds(k), n)
        ensures NodeAt(worlds(j), n) == NodeAt(worlds(i), n)
      {
        NothingReturns(|content|, stays, path, n, CUR, PhaseAt(first, second, i), PhaseAt(first, second, j),
                       PhaseAt(first, second, k));
      }
    }
    forall d ensures DirOnce(worlds, d) {
      forall i: nat, j: nat, k: nat | i <= j <= k && DirAt(worlds(i), d).Some?
      && DirAt(worlds(i), d) == DirAt(worlds(k), d)
        ensures DirAt(worlds(j), d) == DirAt(worlds(i), d)
      {
        NothingReturns(|content|, stays, path, node, d, PhaseAt(first, second, i), PhaseAt(first, second, j),
                       PhaseAt(first, second, k));
      }
    }
  }

  lemma MovingIsHeld(content: seq<byte>, hash: seq<byte> -> Digest, stays: bool, phase: nat)
    requires phase > 0
    ensures FolderHolds(MovingFacts(content, hash), MovingWorld(|content|, stays, phase), Path(CUR, "u"), content)
  {
    hide Uniq, Sibling;
    TheDirsDiffer();
    var p := if phase == 1 then Path(NEW, "u") else Path(CUR, "u");
    assert InFolder(Path(CUR, "u"), p);
    assert Holds(MovingFacts(content, hash), MovingWorld(|content|, stays, phase), p, content);
  }

  /** Whose call at tick 3, and no other, fails. */
  function Calling(worlds: nat -> World, third: bool): Calls {
    Calls(worlds, (t: nat) => third && t == 3)
  }

  const NOTHING := Inventory(map[], 0)
  const CUR_EMPTY := Listing(Some(Identity(0, 0, 2, 0, 0)), {})

  /** The first look at `cur`, while it is empty. */
  lemma CurIsEmpty(size: nat, stays: bool, first: nat, second: nat, third: bool)
    requires second > 2
    ensures FirstLook(Calling(Moving(size, stays, first, second), third), CUR, 0) == (Some(CUR_EMPTY), 3)
  {
    TheDirsDiffer();
    assert Children(Moving(size, stays, first, second)(1), CUR) == {};
  }

  lemma NewIsEmpty(size: nat, stays: bool)
    ensures FirstLook(Calling(Moving(size, stays, 0, 5), true), NEW, 5)
      == (Some(Listing(if stays then Some(Identity(0, 0, 3, 2, 0)) else None, {})), if stays then 8 else 7)
  {
    TheDirsDiffer();
    assert Children(Moving(size, stays, 0, 5)(6), NEW) == {};
  }

  lemma NewIsMissing(size: nat)
    ensures FirstLook(Calling(Moving(size, false, 7, 8), false), NEW, 4) == (Some(Listing(None, {})), 6)
  {
    TheDirsDiffer();
  }

  /** The warm-up's check of `cur` fails, so `new` is listed only inside the transaction, after the file left it. */
  lemma ColdLooks(size: nat, stays: bool)
    ensures var c, began := Calling(Moving(size, stays, 0, 5), true), Inventory(map[CUR := Some(CUR_EMPTY)], 4);
      var newEmpty := Listing(if stays then Some(Identity(0, 0, 3, 2, 0)) else None, {});
      && CandidatesLook(c, NOTHING, Path(CUR, "u")) == (None, began)
      && CandidatesLook(c, began, Path(CUR, "u"))
         == (Some({}), Inventory(began.entries[NEW := Some(newEmpty)], if stays then 9 else 8))
      && OwnLook(c, Path(CUR, "u"), began) == 4
  {
    hide Uniq, Sibling, FirstLook, WithUniq;
    TheDirsDiffer();
    CurIsEmpty(size, stays, 0, 5, true);
    NewIsEmpty(size, stays);
    NoneWithUniq(Path(CUR, "u"));
    assert WithUniq({}, Path(CUR, "u")) + WithUniq({}, Path(CUR, "u")) == {};
    var c, began := Calling(Moving(size, stays, 0, 5), true), Inventory(map[CUR := Some(CUR_EMPTY)], 4);
    assert Inventoried(c, NOTHING, CUR) == Inventory(map[CUR := Some(CUR_EMPTY)], 3);
    assert DirectoryLook(c, NOTHING, CUR) == (None, began);
    assert DirectoryLook(c, began, CUR) == (Some({}), began.(tick := 5));
    assert Inventoried(c, began.(tick := 5), NEW)
        == Inventory(began.entries[NEW := Some(Listing(if stays then Some(Identity(0, 0, 3, 2, 0)) else None, {}))],
                     if stays then 8 else 7);
  }

  /** `new` is missing when it is inventoried and at the last look, and there in between. */
  lemma RemovedLooks(size: nat)
    ensures var c, began := Calling(Moving(size, false, 7, 8),
                                    false), Inventory(map[CUR := Some(CUR_EMPTY), NEW := Some(Listing(None, {}))], 7);
      && CandidatesLook(c, NOTHING, Path(CUR, "u")) == (Some({}), began)
      && CandidatesLook(c, began, Path(CUR, "u")) == (Some({}), began.(tick := 9))
      && OwnLook(c, Path(CUR, "u"), began) == 7
  {
    hide Uniq, Sibling, FirstLook, WithUniq;
    TheDirsDiffer();
    CurIsEmpty(size, false, 7, 8, false);
    NewIsMissing(size);
    NoneWithUniq(Path(CUR, "u"));
    assert WithUniq({}, Path(CUR, "u")) + WithUniq({}, Path(CUR, "u")) == {};
    var c, began := Calling(Moving(size, false, 7, 8),
                            false), Inventory(map[CUR := Some(CUR_EMPTY), NEW := Some(Listing(None, {}))], 7);
    var looked := Inventory(map[CUR := Some(CUR_EMPTY)], 4);
    assert Inventoried(c, NOTHING, CUR) == looked.(tick := 3);
    assert DirectoryLook(c, NOTHING, CUR) == (Some({}), looked);
    assert Inventoried(c, looked, NEW) == began.(tick := 6);
    assert DirectoryLook(c, looked, NEW) == (Some({}), began);
    assert DirectoryLook(c, began, CUR) == (Some({}), began.(tick := 8));
    assert DirectoryLook(c, began.(tick := 8), NEW) == (Some({}), began.(tick := 9));
  }

  // ----- the exact condition ------------------------------------------------------------------

  /** However the disk behaves, a retirement of this kind has an instant without the bytes. */
  ghost predicate AlwaysAbsent(warm: bool, stays: bool) {
    forall facts, c, path, content: seq<byte>, start, began, ended |
           RetiresAs(facts, c, path, start, began, ended, warm, stays) ::
      Absent(facts, c, path, content, began, ended)
  }

  ghost predicate RetiresAs(facts: Facts, c: Calls, path: Path, start: Inventory, began: Inventory, ended: Inventory,
                            warm: bool,
                            stays: bool)
  {
    Retires(facts, c, path, start, began, ended) && Warm(path, began) == warm && Stays(c, path, began, ended) == stays
  }

  /**
   * A vanished retirement proves that the folder held none of the message's bytes at one
   * instant exactly when the sibling was inventoried before the transaction and is not
   * removed in it.
   */
  lemma InstantIff(warm: bool, stays: bool)
    ensures AlwaysAbsent(warm, stays) <==> warm && stays
  {
    hide Retires, Warm, Stays, Absent;
    if warm && stays {
      forall facts, c, path, content: seq<byte>, start, began, ended |
             RetiresAs(facts, c, path, start, began, ended, true, true)
        ensures Absent(facts, c, path, content, began, ended)
      {
        WarmIsAbsent(facts, c, path, content, start, began, ended);
      }
    } else if warm {
      RemovedIsHeld([], bytes => "");
    } else {
      ColdIsHeld([], bytes => "", stays);
    }
  }

  lemma ColdIsHeld(content: seq<byte>, hash: seq<byte> -> Digest, stays: bool)
    ensures exists facts, c, path, start, began, ended ::
              RetiresAs(facts, c, path, start, began, ended, false, stays)
              && !Absent(facts, c, path, content, began, ended)
  {
    hide Uniq, Sibling, CandidatesLook, FolderHolds, Honest, FirstLook, OwnLook;
    TheDirsDiffer();
    MovingIsHonest(content, hash, stays, 0, 5);
    ColdLooks(|content|, stays);
    var facts, c := MovingFacts(content, hash), Calling(Moving(|content|, stays, 0, 5), true);
    var path := Path(CUR, "u");
    var began := CandidatesLook(c, NOTHING, path).1;
    var ended := CandidatesLook(c, began, path).1;
    AlwaysHeld(content, hash, stays, 0, 5, began, ended);
    assert RetiresAs(facts, c, path, NOTHING, began, ended, false, stays);
  }

  lemma RemovedIsHeld(content: seq<byte>, hash: seq<byte> -> Digest)
    ensures exists facts, c, path, start, began, ended ::
              RetiresAs(facts, c, path, start, began, ended, true, false)
              && !Absent(facts, c, path, content, began, ended)
  {
    hide Uniq, Sibling, CandidatesLook, FolderHolds, Honest, FirstLook, OwnLook;
    TheDirsDiffer();
    MovingIsHonest(content, hash, false, 7, 8);
    RemovedLooks(|content|);
    var facts, c := MovingFacts(content, hash), Calling(Moving(|content|, false, 7, 8), false);
    var path := Path(CUR, "u");
    var began := CandidatesLook(c, NOTHING, path).1;
    var ended := CandidatesLook(c, began, path).1;
    AlwaysHeld(content, hash, false, 7, 8, began, ended);
    assert RetiresAs(facts, c, path, NOTHING, began, ended, true, false);
  }

  lemma AlwaysHeld(content: seq<byte>, hash: seq<byte> -> Digest, stays: bool, first: nat, second: nat,
                   began: Inventory, ended: Inventory)
    requires first <= began.tick && first <= second
    ensures forall third: bool ::
              !Absent(MovingFacts(content, hash), Calling(Moving(|content|, stays, first, second), third),
                      Path(CUR, "u"), content, began, ended)
    ensures forall t: nat | first <= t ::
              FolderHolds(MovingFacts(content, hash), Moving(|content|, stays, first, second)(t), Path(CUR, "u"),
                          content)
  {
    hide FolderHolds, Sibling, MovingWorld;
    forall t: nat | first <= t
      ensures FolderHolds(MovingFacts(content, hash), Moving(|content|, stays, first, second)(t), Path(CUR, "u"),
                          content)
    {
      MovingIsHeld(content, hash, stays, PhaseAt(first, second, t));
    }
  }

  // ----- the runs -------------------------------------------------------------------------------

  /** A database with one message, whose copy is at `cur`, that no one else writes to. */
  method OneCopy(disk: Disk, c: Claimant, content: Contents) returns (db: Database, o: Seen)
    requires disk.Valid() && Injective(disk.facts.hash)
    ensures fresh(db) && fresh(db.store) && db.Valid() && db.Known(o) && db.disk == disk && db.content == content
    ensures o.claimant == c && o.path == Path(CUR, "u") && ActiveAt(db.store.Tables(), o.path, o.id)
    ensures forall n, d :: db.others(n, d) == d
  {
    hide Uniq, Honest, Rows, Bind, Peers, Explains;
    var path := Path(CUR, "u");
    var store := new Store();
    store.threadOf := map[c := "t"];
    OneBound(c, path);
    store.BindOccurrence(c, path, Scanned, 0, 0);
    NoPeers(disk.facts, content);
    db := new Database(disk, store, content, Alone(), n => 0, map[c := MessageRow(None, None)]);
    o := Seen(0, path, Locate(path), c, MessageRow(None, None));
  }

  lemma OneBound(c: Claimant, path: Path)
    ensures var empty := Mailbox.Tables(map[], map[], map[c := "t"]);
      var t := Bind(empty, c, path, Scanned, 0, 0);
      && Rows(empty) && t.threadOf == empty.threadOf
      && ActiveAt(t, path, 0) && t.occ[0].claimant == c
  {
    hide Locate, IsTrashed, StateOf;
  }

  function Alone(): (nat, Db) -> Db {
    (n, d) => d
  }

  lemma NoPeers(facts: Facts, content: Contents)
    ensures Peers(facts, content, Alone())
  {
    hide Good;
    forall n: nat, db: Db ensures Keeps(db.tables, Alone()(n, db).tables) {
      KeepsSelf(db.tables);
    }
  }

  /** `retire_vanished_occurrence` of that copy, with a fresh inventory. */
  method Retirement(disk: Disk, c: Claimant, content: Contents) returns (db: Database, o: Seen, retired: bool)
    requires disk.Valid() && Injective(disk.facts.hash) && disk.tick == 0
    modifies disk
    ensures db.disk == disk && db.content == content && o.claimant == c && o.path == Path(CUR, "u")
    ensures var (warmed, began) := CandidatesLook(disk.Meets(), NOTHING, o.path);
      retired <==> CandidatesLook(disk.Meets(), began, o.path).0 == Some({})
    ensures o.id in db.store.occ && db.store.occ[o.id].claimant == c
    ensures retired ==> !db.store.occ[o.id].Active()
    ensures db.began == CandidatesLook(disk.Meets(), NOTHING, o.path).1.tick
  {
    hide Uniq, Honest, CandidatesLook, Disk.Meets, Digests, Rows, Good, Peers;
    db, o := OneCopy(disk, c, content);
    var inventory := new FolderInventory(disk, map[]);
    ghost var m := db.Now();
    ghost var own, found;
    retired, own, found := db.RetireVanished(o, inventory);
    VanishedRow(db, m, o);
  }

  /** With no one else writing, the look at the folder decides, and the row is retired or stays active. */
  lemma VanishedRow(db: Database, m: Moment, o: Seen)
    requires (forall n, d :: db.others(n, d) == d) && ActiveAt(m.tables, o.path, o.id)
    ensures var (found, own, after, _) := VanishRun(db, m, NOTHING, o);
      && (own.Some? <==> found == Some({}))
      && o.id in after.tables.occ && after.tables.occ[o.id].claimant == m.tables.occ[o.id].claimant
      && (own.Some? ==> !after.tables.occ[o.id].Active())
  {
    hide CandidatesLook, OwnLook, HasSibling;
  }

  /**
   * A copy is retired although its folder holds its bytes at every instant, whatever they are:
   * the file is in `new` until its own directory was looked at, and in `cur` from then on.
   */
  method ColdRetirement(c: Claimant, content: Contents, hash: seq<byte> -> Digest, stays: bool)
    returns (db: Database, o: Seen)
    requires Injective(hash)
    ensures db.content == content && o.claimant == c && o.path == Path(CUR, "u")
    ensures o.id in db.store.occ && db.store.occ[o.id].claimant == c && !db.store.occ[o.id].Active()
    ensures forall t: nat :: FolderHolds(db.disk.facts, db.disk.worlds(t), o.path, content(c))
  {
    hide Uniq, Honest, CandidatesLook, MovingWorld, FolderHolds, Sibling;
    var calls := Calling(Moving(|content(c)|, stays, 0, 5), true);
    MovingIsHonest(content(c), hash, stays, 0, 5);
    AlwaysHeld(content(c), hash, stays, 0, 5, NOTHING, NOTHING);
    ColdLooks(|content(c)|, stays);
    var disk := new Disk(MovingFacts(content(c), hash), calls.worlds, calls.fails, t => 0);
    var retired;
    db, o, retired := Retirement(disk, c, content);
  }

  /** The same at every instant of the transaction, when `new` is missing before it, there once, and removed. */
  method RemovedRetirement(c: Claimant, content: Contents, hash: seq<byte> -> Digest) returns (db: Database, o: Seen)
    requires Injective(hash)
    ensures db.content == content && o.claimant == c && o.path == Path(CUR, "u")
    ensures o.id in db.store.occ && db.store.occ[o.id].claimant == c && !db.store.occ[o.id].Active()
    ensures forall t: nat | db.began <= t :: FolderHolds(db.disk.facts, db.disk.worlds(t), o.path, content(c))
  {
    hide Uniq, Honest, CandidatesLook, MovingWorld, FolderHolds, Sibling;
    var calls := Calling(Moving(|content(c)|, false, 7, 8), false);
    MovingIsHonest(content(c), hash, false, 7, 8);
    AlwaysHeld(content(c), hash, false, 7, 8, NOTHING.(tick := 7), NOTHING);
    RemovedLooks(|content(c)|);
    var disk := new Disk(MovingFacts(content(c), hash), calls.worlds, calls.fails, t => 0);
    var retired;
    db, o, retired := Retirement(disk, c, content);
  }
}
