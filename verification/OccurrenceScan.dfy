/**
 * The scan itself: what it reads first, and what it does about each occurrence and file.
 * An `Act` records the ticks at which files were looked at, so that a contract can say
 * exactly when a copy is kept, followed, retired or left.
 */
module OccurrenceScan {
  import opened Wrappers
  import opened Maildir
  import opened Mailbox
  import opened MailboxStore
  import opened FileEvidence
  import opened ScanTransactions

  /** The digests known, and the reads that were tried for them. */
  datatype Reads = Reads(cache: map<Key, Digest>, attempted: set<Key>, files: nat, bytes: nat)

  /** `_ScanHashes`: one budget for every read, all of them before the first write. */
  class ScanHashes {
    const disk: Disk
    var cache: map<Key, Digest>
    var preparing: bool
    var files: nat
    var bytes: nat
    var attempted: set<Key>
    var attemptedPaths: set<Path>
    var deferredPaths: set<Path>

    constructor (disk: Disk, cache: map<Key, Digest>)
      requires disk.Valid() && Digests(disk.facts, cache)
      ensures Valid() && this.disk == disk && preparing
    {
      this.disk, this.cache := disk, cache;
      preparing, files, bytes := true, 0, 0;
      attempted, attemptedPaths, deferredPaths := {}, {}, {};
    }

    ghost predicate Valid()
      reads this
    {
      disk.Valid() && Digests(disk.facts, cache) && files <= MAX_HASH_FILES && bytes <= MAX_HASH_BYTES
    }

    function Tried(): Reads
      reads this
    {
      Reads(cache, attempted, files, bytes)
    }

    method Digest(path: Path, identity: Identity) returns (r: Option<Digest>)
      requires Valid()
      modifies this, disk
      ensures Valid() && disk.tick >= old(disk.tick) && preparing == old(preparing)
      ensures r.Some? ==> disk.facts.regular(identity) && r.value == disk.facts.hash(disk.facts.bytes(identity))
      ensures var key := (path, identity);
              var room := old(files) < MAX_HASH_FILES && old(bytes) + identity.size <= MAX_HASH_BYTES;
              var read := key !in old(cache) && key !in old(attempted) && preparing && room;
              && (key in old(cache) ==> r == Some(old(cache)[key]))
              && (key !in old(cache) && !read ==> r.None?)
              && (read && Undisturbed(disk, path, identity, old(disk.tick)) ==> r.Some?)
              && cache == (if read && r.Some? then old(cache)[key := r.value] else old(cache))
              && (!read ==> disk.tick == old(disk.tick))
              && attempted == (if read then old(attempted) + {key} else old(attempted))
              && files == old(files) + (if read then 1 else 0) && bytes
                  == old(bytes) + (if read then identity.size else 0)
    {
      hide Honest, Undisturbed;
      var key := (path, identity);
      if key in cache {
        return Some(cache[key]);
      }
      if key in attempted || !preparing {
        return None;
      }
      if files >= MAX_HASH_FILES || bytes + identity.size > MAX_HASH_BYTES {
        deferredPaths := deferredPaths + {path};
        return None;
      }
      attempted := attempted + {key};
      attemptedPaths := attemptedPaths + {path};
      files, bytes := files + 1, bytes + identity.size;
      r := ReadDigest(disk, path, identity);
      if r.Some? {
        cache := cache[key := r.value];
      }
    }
  }

  // ----- what a scan decides ------------------------------------------------------------------------

  /** Whether the file is the message's, as far as its size and a digest read before tell. */
  function Verdict(o: Seen, st: Option<Identity>, p: Path, cache: map<Key, Digest>): Option<bool> {
    if st.None? || o.row.hash.None? then None
    else if o.row.size.Some? && st.value.size != o.row.size.value then Some(false)
    else if (p, st.value) in cache then Some(Some(cache[(p, st.value)]) == o.row.hash)
    else None
  }

  /** The files found under the occurrence's folder and uniq, in order. */
  function Namesakes(files: seq<Path>, o: Seen): seq<Path> {
    if files == [] then []
    else
      var p := files[|files|-1];
      Namesakes(files[..|files|-1], o) + if Locate(p) == o.where then [p] else []
  }

  // ----- what a scan comes to, call by call ----------------------------------------------------------

  /** What the scan did about one occurrence, with the ticks at which it looked. */
  datatype Act =
    | Skipped
    | Kept(at: nat)
    | Stale(at: nat, own: Option<Change>)
    | Followed(to: Path, checkedAt: map<Path, nat>, own: Option<Change>)
    | Refuted(checkedAt: map<Path, nat>, absent: bool, own: Option<Change>)
    | Gone(found: Option<set<Path>>, own: Option<Change>)
    | Left(checkedAt: map<Path, nat>)

  /** The candidates tried so far: where the occurrence moved, or what was proved of them. */
  datatype Trial = Trial(movedTo: Option<Path>, own: Option<Change>, proven: map<Path, Identity>,
                         checkedAt: map<Path, nat>, m: Moment)

  ghost function TryOne(db: Database, cache: map<Key, Digest>, t: Trial, o: Seen, p: Path, held: set<Path>): Trial {
    var at, st := t.m.tick, Look(db.disk, p, t.m.tick);
    var verdict, looked := Verdict(o, st, p, cache), t.m.(tick := at + 1);
    var checked := t.(checkedAt := t.checkedAt[p := at], m := looked);
    if verdict == Some(false) then checked.(proven := t.proven[p := st.value])
    else if verdict == Some(true) && p !in held then
      var (own, after) := MoveRun(db, looked, o, p, st.value);
      checked.(movedTo := if own.Some? then Some(p) else None, own := own, m := after)
    else checked
  }

  /** The candidates in order, until one is moved to. */
  ghost function TryRun(db: Database, cache: map<Key, Digest>, m: Moment, o: Seen, same: seq<Path>,
                        held: set<Path>): Trial {
    if same == [] then Trial(None, None, map[], map[], m)
    else
      var before := TryRun(db, cache, m, o, same[..|same|-1], held);
      if before.movedTo.Some? then before else TryOne(db, cache, before, o, same[|same|-1], held)
  }

  /** An occurrence whose file was found: the content backstop, when it is on. */
  ghost function HeldRun(db: Database, cache: map<Key, Digest>, m: Moment, o: Seen, backstop: bool): (Act, Moment) {
    if !backstop || o.row.hash.None? then (Kept(m.tick), m)
    else
      var st, looked := Look(db.disk, o.path, m.tick), m.(tick := m.tick + 1);
      if Verdict(o, st, o.path, cache) != Some(false) then (Kept(m.tick), looked)
      else
        var (own, after) := MismatchRun(db, looked, o, st.value);
        (Stale(m.tick, own), after)
  }

  /** What the scan is given: its two lists, what it may read, and how complete the walk was. */
  datatype Pass = Pass(cache: map<Key, Digest>, files: seq<Path>, scope: Dir, admitted: set<Path>, backstop: bool,
                       complete: bool)

  type Entries = map<Dir, Option<Listing>>

  ghost function OccurrenceRun(db: Database, pass: Pass, m: Moment, entries: Entries, o: Seen, held: set<Path>)
    : (Act, Moment, Entries)
  {
    if o.path in pass.files then
      var (act, after) := HeldRun(db, pass.cache, m, o, pass.backstop);
      (act, after, entries)
    else
      var same := Namesakes(pass.files, o);
      UnheldRun(db, pass, TryRun(db, pass.cache, m, o, same, held), entries, o, same)
  }

  /** An occurrence whose file was not found, its candidates tried. */
  ghost function UnheldRun(db: Database, pass: Pass, t: Trial, entries: Entries, o: Seen, same: seq<Path>)
    : (Act, Moment, Entries)
  {
    if t.movedTo.Some? then (Followed(t.movedTo.value, t.checkedAt, t.own), t.m, entries)
    else if t.proven != map[] && t.proven.Keys == SetOf(same) then
      var (absent, own, after, i) := RefuteRun(db, t.m, Inventory(entries, t.m.tick), o, t.proven, same);
      (Refuted(t.checkedAt, absent, own), after, i.entries)
    else if same == [] && pass.complete then
      var (found, own, after, i) := VanishRun(db, t.m, Inventory(entries, t.m.tick), o);
      (Gone(found, own), after, i.entries)
    else (Left(t.checkedAt), t.m, entries)
  }

  /** The occurrences so far: what was done, where that leaves everything, and the paths held then. */
  datatype Progress = Progress(acts: seq<Act>, m: Moment, entries: Entries, held: set<Path>)

  ghost function OccurrencesRun(db: Database, pass: Pass, m: Moment, entries: Entries, occurrences: seq<Seen>,
                                held: set<Path>): Progress {
    if occurrences == [] then Progress([], m, entries, held)
    else
      var before := OccurrencesRun(db, pass, m, entries, occurrences[..|occurrences|-1], held);
      OneOccurrence(db, pass, before, occurrences[|occurrences|-1])
  }

  ghost function OneOccurrence(db: Database, pass: Pass, before: Progress, o: Seen): Progress {
    if !(pass.scope <= o.path.dirs) then before.(acts := before.acts + [Skipped])
    else
      var (act, after, entries) := OccurrenceRun(db, pass, before.m, before.entries, o, before.held);
      Progress(before.acts + [act], after, entries, before.held + if act.Followed? then {act.to} else {})
  }

  /** What the scan did about a file: nothing if it is held, or a look, or a bind it tried. */
  datatype FileAct =
    | Held
    | Ignored(at: nat)
    | Tried(at: nat, c: Claimant, own: Option<Change>)

  /** The first claimant with that content, if there is one. */
  ghost function ClaimantFor(messages: map<Claimant, MessageRow>, digest: Digest): Option<Claimant> {
    if exists c :: IsFirst(messages, digest, c) then
      var c :| IsFirst(messages, digest, c);
      Some(c)
    else None
  }

  ghost predicate IsFirst(messages: map<Claimant, MessageRow>, digest: Digest, c: Claimant) {
    && c in messages && messages[c].hash == Some(digest)
    && forall d | d in messages && messages[d].hash == Some(digest) :: d == c || Precedes(c, d)
  }

  /** A file is tried exactly when it is admitted, its digest is known and names a message. */
  ghost function FileRun(db: Database, cache: map<Key, Digest>, m: Moment, path: Path, admitted: bool)
    : (FileAct, Moment)
  {
    var st, looked := Look(db.disk, path, m.tick), m.(tick := m.tick + 1);
    if st.None? || !admitted || (path, st.value) !in cache then (Ignored(m.tick), looked)
    else
      var c := ClaimantFor(m.messages, cache[(path, st.value)]);
      if c.None? then (Ignored(m.tick), looked)
      else
        var (own, after) := BindRun(db, looked, c.value, path, st.value);
        (Tried(m.tick, c.value, own), after)
  }

  ghost function FilesRun(db: Database, pass: Pass, m: Moment, files: seq<Path>, held: set<Path>)
    : (seq<FileAct>, Moment)
  {
    if files == [] then ([], m)
    else
      var path := files[|files|-1];
      var (acts, before) := FilesRun(db, pass, m, files[..|files|-1], held);
      if path in held then (acts + [Held], before)
      else
        var (act, after) := FileRun(db, pass.cache, before, path, path in pass.admitted);
        (acts + [act], after)
  }

  /** The inventories, listed before any transaction. */
  function WarmRun(c: Calls, i: Inventory, occurrences: seq<Seen>): Inventory {
    if occurrences == [] then i
    else CandidatesLook(c, WarmRun(c, i, occurrences[..|occurrences|-1]), occurrences[|occurrences|-1].path).1
  }

  /** The writing half of a scan, once the files were read and the inventories warmed. */
  ghost function ScanRun(db: Database, pass: Pass, m: Moment, entries: Entries, occurrences: seq<Seen>)
    : (Progress, seq<FileAct>, Moment)
  {
    var p := OccurrencesRun(db, pass, m, entries, occurrences, PathsOf(occurrences));
    var (fileActs, after) := FilesRun(db, pass, p.m, pass.files, p.held);
    (p, fileActs, after)
  }

  function PathsOf(occurrences: seq<Seen>): set<Path> {
    set o | o in occurrences :: o.path
  }

  // ----- the methods --------------------------------------------------------------------------------

  /** What a size or digest says about the bytes under an identity. */
  lemma SizeDiffers(facts: Facts, worlds: nat -> World, t: nat, p: Path, identity: Identity, content: seq<byte>)
    requires Honest(facts, worlds) && StatAt(worlds(t), p) == Some(identity) && identity.size != |content|
    ensures Differs(facts, identity, content)
  {
    hide Honest;
    IdentityIsOfItsNode(facts, worlds, t, p);
  }

  /** The candidates of an occurrence whose path is gone: it moves to the first that holds its bytes. */
  method TryCandidates(db: Database, hashes: ScanHashes, o: Seen, same: seq<Path>, held: set<Path>)
    returns (movedTo: Option<Path>, proven: map<Path, Identity>, ghost checkedAt: map<Path, nat>,
             ghost own: Option<Change>)
    requires db.Valid() && db.Known(o) && hashes.Valid() && hashes.disk == db.disk && !hashes.preparing
    requires Distinct(same)
    modifies db, db.store, db.disk, hashes
    ensures db.Valid() && hashes.Valid() && Keeps(old(db.store.Tables()), db.store.Tables())
    ensures db.disk.tick >= old(db.disk.tick) && !hashes.preparing && hashes.cache == old(hashes.cache)
    ensures Trial(movedTo, own, proven, checkedAt, db.Now()) ==
            TryRun(db, hashes.cache, old(db.Now()), o, same, held)
    ensures movedTo.Some? ==> movedTo.value in checkedAt
    ensures Proven(db.disk.facts, db.disk.worlds, proven, checkedAt, db.content(o.claimant), db.disk.tick)
  {
    hide Honest, Keeps, StatAt, Database.Valid, ScanHashes.Valid, Differs, Verdict, Look, TryOne, TryRun, Proven;
    movedTo, proven, checkedAt, own := None, map[], map[], None;
    KeepsSelf(db.store.Tables());
    NothingTried(db, hashes.cache, db.Now(), o, held);
    NothingProven(db.disk, db.content(o.claimant));
    for i := 0 to |same|
      invariant movedTo.None? && own.None?
      invariant db.Valid() && db.Known(o) && hashes.Valid() && Keeps(old(db.store.Tables()), db.store.Tables())
      invariant db.disk.tick >= old(db.disk.tick) && !hashes.preparing && hashes.cache == old(hashes.cache)
      invariant checkedAt.Keys == SetOf(same[..i])
      invariant Trial(None, None, proven, checkedAt, db.Now()) ==
                TryRun(db, hashes.cache, old(db.Now()), o, same[..i], held)
      invariant Proven(db.disk.facts, db.disk.worlds, proven, checkedAt, db.content(o.claimant), db.disk.tick)
    {
      var p := same[i];
      assert same[..i+1] == same[..i] + [p] && p !in same[..i];
      OneMoreTried(db, hashes.cache, old(db.Now()), o, same, held, i);
      ghost var before := db.store.Tables();
      var moved;
      moved, proven, checkedAt, own := TryCandidate(db, hashes, o, p, held, proven, checkedAt);
      KeepsTrans(old(db.store.Tables()), before, db.store.Tables());
      KeepsRow(before, db.store.Tables(), o.id);
      if moved {
        TryStops(db, hashes.cache, old(db.Now()), o, same, held, i + 1);
        return Some(p), proven, checkedAt, own;
      }
    }
    assert same[..|same|] == same;
  }

  method TryCandidate(db: Database, hashes: ScanHashes, o: Seen, p: Path, held: set<Path>, proven0: map<Path, Identity>,
                      ghost checkedAt0: map<Path, nat>)
    returns (moved: bool, proven: map<Path, Identity>, ghost checkedAt: map<Path, nat>, ghost own: Option<Change>)
    requires db.Valid() && db.Known(o) && hashes.Valid() && hashes.disk == db.disk && !hashes.preparing
    requires p !in checkedAt0
    requires Proven(db.disk.facts, db.disk.worlds, proven0, checkedAt0, db.content(o.claimant), db.disk.tick)
    modifies db, db.store, db.disk, hashes
    ensures db.Valid() && hashes.Valid() && Keeps(old(db.store.Tables()), db.store.Tables())
    ensures db.disk.tick >= old(db.disk.tick) && !hashes.preparing && hashes.cache == old(hashes.cache)
    ensures Trial(if moved then Some(p) else None, own, proven, checkedAt, db.Now()) ==
            TryOne(db, hashes.cache, Trial(None, None, proven0, checkedAt0, old(db.Now())), o, p, held)
    ensures moved == own.Some? && checkedAt.Keys == checkedAt0.Keys + {p}
    ensures Proven(db.disk.facts, db.disk.worlds, proven, checkedAt, db.content(o.claimant), db.disk.tick)
  {
    hide Honest, Keeps, StatAt, Database.Valid, ScanHashes.Valid, Differs, Verdict, Look, MoveRun;
    moved, proven, own := false, proven0, None;
    KeepsSelf(db.store.Tables());
    var matches, identity, at := CheckCandidate(db, hashes, o, p);
    checkedAt := checkedAt0[p := at];
    if matches == Some(false) {
      proven := proven[p := identity];
    } else if matches == Some(true) && p !in held {
      moved, own := db.MoveVerified(o, p, identity);
    }
  }

  lemma {:induction false} NamesakesAre(files: seq<Path>, o: Seen)
    ensures SetOf(Namesakes(files, o)) == set p | p in files && Locate(p) == o.where
    ensures Distinct(files) ==> Distinct(Namesakes(files, o))
  {
    hide Locate;
    if files != [] {
      var n := |files| - 1;
      var before, p := Namesakes(files[..n], o), files[n];
      NamesakesAre(files[..n], o);
      assert Namesakes(files, o) == if Locate(p) == o.where then before + [p] else before;
      assert files == files[..n] + [p];
      assert forall q :: q in files && Locate(q) == o.where <==>
          (q in files[..n] && Locate(q) == o.where) || (q == p && Locate(p) == o.where);
      SetOfAppend(before, p);
      assert Distinct(files) ==> p !in files[..n] && p !in SetOf(before);
    }
  }

  lemma NothingTried(db: Database, cache: map<Key, Digest>, m: Moment, o: Seen, held: set<Path>)
    ensures TryRun(db, cache, m, o, [], held) == Trial(None, None, map[], map[], m)
  {
  }

  lemma NothingProven(disk: Disk, content: seq<byte>)
    ensures forall tick :: Proven(disk.facts, disk.worlds, map[], map[], content, tick)
  {
  }

  lemma OneMoreTried(db: Database, cache: map<Key, Digest>, m: Moment, o: Seen, same: seq<Path>, held: set<Path>,
                     i: nat)
    requires i < |same|
    ensures var before := TryRun(db, cache, m, o, same[..i], held);
      before.movedTo.None? ==>
        TryRun(db, cache, m, o, same[..i+1], held) == TryOne(db, cache, before, o, same[i], held)
  {
    hide TryOne;
    assert same[..i+1][..i] == same[..i];
  }

  lemma {:induction false} TryStops(db: Database, cache: map<Key, Digest>, m: Moment, o: Seen, same: seq<Path>,
                                    held: set<Path>, i: nat)
    requires i <= |same| && TryRun(db, cache, m, o, same[..i], held).movedTo.Some?
    ensures TryRun(db, cache, m, o, same, held) == TryRun(db, cache, m, o, same[..i], held)
  {
    hide TryOne;
    var n := |same|;
    if i == n {
      assert same[..n] == same;
    } else {
      assert same[..n-1][..i] == same[..i];
      TryStops(db, cache, m, o, same[..n-1], held, i);
    }
  }

  /** Whether the file holds the message's bytes, as far as its size and digest tell. */
  method CheckCandidate(db: Database, hashes: ScanHashes, o: Seen, p: Path)
    returns (matches: Option<bool>, identity: Identity, ghost at: nat)
    requires db.Valid() && db.Known(o) && hashes.Valid() && hashes.disk == db.disk && !hashes.preparing
    modifies db.disk, hashes
    ensures db.Valid() && hashes.Valid() && !hashes.preparing && hashes.cache == old(hashes.cache)
    ensures at == old(db.disk.tick) && db.disk.tick == at + 1
    ensures matches == Verdict(o, Look(db.disk, p, at), p, hashes.cache)
    ensures matches.Some? ==> Look(db.disk, p, at) == Some(identity) && StatAt(db.disk.worlds(at), p) == Some(identity)
    ensures matches == Some(false) ==> Differs(db.disk.facts, identity, db.content(o.claimant))
    ensures matches == Some(true) ==>
        db.disk.facts.regular(identity) && db.disk.facts.bytes(identity) == db.content(o.claimant)
  {
    hide Honest, StatAt, Good, Explains, StepOk, Peers;
    var disk := db.disk;
    at := disk.tick;
    matches, identity := None, Identity(0, 0, 0, 0, 0);
    var found := disk.Stat(p);
    if found.None? || o.row.hash.None? {
      return;
    }
    identity := found.value;
    if o.row.size.Some? && identity.size != o.row.size.value {
      SizeDiffers(disk.facts, disk.worlds, at, p, identity, db.content(o.claimant));
      return Some(false), identity, at;
    }
    var digest := hashes.Digest(p, identity);
    if digest.None? {
      return;
    }
    matches := Some(digest == o.row.hash);
  }

  /** The loop body for one occurrence; returns the file it moved to. */
  method ScanOccurrence(db: Database, hashes: ScanHashes, inventory: FolderInventory, ghost pass: Pass,
                        files: seq<Path>, o: Seen, held: set<Path>, backstop: bool, complete: bool)
    returns (movedTo: Option<Path>, ghost act: Act)
    requires db.Valid() && db.Known(o) && hashes.Valid() && hashes.disk == db.disk && !hashes.preparing
    requires inventory.Valid() && inventory.disk == db.disk && Distinct(files)
    requires pass.cache == hashes.cache && pass.files == files && pass.backstop == backstop && pass.complete == complete
    modifies db, db.store, db.disk, hashes, inventory
    ensures db.Valid() && hashes.Valid() && inventory.Valid() && !hashes.preparing && hashes.cache == old(hashes.cache)
    ensures Keeps(old(db.store.Tables()), db.store.Tables()) && db.disk.tick >= old(db.disk.tick)
    ensures (act, db.Now(), inventory.entries) ==
            OccurrenceRun(db, pass, old(db.Now()), old(inventory.entries), o, held)
    ensures movedTo == if act.Followed? then Some(act.to) else None
  {
    hide Honest, Keeps, StatAt, Database.Valid, ScanHashes.Valid, FolderInventory.Valid, Differs, Proven, Namesakes;
    hide Verdict, Look, CandidatesLook, Disk.Meets, TryRun, HeldRun, RefuteRun, VanishRun;
    KeepsSelf(db.store.Tables());
    if o.path in files {
      movedTo := None;
      act := CheckHeld(db, hashes, o, backstop);
      TickOnly(inventory);
      return;
    }
    var same := Namesakes(files, o);
    NamesakesAre(files, o);
    var proven;
    ghost var checkedAt, own;
    movedTo, proven, checkedAt, own := TryCandidates(db, hashes, o, same, held);
    TickOnly(inventory);
    if movedTo.Some? {
      act := Followed(movedTo.value, checkedAt, own);
      return;
    }
    ghost var before := db.store.Tables();
    assert db.Known(o) by { KeepsRow(old(db.store.Tables()), before, o.id); }
    if proven != map[] && proven.Keys == SetOf(same) {
      var retired, change, absent := db.RetireMismatchedRename(o, proven, same, checkedAt, inventory);
      KeepsTrans(old(db.store.Tables()), before, db.store.Tables());
      act := Refuted(checkedAt, absent, change);
    } else if same == [] && complete {
      var retired, change, found := db.RetireVanished(o, inventory);
      KeepsTrans(old(db.store.Tables()), before, db.store.Tables());
      act := Gone(found, change);
    } else {
      act := Left(checkedAt);
    }
  }

  /** An occurrence whose file is there: the content backstop, when it is on. */
  method CheckHeld(db: Database, hashes: ScanHashes, o: Seen, backstop: bool) returns (ghost act: Act)
    requires db.Valid() && db.Known(o) && hashes.Valid() && hashes.disk == db.disk && !hashes.preparing
    modifies db, db.store, db.disk, hashes
    ensures db.Valid() && hashes.Valid() && !hashes.preparing && hashes.cache == old(hashes.cache)
    ensures Keeps(old(db.store.Tables()), db.store.Tables()) && db.disk.tick >= old(db.disk.tick)
    ensures (act, db.Now()) == HeldRun(db, hashes.cache, old(db.Now()), o, backstop) && !act.Followed?
  {
    hide Honest, Keeps, StatAt, Database.Valid, ScanHashes.Valid, Differs, Look, MismatchRun, Verdict;
    KeepsSelf(db.store.Tables());
    act := Kept(db.disk.tick);
    if backstop && o.row.hash.Some? {
      var matches, identity, at := CheckCandidate(db, hashes, o, o.path);
      if matches == Some(false) {
        var retired, change := db.RetireMismatched(o, identity);
        act := Stale(at, change);
      }
    }
  }

  lemma FirstIsOne(messages: map<Claimant, MessageRow>, digest: Digest, c: Claimant)
    requires IsFirst(messages, digest, c)
    ensures ClaimantFor(messages, digest) == Some(c)
  {
    forall d | IsFirst(messages, digest, d) ensures d == c {
      OnlyOneIsFirst(messages, digest, c, d);
    }
  }

  lemma OnlyOneIsFirst(messages: map<Claimant, MessageRow>, digest: Digest, c: Claimant, d: Claimant)
    requires IsFirst(messages, digest, c) && IsFirst(messages, digest, d)
    ensures c == d
  {
    if Precedes(c, d) {
      PrecedesIsStrict(c, d);
    }
  }

  /** `claimant_for_content`: the first of the claimants with that content. */
  method ClaimantForContent(db: Database, digest: Digest) returns (c: Option<Claimant>)
    requires db.Valid()
    ensures c.Some? ==> c.value in db.store.threadOf && db.disk.facts.hash(db.content(c.value)) == digest
    ensures c == ClaimantFor(db.messages, digest)
  {
    hide Rows, Explains, StepOk, Peers, Honest, Injective, ClaimantFor, Precedes;
    c := None;
    var rest := db.messages.Keys;
    while rest != {}
      invariant rest <= db.messages.Keys
      invariant c.None? ==> forall d | d in db.messages && d !in rest :: db.messages[d].hash != Some(digest)
      invariant c.Some? ==> c.value in db.messages && db.messages[c.value].hash == Some(digest)
      invariant c.Some? ==>
          forall d | d in db.messages && d !in rest && db.messages[d].hash == Some(digest) ::
              d == c.value || Precedes(c.value, d)
      decreases rest
    {
      var d :| d in rest;
      rest := rest - {d};
      if db.messages[d].hash == Some(digest) {
        if c.None? || Precedes(d, c.value) {
          forall e | c.Some? && Precedes(c.value, e) ensures Precedes(d, e) {
            PrecedesIsTransitive(d, c.value, e);
          }
          c := Some(d);
        } else {
          PrecedesIsTotal(d, c.value);
        }
      }
    }
    if c.Some? {
      FirstIsOne(db.messages, digest, c.value);
    } else {
      NoneIsFirst(db.messages, digest);
    }
  }

  lemma NoneIsFirst(messages: map<Claimant, MessageRow>, digest: Digest)
    requires forall d | d in messages :: messages[d].hash != Some(digest)
    ensures ClaimantFor(messages, digest) == None
  {
  }

  /** The loop body for one file that no occurrence holds: a copy of a known message is bound. */
  method ScanFile(db: Database, hashes: ScanHashes, path: Path, admitted: bool)
    returns (bound: bool, ghost act: FileAct)
    requires db.Valid() && hashes.Valid() && hashes.disk == db.disk && !hashes.preparing
    modifies db, db.store, db.disk, hashes
    ensures db.Valid() && hashes.Valid() && !hashes.preparing && hashes.cache == old(hashes.cache)
    ensures Keeps(old(db.store.Tables()), db.store.Tables()) && db.disk.tick >= old(db.disk.tick)
    ensures (act, db.Now()) == FileRun(db, hashes.cache, old(db.Now()), path, admitted)
    ensures bound <==> act.Tried? && act.own.Some?
  {
    hide Honest, Keeps, StatAt, Database.Valid, ScanHashes.Valid, BindRun, ClaimantFor;
    bound := false;
    KeepsSelf(db.store.Tables());
    ghost var at := db.disk.tick;
    act := Ignored(at);
    var identity := db.disk.Stat(path);
    if identity.None? || !admitted {
      return;
    }
    var digest := hashes.Digest(path, identity.value);
    if digest.None? {
      return;
    }
    var c := ClaimantForContent(db, digest.value);
    if c.Some? {
      SameBytes(db, db.disk.facts.bytes(identity.value), db.content(c.value));
      var found, own := db.BindFound(c.value, path, identity.value);
      act := Tried(at, c.value, own);
      bound := found;
    }
  }

  lemma SameBytes(db: Database, a: seq<byte>, b: seq<byte>)
    requires db.Valid() && db.disk.facts.hash(a) == db.disk.facts.hash(b)
    ensures a == b
  {
  }

  /** When each wanted file was looked at, and what was known and tried before each and at the end. */
  datatype Reading = Reading(at: seq<nat>, tried: seq<Reads>)

  /**
   * A file looked at at that tick is read exactly when its digest is not known, was not tried
   * and is within the limits; a read of a file that nobody touches from then on succeeds.
   */
  ghost predicate ReadOnce(disk: Disk, p: Path, at: nat, before: Reads, after: Reads) {
    match Look(disk, p, at)
    case None => after == before
    case Some(identity) =>
      var key := (p, identity);
      if key in before.cache || key in before.attempted || before.files >= MAX_HASH_FILES
         || before.bytes + identity.size > MAX_HASH_BYTES
      then after == before
      else
        && (Undisturbed(disk, p, identity, at + 1) ==> key in after.cache)
        && after == Reads(if key in after.cache then before.cache[key := after.cache[key]] else before.cache,
                          before.attempted + {key}, before.files + 1, before.bytes + identity.size)
  }

  /** The wanted files were looked at one after another, and read as `ReadOnce` says. */
  ghost predicate AllRead(disk: Disk, wanted: seq<Path>, reading: Reading, before: Reads, after: Reads, since: nat,
                          until: nat) {
    && since <= until && |reading.at| == |wanted| && |reading.tried| == |wanted| + 1
    && reading.tried[0] == before && reading.tried[|wanted|] == after
    && (forall i | 0 <= i < |wanted| :: since <= reading.at[i] < until)
    && (forall i | 0 < i < |wanted| :: reading.at[i-1] < reading.at[i])
    && forall i | 0 <= i < |wanted| :: ReadAt(disk, wanted, reading, i)
  }

  ghost predicate ReadAt(disk: Disk, wanted: seq<Path>, reading: Reading, i: nat)
    requires i < |wanted| == |reading.at| && |reading.tried| == |wanted| + 1
  {
    ReadOnce(disk, wanted[i], reading.at[i], reading.tried[i], reading.tried[i + 1])
  }

  lemma ReadOneMore(disk: Disk, wanted: seq<Path>, reading: Reading, before: Reads, mid: Reads, since: nat, at: nat,
                    p: Path, after: Reads, until: nat)
    requires AllRead(disk, wanted, reading, before, mid, since, at) && ReadOnce(disk, p, at, mid, after) && at < until
    ensures AllRead(disk, wanted + [p], Reading(reading.at + [at], reading.tried + [after]), before, after, since,
                    until)
  {
    hide ReadOnce;
    var more := Reading(reading.at + [at], reading.tried + [after]);
    forall i | 0 <= i < |wanted + [p]| ensures ReadAt(disk, wanted + [p], more, i) {
      if i < |wanted| {
        assert ReadAt(disk, wanted, reading, i);
      }
    }
  }

  lemma LastRead(disk: Disk, wanted: seq<Path>, reading: Reading, before: Reads, after: Reads, since: nat, until: nat)
    requires AllRead(disk, wanted, reading, before, after, since, until)
    ensures |reading.tried| == |wanted| + 1 && reading.tried[|wanted|] == after && since <= until
  {
  }

  lemma NothingRead(disk: Disk, before: Reads, since: nat)
    ensures AllRead(disk, [], Reading([], [before]), before, before, since, since)
  {
  }

  /** The reads, before any write: the files in the order they are admitted to the budget. */
  method PrepareHashes(hashes: ScanHashes, wanted: seq<Path>) returns (ghost reading: Reading)
    requires hashes.Valid() && hashes.preparing
    modifies hashes, hashes.disk
    ensures hashes.Valid() && !hashes.preparing && hashes.disk.tick >= old(hashes.disk.tick)
    ensures AllRead(hashes.disk, wanted, reading, old(hashes.Tried()), hashes.Tried(), old(hashes.disk.tick),
                    hashes.disk.tick)
  {
    hide Digests, Honest, AllRead, ReadOnce;
    ghost var before := hashes.Tried();
    reading := Reading([], [before]);
    NothingRead(hashes.disk, before, hashes.disk.tick);
    assert wanted[..0] == [];
    for i := 0 to |wanted|
      invariant hashes.Valid() && hashes.preparing && hashes.disk.tick >= old(hashes.disk.tick)
      invariant AllRead(hashes.disk, wanted[..i], reading, before, hashes.Tried(), old(hashes.disk.tick),
                        hashes.disk.tick)
    {
      ghost var at, mid := hashes.disk.tick, hashes.Tried();
      PrepareHash(hashes, wanted[i]);
      ReadOneMore(hashes.disk, wanted[..i], reading, before, mid, old(hashes.disk.tick), at, wanted[i],
                  hashes.Tried(), hashes.disk.tick);
      reading := Reading(reading.at + [at], reading.tried + [hashes.Tried()]);
      assert wanted[..i+1] == wanted[..i] + [wanted[i]];
    }
    assert wanted[..|wanted|] == wanted;
    hashes.preparing := false;
  }

  method PrepareHash(hashes: ScanHashes, p: Path)
    requires hashes.Valid() && hashes.preparing
    modifies hashes, hashes.disk
    ensures hashes.Valid() && hashes.preparing && hashes.disk.tick > old(hashes.disk.tick)
    ensures ReadOnce(hashes.disk, p, old(hashes.disk.tick), old(hashes.Tried()), hashes.Tried())
  {
    hide Honest, StatAt, Digests, Undisturbed;
    var identity := hashes.disk.Stat(p);
    if identity.Some? {
      var digest := hashes.Digest(p, identity.value);
    }
  }

  method WarmInventories(inventory: FolderInventory, occurrences: seq<Seen>)
    requires inventory.Valid()
    modifies inventory, inventory.disk
    ensures inventory.Valid() && inventory.disk.tick >= old(inventory.disk.tick)
    ensures inventory.Now() == WarmRun(inventory.disk.Meets(), old(inventory.Now()), occurrences)
  {
    hide CandidatesAt, CandidatesOnly, FolderInventory.Valid, CandidatesLook, Disk.Meets;
    for i := 0 to |occurrences|
      invariant inventory.Valid() && inventory.disk.tick >= old(inventory.disk.tick)
      invariant inventory.Now() == WarmRun(inventory.disk.Meets(), old(inventory.Now()), occurrences[..i])
    {
      assert occurrences[..i+1][..i] == occurrences[..i];
      var candidates, t1, t2 := inventory.Candidates(occurrences[i].path);
    }
    assert occurrences[..|occurrences|] == occurrences;
  }

  method ScanOccurrences(db: Database, hashes: ScanHashes, inventory: FolderInventory, ghost pass: Pass,
                         files: seq<Path>, occurrences: seq<Seen>, scope: Dir, backstop: bool, complete: bool)
    returns (held: set<Path>, ghost acts: seq<Act>)
    requires db.Valid() && hashes.Valid() && hashes.disk == db.disk && !hashes.preparing && inventory.Valid()
    requires inventory.disk == db.disk && AllKnown(db, occurrences) && Distinct(files)
    requires pass.cache == hashes.cache && pass.files == files && pass.scope == scope
    requires pass.backstop == backstop && pass.complete == complete
    modifies db, db.store, db.disk, hashes, inventory
    ensures db.Valid() && hashes.Valid() && !hashes.preparing && hashes.cache == old(hashes.cache)
    ensures db.disk.tick >= old(db.disk.tick)
    ensures Progress(acts, db.Now(), inventory.entries, held) ==
            OccurrencesRun(db, pass, old(db.Now()), old(inventory.entries), occurrences, PathsOf(occurrences))
  {
    hide Keeps, Database.Valid, ScanHashes.Valid, FolderInventory.Valid, AllKnown, OccurrenceRun;
    held, acts := set o | o in occurrences :: o.path, [];
    for i := 0 to |occurrences|
      invariant db.Valid() && hashes.Valid() && inventory.Valid() && !hashes.preparing
      invariant hashes.cache == old(hashes.cache) && AllKnown(db, occurrences)
      invariant db.disk.tick >= old(db.disk.tick)
      invariant Progress(acts, db.Now(), inventory.entries, held) ==
                OccurrencesRun(db, pass, old(db.Now()), old(inventory.entries), occurrences[..i], PathsOf(occurrences))
    {
      var o := occurrences[i];
      assert occurrences[..i+1][..i] == occurrences[..i];
      if scope <= o.path.dirs {
        var movedTo, act := ScanOneOfMany(db, hashes, inventory, pass, files, occurrences, i, held, backstop, complete);
        held := if movedTo.Some? then held + {movedTo.value} else held;
        acts := acts + [act];
      } else {
        acts := acts + [Skipped];
      }
    }
    assert occurrences[..|occurrences|] == occurrences;
  }

  method ScanOneOfMany(db: Database, hashes: ScanHashes, inventory: FolderInventory, ghost pass: Pass, files: seq<Path>,
                       occurrences: seq<Seen>, i: nat, held: set<Path>, backstop: bool, complete: bool)
    returns (movedTo: Option<Path>, ghost act: Act)
    requires i < |occurrences| && db.Valid() && hashes.Valid() && hashes.disk == db.disk && !hashes.preparing
    requires inventory.Valid() && inventory.disk == db.disk && AllKnown(db, occurrences) && Distinct(files)
    requires pass.cache == hashes.cache && pass.files == files && pass.backstop == backstop && pass.complete == complete
    modifies db, db.store, db.disk, hashes, inventory
    ensures db.Valid() && hashes.Valid() && inventory.Valid() && AllKnown(db, occurrences) && !hashes.preparing
    ensures hashes.cache == old(hashes.cache) && db.disk.tick >= old(db.disk.tick)
    ensures (act, db.Now(), inventory.entries) ==
            OccurrenceRun(db, pass, old(db.Now()), old(inventory.entries), occurrences[i], held)
    ensures movedTo == if act.Followed? then Some(act.to) else None
  {
    hide Keeps, Database.Valid, ScanHashes.Valid, FolderInventory.Valid, OccurrenceRun;
    var o := occurrences[i];
    assert db.Known(o);
    movedTo, act := ScanOccurrence(db, hashes, inventory, pass, files, o, held, backstop, complete);
    forall other | other in occurrences ensures db.Known(other) {
      KeepsRow(old(db.store.Tables()), db.store.Tables(), other.id);
    }
  }

  method ScanFiles(db: Database, hashes: ScanHashes, ghost pass: Pass, files: seq<Path>, held: set<Path>,
                   admitted: set<Path>)
    returns (ghost acts: seq<FileAct>)
    requires db.Valid() && hashes.Valid() && hashes.disk == db.disk && !hashes.preparing
    requires pass.cache == hashes.cache && pass.admitted == admitted
    modifies db, db.store, db.disk, hashes
    ensures db.Valid() && hashes.Valid() && hashes.cache == old(hashes.cache) && db.disk.tick >= old(db.disk.tick)
    ensures (acts, db.Now()) == FilesRun(db, pass, old(db.Now()), files, held)
  {
    hide Keeps, Database.Valid, ScanHashes.Valid, FileRun;
    acts := [];
    for i := 0 to |files|
      invariant db.Valid() && hashes.Valid() && !hashes.preparing && hashes.cache == old(hashes.cache)
      invariant db.disk.tick >= old(db.disk.tick)
      invariant (acts, db.Now()) == FilesRun(db, pass, old(db.Now()), files[..i], held)
    {
      assert files[..i+1][..i] == files[..i];
      if files[i] in held {
        acts := acts + [Held];
      } else {
        var bound, act := ScanFile(db, hashes, files[i], files[i] in admitted);
        acts := acts + [act];
      }
    }
    assert files[..|files|] == files;
  }

  /**
   * `scan_occurrences`, from what the walk found, in order: files are hashed, inventories
   * warmed, and then each occurrence and each other file is dealt with. `wanted` is the order
   * in which files are admitted to the hash budget; `admitted` says which unheld files may be
   * bound.
   *
   * Whatever the other process did to the files and other transactions to the tables, the
   * log accounts for every change, each write of the scan is justified in it by checks inside
   * its transaction, and each occurrence and file was dealt with as `ScanRun` says, from the
   * tick at which the reads ended and with nothing but the reads before it.
   */
  method Scan(db: Database, hashes: ScanHashes, inventory: FolderInventory, files: seq<Path>, wanted: seq<Path>,
              occurrences: seq<Seen>, scope: Dir, admitted: set<Path>, backstop: bool, complete: bool)
    returns (ghost progress: Progress, ghost fileActs: seq<FileAct>, ghost reading: Reading, ghost read: nat)
    requires db.Valid() && db.log == [] && db.start == db.store.Tables()
    requires hashes.Valid() && hashes.disk == db.disk && hashes.preparing
    requires inventory.Valid() && inventory.disk == db.disk
    requires AllKnown(db, occurrences) && Distinct(files)
    modifies db, db.store, db.disk, hashes, inventory
    ensures Rows(db.store.Tables()) && Explains(db.log, old(db.store.Tables()), db.store.Tables())
    ensures forall i | 0 <= i < |db.log| :: StepOk(db.disk.facts, db.disk.worlds, db.content, db.log[i])
    ensures Timed(db.log, read, db.disk.tick)
    ensures |reading.tried| == |wanted| + 1 && reading.tried[|wanted|].cache == hashes.cache
    ensures AllRead(db.disk, wanted, reading, old(hashes.Tried()), reading.tried[|wanted|], old(db.disk.tick), read)
    ensures var warmed := WarmRun(db.disk.Meets(), Inventory(old(inventory.entries), read), occurrences);
      var pass := Pass(hashes.cache, files, scope, admitted, backstop, complete);
      (progress, fileActs, db.Now()) ==
      ScanRun(db, pass, old(db.Now()).(tick := warmed.tick), warmed.entries, occurrences)
  {
    hide Keeps, Database.Valid, ScanHashes.Valid, FolderInventory.Valid, AllKnown, Rows, Explains, StepOk;
    hide OccurrencesRun, FilesRun, WarmRun, Disk.Meets, Timed, AllRead;
    label start:
    reading := PrepareHashes(hashes, wanted);
    LastRead(db.disk, wanted, reading, old(hashes.Tried()), hashes.Tried(), old(db.disk.tick), db.disk.tick);
    read := db.disk.tick;
    TickOnly@start(inventory);
    WarmInventories(inventory, occurrences);
    ghost var before := db.Now();
    ghost var pass := Pass(hashes.cache, files, scope, admitted, backstop, complete);
    NothingTimed(read, db.disk.tick);
    ghost var entries := inventory.entries;
    var held, acts := ScanOccurrences(db, hashes, inventory, pass, files, occurrences, scope, backstop, complete);
    progress := Progress(acts, db.Now(), inventory.entries, held);
    fileActs := ScanFiles(db, hashes, pass, files, held, admitted);
    OccurrencesTimed(db, pass, before, entries, occurrences, PathsOf(occurrences), read);
    FilesTimed(db, pass, progress.m, files, held, read);
    ScanExplained(db);
  }

  ghost predicate AllKnown(db: Database, occurrences: seq<Seen>)
    reads db, db.store
  {
    forall o | o in occurrences :: db.Known(o)
  }

  lemma ScanExplained(db: Database)
    requires db.Valid()
    ensures Rows(db.store.Tables()) && Explains(db.log, db.start, db.store.Tables())
    ensures forall i | 0 <= i < |db.log| :: StepOk(db.disk.facts, db.disk.worlds, db.content, db.log[i])
  {
  }

  // ----- the order of the log ------------------------------------------------------------------------

  lemma NothingTimed(since: nat, until: nat)
    requires since <= until
    ensures Timed([], since, until)
  {
  }

  lemma {:induction false} TryTimed(db: Database, cache: map<Key, Digest>, m: Moment, o: Seen, same: seq<Path>,
                                    held: set<Path>, since: nat)
    requires Timed(m.log, since, m.tick)
    ensures var t := TryRun(db, cache, m, o, same, held); Timed(t.m.log, since, t.m.tick) && m.tick <= t.m.tick
  {
    hide Timed, MoveRun, Look;
    if same != [] {
      var before := TryRun(db, cache, m, o, same[..|same|-1], held);
      TryTimed(db, cache, m, o, same[..|same|-1], held, since);
      var p := same[|same|-1];
      TimedLater(before.m.log, since, before.m.tick, before.m.tick + 1);
      var st := Look(db.disk, p, before.m.tick);
      if before.movedTo.None? && Verdict(o, st, p, cache) == Some(true) && st.Some? && p !in held {
        MoveTimed(db, before.m.(tick := before.m.tick + 1), o, p, st.value, since);
      }
    }
  }

  lemma HeldTimed(db: Database, cache: map<Key, Digest>, m: Moment, o: Seen, backstop: bool, since: nat)
    requires Timed(m.log, since, m.tick)
    ensures var after := HeldRun(db, cache, m, o, backstop).1;
      Timed(after.log, since, after.tick) && m.tick <= after.tick
  {
    hide Timed, MismatchRun, Look;
    TimedLater(m.log, since, m.tick, m.tick + 1);
    var st := Look(db.disk, o.path, m.tick);
    if st.Some? {
      MismatchTimed(db, m.(tick := m.tick + 1), o, st.value, since);
    }
  }

  lemma OccurrenceTimed(db: Database, pass: Pass, m: Moment, entries: Entries, o: Seen, held: set<Path>, since: nat)
    requires Timed(m.log, since, m.tick)
    ensures var after := OccurrenceRun(db, pass, m, entries, o, held).1;
      Timed(after.log, since, after.tick) && m.tick <= after.tick
  {
    hide Timed, HeldRun, TryRun, RefuteRun, VanishRun, Namesakes;
    HeldTimed(db, pass.cache, m, o, pass.backstop, since);
    var same := Namesakes(pass.files, o);
    TryTimed(db, pass.cache, m, o, same, held, since);
    var t := TryRun(db, pass.cache, m, o, same, held);
    if t.proven.Keys == SetOf(same) {
      RefuteTimed(db, t.m, Inventory(entries, t.m.tick), o, t.proven, same, since);
    }
    VanishTimed(db, t.m, Inventory(entries, t.m.tick), o, since);
  }

  lemma {:induction false} OccurrencesTimed(db: Database, pass: Pass, m: Moment, entries: Entries,
                                            occurrences: seq<Seen>, held: set<Path>, since: nat)
    requires Timed(m.log, since, m.tick)
    ensures var p := OccurrencesRun(db, pass, m, entries, occurrences, held);
      Timed(p.m.log, since, p.m.tick) && m.tick <= p.m.tick
  {
    hide Timed, OccurrenceRun;
    if occurrences != [] {
      var before := OccurrencesRun(db, pass, m, entries, occurrences[..|occurrences|-1], held);
      OccurrencesTimed(db, pass, m, entries, occurrences[..|occurrences|-1], held, since);
      OccurrenceTimed(db, pass, before.m, before.entries, occurrences[|occurrences|-1], before.held, since);
    }
  }

  lemma {:induction false} FilesTimed(db: Database, pass: Pass, m: Moment, files: seq<Path>, held: set<Path>,
                                      since: nat)
    requires Timed(m.log, since, m.tick)
    ensures var after := FilesRun(db, pass, m, files, held).1;
      Timed(after.log, since, after.tick) && m.tick <= after.tick
  {
    hide Timed, BindRun, ClaimantFor, Look;
    if files != [] {
      var path, before := files[|files|-1], FilesRun(db, pass, m, files[..|files|-1], held).1;
      FilesTimed(db, pass, m, files[..|files|-1], held, since);
      TimedLater(before.log, since, before.tick, before.tick + 1);
      var st := Look(db.disk, path, before.tick);
      if st.Some? && (path, st.value) in pass.cache {
        var c := ClaimantFor(before.messages, pass.cache[(path, st.value)]);
        if c.Some? {
          BindTimed(db, before.(tick := before.tick + 1), c.value, path, st.value, since);
        }
      }
    }
  }

  // ----- renames the watcher saw -----------------------------------------------------------------

  /** `verify_rename_bytes`: the identity that was proved to match, or to mismatch. */
  datatype RenameVerification = RenameVerification(identity: Option<Identity>, mismatch: Option<Identity>)

  method VerifyRenameBytes(disk: Disk, newPath: Path, expected: Option<MessageRow>, ghost content: seq<byte>)
    returns (r: RenameVerification, ghost at: nat)
    requires disk.Valid() && Injective(disk.facts.hash)
    requires expected.Some? && expected.value.hash.Some? ==> expected.value.hash.value == disk.facts.hash(content)
    requires expected.Some? && expected.value.size.Some? ==> expected.value.size.value == |content|
    modifies disk
    ensures disk.tick >= old(disk.tick)
    ensures r.identity.Some? ==>
        r.mismatch.None? && disk.facts.regular(r.identity.value) && disk.facts.bytes(r.identity.value) == content
    ensures r.mismatch.Some? ==> Differs(disk.facts, r.mismatch.value, content)
    ensures r.identity.Some? || r.mismatch.Some? ==>
              at < disk.tick && StatAt(disk.worlds(at), newPath) == if r.identity.Some? then r.identity else r.mismatch
    ensures at == old(disk.tick)
    ensures var st := Look(disk, newPath, at);
      if st.None? || expected.None? || expected.value.hash.None? || expected.value.size.None? then
        r == RenameVerification(None, None)
      else if st.value.size != expected.value.size.value then r == RenameVerification(None, st)
      else
        Undisturbed(disk, newPath, st.value, at + 1) ==>
          r == if disk.facts.hash(disk.facts.bytes(st.value)) == expected.value.hash.value
               then RenameVerification(st, None) else RenameVerification(None, st)
  {
    hide Honest, StatAt, Undisturbed;
    at := disk.tick;
    var identity := disk.Stat(newPath);
    if identity.None? || expected.None? || expected.value.hash.None? || expected.value.size.None? {
      return RenameVerification(None, None), at;
    }
    if identity.value.size != expected.value.size.value {
      SizeDiffers(disk.facts, disk.worlds, at, newPath, identity.value, content);
      return RenameVerification(None, identity), at;
    }
    var digest := ReadDigest(disk, newPath, identity.value);
    if digest.None? {
      return RenameVerification(None, None), at;
    }
    r := if digest == expected.value.hash then RenameVerification(identity, None)
         else RenameVerification(None, identity);
  }

  /** The file record of a path without an occurrence: its size, mtime and hash, and the message they name. */
  datatype FileRecord = FileRecord(claimant: Claimant, messageSize: Option<nat>, size: nat, mtime: int, hash: Digest)

  /**
   * The checks of `_move_occurrence` for a path without an active occurrence: the destination
   * is bound to the recorded message only when it holds the bytes with the recorded hash.
   */
  method CheckRecord(disk: Disk, newPath: Path, prior: Option<FileRecord>) returns (ev: Evidence, ghost at: nat)
    requires disk.Valid()
    modifies disk
    ensures disk.tick >= old(disk.tick)
    ensures ev == Unverified || (prior.Some? && ev == Recorded(prior.value.claimant))
    ensures ev.Recorded? ==>
              && old(disk.tick) <= at < disk.tick && StatAt(disk.worlds(at), newPath).Some?
              && var id := StatAt(disk.worlds(at), newPath).value;
                 disk.facts.regular(id) && disk.facts.hash(disk.facts.bytes(id)) == prior.value.hash
                 && prior.value.messageSize == Some(id.size)
                 && (prior.value.size, prior.value.mtime) == (id.size, id.mtime)
    ensures var st := Look(disk, newPath, old(disk.tick));
      prior.Some? && st.Some? && prior.value.messageSize == Some(st.value.size)
      && (prior.value.size, prior.value.mtime) == (st.value.size, st.value.mtime)
      && Undisturbed(disk, newPath, st.value, old(disk.tick) + 1) ==>
        (ev.Recorded? <==> disk.facts.hash(disk.facts.bytes(st.value)) == prior.value.hash)
  {
    hide Honest, Undisturbed;
    ev, at := Unverified, 0;
    if prior.None? {
      return;
    }
    var st := disk.Stat(newPath);
    if st.None? || prior.value.messageSize != Some(st.value.size)
       || (st.value.size, st.value.mtime) != (prior.value.size, prior.value.mtime) {
      return;
    }
    var digest := ReadDigest(disk, newPath, st.value);
    if digest != Some(prior.value.hash) {
      return;
    }
    ghost var from := old(disk.tick) + 1;
    at := disk.tick;
    UndisturbedAt(disk, newPath, st.value, from, at);
    var same := disk.SameFile(newPath, st.value);
    if same {
      ev := Recorded(prior.value.claimant);
    }
  }

  /** A retired copy's own path did not hold its message's bytes at a check inside the transaction. */
  lemma RetiredCopyWasGone(facts: Facts, worlds: nat -> World, content: Contents, step: Step) returns (at: nat)
    requires StepOk(facts, worlds, content, step) && step.own.Some? && !step.own.value.Moved?
    requires !step.own.value.BoundCopy?
    ensures step.began <= at < step.ended && step.own.value.id in step.before.occ
    ensures !Holds(facts, worlds(at), step.own.value.path, content(step.before.occ[step.own.value.id].claimant))
  {
    hide Uniq, Sibling, Keeps, ApplyChange;
    var ch := step.own.value;
    at := if ch.Mismatched? then ch.at else ch.t1;
    assert ch.path in worlds(at).names ==> SameUniqIn(worlds(at), ch.path, ch.path.dirs, ch.path);
  }

  /** A file that a copy was moved or bound to held its message's bytes at a check inside the transaction. */
  lemma FollowedCopyWasThere(facts: Facts, worlds: nat -> World, content: Contents, step: Step)
    requires StepOk(facts, worlds, content, step) && step.own.Some?
    requires (step.own.value.Moved? || step.own.value.BoundCopy?)
    ensures var ch := step.own.value;
      && step.began <= ch.at < step.ended
      && match ch
         case Moved(id, _, newPath, _, _, at) =>
           id in step.before.occ && Holds(facts, worlds(at), newPath, content(step.before.occ[id].claimant))
         case BoundCopy(c, path, _, _, at) => Holds(facts, worlds(at), path, content(c))
         case _ => false
  {
    hide Keeps, ApplyChange;
  }

  /**
   * When the sibling directory was inventoried before the transaction, and it was not removed
   * in it, there is one instant at which no file of the folder with the copy's uniq held its
   * message's bytes.
   */
  lemma GoneAtOneInstant(facts: Facts, worlds: nat -> World, content: Contents, t: Tables, ch: Change, p: Path)
    requires Honest(facts, worlds) && Justified(facts, worlds, content, t, ch) && (ch.Vanished? || ch.RenameMismatched?)
    requires ch.warm
    requires Sibling(ch.path.dirs).Some? && Sibling(ch.path.dirs).value in worlds(ch.t1).dirs ==>
        Sibling(ch.path.dirs).value in worlds(ch.t2).dirs
    requires Uniq(p.name) == Uniq(ch.path.name) && (p.dirs == ch.path.dirs || Some(p.dirs) == Sibling(ch.path.dirs))
    ensures !Holds(facts, worlds(ch.t1), p, content(t.occ[ch.id].claimant))
  {
    hide Uniq, Sibling;
    assert Consistent(facts, worlds(ch.t1));
    assert p in worlds(ch.t1).names ==> SameUniqIn(worlds(ch.t1), ch.path, p.dirs, p) && p.dirs in worlds(ch.t1).dirs;
  }
}
