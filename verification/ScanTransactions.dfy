/**
 * The transactions of the scan that reconciles mailbox copies with the files on disk, while
 * another process changes the files and other transactions change the tables. Each logs
 * what it changed and the ticks of the checks that justify it.
 */
module ScanTransactions {
  import opened Wrappers
  import opened Maildir
  import opened Mailbox
  import opened MailboxStore
  import opened FileEvidence

  /** The columns of a message row that name its bytes; old rows lack them. */
  datatype MessageRow = MessageRow(hash: Option<Digest>, size: Option<nat>)

  datatype Db = Db(tables: Tables, messages: map<Claimant, MessageRow>)

  type Contents = Claimant -> seq<byte>

  ghost predicate MessagesTrue(facts: Facts, content: Contents, messages: map<Claimant, MessageRow>) {
    forall c | c in messages ::
      && (messages[c].hash.Some? ==> messages[c].hash.value == facts.hash(content(c)))
      && (messages[c].size.Some? ==> messages[c].size.value == |content(c)|)
  }

  ghost predicate Injective(hash: seq<byte> -> Digest) {
    forall a, b | hash(a) == hash(b) :: a == b
  }

  // ----- what a scan writes, and what justifies it ------------------------------------------

  /** A committed write of the scan, with the ticks of the checks inside its transaction. */
  datatype Change =
    | Moved(id: nat, oldPath: Path, newPath: Path, newId: nat, now: Time, at: nat)
    | BoundCopy(c: Claimant, path: Path, newId: nat, now: Time, at: nat)
    | Vanished(id: nat, path: Path, now: Time, t1: nat, t2: nat, warm: bool)
    | Mismatched(id: nat, path: Path, now: Time, at: nat)
    | RenameMismatched(id: nat, path: Path, now: Time, t1: nat, t2: nat, warm: bool)

  function ApplyChange(t: Tables, ch: Change): Tables {
    match ch
    case Moved(id, _, newPath, newId, now, _) => if id in t.occ then Rename(t, Some(id), newPath, Verified, newId, now)
                                            else t
    case BoundCopy(c, path, newId, now, _) => Bind(t, c, path, Scanned, newId, now)
    case Vanished(id, path, now, _, _, _) => RetireIfAt(t, id, path, now)
    case Mismatched(id, path, now, _) => RetireIfAt(t, id, path, now)
    case RenameMismatched(id, path, now, _, _, _) => RetireIfAt(t, id, path, now)
  }

  /** Every same-uniq file of the folder fails `holds`, at the ticks the inventory was checked. */
  ghost predicate NoCandidate(facts: Facts, worlds: nat -> World, path: Path, content: seq<byte>, t1: nat, t2: nat,
                              warm: bool) {
    && (forall p | SameUniqIn(worlds(t1), path, path.dirs, p) :: !Holds(facts, worlds(t1), p, content))
    && (Sibling(path.dirs).Some? ==>
          var sibling := Sibling(path.dirs).value;
          && (forall p | SameUniqIn(worlds(t2), path, sibling, p) :: !Holds(facts, worlds(t2), p, content))
          && (warm && sibling in worlds(t2).dirs ==>
                forall p | SameUniqIn(worlds(t1), path, sibling, p) :: !Holds(facts, worlds(t1), p, content)))
  }

  /**
   * A copy is moved or bound only to a file that holds its message's bytes at the check in
   * the transaction; it is retired only when its file is proved to hold other bytes, or when
   * no file with its uniq is left, or none with its message's bytes.
   */
  ghost predicate Justified(facts: Facts, worlds: nat -> World, content: Contents, t: Tables, ch: Change) {
    match ch
    case Moved(id, oldPath, newPath, newId, _, at) =>
      ActiveAt(t, oldPath, id) && newId !in t.occ && Holds(facts, worlds(at), newPath, content(t.occ[id].claimant))
      && forall k :: !ActiveAt(t, newPath, k)
    case BoundCopy(c, path, newId, _, at) =>
      c in t.threadOf && newId !in t.occ && Holds(facts, worlds(at), path, content(c)) && forall k ::
              !ActiveAt(t, path, k)
    case Vanished(id, path, _, t1, t2, warm) =>
      ActiveAt(t, path, id) && t1 <= t2 && CandidatesAt(worlds, path, {}, t1, t2, warm)
    case Mismatched(id, path, _, at) =>
      ActiveAt(t, path, id) && StatAt(worlds(at), path).Some?
      && !Holds(facts, worlds(at), path, content(t.occ[id].claimant))
    case RenameMismatched(id, path, _, t1, t2, warm) =>
      ActiveAt(t, path, id) && t1 <= t2 && NoCandidate(facts, worlds, path, content(t.occ[id].claimant), t1, t2, warm)
  }

  /** No row or message goes, and every row stays its message's: what other transactions keep during a scan. */
  ghost predicate Keeps(before: Tables, after: Tables) {
    && (forall id | id in before.occ :: id in after.occ && after.occ[id].claimant == before.occ[id].claimant)
    && before.threadOf.Keys <= after.threadOf.Keys
  }

  ghost predicate Good(facts: Facts, content: Contents, db: Db) {
    Rows(db.tables) && MessagesTrue(facts, content, db.messages) && db.messages.Keys == db.tables.threadOf.Keys
  }

  ghost predicate Peers(facts: Facts, content: Contents, others: (nat, Db) -> Db) {
    forall n: nat, db | Good(facts, content, db) ::
      Good(facts, content, others(n, db)) && Keeps(db.tables, others(n, db).tables)
  }

  /** A step of the tables during a scan: the scan's own write, or other transactions, and the ticks it took. */
  datatype Step = Step(own: Option<Change>, before: Tables, after: Tables, began: nat, ended: nat)

  ghost predicate StepOk(facts: Facts, worlds: nat -> World, content: Contents, step: Step) {
    && Keeps(step.before, step.after)
    && (step.own.Some? ==>
          && Justified(facts, worlds, content, step.before, step.own.value)
          && step.after == ApplyChange(step.before, step.own.value)
          && CheckedIn(step.own.value, step.began, step.ended))
  }

  /** The checks that justify a write were made inside its transaction. */
  predicate CheckedIn(ch: Change, began: nat, ended: nat) {
    match ch
    case Moved(_, _, _, _, _, at) => began <= at < ended
    case BoundCopy(_, _, _, _, at) => began <= at < ended
    case Mismatched(_, _, _, at) => began <= at < ended
    case Vanished(_, _, _, t1, t2, _) => began <= t1 <= t2 < ended
    case RenameMismatched(_, _, _, t1, t2, _) => began <= t1 <= t2 < ended
  }

  /** The log accounts for every change between the two states. */
  ghost predicate Explains(log: seq<Step>, start: Tables, end: Tables) {
    if log == [] then start == end
    else log[|log|-1].after == end && Explains(log[..|log|-1], start, log[|log|-1].before)
  }

  lemma ExplainsOneMore(log: seq<Step>, start: Tables, step: Step)
    requires Explains(log, start, step.before)
    ensures Explains(log + [step], start, step.after)
  {
    assert (log + [step])[..|log|] == log;
  }

  lemma KeepsSelf(t: Tables)
    ensures Keeps(t, t)
  {
  }

  lemma KeepsTrans(a: Tables, b: Tables, c: Tables)
    requires Keeps(a, b) && Keeps(b, c)
    ensures Keeps(a, c)
  {
  }

  lemma {:induction false} LogKeeps(facts: Facts, worlds: nat -> World, content: Contents, log: seq<Step>,
                                    start: Tables, end: Tables)
    requires Explains(log, start, end) && forall i | 0 <= i < |log| :: StepOk(facts, worlds, content, log[i])
    ensures Keeps(start, end)
  {
    if log != [] {
      var last := log[|log|-1];
      LogKeeps(facts, worlds, content, log[..|log|-1], start, last.before);
      assert StepOk(facts, worlds, content, last);
      KeepsTrans(start, last.before, last.after);
    }
  }

  lemma BindKeeps(t: Tables, c: Claimant, path: Path, p: Provenance, id: nat, now: Time)
    requires id !in t.occ
    ensures Keeps(t, Bind(t, c, path, p, id, now))
  {
    hide Locate, IsTrashed, StateOf;
  }

  lemma RetireKeeps(t: Tables, id: nat, path: Path, now: Time)
    ensures Keeps(t, Retire(t, id, now)) && Keeps(t, RetireIfAt(t, id, path, now))
  {
  }

  lemma RenameKeeps(t: Tables, row: nat, path: Path, id: nat, now: Time)
    requires row in t.occ && id !in t.occ
    ensures Keeps(t, Rename(t, Some(row), path, Verified, id, now))
  {
    hide Locate, IsTrashed, StateOf, Bind;
    var o := t.occ[row];
    if Locate(path) != o.where {
      RetireKeeps(t, row, path, now);
      var retired := Retire(t, row, now);
      assert id !in retired.occ;
      BindKeeps(retired, o.claimant, path, Renamed, id, now);
    }
  }

  // ----- the transactions ----------------------------------------------------------------------

  /** An active occurrence as the scan read it, with its message's content columns. */
  datatype Seen = Seen(id: nat, path: Path, where: Locator, claimant: Claimant, row: MessageRow)

  // ----- what each transaction comes to --------------------------------------------------------

  /** Where the disk's calls and the database stand, how often others had their turn, and the log so far. */
  datatype Moment = Moment(tick: nat, tables: Tables, messages: map<Claimant, MessageRow>, turn: nat, log: seq<Step>)

  /** A transaction begins: others had their turn before it. */
  ghost function Begun(db: Database, m: Moment): Moment {
    var next := db.others(m.turn, Db(m.tables, m.messages));
    Moment(m.tick, next.tables, next.messages, m.turn + 1, m.log + [Step(None, m.tables, next.tables, m.tick, m.tick)])
  }

  /** A transaction that began at `b` commits its write. */
  ghost function Wrote(b: Moment, change: Change, tick: nat): Moment {
    var after := ApplyChange(b.tables, change);
    b.(tick := tick, tables := after, log := b.log + [Step(Some(change), b.tables, after, b.tick, tick)])
  }

  /** The checks of a move, in order: the row, the file, the destination, the file again. */
  ghost function MoveTicks(disk: Disk, t: Tables, o: Seen, newPath: Path, identity: Identity, tick: nat): nat {
    if !ActiveAt(t, o.path, o.id) then 0
    else if !disk.SameAt(newPath, identity, tick) || !RowAt(t, newPath, None) then 1
    else 2
  }

  ghost function MoveRun(db: Database, m: Moment, o: Seen, newPath: Path, identity: Identity)
    : (Option<Change>, Moment)
  {
    MoveIn(db, Begun(db, m), o, newPath, identity)
  }

  ghost function MoveIn(db: Database, b: Moment, o: Seen, newPath: Path, identity: Identity): (Option<Change>, Moment) {
    var ended := b.tick + MoveTicks(db.disk, b.tables, o, newPath, identity, b.tick);
    if MoveDue(db.disk, b.tables, o.id, o.path, newPath, identity, b.tick) then
      var change := Moved(o.id, o.path, newPath, NextId(b.tables.occ.Keys), db.clock(b.turn), b.tick + 1);
      (Some(change), Wrote(b, change, ended))
    else (None, b.(tick := ended))
  }

  /** The conditional update at the end of a retirement. */
  ghost function RetireRun(b: Moment, o: Seen, change: Change, tick: nat): (Option<Change>, Moment) {
    if ActiveAt(b.tables, o.path, o.id) then (Some(change), Wrote(b, change, tick)) else (None, b.(tick := tick))
  }

  ghost function MismatchRun(db: Database, m: Moment, o: Seen, identity: Identity): (Option<Change>, Moment) {
    var b := Begun(db, m);
    if !db.disk.SameAt(o.path, identity, b.tick) then (None, b.(tick := b.tick + 1))
    else RetireRun(b, o, Mismatched(o.id, o.path, db.clock(b.turn), b.tick), b.tick + 1)
  }

  /** The looks at the folder: before the transaction, and, with what that recorded, inside it. */
  ghost function Looks(disk: Disk, i: Inventory, path: Path): (r: (Inventory, Option<set<Path>>, Inventory)) {
    var warmed := CandidatesLook(disk.Meets(), i, path).1;
    var (found, looked) := CandidatesLook(disk.Meets(), warmed, path);
    (warmed, found, looked)
  }

  /** What the inventory found, the write, and where it leaves the database and the inventory. */
  ghost function VanishRun(db: Database, m: Moment, i: Inventory, o: Seen)
    : (Option<set<Path>>, Option<Change>, Moment, Inventory)
  {
    var (warmed, found, looked) := Looks(db.disk, i, o.path);
    var b := Begun(db, m.(tick := warmed.tick));
    if found != Some({}) then (found, None, b.(tick := looked.tick), looked)
    else
      var change := Vanished(o.id, o.path, db.clock(b.turn), OwnLook(db.disk.Meets(), o.path, warmed),
                             Last(looked.tick), HasSibling(o.path, warmed.entries));
      var (own, after) := RetireRun(b, o, change, looked.tick);
      (found, own, after, looked)
  }

  /** The proved files, checked in order until one is not the one that was proved. */
  ghost function SameRun(disk: Disk, proven: map<Path, Identity>, order: seq<Path>, tick: nat): (bool, nat)
    requires SetOf(order) <= proven.Keys
    decreases |order|
  {
    if order == [] then (true, tick)
    else if !disk.SameAt(order[0], proven[order[0]], tick) then (false, tick + 1)
    else SameRun(disk, proven, order[1..], tick + 1)
  }

  /**
   * The checks in a rename's retirement, after the inventory's: the own path is gone, every
   * proved file is unchanged, and every candidate is proved. Whether all held, and the tick.
   */
  ghost function AbsentRun(disk: Disk, path: Path, found: Option<set<Path>>, proven: map<Path, Identity>,
                           order: seq<Path>, tick: nat): (bool, nat)
    requires SetOf(order) <= proven.Keys
  {
    if found.None? then (false, tick)
    else if !disk.MissingAt(path, tick) then (false, tick + 1)
    else
      var (all, ended) := SameRun(disk, proven, order, tick + 1);
      (all && found.value <= proven.Keys, ended)
  }

  ghost function RefuteRun(db: Database, m: Moment, i: Inventory, o: Seen, proven: map<Path, Identity>,
                           order: seq<Path>)
    : (bool, Option<Change>, Moment, Inventory)
    requires SetOf(order) <= proven.Keys
  {
    var (warmed, found, looked) := Looks(db.disk, i, o.path);
    var b := Begun(db, m.(tick := warmed.tick));
    var (absent, ended) := AbsentRun(db.disk, o.path, found, proven, order, looked.tick);
    if !absent then (false, None, b.(tick := ended), looked.(tick := ended))
    else
      var change := RenameMismatched(o.id, o.path, db.clock(b.turn), OwnLook(db.disk.Meets(), o.path, warmed),
                                     Last(looked.tick), HasSibling(o.path, warmed.entries));
      var (own, after) := RetireRun(b, o, change, ended);
      (true, own, after, looked.(tick := ended))
  }

  ghost function BindRun(db: Database, m: Moment, c: Claimant, path: Path, identity: Identity)
    : (Option<Change>, Moment)
  {
    var b := Begun(db, m);
    if !db.disk.SameAt(path, identity, b.tick) || !RowAt(b.tables, path, None) then (None, b.(tick := b.tick + 1))
    else
      var change := BoundCopy(c, path, NextId(b.tables.occ.Keys), db.clock(b.turn), b.tick);
      (Some(change), Wrote(b, change, b.tick + 1))
  }

  /** The row id an insert takes: one more than the largest. */
  ghost function NextId(ids: set<nat>): (next: nat)
    ensures forall id | id in ids :: id < next
    ensures next == 0 || next - 1 in ids
  {
    if ids == {} then 0
    else
      var id :| id in ids;
      var rest := NextId(ids - {id});
      assert forall k | k in ids :: k == id || k in ids - {id};
      if id < rest then rest else id + 1
  }

  /** The steps follow one another, each within the calls made from `since` until `until`. */
  ghost predicate Timed(log: seq<Step>, since: nat, until: nat) {
    && since <= until
    && (forall i | 0 <= i < |log| :: since <= log[i].began <= log[i].ended <= until)
    && (forall i | 0 < i < |log| :: log[i-1].ended <= log[i].began)
  }

  /** The database as the scan uses it; before each of its transactions others may commit. */
  class Database {
    const disk: Disk
    const store: Store
    const content: Contents
    const others: (nat, Db) -> Db
    const clock: nat -> Time
    var messages: map<Claimant, MessageRow>
    var turn: nat
    ghost const start: Tables
    ghost var log: seq<Step>
    /** The tick at which the transaction under way began. */
    ghost var began: nat

    constructor (disk: Disk, store: Store, content: Contents, others: (nat, Db) -> Db, clock: nat -> Time,
                 messages: map<Claimant, MessageRow>)
      requires disk.Valid() && Injective(disk.facts.hash) && Peers(disk.facts, content, others)
      requires Good(disk.facts, content, Db(store.Tables(), messages))
      ensures Valid() && this.disk == disk && this.store == store && this.content == content && this.others == others
      ensures log == []
    {
      this.disk, this.store, this.content, this.others, this.clock := disk, store, content, others, clock;
      this.messages, turn := messages, 0;
      start, log, began := store.Tables(), [], 0;
    }

    ghost predicate Valid()
      reads this, store
    {
      LogOk(store.Tables()) && Good(disk.facts, content, Db(store.Tables(), messages))
    }

    /** The log explains how the tables came to be `t`, and every step in it is in order. */
    ghost predicate LogOk(t: Tables)
      reads this
    {
      && disk.Valid() && Injective(disk.facts.hash) && Peers(disk.facts, content, others)
      && Explains(log, start, t)
      && forall i | 0 <= i < |log| :: StepOk(disk.facts, disk.worlds, content, log[i])
    }

    /** The row is still the message's it was read for. */
    ghost predicate Known(o: Seen)
      reads this, store
    {
      && o.id in store.occ && store.occ[o.id].claimant == o.claimant
      && (o.row.hash.Some? ==> o.row.hash.value == disk.facts.hash(content(o.claimant)))
      && (o.row.size.Some? ==> o.row.size.value == |content(o.claimant)|)
    }

    ghost function Now(): Moment
      reads this, store, disk
    {
      Moment(disk.tick, store.Tables(), messages, turn, log)
    }

    /** Other transactions, before one of the scan's. */
    method Begin()
      requires Valid()
      modifies this, store
      ensures Valid() && Keeps(old(store.Tables()), store.Tables())
      ensures Now() == Begun(this, old(Now())) && began == disk.tick
    {
      hide Rows, Keeps, MessagesTrue, Injective, Peers, Justified, Honest;
      var before := store.Tables();
      var db := Db(before, messages);
      PeersKeep(disk.facts, content, others, turn, db);
      var next := others(turn, db);
      turn := turn + 1;
      store.occ, store.pending, store.threadOf := next.tables.occ, next.tables.pending, next.tables.threadOf;
      messages := next.messages;
      began := disk.tick;
      ghost var step := Step(None, before, next.tables, began, began);
      ExplainsOneMore(log, start, step);
      log := log + [step];
    }

    /** The bookkeeping of a write of the scan. */
    ghost method Committed(before: Tables, change: Change)
      requires LogOk(before) && Good(disk.facts, content, Db(store.Tables(), messages))
      requires Justified(disk.facts, disk.worlds, content, before, change)
      requires store.Tables() == ApplyChange(before, change)
      requires CheckedIn(change, began, disk.tick)
      modifies this`log
      ensures Valid() && Keeps(before, store.Tables())
      ensures log == old(log) + [Step(Some(change), before, store.Tables(), began, disk.tick)]
    {
      hide Rows, Keeps, MessagesTrue, Injective, Peers, Justified, Honest, ApplyChange;
      ghost var step := Step(Some(change), before, store.Tables(), began, disk.tick);
      ChangeKeeps(disk.facts, disk.worlds, content, before, change);
      ExplainsOneMore(log, start, step);
      log := log + [step];
    }

    /** `move_verified_occurrence`. */
    method MoveVerified(o: Seen, newPath: Path, identity: Identity) returns (moved: bool, ghost own: Option<Change>)
      requires Valid() && Known(o) && disk.facts.regular(identity) && disk.facts.bytes(identity) == content(o.claimant)
      modifies this, store, disk
      ensures Valid() && Keeps(old(store.Tables()), store.Tables()) && disk.tick >= old(disk.tick)
      ensures (own, Now()) == MoveRun(this, old(Now()), o, newPath, identity)
      ensures moved == own.Some?
    {
      hide Good, Keeps, LogOk, Honest, Begun, MoveIn, StatAt;
      LogOkFacts();
      Begin();
      ghost var t := store.Tables();
      KeepsRow(old(store.Tables()), t, o.id);
      moved, own := MoveBegun(o, newPath, identity);
      KeepsTrans(old(store.Tables()), t, store.Tables());
    }

    /** The transaction, once it has begun. */
    method MoveBegun(o: Seen, newPath: Path, identity: Identity) returns (moved: bool, ghost own: Option<Change>)
      requires Valid() && o.id in store.occ && store.occ[o.id].claimant == o.claimant && began == disk.tick
      requires disk.facts.regular(identity) && disk.facts.bytes(identity) == content(o.claimant)
      modifies this`log, store, disk
      ensures Valid() && Keeps(old(store.Tables()), store.Tables()) && disk.tick >= old(disk.tick)
      ensures (own, Now()) == MoveIn(this, old(Now()), o, newPath, identity) && moved == own.Some?
    {
      hide Good, Keeps, Justified, ApplyChange, Rename, LogOk, Honest, ActiveAt, RowAt, StatAt, NextId, Disk.SameAt;
      hide MoveTicks, MoveDue, Rows, CheckedIn, Explains, StepOk, Peers, Injective;
      own := None;
      LogOkFacts();
      ghost var t := store.Tables();
      KeepsSelf(t);
      GoodRows(disk.facts, content, Db(t, messages));
      var newId := NextRowId(store.occ.Keys);
      var now := clock(turn);
      moved := TryMove(disk, store, o, newPath, identity, newId, now);
      if moved {
        ghost var change := Moved(o.id, o.path, newPath, newId, now, began + 1);
        DueMove(disk, content, t, o, newPath, identity, change);
        GoodAfter(disk.facts, content, t, store.Tables(), messages);
        Committed(t, change);
        own := Some(change);
      }
    }

    /** The end of each retirement: its conditional update, which is justified if it changes the row. */
    method RetireJustified(o: Seen, now: Time, ghost change: Change) returns (retired: bool, ghost own: Option<Change>)
      requires LogOk(store.Tables()) && Good(disk.facts, content, Db(store.Tables(), messages))
      requires ActiveAt(store.Tables(), o.path, o.id) ==>
          Justified(disk.facts, disk.worlds, content, store.Tables(), change)
      requires ApplyChange(store.Tables(), change) == RetireIfAt(store.Tables(), o.id, o.path, now)
      requires CheckedIn(change, began, disk.tick)
      modifies this`log, store
      ensures Valid() && Keeps(old(store.Tables()), store.Tables())
      ensures retired == own.Some?
      ensures (own, Now()) == RetireRun(old(Now()).(tick := began), o, change, disk.tick)
    {
      hide Good, Keeps, Justified, ApplyChange, LogOk, ActiveAt, CheckedIn;
      ghost var t := store.Tables();
      KeepsSelf(t);
      GoodRows(disk.facts, content, Db(t, messages));
      retired := RetireIfActive(store, o.id, o.path, now);
      GoodAfter(disk.facts, content, t, store.Tables(), messages);
      own := None;
      if retired {
        Committed(t, change);
        own := Some(change);
      }
    }

    /** `retire_vanished_occurrence`: the inventory is warmed before the transaction and checked inside it. */
    method RetireVanished(o: Seen, inventory: FolderInventory)
      returns (retired: bool, ghost own: Option<Change>, ghost found: Option<set<Path>>)
      requires Valid() && Known(o) && inventory.Valid() && inventory.disk == disk
      modifies this, store, disk, inventory`entries, inventory`seenAt
      ensures Valid() && Keeps(old(store.Tables()), store.Tables()) && disk.tick >= old(disk.tick)
      ensures inventory.Valid()
      ensures (found, own, Now(), inventory.Now()) == VanishRun(this, old(Now()), old(inventory.Now()), o)
      ensures retired == own.Some? && began == Looks(disk, old(inventory.Now()), o.path).0.tick
    {
      hide Good, Keeps, Justified, ApplyChange, LogOk, Honest, ActiveAt, CandidatesAt, StatAt, RetireIfAt, Rows;
      hide Retire, FolderInventory.Valid, RetireRun, Begun, OwnLook, HasSibling;
      hide CandidatesLook, Disk.Meets, CandidatesOnly;
      own, retired, found := None, false, None;
      LogOkFacts();
      var warmed, _, _ := inventory.Candidates(o.path);
      Begin();
      ghost var t := store.Tables();
      GoodRows(disk.facts, content, Db(t, messages));
      ghost var warm := HasSibling(o.path, inventory.entries);
      var candidates, t1, t2 := inventory.Candidates(o.path);
      found := candidates;
      if candidates != Some({}) {
        return;
      }
      var now := clock(turn);
      ghost var change := Vanished(o.id, o.path, now, t1, t2, warm);
      VanishJustified(disk.facts, disk.worlds, content, t, change);
      retired, own := RetireJustified(o, now, change);
      KeepsTrans(old(store.Tables()), t, store.Tables());
    }

    /** `retire_mismatched_occurrence`. */
    method RetireMismatched(o: Seen, identity: Identity) returns (retired: bool, ghost own: Option<Change>)
      requires Valid() && Known(o) && Differs(disk.facts, identity, content(o.claimant))
      modifies this, store, disk
      ensures Valid() && Keeps(old(store.Tables()), store.Tables()) && disk.tick >= old(disk.tick)
      ensures (own, Now()) == MismatchRun(this, old(Now()), o, identity) && retired == own.Some?
    {
      hide Good, Keeps, Justified, ApplyChange, LogOk, Honest, ActiveAt, StatAt, Differs, RetireIfAt, Rows, Retire;
      hide RetireRun, Begun, Peers, Injective, Explains, StepOk;
      own, retired := None, false;
      LogOkFacts();
      Begin();
      ghost var t := store.Tables();
      KeepsRow(old(store.Tables()), t, o.id);
      GoodRows(disk.facts, content, Db(t, messages));
      var same := disk.SameFile(o.path, identity);
      if !same {
        return;
      }
      ghost var at: nat := disk.tick - 1;
      var now := clock(turn);
      ghost var change := Mismatched(o.id, o.path, now, at);
      MismatchJustified(disk.facts, disk.worlds, content, t, o, identity, change);
      retired, own := RetireJustified(o, now, change);
      KeepsTrans(old(store.Tables()), t, store.Tables());
    }

    /**
     * `retire_mismatched_rename`: `proven` holds files whose bytes were found not to be the
     * message's, in the order of `order`.
     */
    method RetireMismatchedRename(o: Seen, proven: map<Path, Identity>, order: seq<Path>, ghost seen: map<Path, nat>,
                                  inventory: FolderInventory)
      returns (retired: bool, ghost own: Option<Change>, ghost absent: bool)
      requires Valid() && Known(o) && inventory.Valid() && inventory.disk == disk
      requires proven != map[] && SetOf(order) == proven.Keys
      requires Proven(disk.facts, disk.worlds, proven, seen, content(o.claimant), disk.tick)
      modifies this, store, disk, inventory`entries, inventory`seenAt
      ensures Valid() && Keeps(old(store.Tables()), store.Tables()) && disk.tick >= old(disk.tick)
      ensures inventory.Valid()
      ensures (absent, own, Now(), inventory.Now()) ==
              RefuteRun(this, old(Now()), old(inventory.Now()), o, proven, order)
      ensures retired == own.Some?
    {
      hide Good, Keeps, Justified, ApplyChange, LogOk, Honest, ActiveAt, CandidatesAt, NoCandidate, StatAt;
      hide RetireIfAt, Rows, Retire, FolderInventory.Valid, Proven, RetireRun, Begun, OwnLook, HasSibling;
      hide CandidatesLook, Disk.Meets, AbsentRun;
      own, retired := None, false;
      LogOkFacts();
      var warmed, _, _ := inventory.Candidates(o.path);
      Begin();
      ghost var t := store.Tables();
      KeepsRow(old(store.Tables()), t, o.id);
      GoodRows(disk.facts, content, Db(t, messages));
      ProvenStays(disk.facts, disk.worlds, proven, seen, content(o.claimant), old(disk.tick), disk.tick);
      ghost var warm := HasSibling(o.path, inventory.entries);
      var gone, t1, t2 := ProvedAbsent(inventory, o.path, proven, order, seen, content(o.claimant));
      absent := gone;
      if !gone {
        return;
      }
      var now := clock(turn);
      ghost var change := RenameMismatched(o.id, o.path, now, t1, t2, warm);
      RenameMismatchJustified(disk.facts, disk.worlds, content, t, o, change);
      retired, own := RetireJustified(o, now, change);
      KeepsTrans(old(store.Tables()), t, store.Tables());
    }

    /** `bind_found_copy`. */
    method BindFound(c: Claimant, path: Path, identity: Identity) returns (bound: bool, ghost own: Option<Change>)
      requires Valid() && c in store.threadOf && disk.facts.regular(identity)
      requires disk.facts.bytes(identity) == content(c)
      modifies this, store, disk
      ensures Valid() && Keeps(old(store.Tables()), store.Tables()) && disk.tick >= old(disk.tick)
      ensures (own, Now()) == BindRun(this, old(Now()), c, path, identity) && bound == own.Some?
    {
      hide Good, Keeps, Justified, ApplyChange, LogOk, Honest, ActiveAt, StatAt, RowAt, Bind, NextId;
      own, bound := None, false;
      LogOkFacts();
      Begin();
      ghost var t := store.Tables();
      KeepsMessage(old(store.Tables()), t, c);
      GoodRows(disk.facts, content, Db(t, messages));
      var same := disk.SameFile(path, identity);
      ghost var at: nat := disk.tick - 1;
      if !same {
        return;
      }
      RowIsOrNot(store.Tables(), path);
      var held := store.ActiveRow(path);
      if held.Some? {
        return;
      }
      var newId := NextRowId(store.occ.Keys);
      var now := clock(turn);
      store.BindOccurrence(c, path, Scanned, newId, now);
      bound := true;
      ghost var change := BoundCopy(c, path, newId, now, at);
      BindJustified(disk.facts, disk.worlds, content, t, identity, change);
      GoodAfter(disk.facts, content, t, store.Tables(), messages);
      Committed(t, change);
      own := Some(change);
      KeepsTrans(old(store.Tables()), t, store.Tables());
    }

    lemma LogOkFacts()
      requires LogOk(store.Tables())
      ensures disk.Valid()
    {
    }
  }

  /** What makes a move due: the row where it was, the destination free, the file the verified one at both checks. */
  ghost predicate MoveDue(disk: Disk, t: Tables, id: nat, oldPath: Path, newPath: Path, identity: Identity, tick: nat) {
    && ActiveAt(t, oldPath, id) && RowAt(t, newPath, None)
    && disk.SameAt(newPath, identity, tick) && disk.SameAt(newPath, identity, tick + 1)
  }

  /** The transaction of `move_verified_occurrence`: all of it, or nothing. */
  method TryMove(disk: Disk, store: Store, o: Seen, newPath: Path, identity: Identity, newId: nat, now: Time)
    returns (moved: bool)
    requires disk.Valid() && Rows(store.Tables()) && newId !in store.occ
    modifies store, disk
    ensures Rows(store.Tables())
    ensures disk.tick == old(disk.tick) + MoveTicks(disk, old(store.Tables()), o, newPath, identity, old(disk.tick))
    ensures moved <==> MoveDue(disk, old(store.Tables()), o.id, o.path, newPath, identity, old(disk.tick))
    ensures moved ==> disk.tick == old(disk.tick) + 2
    ensures moved ==> StatAt(disk.worlds(old(disk.tick) + 1), newPath) == Some(identity)
    ensures moved ==> store.Tables() == Rename(old(store.Tables()), Some(o.id), newPath, Verified, newId, now)
    ensures store.threadOf == old(store.threadOf)
    ensures !moved ==> store.Tables() == old(store.Tables())
  {
    hide Rows, Rename, RowAt, StatAt, Honest;
    RowIsOrNot(store.Tables(), newPath);
    if !(o.id in store.occ && store.occ[o.id].Active() && store.occ[o.id].path == o.path) {
      return false;
    }
    var same := disk.SameFile(newPath, identity);
    if !same {
      return false;
    }
    var held := store.ActiveRow(newPath);
    if held.Some? {
      return false;
    }
    var still := disk.SameFile(newPath, identity);
    var c, row := store.RenameRows(o.path, newPath, if still then Verified else Unverified, newId, now);
    RenamesThatRow(old(store.Tables()), o.id, o.path, row, newPath, still, newId, now);
    moved := c.Some?;
  }

  lemma GoodRows(facts: Facts, content: Contents, db: Db)
    requires Good(facts, content, db)
    ensures Rows(db.tables)
  {
  }

  lemma GoodAfter(facts: Facts, content: Contents, before: Tables, after: Tables, messages: map<Claimant, MessageRow>)
    requires Good(facts, content, Db(before, messages)) && Rows(after) && after.threadOf == before.threadOf
    ensures Good(facts, content, Db(after, messages))
  {
  }

  lemma RowIsOrNot(t: Tables, path: Path)
    ensures forall id :: RowAt(t, path, Some(id)) ==> !RowAt(t, path, None)
  {
  }

  lemma KeepsRow(a: Tables, b: Tables, id: nat)
    requires Keeps(a, b) && id in a.occ
    ensures id in b.occ && b.occ[id].claimant == a.occ[id].claimant
  {
  }

  lemma RenamesThatRow(t: Tables, id: nat, path: Path, row: Option<nat>, newPath: Path, still: bool, newId: nat,
                       now: Time)
    requires ActiveAt(t, path, id) && RowAt(t, path, row) && (row.Some? ==> row.value in t.occ)
    ensures row == Some(id)
    ensures var ev := if still then Verified else Unverified;
            && MoveRow(t, row, newPath, ev, newId, now).1 == (if still then Some(t.occ[id].claimant) else None)
            && Rename(t, row, newPath, ev, newId, now).threadOf == t.threadOf
            && (!still ==> Rename(t, row, newPath, ev, newId, now) == t)
  {
    hide Locate, IsTrashed, StateOf, RetireAt, Upsert;
  }

  lemma DueMove(disk: Disk, content: Contents, t: Tables, o: Seen, newPath: Path, identity: Identity, ch: Change)
    requires ch.Moved? && ch.id == o.id && ch.oldPath == o.path && ch.newPath == newPath && ch.newId !in t.occ
    requires 0 < ch.at && MoveDue(disk, t, o.id, o.path, newPath, identity, ch.at - 1)
    requires o.id in t.occ && t.occ[o.id].claimant == o.claimant
    requires disk.facts.regular(identity) && disk.facts.bytes(identity) == content(o.claimant)
    ensures Justified(disk.facts, disk.worlds, content, t, ch) && CheckedIn(ch, ch.at - 1, ch.at + 1)
    ensures ApplyChange(t, ch) == Rename(t, Some(o.id), newPath, Verified, ch.newId, ch.now)
  {
    MoveJustified(disk.facts, disk.worlds, content, t, o, newPath, identity, ch);
  }

  lemma MoveJustified(facts: Facts, worlds: nat -> World, content: Contents, t: Tables, o: Seen, newPath: Path,
                      identity: Identity, ch: Change)
    requires ch.Moved? && ActiveAt(t, o.path, o.id) && t.occ[o.id].claimant == o.claimant
    requires ch.id == o.id && ch.oldPath == o.path && ch.newPath == newPath && ch.newId !in t.occ
    requires StatAt(worlds(ch.at), newPath) == Some(identity) && facts.regular(identity)
    requires facts.bytes(identity) == content(o.claimant)
    requires RowAt(t, newPath, None)
    ensures Justified(facts, worlds, content, t, ch)
    ensures ApplyChange(t, ch) == Rename(t, Some(o.id), newPath, Verified, ch.newId, ch.now)
  {
  }

  /** The identity is not of a file with these bytes. */
  ghost predicate Differs(facts: Facts, identity: Identity, content: seq<byte>) {
    !(facts.regular(identity) && facts.bytes(identity) == content)
  }

  /** `UPDATE ... WHERE id = ? AND state = 'active' AND relative_path = ?`, and whether it changed a row. */
  method RetireIfActive(store: Store, id: nat, path: Path, now: Time) returns (changed: bool)
    requires Rows(store.Tables())
    modifies store
    ensures Rows(store.Tables()) && store.Tables() == RetireIfAt(old(store.Tables()), id, path, now)
    ensures changed == ActiveAt(old(store.Tables()), path, id) && store.threadOf == old(store.threadOf)
    ensures !changed ==> store.Tables() == old(store.Tables())
  {
    changed := id in store.occ && store.occ[id].Active() && store.occ[id].path == path;
    if changed {
      store.RetireRow(id, now);
    }
  }

  lemma VanishJustified(facts: Facts, worlds: nat -> World, content: Contents, t: Tables, ch: Change)
    requires ch.Vanished? && ch.t1 <= ch.t2 && CandidatesAt(worlds, ch.path, {}, ch.t1, ch.t2, ch.warm)
    ensures ActiveAt(t, ch.path, ch.id) ==> Justified(facts, worlds, content, t, ch)
    ensures ApplyChange(t, ch) == RetireIfAt(t, ch.id, ch.path, ch.now)
  {
  }

  lemma MismatchJustified(facts: Facts, worlds: nat -> World, content: Contents, t: Tables, o: Seen, identity: Identity,
                          ch: Change)
    requires ch.Mismatched? && ch.id == o.id && o.id in t.occ && t.occ[o.id].claimant == o.claimant
    requires StatAt(worlds(ch.at), ch.path) == Some(identity) && Differs(facts, identity, content(o.claimant))
    ensures ActiveAt(t, ch.path, ch.id) ==> Justified(facts, worlds, content, t, ch)
    ensures ApplyChange(t, ch) == RetireIfAt(t, ch.id, ch.path, ch.now)
  {
  }

  lemma BindJustified(facts: Facts, worlds: nat -> World, content: Contents, t: Tables, identity: Identity, ch: Change)
    requires ch.BoundCopy? && ch.c in t.threadOf && ch.newId !in t.occ && RowAt(t, ch.path, None)
    requires StatAt(worlds(ch.at), ch.path) == Some(identity) && facts.regular(identity)
    requires facts.bytes(identity) == content(ch.c)
    ensures Justified(facts, worlds, content, t, ch)
    ensures ApplyChange(t, ch) == Bind(t, ch.c, ch.path, Scanned, ch.newId, ch.now)
    ensures ApplyChange(t, ch).threadOf == t.threadOf
  {
  }

  /** Each file was seen, before `tick`, under an identity that is not of these bytes. */
  ghost predicate Proven(facts: Facts, worlds: nat -> World, proven: map<Path, Identity>, seen: map<Path, nat>,
                         content: seq<byte>, tick: nat) {
    proven.Keys <= seen.Keys
    && forall p | p in proven ::
      seen[p] < tick && StatAt(worlds(seen[p]), p) == Some(proven[p]) && Differs(facts, proven[p], content)
  }

  /** `_same_file` for each proven file, in order; `at` is when each was checked. */
  method AllSame(disk: Disk, proven: map<Path, Identity>, order: seq<Path>)
    returns (all: bool, ghost at: map<Path, nat>)
    requires SetOf(order) == proven.Keys
    modifies disk
    ensures disk.tick >= old(disk.tick)
    ensures (all, disk.tick) == SameRun(disk, proven, order, old(disk.tick))
    ensures all ==> Rechecked(disk.worlds, proven, at, old(disk.tick))
  {
    hide StatAt;
    at := map[];
    assert order[0..] == order;
    for i := 0 to |order|
      invariant disk.tick >= old(disk.tick)
      invariant SameRun(disk, proven, order, old(disk.tick)) == SameRun(disk, proven, order[i..], disk.tick)
      invariant forall p | p in order[..i] ::
                  p in at && at[p] >= old(disk.tick) && StatAt(disk.worlds(at[p]), p) == Some(proven[p])
    {
      var p := order[i];
      assert order[i..][1..] == order[i + 1..] && order[..i+1] == order[..i] + [p];
      at := at[p := disk.tick];
      var same := disk.SameFile(p, proven[p]);
      if !same {
        return false, at;
      }
    }
    all := true;
    assert order[..|order|] == order;
  }

  ghost predicate Rechecked(worlds: nat -> World, proven: map<Path, Identity>, at: map<Path, nat>, since: nat) {
    forall p | p in proven :: p in at && at[p] >= since && StatAt(worlds(at[p]), p) == Some(proven[p])
  }

  /** The checks of `retire_mismatched_rename` inside its transaction. */
  method ProvedAbsent(inventory: FolderInventory, path: Path, proven: map<Path, Identity>, order: seq<Path>,
                      ghost seen: map<Path, nat>, ghost content: seq<byte>)
    returns (absent: bool, ghost t1: nat, ghost t2: nat)
    requires inventory.Valid() && inventory.disk.Valid() && SetOf(order) == proven.Keys
    requires Proven(inventory.disk.facts, inventory.disk.worlds, proven, seen, content, inventory.disk.tick)
    modifies inventory.disk, inventory`entries, inventory`seenAt
    ensures inventory.Valid() && inventory.disk.tick >= old(inventory.disk.tick)
    ensures var c, before := inventory.disk.Meets(), old(inventory.Now());
      var (found, looked) := CandidatesLook(c, before, path);
      && inventory.Now() == looked.(tick := inventory.disk.tick)
      && (absent, inventory.disk.tick) == AbsentRun(inventory.disk, path, found, proven, order, looked.tick)
      && (absent ==> t1 == OwnLook(c, path, before) && t2 == Last(looked.tick))
    ensures absent ==> old(inventory.disk.tick) <= t1 <= t2 < inventory.disk.tick
    ensures absent ==> NoCandidate(inventory.disk.facts, inventory.disk.worlds, path, content, t1, t2,
                                   HasSibling(path, old(inventory.entries)))
  {
    hide Honest, CandidatesAt, CandidatesOnly, NoCandidate, StatAt, FolderInventory.Valid, Proven, Rechecked, Sibling;
    hide CandidatesLook, Disk.Meets, SameRun, OwnLook;
    var disk := inventory.disk;
    ghost var tick, warm := disk.tick, HasSibling(path, inventory.entries);
    absent := false;
    var found;
    found, t1, t2 := inventory.Candidates(path);
    if found.None? {
      return;
    }
    label checked:
    var missing := disk.Missing(path);
    if !missing {
      TickOnly@checked(inventory);
      return;
    }
    ghost var later := disk.tick;
    var all, rechecked := AllSame(disk, proven, order);
    TickOnly@checked(inventory);
    absent := all && found.value <= proven.Keys;
    if absent {
      RecheckedLater(disk.worlds, proven, rechecked, t2, later);
      StillDiffer(disk.facts, disk.worlds, path, found.value, proven, seen, rechecked, content, tick, t1, t2, warm);
    }
  }

  lemma RecheckedLater(worlds: nat -> World, proven: map<Path, Identity>, at: map<Path, nat>, since: nat, later: nat)
    requires since <= later && Rechecked(worlds, proven, at, later)
    ensures Rechecked(worlds, proven, at, since)
  {
  }

  lemma ProvenStays(facts: Facts, worlds: nat -> World, proven: map<Path, Identity>, seen: map<Path, nat>,
                    content: seq<byte>, before: nat, after: nat)
    requires before <= after && Proven(facts, worlds, proven, seen, content, before)
    ensures Proven(facts, worlds, proven, seen, content, after)
  {
  }

  /** Files proved before the inventory's check and unchanged after it differed at the check. */
  lemma StillDiffer(facts: Facts, worlds: nat -> World, path: Path, found: set<Path>, proven: map<Path, Identity>,
                    seen: map<Path, nat>,
                    rechecked: map<Path, nat>, content: seq<byte>, tick: nat, t1: nat, t2: nat, warm: bool)
    requires Honest(facts, worlds) && tick <= t1 <= t2 && found <= proven.Keys
    requires Proven(facts, worlds, proven, seen, content, tick) && Rechecked(worlds, proven, rechecked, t2)
    requires CandidatesAt(worlds, path, found, t1, t2, warm)
    ensures NoCandidate(facts, worlds, path, content, t1, t2, warm)
  {
    hide Honest, Sibling, Uniq;
    forall p, t | p in found && (t == t1 || t == t2) ensures !Holds(facts, worlds(t), p, content) {
      PathUnchanged(facts, worlds, p, seen[p], t, rechecked[p]);
    }
  }

  lemma RenameMismatchJustified(facts: Facts, worlds: nat -> World, content: Contents, t: Tables, o: Seen, ch: Change)
    requires ch.RenameMismatched? && ch.id == o.id && o.id in t.occ && t.occ[o.id].claimant == o.claimant
    requires ch.t1 <= ch.t2
    requires NoCandidate(facts, worlds, ch.path, content(o.claimant), ch.t1, ch.t2, ch.warm)
    ensures ActiveAt(t, ch.path, ch.id) ==> Justified(facts, worlds, content, t, ch)
    ensures ApplyChange(t, ch) == RetireIfAt(t, ch.id, ch.path, ch.now)
  {
  }

  lemma KeepsMessage(a: Tables, b: Tables, c: Claimant)
    requires Keeps(a, b) && c in a.threadOf
    ensures c in b.threadOf
  {
  }

  lemma PeersKeep(facts: Facts, content: Contents, others: (nat, Db) -> Db, n: nat, db: Db)
    requires Peers(facts, content, others) && Good(facts, content, db)
    ensures Good(facts, content, others(n, db)) && Keeps(db.tables, others(n, db).tables)
  {
  }

  lemma ChangeKeeps(facts: Facts, worlds: nat -> World, content: Contents, t: Tables, ch: Change)
    requires Justified(facts, worlds, content, t, ch)
    ensures Keeps(t, ApplyChange(t, ch))
  {
    hide Keeps, Rename, Bind, RetireIfAt, NoCandidate, CandidatesAt, Holds, StatAt;
    match ch
    case Moved(id, _, newPath, newId, now, _) => RenameKeeps(t, id, newPath, newId, now);
    case BoundCopy(c, path, newId, now, _) => BindKeeps(t, c, path, Scanned, newId, now);
    case Vanished(id, path, now, _, _, _) => RetireKeeps(t, id, path, now);
    case Mismatched(id, path, now, _) => RetireKeeps(t, id, path, now);
    case RenameMismatched(id, path, now, _, _, _) => RetireKeeps(t, id, path, now);
  }

  lemma NextIdIs(ids: set<nat>, next: nat)
    requires (forall id | id in ids :: id < next) && (next == 0 || next - 1 in ids)
    ensures next == NextId(ids)
  {
  }

  method NextRowId(ids: set<nat>) returns (next: nat)
    ensures next !in ids && next == NextId(ids)
  {
    next := 0;
    var rest := ids;
    while rest != {}
      invariant rest <= ids && forall id | id in ids && id !in rest :: id < next
      invariant next == 0 || next - 1 in ids
      decreases rest
    {
      var id :| id in rest;
      if id >= next {
        next := id + 1;
      }
      rest := rest - {id};
    }
    NextIdIs(ids, next);
  }

  // ----- the checks of a rename's retirement, and the order of the log -------------------------------

  /** The `k`th proved file is the one that was proved, at its tick. */
  predicate Unchanged(disk: Disk, proven: map<Path, Identity>, order: seq<Path>, tick: nat, k: nat) {
    k < |order| && order[k] in proven && disk.SameAt(order[k], proven[order[k]], tick + k)
  }

  lemma {:induction false} SameIff(disk: Disk, proven: map<Path, Identity>, order: seq<Path>, tick: nat)
    requires SetOf(order) <= proven.Keys
    ensures SameRun(disk, proven, order, tick).0 <==>
            forall k: nat | k < |order| :: Unchanged(disk, proven, order, tick, k)
    ensures tick <= SameRun(disk, proven, order, tick).1 <= tick + |order|
  {
    hide Disk.SameAt;
    if order != [] {
      var rest, next := order[1..], tick + 1;
      SameIff(disk, proven, rest, next);
      assert Unchanged(disk, proven, order, tick, 0) <==> disk.SameAt(order[0], proven[order[0]], tick);
      forall k: nat | 0 < k < |order|
        ensures Unchanged(disk, proven, order, tick, k) <==> Unchanged(disk, proven, rest, next, k - 1)
      {
        assert order[k] == rest[k - 1];
      }
      if k: nat :| k < |rest| && !Unchanged(disk, proven, rest, next, k) {
        assert !Unchanged(disk, proven, order, tick, k + 1);
      }
    }
  }

  /**
   * The copy counts as refuted exactly when the folder could be listed, its own path is gone,
   * every proved file is unchanged, each at its tick, and no candidate is unproved.
   */
  lemma AbsentIff(disk: Disk, path: Path, found: Option<set<Path>>, proven: map<Path, Identity>, order: seq<Path>,
                  tick: nat)
    requires SetOf(order) <= proven.Keys
    ensures var next := tick + 1;
      AbsentRun(disk, path, found, proven, order, tick).0 <==>
        && found.Some? && disk.MissingAt(path, tick)
        && (forall k: nat | k < |order| :: Unchanged(disk, proven, order, next, k))
        && found.value <= proven.Keys
    ensures tick <= AbsentRun(disk, path, found, proven, order, tick).1 <= tick + 1 + |order|
  {
    hide Disk.SameAt;
    SameIff(disk, proven, order, tick + 1);
  }

  lemma TimedLater(log: seq<Step>, since: nat, until: nat, later: nat)
    requires Timed(log, since, until) && until <= later
    ensures Timed(log, since, later)
  {
  }

  lemma BegunTimed(db: Database, m: Moment, since: nat)
    requires Timed(m.log, since, m.tick)
    ensures Timed(Begun(db, m).log, since, m.tick)
  {
  }

  lemma WroteTimed(b: Moment, change: Change, tick: nat, since: nat)
    requires Timed(b.log, since, b.tick) && b.tick <= tick
    ensures Timed(Wrote(b, change, tick).log, since, tick)
  {
    hide ApplyChange;
  }

  lemma RetireTimed(b: Moment, o: Seen, change: Change, tick: nat, since: nat)
    requires Timed(b.log, since, b.tick) && b.tick <= tick
    ensures var after := RetireRun(b, o, change, tick).1; Timed(after.log, since, after.tick) && after.tick == tick
  {
    hide Wrote, Timed;
    WroteTimed(b, change, tick, since);
    TimedLater(b.log, since, b.tick, tick);
    WroteTick(b, change, tick);
  }

  lemma WroteTick(b: Moment, change: Change, tick: nat)
    ensures Wrote(b, change, tick).tick == tick
  {
  }

  lemma MoveTimed(db: Database, m: Moment, o: Seen, newPath: Path, identity: Identity, since: nat)
    requires Timed(m.log, since, m.tick)
    ensures var after := MoveRun(db, m, o, newPath, identity).1;
      Timed(after.log, since, after.tick) && m.tick <= after.tick
  {
    hide Timed, Wrote, MoveDue, NextId;
    BegunTimed(db, m, since);
    var b := Begun(db, m);
    var ended := b.tick + MoveTicks(db.disk, b.tables, o, newPath, identity, b.tick);
    TimedLater(b.log, since, b.tick, ended);
    var change := Moved(o.id, o.path, newPath, NextId(b.tables.occ.Keys), db.clock(b.turn), b.tick + 1);
    WroteTimed(b, change, ended, since);
    WroteTick(b, change, ended);
  }

  lemma MismatchTimed(db: Database, m: Moment, o: Seen, identity: Identity, since: nat)
    requires Timed(m.log, since, m.tick)
    ensures var after := MismatchRun(db, m, o, identity).1; Timed(after.log, since, after.tick) && m.tick <= after.tick
  {
    hide Timed, RetireRun;
    BegunTimed(db, m, since);
    var b := Begun(db, m);
    TimedLater(b.log, since, b.tick, b.tick + 1);
    RetireTimed(b, o, Mismatched(o.id, o.path, db.clock(b.turn), b.tick), b.tick + 1, since);
  }

  lemma VanishTimed(db: Database, m: Moment, i: Inventory, o: Seen, since: nat)
    requires Timed(m.log, since, m.tick) && i.tick == m.tick
    ensures var after := VanishRun(db, m, i, o).2; Timed(after.log, since, after.tick) && m.tick <= after.tick
  {
    hide Timed, RetireRun, CandidatesLook, OwnLook;
    var (warmed, found, looked) := Looks(db.disk, i, o.path);
    LookLater(db.disk, i, o.path);
    LookLater(db.disk, warmed, o.path);
    TimedLater(m.log, since, m.tick, warmed.tick);
    BegunTimed(db, m.(tick := warmed.tick), since);
    var b := Begun(db, m.(tick := warmed.tick));
    TimedLater(b.log, since, b.tick, looked.tick);
    var change := Vanished(o.id, o.path, db.clock(b.turn), OwnLook(db.disk.Meets(), o.path, warmed), Last(looked.tick),
                           HasSibling(o.path, warmed.entries));
    RetireTimed(b, o, change, looked.tick, since);
  }

  lemma RefuteTimed(db: Database, m: Moment, i: Inventory, o: Seen, proven: map<Path, Identity>, order: seq<Path>,
                    since: nat)
    requires SetOf(order) <= proven.Keys && Timed(m.log, since, m.tick) && i.tick == m.tick
    ensures var after := RefuteRun(db, m, i, o, proven, order).2;
      Timed(after.log, since, after.tick) && m.tick <= after.tick
  {
    hide Timed, RetireRun, CandidatesLook, OwnLook, AbsentRun;
    var (warmed, found, looked) := Looks(db.disk, i, o.path);
    LookLater(db.disk, i, o.path);
    LookLater(db.disk, warmed, o.path);
    TimedLater(m.log, since, m.tick, warmed.tick);
    BegunTimed(db, m.(tick := warmed.tick), since);
    var b := Begun(db, m.(tick := warmed.tick));
    AbsentIff(db.disk, o.path, found, proven, order, looked.tick);
    var ended := AbsentRun(db.disk, o.path, found, proven, order, looked.tick).1;
    TimedLater(b.log, since, b.tick, ended);
    var change := RenameMismatched(o.id, o.path, db.clock(b.turn), OwnLook(db.disk.Meets(), o.path, warmed),
                                   Last(looked.tick), HasSibling(o.path, warmed.entries));
    RetireTimed(b, o, change, ended, since);
  }

  lemma BindTimed(db: Database, m: Moment, c: Claimant, path: Path, identity: Identity, since: nat)
    requires Timed(m.log, since, m.tick)
    ensures var after := BindRun(db, m, c, path, identity).1;
      Timed(after.log, since, after.tick) && m.tick <= after.tick
  {
    hide Timed, Wrote, RowAt, NextId;
    BegunTimed(db, m, since);
    var b := Begun(db, m);
    TimedLater(b.log, since, b.tick, b.tick + 1);
    var change := BoundCopy(c, path, NextId(b.tables.occ.Keys), db.clock(b.turn), b.tick);
    WroteTimed(b, change, b.tick + 1, since);
    WroteTick(b, change, b.tick + 1);
  }
}
