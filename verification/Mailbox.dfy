/**
 * Mailbox copies in the database: occurrences that are bound, renamed and
 * retired, tombstones of messages that lost their last live copy, and the reaps.
 */
module Mailbox {
  import opened Wrappers
  import opened Maildir

  type Claimant = string
  type Thread = string
  type Time = int

  datatype Provenance = Parsed | Renamed | Scanned | Migrated

  /** A `message_occurrences` row; `retiredAt` is set exactly when it is retired. */
  datatype Occurrence = Occurrence(where: Locator, claimant: Claimant, path: Path, state: MessageState, trashed: bool,
                                   retiredAt: Option<Time>, provenance: Provenance) {
    predicate Active() {
      retiredAt.None?
    }

    predicate Live() {
      Active() && !trashed
    }

    predicate HasKey(folderAndUniq: Locator, c: Claimant) {
      Active() && where == folderAndUniq && claimant == c
    }
  }

  datatype Tombstone = Tombstone(claimant: Claimant, markedAt: Time)

  /** The tables the lifecycle touches; a message is tracked while it has a thread. */
  datatype Tables = Tables(occ: map<nat, Occurrence>, pending: map<nat, Tombstone>, threadOf: map<Claimant, Thread>)

  predicate IsLive(t: Tables, c: Claimant) {
    exists id :: id in t.occ && t.occ[id].claimant == c && t.occ[id].Live()
  }

  // ----- binding and moving ------------------------------------------------------

  /** Retires the active rows at `path` that `keep` does not name. */
  function RetireAt(occ: map<nat, Occurrence>, path: Path, where: Locator, c: Claimant,
                    now: Time): map<nat, Occurrence> {
    map id | id in occ ::
      if occ[id].Active() && occ[id].path
          == path && !occ[id].HasKey(where, c) then occ[id].(retiredAt := Some(now)) else occ[id]
  }

  function At(o: Occurrence, path: Path): Occurrence {
    o.(path := path, state := StateOf(path), trashed := IsTrashed(path))
  }

  /** The upsert on the active key: the row with it takes the path, or row `id` is new. */
  function Upsert(occ: map<nat, Occurrence>, path: Path, c: Claimant, p: Provenance, id: nat): map<nat, Occurrence> {
    var where := Locate(path);
    if exists k :: k in occ && occ[k].HasKey(where, c) then
      map k | k in occ :: if occ[k].HasKey(where, c) then At(occ[k], path) else occ[k]
    else
      occ[id := Occurrence(where, c, path, StateOf(path), IsTrashed(path), None, p)]
  }

  function Unmarked(pending: map<nat, Tombstone>, c: Claimant): map<nat, Tombstone> {
    map id | id in pending && pending[id].claimant != c :: pending[id]
  }

  /** `_bind_occurrence`. */
  function Bind(t: Tables, c: Claimant, path: Path, p: Provenance, id: nat, now: Time): Tables {
    var occ := Upsert(RetireAt(t.occ, path, Locate(path), c, now), path, c, p, id);
    t.(occ := occ, pending := if IsTrashed(path) then t.pending else Unmarked(t.pending, c))
  }

  function Retire(t: Tables, id: nat, now: Time): Tables {
    if id in t.occ then t.(occ := t.occ[id := t.occ[id].(retiredAt := Some(now))]) else t
  }

  /** A conditional retirement: only while the row is active at that path. */
  function RetireIfAt(t: Tables, id: nat, path: Path, now: Time): Tables {
    if id in t.occ && t.occ[id].Active() && t.occ[id].path == path then Retire(t, id, now) else t
  }

  predicate ActiveAt(t: Tables, path: Path, id: nat) {
    id in t.occ && t.occ[id].Active() && t.occ[id].path == path
  }

  /** What a rename found out about its destination. */
  datatype Evidence =
    | Unverified
    | Verified            // the occurrence's own bytes, rechecked in the transaction
    | Recorded(c: Claimant)  // no occurrence, but the file record names `c`'s bytes, rechecked

  /** The row moved in place: other rows at the new path retire, and it takes the path. */
  function MoveInPlace(t: Tables, row: nat, path: Path, now: Time): Tables
    requires row in t.occ
  {
    t.(occ := map k | k in t.occ ::
         if k == row then At(t.occ[k], path)
         else if t.occ[k].Active() && t.occ[k].path == path then t.occ[k].(retiredAt := Some(now))
         else t.occ[k])
  }

  /** `_move_occurrence`, given the active row at the old path, if any. */
  function MoveRow(t: Tables, row: Option<nat>, newPath: Path, ev: Evidence, id: nat,
                   now: Time): (Tables, Option<Claimant>)
    requires row.Some? ==> row.value in t.occ
  {
    if row.None? then
      if ev.Recorded? then (Bind(t, ev.c, newPath, Renamed, id, now), Some(ev.c)) else (t, None)
    else if !ev.Verified? then (t, None)
    else
      var o := t.occ[row.value];
      if Locate(newPath) != o.where then
        (Bind(Retire(t, row.value, now), o.claimant, newPath, Renamed, id, now), Some(o.claimant))
      else (MoveInPlace(t, row.value, newPath, now), Some(o.claimant))
  }

  /** `_rename_rows`: the move, and the end of the loss when it leaves the message live. */
  function Rename(t: Tables, row: Option<nat>, newPath: Path, ev: Evidence, id: nat, now: Time): Tables
    requires row.Some? ==> row.value in t.occ
  {
    var (moved, c) := MoveRow(t, row, newPath, ev, id, now);
    if c.Some? && IsLive(moved, c.value) then moved.(pending := Unmarked(moved.pending, c.value)) else moved
  }

  // ----- tombstones -----------------------------------------------------------------

  predicate Lost(t: Tables, id: nat, only: Option<Claimant>) {
    id in t.occ && !IsLive(t, t.occ[id].claimant) && (only.Some? ==> t.occ[id].claimant == only.value)
  }

  /** `mark_lost_messages`: an existing mark keeps its time. */
  function MarkLost(t: Tables, only: Option<Claimant>, now: Time): Tables {
    t.(pending := map id | id in t.pending.Keys + t.occ.Keys && (id in t.pending || Lost(t, id, only)) ::
         if id in t.pending then t.pending[id] else Tombstone(t.occ[id].claimant, now))
  }

  /** `clear_live_tombstones`. */
  function ClearLive(t: Tables): Tables {
    t.(pending := map id | id in t.pending && !IsLive(t, t.pending[id].claimant) :: t.pending[id])
  }

  // ----- reaping ----------------------------------------------------------------------

  predicate MarkedBy(t: Tables, c: Claimant, cutoff: Option<Time>) {
    exists id ::
        id in t.pending && t.pending[id].claimant == c && (cutoff.Some? ==> t.pending[id].markedAt <= cutoff.value)
  }

  /** `_has_unreapable_messages`: looks at the messages of `thread` only, among `ids` when given. */
  predicate Unreapable(t: Tables, thread: Thread, ids: Option<set<Claimant>>, cutoff: Option<Time>) {
    exists c :: c in t.threadOf && t.threadOf[c] == thread && (ids.Some? ==> c in ids.value)
      && (IsLive(t, c) || !MarkedBy(t, c, cutoff))
  }

  /** Removes messages with their occurrences and tombstones, by cascade. */
  function Remove(t: Tables, gone: set<Claimant>): Tables {
    var occ := map id | id in t.occ && t.occ[id].claimant !in gone :: t.occ[id];
    Tables(occ, map id | id in t.pending && id in occ :: t.pending[id], t.threadOf - gone)
  }

  function ThreadMessages(t: Tables, thread: Thread): set<Claimant> {
    set c | c in t.threadOf && t.threadOf[c] == thread
  }

  /** `reap_thread_messages`; `restored` is the verdict of the check for files back on disk. */
  function ReapMessages(t: Tables, thread: Thread, ids: set<Claimant>, cutoff: Option<Time>,
                        restored: bool): Option<Tables> {
    if Unreapable(t, thread, Some(ids), cutoff) || restored then None else Some(Remove(t, ids))
  }

  /** `delete_thread_completely`. */
  function ReapThread(t: Tables, thread: Thread, cutoff: Option<Time>, restored: bool): Option<Tables> {
    if Unreapable(t, thread, None, cutoff) || restored then None else Some(Remove(t, ThreadMessages(t, thread)))
  }

  /** A message is indexed, or moves to another thread. */
  function Track(t: Tables, c: Claimant, thread: Thread): Tables {
    t.(threadOf := t.threadOf[c := thread])
  }

  // ----- the invariant -------------------------------------------------------------------

  ghost predicate KeyIndex(occ: map<nat, Occurrence>) {
    forall i, j | i in occ && j in occ && i != j && occ[i].Active() && occ[j].Active() ::
      !(occ[i].where == occ[j].where && occ[i].claimant == occ[j].claimant)
  }

  ghost predicate PathIndex(occ: map<nat, Occurrence>) {
    forall i, j | i in occ && j in occ && i != j && occ[i].Active() && occ[j].Active() :: occ[i].path != occ[j].path
  }

  ghost predicate Located(occ: map<nat, Occurrence>) {
    forall i | i in occ ::
      && occ[i].where == Locate(occ[i].path)
      && occ[i].state == StateOf(occ[i].path) && occ[i].trashed == IsTrashed(occ[i].path)
  }

  /** No tombstone beside a live copy; each tombstone is of its occurrence's message. */
  ghost predicate Tombstones(t: Tables) {
    forall id | id in t.pending ::
      id in t.occ && t.occ[id].claimant == t.pending[id].claimant && !IsLive(t, t.pending[id].claimant)
  }

  /** What the unique indexes, the locators and the foreign key ask of the rows. */
  ghost predicate Rows(t: Tables) {
    && KeyIndex(t.occ) && PathIndex(t.occ) && Located(t.occ)
    && (forall i | i in t.occ :: t.occ[i].claimant in t.threadOf)
  }

  ghost predicate Valid(t: Tables) {
    Rows(t) && Tombstones(t)
  }

  // ----- the rows keep their keys, paths and locators ---------------------------------

  lemma RetireAtKeepsRows(t: Tables, path: Path, c: Claimant, now: Time)
    requires Rows(t)
    ensures Rows(t.(occ := RetireAt(t.occ, path, Locate(path), c, now)))
    ensures OnlyKeyAt(RetireAt(t.occ, path, Locate(path), c, now), path, c)
  {
    hide Locate, IsTrashed, StateOf;
  }

  /** No active row at `path` but the one with its key. */
  ghost predicate OnlyKeyAt(occ: map<nat, Occurrence>, path: Path, c: Claimant) {
    forall k | k in occ && occ[k].Active() && occ[k].path == path :: occ[k].HasKey(Locate(path), c)
  }

  lemma UpsertKeepsRows(t: Tables, path: Path, c: Claimant, p: Provenance, id: nat)
    requires Rows(t) && OnlyKeyAt(t.occ, path, c) && c in t.threadOf && id !in t.occ
    ensures Rows(t.(occ := Upsert(t.occ, path, c, p, id)))
  {
    hide Locate, IsTrashed, StateOf;
    var where := Locate(path);
    if k :| k in t.occ && t.occ[k].HasKey(where, c) {
      forall j | j in t.occ && t.occ[j].HasKey(where, c) ensures j == k {
      }
    }
  }

  lemma BindKeepsRows(t: Tables, c: Claimant, path: Path, p: Provenance, id: nat, now: Time)
    requires Rows(t) && c in t.threadOf && id !in t.occ
    ensures Rows(Bind(t, c, path, p, id, now))
  {
    var cleared := RetireAt(t.occ, path, Locate(path), c, now);
    RetireAtKeepsRows(t, path, c, now);
    UpsertKeepsRows(t.(occ := cleared), path, c, p, id);
  }

  lemma RetireKeepsRows(t: Tables, id: nat, now: Time)
    requires Rows(t)
    ensures Rows(Retire(t, id, now))
  {
  }

  lemma MoveKeepsRows(t: Tables, row: nat, path: Path, now: Time)
    requires Rows(t) && row in t.occ && t.occ[row].Active() && Locate(path) == t.occ[row].where
    ensures Rows(MoveInPlace(t, row, path, now))
  {
    hide Locate, IsTrashed, StateOf;
  }

  lemma RemoveKeepsRows(t: Tables, gone: set<Claimant>)
    requires Rows(t)
    ensures Rows(Remove(t, gone))
  {
  }
}
