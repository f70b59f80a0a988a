/**
 * What the transactions leave, row by row: where a bound or renamed copy arrives and what
 * it carries, and which tombstones and rows a mark, a clear and a removal touch.
 */
module MailboxEffects {
  import opened Wrappers
  import opened Maildir
  import opened Mailbox

  /** Row `k` is the one active row at the path, with the claimant, the locator and the flags the path names. */
  ghost predicate Arrived(t: Tables, k: nat, c: Claimant, path: Path) {
    && (forall j :: j in t.occ && t.occ[j].retiredAt.None? && t.occ[j].path == path <==> j == k)
    && k in t.occ
    && t.occ[k].claimant == c && t.occ[k].where == Locate(path)
    && t.occ[k].state == StateOf(path) && t.occ[k].trashed == IsTrashed(path)
  }

  /** Every other row is as it was, but that one and the active ones at the path are retired, if active. */
  ghost predicate OthersStay(before: Tables, after: Tables, k: nat, path: Path, gone: Option<nat>, now: Time) {
    && after.occ.Keys == before.occ.Keys + {k} && after.threadOf == before.threadOf
    && forall j | j in before.occ && j != k ::
         var o := before.occ[j];
         after.occ[j] == if gone == Some(j) || (o.retiredAt.None? && o.path == path) then o.(retiredAt := Some(now))
                         else o
  }

  /** An active row, other than `gone`, has this claimant and locator. */
  ghost predicate Keyed(t: Tables, k: nat, c: Claimant, where: Locator, gone: Option<nat>) {
    k in t.occ && t.occ[k].retiredAt.None? && t.occ[k].where == where && t.occ[k].claimant == c && gone != Some(k)
  }

  /** The row that takes the path is the active one with the key, with its provenance, or the new one. */
  ghost predicate Taken(before: Tables, after: Tables, k: nat, c: Claimant, path: Path, gone: Option<nat>, id: nat,
                        p: Provenance) {
    && k in after.occ
    && if exists j :: Keyed(before, j, c, Locate(path), gone)
       then Keyed(before, k, c, Locate(path), gone) && after.occ[k].provenance == before.occ[k].provenance
       else k == id && after.occ[k].provenance == p
  }

  /** The message's tombstones are gone, or all tombstones are as they were. */
  ghost predicate Ends(before: Tables, after: Tables, c: Claimant, ended: bool) {
    forall id: nat ::
      && (id in after.pending <==> id in before.pending && !(ended && before.pending[id].claimant == c))
      && (id in after.pending ==> after.pending[id] == before.pending[id])
  }

  // ----- binds and renames --------------------------------------------------------------------

  /** What a bind leaves: `gone`, if given, is the row a rename retired before it. */
  ghost predicate BoundTo(before: Tables, after: Tables, c: Claimant, path: Path, p: Provenance, gone: Option<nat>,
                          id: nat, now: Time, k: nat) {
    && Arrived(after, k, c, path) && OthersStay(before, after, k, path, gone, now)
    && Taken(before, after, k, c, path, gone, id, p)
  }

  /** A row after the first statement of a bind. */
  lemma Vacated(occ: map<nat, Occurrence>, path: Path, c: Claimant, now: Time, j: nat)
    requires j in occ
    ensures var cleared := RetireAt(occ, path, Locate(path), c, now);
      && j in cleared
      && cleared[j] == if occ[j].retiredAt.None? && occ[j].path == path
                          && !(occ[j].where == Locate(path) && occ[j].claimant == c)
                       then occ[j].(retiredAt := Some(now)) else occ[j]
  {
    hide Locate;
  }

  /** A row after the second, when `k` has the key. */
  lemma Upserted(occ: map<nat, Occurrence>, path: Path, c: Claimant, p: Provenance, id: nat, k: nat, j: nat)
    requires j in occ && Keyed(Tables(occ, map[], map[]), k, c, Locate(path), None)
    requires forall i | Keyed(Tables(occ, map[], map[]), i, c, Locate(path), None) :: i == k
    ensures var after := Upsert(occ, path, c, p, id);
      && after.Keys == occ.Keys
      && after[j] == if j == k then occ[j].(path := path, state := StateOf(path), trashed := IsTrashed(path))
                     else occ[j]
  {
    hide Locate, IsTrashed, StateOf;
    assert occ[k].HasKey(Locate(path), c);
    if occ[j].HasKey(Locate(path), c) {
      assert Keyed(Tables(occ, map[], map[]), j, c, Locate(path), None);
    }
  }

  lemma Inserted(occ: map<nat, Occurrence>, path: Path, c: Claimant, p: Provenance, id: nat)
    requires forall i :: !Keyed(Tables(occ, map[], map[]), i, c, Locate(path), None)
    ensures Upsert(occ, path, c, p, id)
         == occ[id := Occurrence(Locate(path), c, path, StateOf(path), IsTrashed(path), None, p)]
  {
    hide Locate, IsTrashed, StateOf;
    forall i | i in occ ensures !occ[i].HasKey(Locate(path), c) {
      assert !Keyed(Tables(occ, map[], map[]), i, c, Locate(path), None);
    }
  }

  lemma BindArrives(t: Tables, c: Claimant, path: Path, p: Provenance, id: nat, now: Time) returns (k: nat)
    requires Rows(t) && id !in t.occ
    ensures BoundTo(t, Bind(t, c, path, p, id, now), c, path, p, None, id, now, k)
    ensures Ends(t, Bind(t, c, path, p, id, now), c, !IsTrashed(path))
  {
    hide *;
    var cleared := RetireAt(t.occ, path, Locate(path), c, now);
    ClearedKeys(t, path, c, now);
    BindIs(t, c, path, p, id, now);
    if j :| Keyed(t, j, c, Locate(path), None) {
      k := j;
      BindOnto(t, c, path, p, id, now, k);
    } else {
      k := id;
      BindNew(t, c, path, p, id, now);
    }
  }

  lemma BindIs(t: Tables, c: Claimant, path: Path, p: Provenance, id: nat, now: Time)
    ensures var after := Bind(t, c, path, p, id, now);
      && after.occ == Upsert(RetireAt(t.occ, path, Locate(path), c, now), path, c, p, id)
      && after.threadOf == t.threadOf && Ends(t, after, c, !IsTrashed(path))
  {
    hide Locate, IsTrashed, StateOf, RetireAt, Upsert;
  }

  lemma ClearedKeys(t: Tables, path: Path, c: Claimant, now: Time)
    ensures var cleared := RetireAt(t.occ, path, Locate(path), c, now);
      && cleared.Keys == t.occ.Keys
      && forall j :: Keyed(t, j, c, Locate(path), None) <==>
                     Keyed(Tables(cleared, map[], map[]), j, c, Locate(path), None)
  {
    hide Locate, RetireAt;
    var cleared := RetireAt(t.occ, path, Locate(path), c, now);
    assert cleared.Keys == t.occ.Keys by { ClearedRows(t, path, c, now); }
    forall j | j in t.occ
      ensures Keyed(t, j, c, Locate(path), None) <==> Keyed(Tables(cleared, map[], map[]), j, c, Locate(path), None)
    {
      Vacated(t.occ, path, c, now, j);
    }
  }

  lemma ClearedRows(t: Tables, path: Path, c: Claimant, now: Time)
    ensures RetireAt(t.occ, path, Locate(path), c, now).Keys == t.occ.Keys
  {
    hide Locate;
  }

  lemma OneKeyed(t: Tables, c: Claimant, where: Locator, i: nat, j: nat)
    requires Rows(t) && Keyed(t, i, c, where, None) && Keyed(t, j, c, where, None)
    ensures i == j
  {
    hide Locate, IsTrashed, StateOf;
  }

  lemma BindOnto(t: Tables, c: Claimant, path: Path, p: Provenance, id: nat, now: Time, k: nat)
    requires Rows(t) && Keyed(t, k, c, Locate(path), None)
    ensures BoundTo(t, Bind(t, c, path, p, id, now), c, path, p, None, id, now, k)
  {
    hide Locate, IsTrashed, StateOf, RetireAt, Upsert, Bind, Rows;
    var cleared := RetireAt(t.occ, path, Locate(path), c, now);
    BindIs(t, c, path, p, id, now);
    ClearedKeys(t, path, c, now);
    forall i | Keyed(Tables(cleared, map[], map[]), i, c, Locate(path), None) ensures i == k {
      assert Keyed(t, i, c, Locate(path), None);
      OneKeyed(t, c, Locate(path), i, k);
    }
    forall j | j in t.occ
      ensures var after := Upsert(cleared, path, c, p, id);
        && after.Keys == t.occ.Keys
        && after[j] ==
           if j == k then t.occ[j].(path := path, state := StateOf(path), trashed := IsTrashed(path))
           else if t.occ[j].retiredAt.None? && t.occ[j].path == path then t.occ[j].(retiredAt := Some(now))
           else t.occ[j]
    {
      Vacated(t.occ, path, c, now, j);
      Upserted(cleared, path, c, p, id, k, j);
      if j != k { assert !Keyed(t, j, c, Locate(path), None); }
    }
    assert t.occ.Keys == t.occ.Keys + {k};
  }

  lemma BindNew(t: Tables, c: Claimant, path: Path, p: Provenance, id: nat, now: Time)
    requires id !in t.occ && forall j :: !Keyed(t, j, c, Locate(path), None)
    ensures BoundTo(t, Bind(t, c, path, p, id, now), c, path, p, None, id, now, id)
  {
    hide Locate, IsTrashed, StateOf, RetireAt, Upsert, Bind;
    var cleared := RetireAt(t.occ, path, Locate(path), c, now);
    BindIs(t, c, path, p, id, now);
    ClearedKeys(t, path, c, now);
    Inserted(cleared, path, c, p, id);
    forall j | j in t.occ
      ensures cleared[j] == if t.occ[j].retiredAt.None? && t.occ[j].path == path then t.occ[j].(retiredAt := Some(now))
                            else t.occ[j]
    {
      Vacated(t.occ, path, c, now, j);
      assert !Keyed(t, j, c, Locate(path), None);
    }
  }

  /** A successful rename: in place, by the row itself, or by retiring it and binding its message at the new path. */
  ghost predicate MovedTo(before: Tables, after: Tables, row: nat, newPath: Path, id: nat, now: Time, k: nat)
    requires row in before.occ
  {
    var o := before.occ[row];
    && BoundTo(before, after, o.claimant, newPath, if Locate(newPath) == o.where then o.provenance else Renamed,
               if Locate(newPath) == o.where then None else Some(row), id, now, k)
    && (Locate(newPath) == o.where ==> k == row)
    && forall j :: j in after.occ && after.occ[j].retiredAt.None? && after.occ[j].path == o.path ==>
         j == k && newPath == o.path
  }

  /**
   * A rename moves the active row at the old path, if its bytes were verified; with no such
   * row it binds a recorded message; otherwise nothing changes.
   */
  ghost predicate Moves(t: Tables, row: Option<nat>, newPath: Path, ev: Evidence, id: nat, now: Time, after: Tables,
                        c: Option<Claimant>, k: nat) {
    match row
    case None =>
      if ev.Recorded? then c == Some(ev.c) && BoundTo(t, after, ev.c, newPath, Renamed, None, id, now, k)
      else c == None && after == t
    case Some(r) =>
      r in t.occ
      && if ev.Verified? then c == Some(t.occ[r].claimant) && MovedTo(t, after, r, newPath, id, now, k)
         else c == None && after == t
  }

  lemma MoveArrives(t: Tables, row: Option<nat>, newPath: Path, ev: Evidence, id: nat, now: Time) returns (k: nat)
    requires Rows(t) && id !in t.occ && (row.Some? ==> row.value in t.occ && t.occ[row.value].retiredAt.None?)
    ensures var (after, c) := MoveRow(t, row, newPath, ev, id, now); Moves(t, row, newPath, ev, id, now, after, c, k)
  {
    hide Locate, IsTrashed, StateOf, Bind, Retire, MoveInPlace, Rows, MovedTo, BoundTo;
    k := id;
    if row.None? {
      if ev.Recorded? { k := BindArrives(t, ev.c, newPath, Renamed, id, now); }
    } else if ev.Verified? {
      var r := row.value;
      if Locate(newPath) == t.occ[r].where {
        k := r;
        InPlace(t, r, newPath, id, now);
      } else {
        k := Rebound(t, r, newPath, id, now);
      }
    }
  }

  lemma InPlace(t: Tables, row: nat, newPath: Path, id: nat, now: Time)
    requires Rows(t) && row in t.occ && t.occ[row].retiredAt.None? && Locate(newPath) == t.occ[row].where
    ensures MovedTo(t, MoveInPlace(t, row, newPath, now), row, newPath, id, now, row)
  {
    hide Locate, IsTrashed, StateOf;
    assert Keyed(t, row, t.occ[row].claimant, Locate(newPath), None);
    assert t.occ.Keys == t.occ.Keys + {row};
  }

  lemma Rebound(t: Tables, row: nat, newPath: Path, id: nat, now: Time) returns (k: nat)
    requires Rows(t) && row in t.occ && t.occ[row].retiredAt.None? && Locate(newPath) != t.occ[row].where
    requires id !in t.occ
    ensures MovedTo(t, Bind(Retire(t, row, now), t.occ[row].claimant, newPath, Renamed, id, now), row, newPath, id, now,
                    k)
  {
    hide Locate, IsTrashed, StateOf, Bind, Retire, Rows, BoundTo, MovedTo;
    var o, retired := t.occ[row], Retire(t, row, now);
    RetireKeepsRows(t, row, now);
    assert id !in retired.occ by { RetiredIs(t, row, now); }
    k := BindArrives(retired, o.claimant, newPath, Renamed, id, now);
    ReboundTo(t, row, newPath, id, now, Bind(retired, o.claimant, newPath, Renamed, id, now), k);
  }

  lemma RetiredIs(t: Tables, row: nat, now: Time)
    requires row in t.occ
    ensures Retire(t, row, now) == t.(occ := t.occ[row := t.occ[row].(retiredAt := Some(now))])
    ensures Retire(t, row, now).occ.Keys == t.occ.Keys
  {
  }

  lemma ReboundTo(t: Tables, row: nat, newPath: Path, id: nat, now: Time, after: Tables, k: nat)
    requires Rows(t) && row in t.occ && t.occ[row].retiredAt.None? && Locate(newPath) != t.occ[row].where
    requires BoundTo(Retire(t, row, now), after, t.occ[row].claimant, newPath, Renamed, None, id, now, k)
    requires id !in t.occ
    ensures MovedTo(t, after, row, newPath, id, now, k)
  {
    hide Locate, IsTrashed, StateOf, Retire, BoundTo, Rows;
    RetiredIs(t, row, now);
    BoundSince(t, row, t.occ[row].claimant, newPath, id, now, after, k);
    OldPathIsLeft(t, row, t.occ[row].claimant, newPath, id, now, after, k);
  }

  lemma BoundSince(t: Tables, row: nat, c: Claimant, newPath: Path, id: nat, now: Time, after: Tables, k: nat)
    requires row in t.occ && t.occ[row].retiredAt.None? && Locate(newPath) != t.occ[row].where
    requires BoundTo(Retire(t, row, now), after, c, newPath, Renamed, None, id, now, k) && id !in t.occ
    ensures BoundTo(t, after, c, newPath, Renamed, Some(row), id, now, k)
  {
    hide Locate, IsTrashed, StateOf, Retire, Arrived;
    RetiredIs(t, row, now);
    var retired := Retire(t, row, now);
    assert forall j :: Keyed(t, j, c, Locate(newPath), Some(row)) <==> Keyed(retired, j, c, Locate(newPath), None);
  }

  lemma OldPathIsLeft(t: Tables, row: nat, c: Claimant, newPath: Path, id: nat, now: Time, after: Tables, k: nat)
    requires Rows(t) && row in t.occ && t.occ[row].retiredAt.None? && Locate(newPath) != t.occ[row].where
    requires BoundTo(t, after, c, newPath, Renamed, Some(row), id, now, k)
    ensures forall j | j in after.occ && after.occ[j].retiredAt.None? :: after.occ[j].path != t.occ[row].path
  {
    hide Locate, IsTrashed, StateOf, Taken, KeyIndex;
    assert newPath != t.occ[row].path;
    forall j | j in after.occ && after.occ[j].retiredAt.None? ensures after.occ[j].path != t.occ[row].path {
      assert j == k || (j in t.occ && j != row && t.occ[j].retiredAt.None?);
    }
  }

  /** A rename ends the message's loss exactly when it leaves the message live. */
  lemma RenameEnds(t: Tables, row: Option<nat>, newPath: Path, ev: Evidence, id: nat, now: Time)
    requires Rows(t) && id !in t.occ && (row.Some? ==> row.value in t.occ && t.occ[row.value].retiredAt.None?)
    ensures var (moved, c) := MoveRow(t, row, newPath, ev, id, now);
      var after := Rename(t, row, newPath, ev, id, now);
      && after.occ == moved.occ && after.threadOf == moved.threadOf
      && (if c.Some? then Ends(t, after, c.value, HasLive(after, c.value)) else after == t)
  {
    hide Locate, IsTrashed, StateOf, Bind, Retire, MoveInPlace, Rows, BoundTo, MovedTo;
    var (moved, c) := MoveRow(t, row, newPath, ev, id, now);
    var k := MoveArrives(t, row, newPath, ev, id, now);
    if c.Some? {
      MoveEnds(t, row, newPath, ev, id, now, c.value, k);
      assert forall j :: j in moved.occ && moved.occ[j].claimant == c.value && moved.occ[j].Live() <==>
          j in moved.occ && moved.occ[j].claimant == c.value && moved.occ[j].retiredAt.None? && !moved.occ[j].trashed;
    }
  }

  /** What a rename leaves: the row moved, and the message's loss ended exactly when that left it live. */
  ghost predicate Renames(t: Tables, row: Option<nat>, newPath: Path, ev: Evidence, id: nat, now: Time, after: Tables,
                          c: Option<Claimant>, k: nat) {
    && Moves(t, row, newPath, ev, id, now, after, c, k)
    && (c.Some? ==> Ends(t, after, c.value, HasLive(after, c.value)))
  }

  lemma RenameArrives(t: Tables, row: Option<nat>, newPath: Path, ev: Evidence, id: nat, now: Time) returns (k: nat)
    requires Rows(t) && id !in t.occ && (row.Some? ==> row.value in t.occ && t.occ[row.value].retiredAt.None?)
    ensures var c := MoveRow(t, row, newPath, ev, id, now).1;
      Renames(t, row, newPath, ev, id, now, Rename(t, row, newPath, ev, id, now), c, k)
  {
    hide Locate, IsTrashed, StateOf, MoveRow, Rows, Ends, HasLive, Rename, Arrived, OthersStay, Taken;
    k := MoveArrives(t, row, newPath, ev, id, now);
    RenameEnds(t, row, newPath, ev, id, now);
    var (moved, c) := MoveRow(t, row, newPath, ev, id, now);
    OnlyRowsMatter(t, row, newPath, ev, id, now, moved, Rename(t, row, newPath, ev, id, now), c, k);
  }

  lemma OnlyRowsMatter(t: Tables, row: Option<nat>, newPath: Path, ev: Evidence, id: nat, now: Time, moved: Tables,
                       after: Tables, c: Option<Claimant>, k: nat)
    requires Moves(t, row, newPath, ev, id, now, moved, c, k)
    requires after.occ == moved.occ && after.threadOf == moved.threadOf && (c.None? ==> after == t)
    ensures Moves(t, row, newPath, ev, id, now, after, c, k)
  {
    hide Locate, IsTrashed, StateOf;
  }

  ghost predicate HasLive(t: Tables, c: Claimant) {
    exists k :: k in t.occ && t.occ[k].claimant == c && t.occ[k].retiredAt.None? && !t.occ[k].trashed
  }

  /** The move itself ends the loss at most when it leaves the message live. */
  lemma MoveEnds(t: Tables, row: Option<nat>, newPath: Path, ev: Evidence, id: nat, now: Time, c: Claimant, k: nat)
    requires Rows(t) && id !in t.occ && (row.Some? ==> row.value in t.occ && t.occ[row.value].retiredAt.None?)
    requires MoveRow(t, row, newPath, ev, id, now).1 == Some(c)
    ensures var moved := MoveRow(t, row, newPath, ev, id, now).0;
      Ends(t, moved, c, false) || (Ends(t, moved, c, true) && HasLive(moved, c))
  {
    hide Locate, IsTrashed, StateOf, Bind, Retire, Rows, BoundTo, HasLive;
    if row.None? {
      BindEnds(t, c, newPath, Renamed, id, now);
    } else if Locate(newPath) != t.occ[row.value].where {
      var retired := Retire(t, row.value, now);
      RetiredIs(t, row.value, now);
      RetireKeepsRows(t, row.value, now);
      BindEnds(retired, c, newPath, Renamed, id, now);
    }
  }

  lemma BindEnds(t: Tables, c: Claimant, path: Path, p: Provenance, id: nat, now: Time)
    requires Rows(t) && id !in t.occ
    ensures var after := Bind(t, c, path, p, id, now);
      Ends(t, after, c, !IsTrashed(path)) && (!IsTrashed(path) ==> HasLive(after, c))
  {
    hide Locate, IsTrashed, StateOf, Bind, Rows, Ends, OthersStay, Taken;
    var k := BindArrives(t, c, path, p, id, now);
  }

  // ----- retirements, tombstones, removals -----------------------------------------------------

  /** A conditional retirement changes that one row, and only while it is active at the path. */
  lemma RetireChanges(t: Tables, id: nat, path: Path, now: Time)
    ensures var after := RetireIfAt(t, id, path, now);
      if id in t.occ && t.occ[id].retiredAt.None? && t.occ[id].path == path
      then after == t.(occ := t.occ[id := t.occ[id].(retiredAt := Some(now))])
      else after == t
  {
  }

  /** Marking gives each occurrence of a message without a live copy a mark, and keeps every mark. */
  lemma MarksTheLost(t: Tables, only: Option<Claimant>, now: Time)
    requires forall id | id in t.pending :: id in t.occ
    ensures var after := MarkLost(t, only, now);
      && after.occ == t.occ && after.threadOf == t.threadOf
      && (forall id | id in t.pending :: id in after.pending && after.pending[id] == t.pending[id])
      && forall id | id !in t.pending ::
           && (id in after.pending <==>
                 id in t.occ && only in {None, Some(t.occ[id].claimant)} && !HasLive(t, t.occ[id].claimant))
           && (id in after.pending ==> after.pending[id] == Tombstone(t.occ[id].claimant, now))
  {
    forall c ensures HasLive(t, c) == IsLive(t, c) {
      SameLive(t, c);
    }
  }

  lemma SameLive(t: Tables, c: Claimant)
    ensures HasLive(t, c) == IsLive(t, c)
  {
    if k :| k in t.occ && t.occ[k].claimant == c && t.occ[k].retiredAt.None? && !t.occ[k].trashed {
      assert t.occ[k].Live();
    }
  }

  /** Clearing takes just the marks of messages with a live copy. */
  lemma ClearsTheLive(t: Tables)
    ensures var after := ClearLive(t);
      && after.occ == t.occ && after.threadOf == t.threadOf
      && forall id ::
           && (id in after.pending <==> id in t.pending && !HasLive(t, t.pending[id].claimant))
           && (id in after.pending ==> after.pending[id] == t.pending[id])
  {
    forall c ensures HasLive(t, c) == IsLive(t, c) {
      SameLive(t, c);
    }
  }

  /** Each tombstone is of its occurrence's message. */
  ghost predicate MarksOwn(t: Tables) {
    forall id | id in t.pending :: id in t.occ && t.occ[id].claimant == t.pending[id].claimant
  }

  /** A removal takes the messages with all their rows and marks, and nothing of any other message. */
  lemma RemovesOnly(t: Tables, gone: set<Claimant>)
    requires MarksOwn(t)
    ensures var after := Remove(t, gone);
      && (forall c :: c in after.threadOf <==> c in t.threadOf && c !in gone)
      && (forall c | c in after.threadOf :: after.threadOf[c] == t.threadOf[c])
      && (forall id :: id in after.occ <==> id in t.occ && t.occ[id].claimant !in gone)
      && (forall id | id in after.occ :: after.occ[id] == t.occ[id])
      && (forall id :: id in after.pending <==> id in t.pending && t.pending[id].claimant !in gone)
      && (forall id | id in after.pending :: after.pending[id] == t.pending[id])
  {
  }
}
