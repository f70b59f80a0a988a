/**
 * The mailbox tables as the transactions write them, one SQL statement at a time. A
 * statement must satisfy both unique indexes as it is made, and each method comes to the
 * state that `Mailbox` specifies for the whole transaction.
 */
module MailboxStore {
  import opened Wrappers
  import opened Maildir
  import opened Mailbox
  import opened MailboxEffects

  class Store {
    var occ: map<nat, Occurrence>
    var pending: map<nat, Tombstone>
    var threadOf: map<Claimant, Thread>

    constructor ()
      ensures Tables() == Mailbox.Tables(map[], map[], map[])
    {
      occ, pending, threadOf := map[], map[], map[];
    }

    function Tables(): Mailbox.Tables
      reads this
    {
      Mailbox.Tables(occ, pending, threadOf)
    }

    /**
     * One INSERT or UPDATE on `message_occurrences`. Its precondition is what the two
     * unique indexes check, so a statement that could trip one does not verify.
     */
    method Write(rows: map<nat, Occurrence>)
      requires KeyIndex(rows) && PathIndex(rows)
      modifies this`occ
      ensures occ == rows
    {
      occ := rows;
    }

    /** `_bind_occurrence`; `id` is the row id an insert would take. */
    method BindOccurrence(c: Claimant, path: Path, p: Provenance, id: nat, now: Time)
      requires Rows(Tables()) && c in threadOf && id !in occ
      modifies this
      ensures Tables() == Bind(old(Tables()), c, path, p, id, now) && Rows(Tables())
      ensures exists k: nat :: BoundTo(old(Tables()), Tables(), c, path, p, None, id, now, k)
    {
      hide BoundTo;
      hide Locate, IsTrashed, StateOf, RetireAt, Upsert, KeyIndex, PathIndex, Located;
      RetireAtKeepsRows(Tables(), path, c, now);
      Write(RetireAt(occ, path, Locate(path), c, now));
      assert id !in occ by { RetireAtIds(old(occ), path, c, now); }
      UpsertKeepsRows(Tables(), path, c, p, id);
      Write(Upsert(occ, path, c, p, id));
      if !IsTrashed(path) {
        pending := Unmarked(pending, c);
      }
      ghost var k := BindArrives(old(Tables()), c, path, p, id, now);
    }

    /** `SELECT ... WHERE relative_path = ? AND state = 'active'`. */
    method ActiveRow(path: Path) returns (row: Option<nat>)
      requires Rows(Tables())
      ensures RowAt(Tables(), path, row)
    {
      hide Locate, IsTrashed;
      if id :| id in occ && occ[id].Active() && occ[id].path == path {
        row := Some(id);
      } else {
        row := None;
      }
    }

    /** `_move_occurrence`. */
    method MoveOccurrence(oldPath: Path, newPath: Path, ev: Evidence, id: nat, now: Time)
      returns (c: Option<Claimant>, ghost row: Option<nat>)
      requires Rows(Tables()) && id !in occ && (ev.Recorded? ==> ev.c in threadOf)
      modifies this
      ensures RowAt(old(Tables()), oldPath, row)
      ensures row.Some? ==> row.value in old(occ)
      ensures (Tables(), c) == MoveRow(old(Tables()), row, newPath, ev, id, now) && Rows(Tables())
      ensures exists k: nat :: Moves(old(Tables()), row, newPath, ev, id, now, Tables(), c, k)
    {
      hide Locate, IsTrashed, StateOf, KeyIndex, PathIndex, Located, MoveInPlace, Retire, Bind, BoundTo, Moves;
      var found := ActiveRow(oldPath);
      row := found;
      ghost var at := MoveArrives(Tables(), row, newPath, ev, id, now);
      c := None;
      if found.None? {
        if ev.Recorded? {
          BindOccurrence(ev.c, newPath, Renamed, id, now);
          c := Some(ev.c);
        }
      } else if ev.Verified? {
        var k := found.value;
        var o := occ[k];
        c := Some(o.claimant);
        if Locate(newPath) != o.where {
          RetireRow(k, now);
          BindOccurrence(o.claimant, newPath, Renamed, id, now);
        } else {
          MoveRowInPlace(k, newPath, now);
        }
      }
    }

    method RetireRow(id: nat, now: Time)
      requires Rows(Tables()) && id in occ
      modifies this`occ
      ensures Tables() == Retire(old(Tables()), id, now) && Rows(Tables())
      ensures occ.Keys == old(occ.Keys)
    {
      RetireKeepsRows(Tables(), id, now);
      Write(Retire(Tables(), id, now).occ);
    }

    /** The two updates of a rename that keeps folder and uniq. */
    method MoveRowInPlace(row: nat, path: Path, now: Time)
      requires Rows(Tables()) && row in occ && occ[row].Active() && Locate(path) == occ[row].where
      modifies this`occ
      ensures Tables() == MoveInPlace(old(Tables()), row, path, now) && Rows(Tables())
    {
      MoveKeepsRows(Tables(), row, path, now);
      VacateKeepsIndexes(Tables(), row, path, now);
      hide KeyIndex, PathIndex, Located, IsTrashed, StateOf;
      Write(Vacate(occ, row, path, now));
      MoveIsVacateAndTake(old(Tables()), row, path, now);
      Write(occ[row := At(occ[row], path)]);
    }

    /** `_rename_rows`: the move, then the tombstones of a message it left live. */
    method RenameRows(oldPath: Path, newPath: Path, ev: Evidence, id: nat, now: Time)
      returns (c: Option<Claimant>, ghost row: Option<nat>)
      requires Rows(Tables()) && id !in occ && (ev.Recorded? ==> ev.c in threadOf)
      modifies this
      ensures RowAt(old(Tables()), oldPath, row)
      ensures row.Some? ==> row.value in old(occ)
      ensures Tables() == Rename(old(Tables()), row, newPath, ev, id, now) && Rows(Tables())
      ensures c == MoveRow(old(Tables()), row, newPath, ev, id, now).1
      ensures exists k: nat :: Renames(old(Tables()), row, newPath, ev, id, now, Tables(), c, k)
    {
      hide Mailbox.MoveRow, KeyIndex, PathIndex, Located, Moves, Renames;
      c, row := MoveOccurrence(oldPath, newPath, ev, id, now);
      if c.Some? {
        if k :| k in occ && occ[k].claimant == c.value && occ[k].Live() {
          pending := Unmarked(pending, c.value);
        }
      }
      ghost var at := RenameArrives(old(Tables()), row, newPath, ev, id, now);
    }

    /** Deletes a message's thread-map row, whose cascades take its occurrences and tombstones. */
    method RemoveMessage(c: Claimant) returns (existed: bool)
      modifies this
      ensures existed == (c in old(threadOf)) && Tables() == Remove(old(Tables()), {c})
    {
      existed := c in threadOf;
      threadOf := threadOf - {c};
      occ := map id | id in occ && occ[id].claimant !in {c} :: occ[id];
      pending := map id | id in pending && id in occ :: pending[id];
    }

    /**
     * `reap_thread_messages`, one message at a time in one transaction: all of them go, or,
     * when one of the thread's may not go, nothing changes.
     */
    method ReapThreadMessages(thread: Thread, ids: seq<Claimant>, cutoff: Option<Time>, restored: bool)
      returns (removed: Option<seq<Claimant>>)
      requires Valid(Tables())
      modifies this
      ensures removed.Some? == ReapMessages(old(Tables()), thread, SetOf(ids), cutoff, restored).Some?
      ensures removed.Some? ==> Tables() == ReapMessages(old(Tables()), thread, SetOf(ids), cutoff, restored).value
      ensures removed.Some? ==> SetOf(removed.value) == SetOf(ids) * old(threadOf.Keys) && Distinct(removed.value)
      ensures removed.None? ==> Tables() == old(Tables())
    {
      hide Unreapable, Remove;
      if Unreapable(Tables(), thread, Some(SetOf(ids)), cutoff) || restored {
        return None;
      }
      var gone: seq<Claimant> := [];
      RemoveNone(Tables());
      for i := 0 to |ids|
        invariant Tables() == Remove(old(Tables()), SetOf(ids[..i]))
        invariant SetOf(gone) == SetOf(ids[..i]) * old(threadOf.Keys) && Distinct(gone)
      {
        var existed := RemoveMessage(ids[i]);
        RemoveOneMore(old(Tables()), ids, i);
        assert existed == (ids[i] in old(threadOf) && ids[i] !in SetOf(ids[..i])) by {
          RemoveTakes(old(Tables()), SetOf(ids[..i]));
        }
        SetOfAppend(gone, ids[i]);
        if existed {
          gone := gone + [ids[i]];
        }
      }
      assert ids[..|ids|] == ids;
      removed := Some(gone);
    }
  }

  lemma RemoveNone(t: Tables)
    requires Valid(t)
    ensures SetOf<Claimant>([]) == {} && Remove(t, {}) == t
  {
    assert Remove(t, {}).pending == t.pending;
  }

  lemma RemoveTakes(t: Tables, gone: set<Claimant>)
    ensures Remove(t, gone).threadOf == t.threadOf - gone
  {
  }

  lemma RemoveOneMore(t: Tables, ids: seq<Claimant>, i: nat)
    requires i < |ids|
    ensures Remove(Remove(t, SetOf(ids[..i])), {ids[i]}) == Remove(t, SetOf(ids[..i+1]))
    ensures SetOf(ids[..i+1]) == SetOf(ids[..i]) + {ids[i]}
  {
    assert ids[..i+1] == ids[..i] + [ids[i]];
    SetOfAppend(ids[..i], ids[i]);
    RemoveTwice(t, SetOf(ids[..i]), {ids[i]});
  }

  lemma RemoveTwice(t: Tables, a: set<Claimant>, b: set<Claimant>)
    ensures Remove(Remove(t, a), b) == Remove(t, a + b)
  {
    var twice, once := Remove(Remove(t, a), b), Remove(t, a + b);
    assert twice.occ == once.occ;
    assert twice.pending == once.pending;
    assert twice.threadOf == once.threadOf;
  }

  /** What `ActiveRow` finds: the one active row at the path, if any. */
  ghost predicate RowAt(t: Tables, path: Path, row: Option<nat>) {
    match row
    case Some(id) => ActiveAt(t, path, id) && forall k | ActiveAt(t, path, k) :: k == id
    case None => forall k :: !ActiveAt(t, path, k)
  }

  lemma RetireAtIds(occ: map<nat, Occurrence>, path: Path, c: Claimant, now: Time)
    ensures RetireAt(occ, path, Locate(path), c, now).Keys == occ.Keys
  {
  }

  /** The first update of a rename in place: the other rows at the new path retire. */
  function Vacate(occ: map<nat, Occurrence>, row: nat, path: Path, now: Time): map<nat, Occurrence> {
    map k | k in occ :: if k != row && occ[k].Active() && occ[k].path == path then occ[k].(retiredAt := Some(now))
                        else occ[k]
  }

  lemma VacateKeepsIndexes(t: Tables, row: nat, path: Path, now: Time)
    requires Rows(t)
    ensures KeyIndex(Vacate(t.occ, row, path, now)) && PathIndex(Vacate(t.occ, row, path, now))
  {
  }

  lemma MoveIsVacateAndTake(t: Tables, row: nat, path: Path, now: Time)
    requires row in t.occ
    ensures var vacated := Vacate(t.occ, row, path, now);
            row in vacated && MoveInPlace(t, row, path, now).occ == vacated[row := At(vacated[row], path)]
  {
  }
}
