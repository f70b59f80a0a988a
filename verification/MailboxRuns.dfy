/**
 * Runs of the mailbox tables: every operation keeps the invariant, and a message
 * reaped under a grace cutoff was without a live copy since some time before it.
 */
module MailboxRuns {
  import opened Wrappers
  import opened Maildir
  import opened Mailbox
  import opened MailboxEffects

  /** One committed transaction; `now` is the time it read. */
  datatype Op =
    | Bound(c: Claimant, path: Path, provenance: Provenance, id: nat)
    | Renamed(row: Option<nat>, newPath: Path, evidence: Evidence, id: nat)
    | RetiredIfAt(id: nat, path: Path)
    | Marked(only: Option<Claimant>)
    | Cleared
    | Tracked(c: Claimant, thread: Thread)
    | ReapedMessages(thread: Thread, ids: set<Claimant>, cutoff: Option<Time>, restored: bool)
    | ReapedThread(thread: Thread, cutoff: Option<Time>, restored: bool)

  /** New rows get an unused id, claimants have a message row, and a renamed row is active. */
  predicate Enabled(t: Tables, op: Op) {
    match op
    case Bound(c, _, _, id) => c in t.threadOf && id !in t.occ
    case Renamed(row, _, ev, id) =>
      id !in t.occ && (row.Some? ==> row.value in t.occ && t.occ[row.value].Active())
      && (ev.Recorded? ==> ev.c in t.threadOf)
    case _ => true
  }

  function Apply(t: Tables, op: Op, now: Time): Tables
    requires Enabled(t, op)
  {
    match op
    case Bound(c, path, p, id) => Bind(t, c, path, p, id, now)
    case Renamed(row, path, ev, id) => Rename(t, row, path, ev, id, now)
    case RetiredIfAt(id, path) => RetireIfAt(t, id, path, now)
    case Marked(only) => MarkLost(t, only, now)
    case Cleared => ClearLive(t)
    case Tracked(c, thread) => Track(t, c, thread)
    case ReapedMessages(thread, ids, cutoff, restored) =>
      var r := ReapMessages(t, thread, ids, cutoff, restored);
      if r.Some? then r.value else t
    case ReapedThread(thread, cutoff, restored) =>
      var r := ReapThread(t, thread, cutoff, restored);
      if r.Some? then r.value else t
  }

  /** A tombstone of the message was set by then. */
  ghost predicate MarkedSince(t: Tables, c: Claimant, cutoff: Option<Time>) {
    exists id ::
        id in t.pending && t.pending[id].claimant == c && (cutoff.None? || t.pending[id].markedAt <= cutoff.value)
  }

  /** Every message of the thread, and of these if they are given, is without a live copy and marked by then. */
  ghost predicate AllReapable(t: Tables, thread: Thread, ids: Option<set<Claimant>>, cutoff: Option<Time>) {
    forall c | c in t.threadOf && t.threadOf[c] == thread && (ids.None? || c in ids.value) ::
      !HasLive(t, c) && MarkedSince(t, c, cutoff)
  }

  /** The messages are gone with their rows and marks, and nothing else is. */
  ghost predicate Gone(t: Tables, n: Tables, gone: Claimant -> bool) {
    && (forall c :: c in n.threadOf <==> c in t.threadOf && !gone(c))
    && (forall c | c in n.threadOf :: n.threadOf[c] == t.threadOf[c])
    && (forall id :: id in n.occ <==> id in t.occ && !gone(t.occ[id].claimant))
    && (forall id | id in n.occ :: n.occ[id] == t.occ[id])
    && (forall id :: id in n.pending <==> id in t.pending && !gone(t.pending[id].claimant))
    && (forall id | id in n.pending :: n.pending[id] == t.pending[id])
  }

  /** What each operation leaves; a reap goes ahead exactly when its messages are reapable and no file is back. */
  lemma OperationLeaves(t: Tables, op: Op, now: Time)
    requires Rows(t) && MarksOwn(t) && Enabled(t, op)
    ensures var n := Apply(t, op, now);
      match op
      case Bound(c, path, p, id) => exists k: nat :: BoundTo(t, n, c, path, p, None, id, now, k)
      case Renamed(row, path, ev, id) =>
        exists k: nat, c: Option<Claimant> :: Renames(t, row, path, ev, id, now, n, c, k)
      case RetiredIfAt(id, path) =>
        n == if id in t.occ && t.occ[id].retiredAt.None? && t.occ[id].path == path
             then t.(occ := t.occ[id := t.occ[id].(retiredAt := Some(now))]) else t
      case Marked(only) =>
        && n == t.(pending := n.pending)
        && forall id ::
             && (id in n.pending <==>
                   || id in t.pending
                   || (id in t.occ && !HasLive(t, t.occ[id].claimant) && only in {None, Some(t.occ[id].claimant)}))
             && (id in n.pending ==>
                   n.pending[id] == if id in t.pending then t.pending[id] else Tombstone(t.occ[id].claimant, now))
      case Cleared =>
        && n == t.(pending := n.pending)
        && forall id ::
             && (id in n.pending <==> id in t.pending && !HasLive(t, t.pending[id].claimant))
             && (id in n.pending ==> n.pending[id] == t.pending[id])
      case Tracked(c, thread) => n == t.(threadOf := t.threadOf[c := thread])
      case ReapedMessages(thread, ids, cutoff, restored) =>
        if !restored && AllReapable(t, thread, Some(ids), cutoff) then Gone(t, n, c => c in ids) else n == t
      case ReapedThread(thread, cutoff, restored) =>
        if !restored && AllReapable(t, thread, None, cutoff)
        then Gone(t, n, c => c in t.threadOf && t.threadOf[c] == thread) else n == t
  {
    hide Locate, IsTrashed, StateOf, Rows, BoundTo, Renames, Bind, Rename, MarkLost, ClearLive, Remove, Unreapable;
    hide AllReapable, MoveRow;
    match op
    case Bound(c, path, p, id) => var k := BindArrives(t, c, path, p, id, now);
    case Renamed(row, path, ev, id) =>
      var k := RenameArrives(t, row, path, ev, id, now);
      var c := MoveRow(t, row, path, ev, id, now).1;
      assert Renames(t, row, path, ev, id, now, Apply(t, op, now), c, k);
    case RetiredIfAt(id, path) => RetireChanges(t, id, path, now);
    case Marked(only) => MarksTheLost(t, only, now);
    case Cleared => ClearsTheLive(t);
    case Tracked(c, thread) =>
    case ReapedMessages(thread, ids, cutoff, _) =>
      ReapableIff(t, thread, Some(ids), cutoff);
      RemovesOnly(t, ids);
    case ReapedThread(thread, cutoff, _) =>
      ReapableIff(t, thread, None, cutoff);
      RemovesOnly(t, ThreadMessages(t, thread));
  }

  lemma ReapableIff(t: Tables, thread: Thread, ids: Option<set<Claimant>>, cutoff: Option<Time>)
    ensures AllReapable(t, thread, ids, cutoff) <==> !Unreapable(t, thread, ids, cutoff)
  {
    forall c ensures HasLive(t, c) == IsLive(t, c) && MarkedSince(t, c, cutoff) == MarkedBy(t, c, cutoff) {
      SameLive(t, c);
    }
    if !AllReapable(t, thread, ids, cutoff) {
      var c :| c in t.threadOf && t.threadOf[c] == thread && (ids.None? || c in ids.value)
               && !(!HasLive(t, c) && MarkedSince(t, c, cutoff));
      assert IsLive(t, c) || !MarkedBy(t, c, cutoff);
    }
  }

  lemma ApplyKeepsRows(t: Tables, op: Op, now: Time)
    requires Rows(t) && Enabled(t, op)
    ensures Rows(Apply(t, op, now))
  {
    match op
    case Bound(c, path, p, id) => BindKeepsRows(t, c, path, p, id, now);
    case Renamed(row, path, ev, id) =>
      if row.None? {
        if ev.Recorded? { BindKeepsRows(t, ev.c, path, Provenance.Renamed, id, now); }
      } else if ev.Verified? {
        var o := t.occ[row.value];
        if Locate(path) != o.where {
          RetireKeepsRows(t, row.value, now);
          BindKeepsRows(Retire(t, row.value, now), o.claimant, path, Provenance.Renamed, id, now);
        } else {
          MoveKeepsRows(t, row.value, path, now);
        }
      }
    case RetiredIfAt(id, _) => RetireKeepsRows(t, id, now);
    case ReapedMessages(thread, ids, _, _) => RemoveKeepsRows(t, ids);
    case ReapedThread(thread, _, _) => RemoveKeepsRows(t, ThreadMessages(t, thread));
    case _ =>
  }

  // ----- tombstones stand beside no live copy ------------------------------------------

  lemma BindMakesLive(t: Tables, c: Claimant, path: Path, p: Provenance, id: nat, now: Time, d: Claimant)
    requires IsLive(Bind(t, c, path, p, id, now), d)
    ensures IsLive(t, d) || (d == c && !IsTrashed(path))
  {
    hide Locate, IsTrashed, StateOf;
  }

  lemma BindKeepsTombstones(t: Tables, c: Claimant, path: Path, p: Provenance, id: nat, now: Time)
    requires Tombstones(t) && id !in t.occ
    ensures Tombstones(Bind(t, c, path, p, id, now))
  {
    var after := Bind(t, c, path, p, id, now);
    forall k | k in after.pending ensures !IsLive(after, after.pending[k].claimant) {
      if IsLive(after, after.pending[k].claimant) {
        BindMakesLive(t, c, path, p, id, now, after.pending[k].claimant);
      }
    }
    assert forall k | k in t.pending :: k in after.occ && after.occ[k].claimant == t.occ[k].claimant by {
      hide Locate, IsTrashed, StateOf;
    }
  }

  lemma RetireKeepsTombstones(t: Tables, id: nat, now: Time)
    requires Tombstones(t)
    ensures Tombstones(Retire(t, id, now))
  {
    var after := Retire(t, id, now);
    forall d | IsLive(after, d) ensures IsLive(t, d) {
    }
  }

  lemma MoveKeepsTombstones(t: Tables, row: nat, path: Path, now: Time)
    requires Tombstones(t) && row in t.occ
    ensures var c := t.occ[row].claimant;
            var moved := MoveInPlace(t, row, path, now);
            Tombstones(if IsLive(moved, c) then moved.(pending := Unmarked(moved.pending, c)) else moved)
  {
    hide Locate, IsTrashed, StateOf;
    var moved := MoveInPlace(t, row, path, now);
    forall d | IsLive(moved, d) ensures IsLive(t, d) || d == t.occ[row].claimant {
    }
    var c := t.occ[row].claimant;
    var after := if IsLive(moved, c) then moved.(pending := Unmarked(moved.pending, c)) else moved;
    forall d ensures IsLive(moved, d) == IsLive(after, d) {
    }
  }

  lemma UnmarkKeepsTombstones(t: Tables, c: Claimant)
    requires Tombstones(t)
    ensures Tombstones(t.(pending := Unmarked(t.pending, c)))
  {
    var after := t.(pending := Unmarked(t.pending, c));
    forall d | IsLive(after, d) ensures IsLive(t, d) {
    }
  }

  lemma MarkAndClearKeepTombstones(t: Tables, only: Option<Claimant>, now: Time)
    requires Tombstones(t)
    ensures Tombstones(MarkLost(t, only, now)) && Tombstones(ClearLive(t))
  {
    forall d | IsLive(MarkLost(t, only, now), d) || IsLive(ClearLive(t), d) ensures IsLive(t, d) {
    }
  }

  lemma RemoveKeepsTombstones(t: Tables, gone: set<Claimant>)
    requires Tombstones(t)
    ensures Tombstones(Remove(t, gone))
  {
    forall d | IsLive(Remove(t, gone), d) ensures IsLive(t, d) {
    }
  }

  /** Every operation keeps the unique indexes, the locators and the tombstones right. */
  lemma ApplyKeepsValid(t: Tables, op: Op, now: Time)
    requires Valid(t) && Enabled(t, op)
    ensures Valid(Apply(t, op, now))
  {
    ApplyKeepsRows(t, op, now);
    hide Locate, IsTrashed, StateOf, KeyIndex, PathIndex, Located;
    match op
    case Bound(c, path, p, id) => BindKeepsTombstones(t, c, path, p, id, now);
    case Renamed(row, path, ev, id) => RenameKeepsTombstones(t, row, path, ev, id, now);
    case RetiredIfAt(id, _) => RetireKeepsTombstones(t, id, now);
    case Marked(only) => MarkAndClearKeepTombstones(t, only, now);
    case Cleared => MarkAndClearKeepTombstones(t, None, now);
    case Tracked(c, thread) =>
      assert forall d :: IsLive(Track(t, c, thread), d) == IsLive(t, d);
    case ReapedMessages(thread, ids, _, _) => RemoveKeepsTombstones(t, ids);
    case ReapedThread(thread, _, _) => RemoveKeepsTombstones(t, ThreadMessages(t, thread));
  }

  lemma RenameKeepsTombstones(t: Tables, row: Option<nat>, path: Path, ev: Evidence, id: nat, now: Time)
    requires Tombstones(t) && id !in t.occ && (row.Some? ==> row.value in t.occ)
    ensures Tombstones(Rename(t, row, path, ev, id, now))
  {
    hide Locate, IsTrashed, StateOf, Bind, Retire, MoveInPlace;
    if row.None? {
      if ev.Recorded? {
        BindKeepsTombstones(t, ev.c, path, Provenance.Renamed, id, now);
        UnmarkKeepsTombstones(Bind(t, ev.c, path, Provenance.Renamed, id, now), ev.c);
      }
    } else if ev.Verified? {
      var o := t.occ[row.value];
      MoveKeepsTombstones(t, row.value, path, now);
      var retired := Retire(t, row.value, now);
      RetireKeepsTombstones(t, row.value, now);
      assert id !in retired.occ by { RetireIds(t, row.value, now); }
      BindKeepsTombstones(retired, o.claimant, path, Provenance.Renamed, id, now);
      UnmarkKeepsTombstones(Bind(retired, o.claimant, path, Provenance.Renamed, id, now), o.claimant);
    }
  }

  lemma RetireIds(t: Tables, id: nat, now: Time)
    ensures Retire(t, id, now).occ.Keys == t.occ.Keys
  {
  }

  // ----- whole runs ------------------------------------------------------------------------

  /** A committed state and the time its transaction read. */
  datatype Commit = Commit(tables: Tables, now: Time)

  /** From valid tables without tombstones, one operation a commit, under a clock that never runs back. */
  ghost predicate Run(h: seq<Commit>, ops: seq<Op>) {
    && |h| == |ops| + 1
    && Valid(h[0].tables) && h[0].tables.pending == map[]
    && forall i | 0 <= i < |ops| :: Committed(h[i], ops[i], h[i+1])
  }

  ghost predicate Committed(before: Commit, op: Op, after: Commit) {
    && before.now <= after.now
    && Enabled(before.tables, op)
    && after.tables == Apply(before.tables, op, after.now)
  }

  lemma {:induction false} RunKeepsValid(h: seq<Commit>, ops: seq<Op>, n: nat)
    requires Run(h, ops) && n <= |ops|
    ensures Valid(h[n].tables)
  {
    if n > 0 {
      RunKeepsValid(h, ops, n - 1);
      assert Committed(h[n-1], ops[n-1], h[n]);
      ApplyKeepsValid(h[n-1].tables, ops[n-1], h[n].now);
    }
  }

  /** A tombstone after an operation stood before it, or carries the operation's time. */
  lemma MarksAreKeptOrNew(t: Tables, op: Op, now: Time, id: nat)
    requires Enabled(t, op) && id in Apply(t, op, now).pending
    ensures var mark := Apply(t, op, now).pending[id];
            mark.markedAt == now || (id in t.pending && mark == t.pending[id])
  {
    hide Locate, IsTrashed, StateOf, Upsert, RetireAt;
  }

  ghost predicate LostFrom(h: seq<Commit>, c: Claimant, k: nat, n: nat) {
    k <= n < |h| && forall j | k <= j <= n :: !IsLive(h[j].tables, c)
  }

  /** Each tombstone dates from a commit since which its message had no live copy. */
  lemma {:induction false} MarksAreLosses(h: seq<Commit>, ops: seq<Op>, n: nat, id: nat) returns (k: nat)
    requires Run(h, ops) && n <= |ops| && id in h[n].tables.pending
    ensures k <= n && h[k].now == h[n].tables.pending[id].markedAt
    ensures LostFrom(h, h[n].tables.pending[id].claimant, k, n)
  {
    hide Valid, Enabled, Apply;
    RunKeepsValid(h, ops, n);
    var mark := h[n].tables.pending[id];
    assert !IsLive(h[n].tables, mark.claimant) by { NoMarkBesideLive(h[n].tables, id); }
    if mark.markedAt == h[n].now {
      k := n;
    } else {
      assert n > 0 && id in h[n-1].tables.pending && mark == h[n-1].tables.pending[id] by {
        if n > 0 {
          assert Committed(h[n-1], ops[n-1], h[n]);
          MarksAreKeptOrNew(h[n-1].tables, ops[n-1], h[n].now, id);
        }
      }
      k := MarksAreLosses(h, ops, n - 1, id);
    }
  }

  lemma NoMarkBesideLive(t: Tables, id: nat)
    requires Valid(t) && id in t.pending
    ensures !IsLive(t, t.pending[id].claimant)
  {
  }

  /** The grace cutoff of a reap, when it has one. */
  function Cutoff(op: Op): Option<Time> {
    match op
    case ReapedMessages(_, _, cutoff, _) => cutoff
    case ReapedThread(_, cutoff, _) => cutoff
    case _ => None
  }

  /** Whether `op` reaps `c`, as a message of the thread it names. */
  predicate Reaps(t: Tables, op: Op, c: Claimant) {
    c in t.threadOf &&
    match op
    case ReapedMessages(thread, ids, _, _) => c in ids && t.threadOf[c] == thread
    case ReapedThread(thread, _, _) => t.threadOf[c] == thread
    case _ => false
  }

  lemma ReapNeedsMark(t: Tables, op: Op, now: Time, c: Claimant)
    requires Enabled(t, op) && Reaps(t, op, c) && c !in Apply(t, op, now).threadOf
    ensures MarkedBy(t, c, Cutoff(op)) && !IsLive(t, c)
  {
  }

  /**
   * Reap safety: a message that a reap of its thread removes under a cutoff had no live
   * copy in any committed state from some time at or before the cutoff until its removal.
   */
  lemma ReapSafety(h: seq<Commit>, ops: seq<Op>, n: nat, c: Claimant) returns (k: nat)
    requires Run(h, ops) && n < |ops|
    requires Reaps(h[n].tables, ops[n], c) && c !in h[n+1].tables.threadOf
    ensures k <= n && LostFrom(h, c, k, n + 1)
    ensures match ops[n]
            case ReapedMessages(_, _, Some(cutoff), _) => h[k].now <= cutoff
            case ReapedThread(_, Some(cutoff), _) => h[k].now <= cutoff
            case _ => true
  {
    assert Committed(h[n], ops[n], h[n+1]);
    ReapNeedsMark(h[n].tables, ops[n], h[n+1].now, c);
    var cutoff := Cutoff(ops[n]);
    var id :| id in h[n].tables.pending && h[n].tables.pending[id].claimant == c
              && (cutoff.Some? ==> h[n].tables.pending[id].markedAt <= cutoff.value);
    k := MarksAreLosses(h, ops, n, id);
    RunKeepsValid(h, ops, n + 1);
  }

  /** Nothing but a reap removes a message. */
  lemma OnlyReapsRemove(t: Tables, op: Op, now: Time, c: Claimant)
    requires Enabled(t, op) && c in t.threadOf && c !in Apply(t, op, now).threadOf
    ensures Reaps(t, op, c) || (op.ReapedMessages? && c in op.ids && t.threadOf[c] != op.thread)
  {
    hide Locate, IsTrashed, StateOf, Upsert, RetireAt;
  }

  predicate Reapable(t: Tables, c: Claimant, cutoff: Option<Time>) {
    !IsLive(t, c) && MarkedBy(t, c, cutoff)
  }

  /**
   * The reap of messages looks at those of its thread only: it goes ahead exactly when they
   * are reapable, so what it removes is reapable exactly when the other threads' ids are.
   */
  lemma ReapChecksItsThread(t: Tables, thread: Thread, ids: set<Claimant>, cutoff: Option<Time>)
    ensures var reaped := ReapMessages(t, thread, ids, cutoff, false);
            && (reaped.Some? <==> forall c | c in ids && c in t.threadOf && t.threadOf[c] == thread ::
                    Reapable(t, c, cutoff))
            && (reaped.Some? ==>
                  ((forall c | c in t.threadOf && c !in reaped.value.threadOf :: Reapable(t, c, cutoff)) <==>
                   (forall c | c in ids && c in t.threadOf && t.threadOf[c] != thread :: Reapable(t, c, cutoff))))
  {
    var reaped := ReapMessages(t, thread, ids, cutoff, false);
    if reaped.Some? {
      assert forall c | c in t.threadOf :: c !in reaped.value.threadOf <==> c in ids;
    }
  }

  /** A live message of another thread, named by mistake, is removed. */
  lemma ReapOutsideThread(o: Occurrence, c: Claimant, cutoff: Option<Time>)
    requires o.Live() && o.claimant == c
    requires o.where == Locate(o.path) && o.state == StateOf(o.path) && o.trashed == IsTrashed(o.path)
    ensures var t := Tables(map[0 := o], map[], map[c := "a"]);
            Valid(t) && IsLive(t, c)
            && ReapMessages(t, "b", {c}, cutoff, false) == Some(Tables(map[], map[], map[]))
  {
    hide Locate, IsTrashed;
    var t := Tables(map[0 := o], map[], map[c := "a"]);
    assert t.occ[0].Live();
    var gone := Remove(t, {c});
    assert gone.occ == map[];
    assert gone.pending == map[];
    assert gone.threadOf == map[];
  }
}
