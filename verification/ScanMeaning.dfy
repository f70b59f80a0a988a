/**
 * What a scan did, apart from how it went: each occurrence and each file got its turn, and
 * each turn was what the looks at the disk and the tables called for.
 */
module ScanMeaning {
  import opened Wrappers
  import opened Maildir
  import opened Mailbox
  import opened MailboxStore
  import opened MailboxEffects
  import opened FileEvidence
  import opened ScanTransactions
  import opened OccurrenceScan
  import MailboxRuns

  // ----- what an act means ----------------------------------------------------------------------------

  /** The candidate was looked at in that stretch. */
  predicate LookedAt(checkedAt: map<Path, nat>, p: Path, from: nat, to: nat) {
    p in checkedAt && from <= checkedAt[p] < to
  }

  /** What a look at the candidate told. */
  ghost function Told(db: Database, cache: map<Key, Digest>, o: Seen, checkedAt: map<Path, nat>,
                      p: Path): Option<bool> {
    if p in checkedAt then Verdict(o, Look(db.disk, p, checkedAt[p]), p, cache) else None
  }

  /** The file's digest was read before and is the message's, as its size may be. */
  predicate KnownMatch(o: Seen, identity: Identity, p: Path, cache: map<Key, Digest>) {
    && o.row.hash.Some? && (o.row.size.None? || identity.size == o.row.size.value)
    && (p, identity) in cache && cache[(p, identity)] == o.row.hash.value
  }

  /** Its size is another than the message's, or its digest was read before and is another. */
  predicate KnownMismatch(o: Seen, identity: Identity, p: Path, cache: map<Key, Digest>) {
    && o.row.hash.Some?
    && ((o.row.size.Some? && identity.size != o.row.size.value)
        || ((p, identity) in cache && cache[(p, identity)] != o.row.hash.value))
  }

  /** A look tells a match or a mismatch exactly when it is one that size and known digests show. */
  lemma VerdictTells(o: Seen, st: Option<Identity>, p: Path, cache: map<Key, Digest>)
    ensures Verdict(o, st, p, cache) == Some(true) <==> st.Some? && KnownMatch(o, st.value, p, cache)
    ensures Verdict(o, st, p, cache) == Some(false) <==> st.Some? && KnownMismatch(o, st.value, p, cache)
  {
  }

  /** The proofs are of the files as they were seen; while there is one for each, looking is all that was done. */
  ghost predicate ProvenSeen(db: Database, m: Moment, same: seq<Path>, t: Trial) {
    && (forall p | p in t.proven && p in t.checkedAt :: Look(db.disk, p, t.checkedAt[p]) == Some(t.proven[p]))
    && (t.movedTo.None? && t.proven.Keys == t.checkedAt.Keys ==> t.m == m.(tick := m.tick + |same|))
  }

  ghost predicate TrialOk(db: Database, cache: map<Key, Digest>, m: Moment, o: Seen, same: seq<Path>, held: set<Path>,
                          t: Trial) {
    && m.tick <= t.m.tick && t.checkedAt.Keys <= SetOf(same)
    && (forall p | p in t.checkedAt :: LookedAt(t.checkedAt, p, m.tick, t.m.tick))
    && (forall p | p in t.checkedAt :: p in t.proven <==> Told(db, cache, o, t.checkedAt, p) == Some(false))
    && t.proven.Keys <= t.checkedAt.Keys
    && ProvenSeen(db, m, same, t)
    && match t.movedTo
       case None => t.own.None? && t.checkedAt.Keys == SetOf(same)
       case Some(to) =>
         && to in t.checkedAt && to !in held && Told(db, cache, o, t.checkedAt, to) == Some(true)
         && t.own.Some? && t.own.value.Moved? && t.own.value.id == o.id && t.own.value.newPath == to
  }

  lemma {:induction false} TrialMeans(db: Database, cache: map<Key, Digest>, m: Moment, o: Seen, same: seq<Path>,
                                      held: set<Path>)
    requires Distinct(same)
    ensures TrialOk(db, cache, m, o, same, held, TryRun(db, cache, m, o, same, held))
  {
    hide TryOne, TrialOk;
    if same == [] {
      NothingTriedIsOk(db, cache, m, o, held);
    } else {
      var n := |same| - 1;
      TrialMeans(db, cache, m, o, same[..n], held);
      assert same == same[..n] + [same[n]] && same[n] !in same[..n];
      OneTriedIsOk(db, cache, m, o, same[..n], held, TryRun(db, cache, m, o, same[..n], held), same[n]);
    }
  }

  lemma NothingTriedIsOk(db: Database, cache: map<Key, Digest>, m: Moment, o: Seen, held: set<Path>)
    ensures TrialOk(db, cache, m, o, [], held, Trial(None, None, map[], map[], m))
  {
  }

  lemma OneTriedIsOk(db: Database, cache: map<Key, Digest>, m: Moment, o: Seen, same: seq<Path>, held: set<Path>,
                     t: Trial, p: Path)
    requires TrialOk(db, cache, m, o, same, held, t) && p !in same
    ensures TrialOk(db, cache, m, o, same + [p], held,
                    if t.movedTo.Some? then t else TryOne(db, cache, t, o, p, held))
  {
    hide Verdict, Look, TryOne, ProvenSeen;
    assert SetOf(same + [p]) == SetOf(same) + {p};
    TryOneMeans(db, cache, t, o, p, held);
    if t.movedTo.None? {
      var n := TryOne(db, cache, t, o, p, held);
      assert p !in t.checkedAt && p !in t.proven;
      forall q | q in n.checkedAt
        ensures LookedAt(n.checkedAt, q, m.tick, n.m.tick)
        ensures q in n.proven <==> Told(db, cache, o, n.checkedAt, q) == Some(false)
      {
        if q != p {
          assert LookedAt(t.checkedAt, q, m.tick, t.m.tick);
          assert Told(db, cache, o, n.checkedAt, q) == Told(db, cache, o, t.checkedAt, q);
        }
      }
      ProvenSeenToo(db, cache, m, o, same, held, t, p);
    } else {
      ProvenOnceMoved(db, m, same, t, p);
    }
  }

  lemma ProvenOnceMoved(db: Database, m: Moment, same: seq<Path>, t: Trial, p: Path)
    requires ProvenSeen(db, m, same, t) && t.movedTo.Some?
    ensures ProvenSeen(db, m, same + [p], t)
  {
    hide Look;
  }

  lemma ProvenSeenToo(db: Database, cache: map<Key, Digest>, m: Moment, o: Seen, same: seq<Path>, held: set<Path>,
                      t: Trial, p: Path)
    requires ProvenSeen(db, m, same, t) && t.movedTo.None? && t.own.None? && p !in t.checkedAt && p !in t.proven
    ensures ProvenSeen(db, m, same + [p], TryOne(db, cache, t, o, p, held))
  {
    hide Verdict, Look, TryOne;
    TryOneMeans(db, cache, t, o, p, held);
    var n := TryOne(db, cache, t, o, p, held);
    if n.proven.Keys == n.checkedAt.Keys {
      assert p in n.proven;
      assert t.proven.Keys == n.proven.Keys - {p} && t.checkedAt.Keys == n.checkedAt.Keys - {p};
    }
  }

  lemma TryOneMeans(db: Database, cache: map<Key, Digest>, t: Trial, o: Seen, p: Path, held: set<Path>)
    ensures var n, told := TryOne(db, cache, t, o, p, held), Verdict(o, Look(db.disk, p, t.m.tick), p, cache);
      && n.checkedAt == t.checkedAt[p := t.m.tick] && t.m.tick < n.m.tick
      && n.proven.Keys == t.proven.Keys + (if told == Some(false) then {p} else {})
      && (forall q | q in t.proven && q != p :: n.proven[q] == t.proven[q])
      && (told == Some(false) ==>
            n.m == t.m.(tick := t.m.tick + 1) && Look(db.disk, p, t.m.tick) == Some(n.proven[p]))
      && (t.movedTo.None? && t.own.None? ==>
            match n.movedTo
            case None => n.own.None?
            case Some(to) =>
              && to == p && p !in held && told == Some(true)
              && n.own.Some? && n.own.value.Moved? && n.own.value.id == o.id && n.own.value.newPath == p)
  {
    hide Verdict, Look, MoveRun;
    var st := Look(db.disk, p, t.m.tick);
    NoLookNoVerdict(o, p, cache);
    if st.Some? {
      MoveMeans(db, t.m.(tick := t.m.tick + 1), o, p, st.value);
    }
  }

  lemma NoLookNoVerdict(o: Seen, p: Path, cache: map<Key, Digest>)
    ensures Verdict(o, None, p, cache) == None
  {
  }

  lemma MoveMeans(db: Database, m: Moment, o: Seen, newPath: Path, identity: Identity)
    ensures var (own, after) := MoveRun(db, m, o, newPath, identity);
      && m.tick <= after.tick
      && (own.Some? ==> own.value.Moved? && own.value.id == o.id && own.value.newPath == newPath)
  {
    hide MoveDue, NextId, ApplyChange;
  }

  /** The candidates tried are the first ones, up to the one moved to, or all. */
  ghost predicate TriedUpTo(same: seq<Path>, movedTo: Option<Path>, checkedAt: map<Path, nat>) {
    match movedTo
    case None => checkedAt.Keys == SetOf(same)
    case Some(to) => exists n: nat :: n < |same| && same[n] == to && checkedAt.Keys == SetOf(same[..n+1])
  }

  /** Every candidate told to hold the message's bytes, and not held, was moved to or refused in its transaction. */
  ghost predicate Refusals(db: Database, cache: map<Key, Digest>, o: Seen, held: set<Path>, movedTo: Option<Path>,
                           checkedAt: map<Path, nat>, log: seq<Step>) {
    forall p | p in checkedAt && Told(db, cache, o, checkedAt, p) == Some(true) && p !in held && movedTo != Some(p) ::
      Refused(db, o, p, checkedAt[p], log)
  }

  /** The transaction after that look found the tables, or the file, so that the move was not due. */
  ghost predicate Refused(db: Database, o: Seen, p: Path, at: nat, log: seq<Step>) {
    && Look(db.disk, p, at).Some?
    && exists j: nat :: j < |log| && Refuses(db, o, p, Look(db.disk, p, at).value, at + 1, log[j])
  }

  ghost predicate Refuses(db: Database, o: Seen, p: Path, identity: Identity, tick: nat, step: Step) {
    && step.own.None? && step.began == tick
    && !MoveDue(db.disk, step.after, o.id, o.path, p, identity, tick)
  }

  lemma {:induction false} TrialRefuses(db: Database, cache: map<Key, Digest>, m: Moment, o: Seen, same: seq<Path>,
                                        held: set<Path>)
    requires Sound(db, m) && Distinct(same)
    ensures var t := TryRun(db, cache, m, o, same, held);
      TriedUpTo(same, t.movedTo, t.checkedAt) && Refusals(db, cache, o, held, t.movedTo, t.checkedAt, t.m.log)
  {
    hide Sound, TryOne, Refusals, TriedUpTo;
    if same == [] {
      NothingRefused(db, cache, o, held, m.log);
    } else {
      var n := |same| - 1;
      var before := TryRun(db, cache, m, o, same[..n], held);
      TrialRefuses(db, cache, m, o, same[..n], held);
      TrialMeans(db, cache, m, o, same[..n], held);
      TryWrites(db, cache, m, o, same[..n], held);
      assert same == same[..n] + [same[n]] && same[n] !in same[..n];
      if before.movedTo.None? {
        OneTrialRefuses(db, cache, before, o, same[..n], held, same[n]);
      } else {
        TriedStill(same[..n], same[n], before.movedTo, before.checkedAt);
      }
    }
  }

  lemma NothingRefused(db: Database, cache: map<Key, Digest>, o: Seen, held: set<Path>, log: seq<Step>)
    ensures Refusals(db, cache, o, held, None, map[], log) && TriedUpTo([], None, map[])
  {
  }

  lemma TriedStill(same: seq<Path>, p: Path, movedTo: Option<Path>, checkedAt: map<Path, nat>)
    requires TriedUpTo(same, movedTo, checkedAt) && movedTo.Some?
    ensures TriedUpTo(same + [p], movedTo, checkedAt)
  {
    var n: nat :| n < |same| && same[n] == movedTo.value && checkedAt.Keys == SetOf(same[..n+1]);
    assert (same + [p])[..n+1] == same[..n+1];
  }

  lemma OneTrialRefuses(db: Database, cache: map<Key, Digest>, t: Trial, o: Seen, same: seq<Path>, held: set<Path>,
                        p: Path)
    requires Sound(db, t.m) && t.movedTo.None? && t.own.None? && p !in same
    requires TriedUpTo(same, None, t.checkedAt) && Refusals(db, cache, o, held, None, t.checkedAt, t.m.log)
    ensures var n := TryOne(db, cache, t, o, p, held);
      && TriedUpTo(same + [p], n.movedTo, n.checkedAt)
      && Refusals(db, cache, o, held, n.movedTo, n.checkedAt, n.m.log)
  {
    hide Sound, TryOne, Refused, Writes, Verdict, Look;
    var n := TryOne(db, cache, t, o, p, held);
    TryOneMeans(db, cache, t, o, p, held);
    TryOneWrites(db, cache, t, o, p, held);
    assert SetOf(same + [p]) == SetOf(same) + {p} && (same + [p])[..|same| + 1] == same + [p];
    assert p !in t.checkedAt;
    forall q | q in n.checkedAt && Told(db, cache, o, n.checkedAt, q) == Some(true) && q !in held
    && n.movedTo != Some(q)
      ensures Refused(db, o, q, n.checkedAt[q], n.m.log)
    {
      if q != p {
        assert Told(db, cache, o, t.checkedAt, q) == Some(true);
        RefusedStill(db, o, q, t.checkedAt[q], t.m, n.m, n.own);
      } else {
        RefusedNow(db, cache, t, o, p, held);
      }
    }
  }

  lemma RefusedStill(db: Database, o: Seen, p: Path, at: nat, m: Moment, after: Moment, own: Option<Change>)
    requires Refused(db, o, p, at, m.log) && Writes(m, after, own)
    ensures Refused(db, o, p, at, after.log)
  {
    hide Look, Took, Refuses;
    var j: nat :| j < |m.log| && Refuses(db, o, p, Look(db.disk, p, at).value, at + 1, m.log[j]);
    assert after.log[..|m.log|][j] == after.log[j];
  }

  lemma RefusedNow(db: Database, cache: map<Key, Digest>, t: Trial, o: Seen, p: Path, held: set<Path>)
    requires Verdict(o, Look(db.disk, p, t.m.tick), p, cache) == Some(true) && p !in held
    requires TryOne(db, cache, t, o, p, held).movedTo.None?
    ensures Refused(db, o, p, t.m.tick, TryOne(db, cache, t, o, p, held).m.log)
  {
    hide Verdict, Look, MoveDue, ApplyChange, NextId, MoveTicks;
    NoLookNoVerdict(o, p, cache);
    var looked, identity := t.m.(tick := t.m.tick + 1), Look(db.disk, p, t.m.tick).value;
    var b := Begun(db, looked);
    var after := MoveRun(db, looked, o, p, identity).1;
    assert after.log == b.log && |b.log| == |t.m.log| + 1;
    assert Refuses(db, o, p, identity, t.m.tick + 1, b.log[|t.m.log|]);
  }

  /** Every candidate was told to hold other bytes. */
  ghost predicate AllRefuted(db: Database, cache: map<Key, Digest>, o: Seen, same: seq<Path>,
                             checkedAt: map<Path, nat>) {
    forall p | p in same :: Told(db, cache, o, checkedAt, p) == Some(false)
  }

  /** What the looks at the candidates saw. */
  ghost function SeenOf(db: Database, same: seq<Path>, checkedAt: map<Path, nat>): map<Path, Identity> {
    map p | p in same && p in checkedAt && Look(db.disk, p, checkedAt[p]).Some? :: Look(db.disk, p, checkedAt[p]).value
  }

  /** The transaction's checks, made from `tick` on, found no candidate but these files, still as they were seen. */
  ghost predicate NoneElse(db: Database, entries: Entries, o: Seen, same: seq<Path>, checkedAt: map<Path, nat>,
                           tick: nat) {
    var (warmed, found, looked) := Looks(db.disk, Inventory(entries, tick), o.path);
    var seen := SeenOf(db, same, checkedAt);
    SetOf(same) <= seen.Keys && AbsentRun(db.disk, o.path, found, seen, same, looked.tick).0
  }

  /** The act is the one that the files, the digests and, once others had their turn, the tables call for. */
  ghost predicate ActOk(db: Database, pass: Pass, m: Moment, entries: Entries, o: Seen, held: set<Path>, act: Act,
                        after: Moment) {
    var same, there := Namesakes(pass.files, o), ActiveAt(Begun(db, m).tables, o.path, o.id);
    var seen := Look(db.disk, o.path, m.tick);
    match act
    case Skipped => false
    case Kept(at) =>
      && at == m.tick && o.path in pass.files && !(pass.backstop && Verdict(o, seen, o.path, pass.cache) == Some(false))
      && after == m.(tick := after.tick)
    case Stale(at, own) =>
      && at == m.tick && o.path in pass.files && pass.backstop && Verdict(o, seen, o.path, pass.cache) == Some(false)
      && (own.Some? <==> db.disk.SameAt(o.path, seen.value, m.tick + 1) && there)
    case Followed(to, checkedAt, own) =>
      && o.path !in pass.files && to in same && to !in held && LookedAt(checkedAt, to, m.tick, after.tick)
      && Told(db, pass.cache, o, checkedAt, to) == Some(true)
      && TriedUpTo(same, Some(to), checkedAt) && Refusals(db, pass.cache, o, held, Some(to), checkedAt, after.log)
      && own.Some? && own.value.Moved? && own.value.id == o.id && own.value.newPath == to
    case Refuted(checkedAt, absent, own) =>
      && o.path !in pass.files && same != [] && AllRefuted(db, pass.cache, o, same, checkedAt)
      && (forall p | p in same :: LookedAt(checkedAt, p, m.tick, after.tick))
      && (absent <==> NoneElse(db, entries, o, same, checkedAt, m.tick + |same|)) && (own.Some? <==> absent && there)
    case Gone(found, own) =>
      && o.path !in pass.files && same == [] && pass.complete
      && found == Looks(db.disk, Inventory(entries, m.tick), o.path).1 && (own.Some? <==> found == Some({}) && there)
    case Left(checkedAt) =>
      && o.path !in pass.files
      && (if same == [] then !pass.complete else !AllRefuted(db, pass.cache, o, same, checkedAt))
      && (forall p | p in same :: LookedAt(checkedAt, p, m.tick, after.tick))
      && TriedUpTo(same, None, checkedAt) && Refusals(db, pass.cache, o, held, None, checkedAt, after.log)
  }

  lemma ActMeans(db: Database, pass: Pass, m: Moment, entries: Entries, o: Seen, held: set<Path>)
    requires Sound(db, m) && Distinct(pass.files)
    ensures var (act, after, later) := OccurrenceRun(db, pass, m, entries, o, held);
      ActOk(db, pass, m, entries, o, held, act, after)
  {
    hide Verdict, Look, TryRun, RefuteRun, VanishRun, Namesakes, TrialOk, TriedUpTo, Refusals, Sound;
    if o.path in pass.files {
      HeldMeans(db, pass, m, entries, o, held);
    } else {
      var same := Namesakes(pass.files, o);
      NamesakesAre(pass.files, o);
      TrialMeans(db, pass.cache, m, o, same, held);
      TrialRefuses(db, pass.cache, m, o, same, held);
      UnheldMeans(db, pass, m, TryRun(db, pass.cache, m, o, same, held), entries, o, held);
    }
  }

  lemma HeldMeans(db: Database, pass: Pass, m: Moment, entries: Entries, o: Seen, held: set<Path>)
    requires o.path in pass.files
    ensures var (act, after) := HeldRun(db, pass.cache, m, o, pass.backstop);
      ActOk(db, pass, m, entries, o, held, act, after)
  {
    hide ApplyChange, Namesakes;
  }

  lemma UnheldMeans(db: Database, pass: Pass, m: Moment, t: Trial, entries: Entries, o: Seen, held: set<Path>)
    requires o.path !in pass.files && TrialOk(db, pass.cache, m, o, Namesakes(pass.files, o), held, t)
    requires TriedUpTo(Namesakes(pass.files, o), t.movedTo, t.checkedAt)
    requires Refusals(db, pass.cache, o, held, t.movedTo, t.checkedAt, t.m.log)
    ensures var (act, after, later) := UnheldRun(db, pass, t, entries, o, Namesakes(pass.files, o));
      ActOk(db, pass, m, entries, o, held, act, after)
  {
    hide Verdict, Look, RefuteRun, VanishRun, Namesakes, Begun, Looks, NoneElse, LookedAt, Told;
    hide AllRefuted, TrialOk, TriedUpTo, Refusals;
    var same := Namesakes(pass.files, o);
    BegunTables(db, m, t.m.tick);
    if t.movedTo.Some? {
      FollowedMeans(db, pass.cache, m, t, o, same, held);
    } else if t.proven != map[] && t.proven.Keys == SetOf(same) {
      RefutedMeans(db, pass.cache, m, t, entries, o, same, held);
      SomeOf(same, t.proven);
    } else if same == [] {
      GoneMeans(db, pass.cache, m, t, entries, o, held);
    } else {
      LeftMeans(db, pass.cache, m, t, o, same, held);
    }
  }

  lemma FollowedMeans(db: Database, cache: map<Key, Digest>, m: Moment, t: Trial, o: Seen, same: seq<Path>,
                      held: set<Path>)
    requires TrialOk(db, cache, m, o, same, held, t) && t.movedTo.Some?
    ensures var to := t.movedTo.value;
      && LookedAt(t.checkedAt, to, m.tick, t.m.tick) && to in same && to !in held
      && Told(db, cache, o, t.checkedAt, to) == Some(true)
      && t.own.Some? && t.own.value.Moved? && t.own.value.id == o.id && t.own.value.newPath == to
  {
    hide Look, Verdict, ProvenSeen;
    assert t.movedTo.value in SetOf(same);
  }

  lemma LeftMeans(db: Database, cache: map<Key, Digest>, m: Moment, t: Trial, o: Seen, same: seq<Path>,
                  held: set<Path>)
    requires TrialOk(db, cache, m, o, same, held, t) && t.movedTo.None? && same != []
    requires t.proven.Keys == SetOf(same) ==> t.proven == map[]
    ensures !AllRefuted(db, cache, o, same, t.checkedAt)
    ensures forall p | p in same :: LookedAt(t.checkedAt, p, m.tick, t.m.tick)
  {
    hide Look, Verdict, ProvenSeen;
    SomeOf(same, t.proven);
    assert forall p :: p in same <==> p in SetOf(same);
  }

  lemma SomeOf(same: seq<Path>, proven: map<Path, Identity>)
    ensures proven.Keys == SetOf(same) ==> (same == [] <==> proven == map[])
    ensures proven.Keys < SetOf(same) ==> exists p :: p in same && p !in proven
  {
    if same != [] { assert same[0] in SetOf(same); }
  }

  lemma GoneMeans(db: Database, cache: map<Key, Digest>, m: Moment, t: Trial, entries: Entries, o: Seen,
                  held: set<Path>)
    requires TrialOk(db, cache, m, o, [], held, t) && t.movedTo.None?
    ensures t.m == m && t.proven == map[]
    ensures var (found, own, after, later) := VanishRun(db, m, Inventory(entries, m.tick), o);
      && m.tick <= after.tick && found == Looks(db.disk, Inventory(entries, m.tick), o.path).1
      && (own.Some? <==> found == Some({}) && ActiveAt(Begun(db, m).tables, o.path, o.id))
  {
    hide Look, VanishRun, Looks, Begun;
    VanishMeans(db, m, Inventory(entries, m.tick), o);
    assert t.checkedAt.Keys == {} && t.proven.Keys == {};
  }

  lemma RefutedMeans(db: Database, cache: map<Key, Digest>, m: Moment, t: Trial, entries: Entries, o: Seen,
                     same: seq<Path>, held: set<Path>)
    requires TrialOk(db, cache, m, o, same, held, t) && t.movedTo.None? && t.proven.Keys == SetOf(same)
    ensures AllRefuted(db, cache, o, same, t.checkedAt)
    ensures var (absent, own, after, later) := RefuteRun(db, t.m, Inventory(entries, t.m.tick), o, t.proven, same);
      && (forall p | p in same :: LookedAt(t.checkedAt, p, m.tick, after.tick))
      && (absent <==> NoneElse(db, entries, o, same, t.checkedAt, m.tick + |same|))
      && (own.Some? <==> absent && ActiveAt(Begun(db, m).tables, o.path, o.id))
  {
    hide Look, Verdict, RefuteRun, Looks, AbsentRun, Begun;
    RefuteMeans(db, t.m, Inventory(entries, t.m.tick), o, t.proven, same);
    BegunTables(db, m, t.m.tick);
    assert forall p :: p in same <==> p in SetOf(same);
    assert SeenOf(db, same, t.checkedAt) == t.proven;
  }

  lemma BegunTables(db: Database, m: Moment, tick: nat)
    ensures Begun(db, m.(tick := tick)).tables == Begun(db, m).tables
  {
  }

  lemma RefuteMeans(db: Database, m: Moment, i: Inventory, o: Seen, proven: map<Path, Identity>, order: seq<Path>)
    requires SetOf(order) <= proven.Keys && i.tick == m.tick
    ensures var (absent, own, after, later) := RefuteRun(db, m, i, o, proven, order);
      && m.tick <= after.tick && (own.Some? <==> absent && ActiveAt(Begun(db, m).tables, o.path, o.id))
      && var (warmed, found, looked) := Looks(db.disk, i, o.path);
         absent == AbsentRun(db.disk, o.path, found, proven, order, looked.tick).0
  {
    hide CandidatesLook, AbsentRun, OwnLook, ApplyChange;
    var (warmed, found, looked) := Looks(db.disk, i, o.path);
    LookLater(db.disk, i, o.path);
    LookLater(db.disk, warmed, o.path);
    AbsentIff(db.disk, o.path, found, proven, order, looked.tick);
  }

  lemma VanishMeans(db: Database, m: Moment, i: Inventory, o: Seen)
    requires i.tick == m.tick
    ensures var (found, own, after, later) := VanishRun(db, m, i, o);
      && m.tick <= after.tick && (own.Some? <==> found == Some({}) && ActiveAt(Begun(db, m).tables, o.path, o.id))
      && found == Looks(db.disk, i, o.path).1
  {
    hide CandidatesLook, OwnLook, ApplyChange;
    var (warmed, found, looked) := Looks(db.disk, i, o.path);
    LookLater(db.disk, i, o.path);
    LookLater(db.disk, warmed, o.path);
  }

  /** Whatever an occurrence calls for takes calls, unless nothing is to be looked at. */
  lemma NotIdle(db: Database, pass: Pass, m: Moment, entries: Entries, o: Seen, held: set<Path>)
    requires if o.path in pass.files then pass.backstop && o.row.hash.Some? else Namesakes(pass.files, o) != []
    ensures OccurrenceRun(db, pass, m, entries, o, held).1.tick > m.tick
  {
    hide Verdict, Look, TryRun, HeldRun, RefuteRun, VanishRun, Namesakes;
    if o.path in pass.files {
      HeldIsNotIdle(db, pass, m, o);
    } else {
      var same := Namesakes(pass.files, o);
      TriedLater(db, pass.cache, m, o, same, held);
      var t := TryRun(db, pass.cache, m, o, same, held);
      if t.proven.Keys == SetOf(same) {
        RefuteMeans(db, t.m, Inventory(entries, t.m.tick), o, t.proven, same);
      }
    }
  }

  lemma HeldIsNotIdle(db: Database, pass: Pass, m: Moment, o: Seen)
    requires pass.backstop && o.row.hash.Some?
    ensures HeldRun(db, pass.cache, m, o, pass.backstop).1.tick > m.tick
  {
    hide ApplyChange, Verdict, Look;
    NoLookNoVerdict(o, o.path, pass.cache);
  }

  lemma {:induction false} TriedLater(db: Database, cache: map<Key, Digest>, m: Moment, o: Seen, same: seq<Path>,
                                      held: set<Path>)
    ensures m.tick <= TryRun(db, cache, m, o, same, held).m.tick
    ensures same != [] ==> m.tick < TryRun(db, cache, m, o, same, held).m.tick
  {
    hide Verdict, Look, MoveRun;
    if same != [] {
      var before := TryRun(db, cache, m, o, same[..|same|-1], held);
      TriedLater(db, cache, m, o, same[..|same|-1], held);
      var p := same[|same|-1];
      var st := Look(db.disk, p, before.m.tick);
      NoLookNoVerdict(o, p, cache);
      if st.Some? { MoveMeans(db, before.m.(tick := before.m.tick + 1), o, p, st.value); }
      if same[..|same|-1] == [] { NothingTried(db, cache, m, o, held); }
    }
  }

  lemma FirstHasIt(messages: map<Claimant, MessageRow>, digest: Digest)
    ensures forall c | IsFirst(messages, digest, c) :: c in messages && messages[c].hash == Some(digest)
  {
  }

  lemma FirstExists(messages: map<Claimant, MessageRow>, digest: Digest)
    ensures (exists c :: c in messages && messages[c].hash == Some(digest)) ==> exists c :: IsFirst(messages, digest, c)
  {
    hide Precedes;
    if c :| c in messages && messages[c].hash == Some(digest) {
      var with: set<string> := set d | d in messages && messages[d].hash == Some(digest);
      assert c in with;
      var first := FirstOf(with);
      assert IsFirst(messages, digest, first);
    }
  }

  lemma {:induction false} FirstOf(names: set<string>) returns (first: string)
    requires names != {}
    ensures first in names && forall d | d in names :: d == first || Precedes(first, d)
  {
    hide Precedes;
    first :| first in names;
    if names != {first} {
      var other := FirstOf(names - {first});
      PrecedesIsTotal(first, other);
      forall d | d in names && Precedes(first, other) && d != first ensures Precedes(first, d) {
        if d != other { PrecedesIsTransitive(first, other, d); }
      }
      assert forall d | d in names :: d == first || d in names - {first};
      if Precedes(other, first) {
        first := other;
      }
    }
  }

  // ----- what was written ----------------------------------------------------------------------------

  /** What a write did to the rows. */
  ghost predicate Took(before: Tables, after: Tables, ch: Change) {
    match ch
    case Moved(id, _, newPath, newId, now, _) =>
      id in before.occ && newId !in before.occ && exists k :: MovedTo(before, after, id, newPath, newId, now, k)
    case BoundCopy(c, path, newId, now, _) =>
      newId !in before.occ && exists k :: BoundTo(before, after, c, path, Scanned, None, newId, now, k)
    case Vanished(id, path, now, _, _, _) => RetiredAt(before, after, id, path, now)
    case Mismatched(id, path, now, _) => RetiredAt(before, after, id, path, now)
    case RenameMismatched(id, path, now, _, _, _) => RetiredAt(before, after, id, path, now)
  }

  /** That row, active at that path, is retired, and nothing else changed. */
  ghost predicate RetiredAt(before: Tables, after: Tables, id: nat, path: Path, now: Time) {
    && id in before.occ && before.occ[id].retiredAt.None? && before.occ[id].path == path
    && after == before.(occ := before.occ[id := before.occ[id].(retiredAt := Some(now))])
  }

  /**
   * Between the two, others had their turns and the scan wrote this, last, or nothing; each
   * is a step of the log, and with no step nothing changed but the tick.
   */
  ghost predicate Writes(m: Moment, after: Moment, own: Option<Change>) {
    var n := |m.log|;
    && m.tick <= after.tick && n <= |after.log| && after.log[..n] == m.log
    && (forall i | n <= i < |after.log| && after.log[i].own.Some? :: own.Some? && i == |after.log| - 1)
    && (if |after.log| == n then after == m.(tick := after.tick) else after.log[|after.log|-1].after == after.tables)
    && (own.Some? ==>
          && |after.log| > n
          && var last := after.log[|after.log|-1];
             last.own == own && Took(last.before, after.tables, own.value))
  }

  /** The transaction that began where others had left the tables wrote this, or nothing. */
  ghost predicate Transacted(db: Database, m: Moment, own: Option<Change>, after: Moment) {
    Stands(Begun(db, m), own, after)
  }

  ghost predicate Stands(b: Moment, own: Option<Change>, after: Moment) {
    && after.messages == b.messages && after.turn == b.turn
    && if own.Some? then Took(b.tables, after.tables, own.value) else after.tables == b.tables
  }

  /** Where the rows, and what is recorded of the messages, are in order. */
  ghost predicate Sound(db: Database, m: Moment) {
    Peers(db.disk.facts, db.content, db.others) && Good(db.disk.facts, db.content, Db(m.tables, m.messages))
  }

  lemma WritesThen(m: Moment, b: Moment, after: Moment, own: Option<Change>)
    requires Writes(m, b, None) && Writes(b, after, own)
    ensures Writes(m, after, own)
  {
    hide Took;
    var n, k := |m.log|, |b.log|;
    assert after.log[..n] == after.log[..k][..n];
    assert forall i | 0 <= i < k :: after.log[i] == after.log[..k][i] == b.log[i];
  }

  lemma LooksOnly(db: Database, m: Moment, tick: nat)
    requires Sound(db, m) && m.tick <= tick
    ensures Writes(m, m.(tick := tick), None) && Sound(db, m.(tick := tick))
  {
    hide Good, Peers;
  }

  lemma BegunWrites(db: Database, m: Moment)
    requires Sound(db, m)
    ensures Writes(m, Begun(db, m), None) && Sound(db, Begun(db, m))
  {
    hide Good, Peers, Took, Keeps;
    PeersKeep(db.disk.facts, db.content, db.others, m.turn, Db(m.tables, m.messages));
  }

  lemma ChangeTakes(t: Tables, ch: Change)
    requires Rows(t)
    requires match ch
             case Moved(id, oldPath, newPath, newId, _, _) => ActiveAt(t, oldPath, id) && newId !in t.occ
             case BoundCopy(c, path, newId, _, _) => c in t.threadOf && newId !in t.occ
             case _ => ActiveAt(t, ch.path, ch.id)
    ensures var after := ApplyChange(t, ch); Took(t, after, ch) && Rows(after) && after.threadOf == t.threadOf
  {
    hide Rows, Rename, Bind, MovedTo, BoundTo, Retire, Ends, MoveRow;
    match ch
    case Moved(id, _, newPath, newId, now, _) =>
      var k := RenameArrives(t, Some(id), newPath, Verified, newId, now);
      MovedThreads(t, ApplyChange(t, ch), id, newPath, newId, now, k);
      MailboxRuns.ApplyKeepsRows(t, MailboxRuns.Renamed(Some(id), newPath, Verified, newId), now);
    case BoundCopy(c, path, newId, now, _) =>
      var k := BindArrives(t, c, path, Scanned, newId, now);
      BoundThreads(t, ApplyChange(t, ch), c, path, newId, now, k);
      BindKeepsRows(t, c, path, Scanned, newId, now);
    case _ =>
      RetireChanges(t, ch.id, ch.path, ch.now);
      RetireKeepsRows(t, ch.id, ch.now);
  }

  lemma MovedThreads(t: Tables, after: Tables, id: nat, newPath: Path, newId: nat, now: Time, k: nat)
    requires id in t.occ && MovedTo(t, after, id, newPath, newId, now, k)
    ensures after.threadOf == t.threadOf
  {
    hide Locate, Arrived, Taken;
  }

  lemma BoundThreads(t: Tables, after: Tables, c: Claimant, path: Path, newId: nat, now: Time, k: nat)
    requires BoundTo(t, after, c, path, Scanned, None, newId, now, k)
    ensures after.threadOf == t.threadOf
  {
    hide Arrived, Taken;
  }

  lemma WroteWrites(db: Database, b: Moment, change: Change, tick: nat)
    requires Sound(db, b) && b.tick <= tick
    requires match change
             case Moved(id, oldPath, newPath, newId, _, _) => ActiveAt(b.tables, oldPath, id) && newId !in b.tables.occ
             case BoundCopy(c, path, newId, _, _) => c in b.tables.threadOf && newId !in b.tables.occ
             case _ => ActiveAt(b.tables, change.path, change.id)
    ensures var after := Wrote(b, change, tick); Writes(b, after, Some(change)) && Sound(db, after) && Stands(b,
        Some(change), after)
  {
    hide Good, Peers, Took, ApplyChange, ActiveAt, Rows;
    GoodRows(db.disk.facts, db.content, Db(b.tables, b.messages));
    ChangeTakes(b.tables, change);
    GoodAfter(db.disk.facts, db.content, b.tables, ApplyChange(b.tables, change), b.messages);
  }

  lemma MoveWrites(db: Database, m: Moment, o: Seen, newPath: Path, identity: Identity)
    requires Sound(db, m)
    ensures var (own, after) := MoveRun(db, m, o, newPath, identity); Writes(m, after, own) && Sound(db, after)
  {
    hide Sound, Writes, Begun, Wrote, NextId, Disk.SameAt, RowAt;
    BegunWrites(db, m);
    var b := Begun(db, m);
    var (own, after) := MoveRun(db, m, o, newPath, identity);
    var ended := b.tick + MoveTicks(db.disk, b.tables, o, newPath, identity, b.tick);
    if own.Some? {
      WroteWrites(db, b, own.value, ended);
      WroteTick(b, own.value, ended);
    } else {
      LooksOnly(db, b, ended);
    }
    WritesThen(m, b, after, own);
  }

  lemma RetireWrites(db: Database, b: Moment, o: Seen, change: Change, tick: nat)
    requires Sound(db, b) && b.tick <= tick && !change.Moved? && !change.BoundCopy?
    requires change.id == o.id && change.path == o.path
    ensures var (own, after) := RetireRun(b, o, change, tick);
      && Writes(b, after, own) && Sound(db, after) && (own.Some? ==> own.value == change) && Stands(b, own, after)
      && (own.Some? <==> ActiveAt(b.tables, o.path, o.id))
  {
    hide Sound, Writes, Wrote, ActiveAt, Took;
    if ActiveAt(b.tables, o.path, o.id) {
      WroteWrites(db, b, change, tick);
    } else {
      LooksOnly(db, b, tick);
    }
  }

  lemma MismatchWrites(db: Database, m: Moment, o: Seen, identity: Identity)
    requires Sound(db, m)
    ensures var (own, after) := MismatchRun(db, m, o, identity);
      && Writes(m, after, own) && Sound(db, after) && Transacted(db, m, own, after)
      && (own.Some? ==> own.value.Mismatched? && own.value.id == o.id && own.value.path == o.path)
  {
    hide Sound, Writes, Begun, Took, RetireRun;
    BegunWrites(db, m);
    var b := Begun(db, m);
    var (own, after) := MismatchRun(db, m, o, identity);
    LooksOnly(db, b, b.tick + 1);
    RetireWrites(db, b, o, Mismatched(o.id, o.path, db.clock(b.turn), b.tick), b.tick + 1);
    WritesThen(m, b, after, own);
  }

  lemma VanishWrites(db: Database, m: Moment, i: Inventory, o: Seen)
    requires Sound(db, m) && i.tick == m.tick
    ensures var (found, own, after, later) := VanishRun(db, m, i, o);
      && Writes(m, after, own) && Sound(db, after) && Transacted(db, m, own, after)
      && later == Looks(db.disk, i, o.path).2
      && (own.Some? ==>
            && own.value.Vanished? && own.value.id == o.id && own.value.path == o.path
            && own.value.warm == Warmed(o.path, Looks(db.disk, i, o.path).0.entries))
  {
    hide Sound, Writes, Begun, Took, RetireRun, CandidatesLook, OwnLook, HasSibling;
    var (warmed, found, looked) := Looks(db.disk, i, o.path);
    LookLater(db.disk, i, o.path);
    LookLater(db.disk, warmed, o.path);
    var w := m.(tick := warmed.tick);
    LooksOnly(db, m, warmed.tick);
    BegunWrites(db, w);
    var b := Begun(db, w);
    BegunTick(db, w);
    WritesThen(m, w, b, None);
    var (_, own, after, _) := VanishRun(db, m, i, o);
    WarmIs(o.path, warmed.entries);
    LooksOnly(db, b, looked.tick);
    RetireWrites(db, b, o, Vanished(o.id, o.path, db.clock(b.turn), OwnLook(db.disk.Meets(), o.path, warmed),
                                    Last(looked.tick), HasSibling(o.path, warmed.entries)), looked.tick);
    StandsAnyTick(db, m, warmed.tick, own, after);
    WritesThen(m, b, after, own);
  }

  /** The sibling directory was recorded by then. */
  predicate Warmed(path: Path, entries: Entries) {
    Sibling(path.dirs).Some? && Sibling(path.dirs).value in entries
  }

  lemma WarmIs(path: Path, entries: Entries)
    ensures HasSibling(path, entries) == Warmed(path, entries)
  {
  }

  lemma StandsAnyTick(db: Database, m: Moment, tick: nat, own: Option<Change>, after: Moment)
    requires Stands(Begun(db, m.(tick := tick)), own, after)
    ensures Transacted(db, m, own, after)
  {
    hide Took;
  }

  lemma BegunTick(db: Database, m: Moment)
    ensures Begun(db, m).tick == m.tick
  {
  }

  lemma RefuteWrites(db: Database, m: Moment, i: Inventory, o: Seen, proven: map<Path, Identity>, order: seq<Path>)
    requires Sound(db, m) && i.tick == m.tick && SetOf(order) <= proven.Keys
    ensures var (absent, own, after, later) := RefuteRun(db, m, i, o, proven, order);
      && Writes(m, after, own) && Sound(db, after) && Transacted(db, m, own, after)
      && later.entries == Looks(db.disk, i, o.path).2.entries
      && (own.Some? ==>
            && own.value.RenameMismatched? && own.value.id == o.id && own.value.path == o.path
            && own.value.warm == Warmed(o.path, Looks(db.disk, i, o.path).0.entries))
  {
    hide Sound, Writes, Begun, Took, RetireRun, CandidatesLook, OwnLook, HasSibling, AbsentRun;
    var (warmed, found, looked) := Looks(db.disk, i, o.path);
    LookLater(db.disk, i, o.path);
    LookLater(db.disk, warmed, o.path);
    var w := m.(tick := warmed.tick);
    LooksOnly(db, m, warmed.tick);
    BegunWrites(db, w);
    var b := Begun(db, w);
    BegunTick(db, w);
    WritesThen(m, w, b, None);
    AbsentIff(db.disk, o.path, found, proven, order, looked.tick);
    var ended := AbsentRun(db.disk, o.path, found, proven, order, looked.tick).1;
    var (_, own, after, _) := RefuteRun(db, m, i, o, proven, order);
    WarmIs(o.path, warmed.entries);
    LooksOnly(db, b, ended);
    RetireWrites(db, b, o, RenameMismatched(o.id, o.path, db.clock(b.turn), OwnLook(db.disk.Meets(), o.path, warmed),
                                            Last(looked.tick), HasSibling(o.path, warmed.entries)), ended);
    StandsAnyTick(db, m, warmed.tick, own, after);
    WritesThen(m, b, after, own);
  }

  lemma BindWrites(db: Database, m: Moment, c: Claimant, path: Path, identity: Identity)
    requires Sound(db, m) && c in m.messages
    ensures var (own, after) := BindRun(db, m, c, path, identity);
      && Writes(m, after, own) && Sound(db, after) && Transacted(db, m, own, after) && after.tick == m.tick + 1
      && (own.Some? ==> own.value.BoundCopy? && own.value.c == c && own.value.path == path)
  {
    hide Writes, Begun, Wrote, NextId, Disk.SameAt, RowAt, Took, Peers, Good;
    BegunWrites(db, m);
    var b := Begun(db, m);
    BegunTick(db, m);
    StillTracked(db, m, c);
    var (own, after) := BindRun(db, m, c, path, identity);
    if own.Some? {
      WroteWrites(db, b, own.value, m.tick + 1);
      WroteTick(b, own.value, m.tick + 1);
    } else {
      LooksOnly(db, b, m.tick + 1);
    }
    WritesThen(m, b, after, own);
  }

  lemma StillTracked(db: Database, m: Moment, c: Claimant)
    requires Sound(db, m) && c in m.messages
    ensures c in Begun(db, m).tables.threadOf
  {
    hide Rows, MessagesTrue;
    PeersKeep(db.disk.facts, db.content, db.others, m.turn, Db(m.tables, m.messages));
  }

  lemma {:induction false} TryWrites(db: Database, cache: map<Key, Digest>, m: Moment, o: Seen, same: seq<Path>,
                                     held: set<Path>)
    requires Sound(db, m)
    ensures var t := TryRun(db, cache, m, o, same, held);
      Writes(m, t.m, t.own) && Sound(db, t.m) && (t.own.Some? <==> t.movedTo.Some?)
  {
    hide Sound, Writes, TryOne;
    if same == [] {
      LooksOnly(db, m, m.tick);
    } else {
      var before, p := TryRun(db, cache, m, o, same[..|same|-1], held), same[|same|-1];
      TryWrites(db, cache, m, o, same[..|same|-1], held);
      if before.movedTo.None? {
        TryOneWrites(db, cache, before, o, p, held);
        WritesThen(m, before.m, TryOne(db, cache, before, o, p, held).m, TryOne(db, cache, before, o, p, held).own);
      }
    }
  }

  lemma TryOneWrites(db: Database, cache: map<Key, Digest>, t: Trial, o: Seen, p: Path, held: set<Path>)
    requires Sound(db, t.m) && t.movedTo.None? && t.own.None?
    ensures var n := TryOne(db, cache, t, o, p, held);
      Writes(t.m, n.m, n.own) && Sound(db, n.m) && (n.own.Some? <==> n.movedTo.Some?)
  {
    hide Sound, Writes, Verdict, Look, MoveRun;
    var looked := t.m.(tick := t.m.tick + 1);
    LooksOnly(db, t.m, t.m.tick + 1);
    var st := Look(db.disk, p, t.m.tick);
    NoLookNoVerdict(o, p, cache);
    if st.Some? {
      MoveWrites(db, looked, o, p, st.value);
      var (own, after) := MoveRun(db, looked, o, p, st.value);
      WritesThen(t.m, looked, after, own);
    }
  }

  /** The write of an act. */
  function OwnOf(act: Act): Option<Change> {
    match act
    case Stale(_, own) => own
    case Followed(_, _, own) => own
    case Refuted(_, _, own) => own
    case Gone(_, own) => own
    case _ => None
  }

  /** It is of that occurrence and of the act's kind. */
  predicate Fits(o: Seen, act: Act) {
    var own := OwnOf(act);
    own.Some? ==>
      && !own.value.BoundCopy? && own.value.id == o.id
      && match act
         case Stale(_, _) => own.value.Mismatched? && own.value.path == o.path
         case Followed(to, _, _) => own.value.Moved? && own.value.newPath == to
         case Refuted(_, _, _) => own.value.RenameMismatched? && own.value.path == o.path
         case Gone(_, _) => own.value.Vanished? && own.value.path == o.path
         case _ => false
  }

  /** An act of one transaction, and what that did. */
  ghost predicate OneTransaction(db: Database, m: Moment, act: Act, after: Moment) {
    act.Stale? || act.Refuted? || act.Gone? ==> Transacted(db, m, OwnOf(act), after)
  }

  lemma HeldWrites(db: Database, cache: map<Key, Digest>, m: Moment, o: Seen, backstop: bool)
    requires Sound(db, m)
    ensures var (act, after) := HeldRun(db, cache, m, o, backstop);
      Writes(m, after, OwnOf(act)) && Sound(db, after) && Fits(o, act) && OneTransaction(db, m, act, after)
  {
    hide Sound, Writes, Verdict, Look, MismatchRun, Stands;
    LooksOnly(db, m, m.tick);
    var st, looked := Look(db.disk, o.path, m.tick), m.(tick := m.tick + 1);
    LooksOnly(db, m, m.tick + 1);
    NoLookNoVerdict(o, o.path, cache);
    if st.Some? {
      MismatchWrites(db, looked, o, st.value);
      var (own, after) := MismatchRun(db, looked, o, st.value);
      TransactedAnyTick(db, m, m.tick + 1, own, after);
      WritesThen(m, looked, after, own);
    }
  }

  lemma TransactedAnyTick(db: Database, m: Moment, tick: nat, own: Option<Change>, after: Moment)
    ensures Transacted(db, m.(tick := tick), own, after) <==> Transacted(db, m, own, after)
  {
    hide Took;
  }

  /** What an occurrence's turn writes, and where it leaves the inventory. */
  lemma ActWrites(db: Database, pass: Pass, m: Moment, entries: Entries, o: Seen, held: set<Path>)
    requires Sound(db, m) && Distinct(pass.files)
    ensures var (act, after, later) := OccurrenceRun(db, pass, m, entries, o, held);
      && Writes(m, after, OwnOf(act)) && Sound(db, after) && Fits(o, act) && OneTransaction(db, m, act, after)
      && later == EntriesAfter(db, pass, m, entries, o, act) && WarmTold(db, pass, m, entries, o, act)
  {
    hide Sound, Writes, TryRun, HeldRun, Namesakes, TrialOk, OneTransaction;
    if o.path in pass.files {
      HeldWrites(db, pass.cache, m, o, pass.backstop);
      HeldKind(db, pass.cache, m, o, pass.backstop);
    } else {
      var same := Namesakes(pass.files, o);
      NamesakesAre(pass.files, o);
      TrialMeans(db, pass.cache, m, o, same, held);
      TryWrites(db, pass.cache, m, o, same, held);
      UnheldWrites(db, pass, m, TryRun(db, pass.cache, m, o, same, held), entries, o, held);
    }
  }

  lemma HeldKind(db: Database, cache: map<Key, Digest>, m: Moment, o: Seen, backstop: bool)
    ensures var act := HeldRun(db, cache, m, o, backstop).0; act.Kept? || act.Stale?
  {
    hide Verdict, Look, MismatchRun;
  }

  /** A retirement says whether the sibling was listed before its transaction. */
  ghost predicate WarmTold(db: Database, pass: Pass, m: Moment, entries: Entries, o: Seen, act: Act) {
    match act
    case Refuted(_, _, own) =>
      own.Some? && own.value.RenameMismatched? ==>
        var i := Inventory(entries, m.tick + |Namesakes(pass.files, o)|);
        own.value.warm == Warmed(o.path, Looks(db.disk, i, o.path).0.entries)
    case Gone(_, own) =>
      own.Some? && own.value.Vanished? ==>
        own.value.warm == Warmed(o.path, Looks(db.disk, Inventory(entries, m.tick), o.path).0.entries)
    case _ => true
  }

  /** The directories recorded after an act: those it looked at are added. */
  ghost function EntriesAfter(db: Database, pass: Pass, m: Moment, entries: Entries, o: Seen, act: Act): Entries {
    match act
    case Refuted(_, _, _) =>
      Looks(db.disk, Inventory(entries, m.tick + |Namesakes(pass.files, o)|), o.path).2.entries
    case Gone(_, _) => Looks(db.disk, Inventory(entries, m.tick), o.path).2.entries
    case _ => entries
  }

  lemma UnheldWrites(db: Database, pass: Pass, m: Moment, t: Trial, entries: Entries, o: Seen, held: set<Path>)
    requires Sound(db, t.m) && Writes(m, t.m, t.own) && (t.own.Some? <==> t.movedTo.Some?)
    requires TrialOk(db, pass.cache, m, o, Namesakes(pass.files, o), held, t)
    ensures var (act, after, later) := UnheldRun(db, pass, t, entries, o, Namesakes(pass.files, o));
      && Writes(m, after, OwnOf(act)) && Sound(db, after) && Fits(o, act) && OneTransaction(db, m, act, after)
      && later == EntriesAfter(db, pass, m, entries, o, act) && WarmTold(db, pass, m, entries, o, act)
  {
    hide Sound, Writes, RefuteRun, VanishRun, Namesakes, Looks, Verdict, Look, LookedAt, Told, TrialOk, Transacted;
    var same := Namesakes(pass.files, o);
    if t.movedTo.Some? {
      FollowedMeans(db, pass.cache, m, t, o, same, held);
    } else if t.proven != map[] && t.proven.Keys == SetOf(same) {
      AllProvenAt(db, pass.cache, m, t, o, same, held);
      RefuteWrites(db, t.m, Inventory(entries, t.m.tick), o, t.proven, same);
      var (absent, own, after, i) := RefuteRun(db, t.m, Inventory(entries, t.m.tick), o, t.proven, same);
      TransactedAnyTick(db, m, t.m.tick, own, after);
      WritesThen(m, t.m, after, own);
    } else if same == [] {
      GoneMeans(db, pass.cache, m, t, entries, o, held);
      VanishWrites(db, m, Inventory(entries, m.tick), o);
      var (found, own, after, i) := VanishRun(db, m, Inventory(entries, m.tick), o);
      WritesThen(m, m, after, own);
    }
  }

  lemma AllProvenAt(db: Database, cache: map<Key, Digest>, m: Moment, t: Trial, o: Seen, same: seq<Path>,
                    held: set<Path>)
    requires TrialOk(db, cache, m, o, same, held, t) && t.movedTo.None? && t.proven.Keys == SetOf(same)
    ensures t.m == m.(tick := m.tick + |same|)
  {
    hide Look, Verdict;
  }

  // ----- every turn ----------------------------------------------------------------------------------

  /**
   * One occurrence's turn, from what the earlier ones left: outside the scope nothing is
   * done; inside it the act is the one called for, with its write, its looks at the folder
   * and the path it moved to.
   */
  ghost predicate TurnOk(db: Database, pass: Pass, before: Progress, o: Seen, after: Progress) {
    && |after.acts| == |before.acts| + 1 && after.acts[..|before.acts|] == before.acts
    && var act := after.acts[|before.acts|];
       if pass.scope <= o.path.dirs then
         && ActOk(db, pass, before.m, before.entries, o, before.held, act, after.m)
         && Writes(before.m, after.m, OwnOf(act)) && Fits(o, act) && OneTransaction(db, before.m, act, after.m)
         && after.entries == EntriesAfter(db, pass, before.m, before.entries, o, act)
         && WarmTold(db, pass, before.m, before.entries, o, act)
         && after.held == before.held + (if act.Followed? then {act.to} else {})
       else act.Skipped? && after == before.(acts := after.acts)
  }

  lemma TurnMeans(db: Database, pass: Pass, before: Progress, o: Seen)
    requires Sound(db, before.m) && Distinct(pass.files)
    ensures var after := OneOccurrence(db, pass, before, o); TurnOk(db, pass, before, o, after) && Sound(db, after.m)
  {
    hide Sound, Writes, ActOk, Fits, OccurrenceRun, EntriesAfter, OneTransaction, WarmTold;
    ActMeans(db, pass, before.m, before.entries, o, before.held);
    ActWrites(db, pass, before.m, before.entries, o, before.held);
  }

  /** A file's identity has a known digest that is some message's. */
  ghost predicate Recognized(db: Database, cache: map<Key, Digest>, m: Moment, path: Path) {
    var st := Look(db.disk, path, m.tick);
    && st.Some? && (path, st.value) in cache
    && exists c :: c in m.messages && m.messages[c].hash == Some(cache[(path, st.value)])
  }

  /**
   * The turn of a file that is not held: it is tried exactly when it is admitted and
   * recognized, for the first message it is recognized as, and bound exactly when it is
   * still that file and, once others had their turn, its path is free.
   */
  ghost predicate FileOk(db: Database, cache: map<Key, Digest>, m: Moment, path: Path, admitted: bool, act: FileAct,
                         after: Moment) {
    match act
    case Held => false
    case Ignored(at) =>
      at == m.tick && !(admitted && Recognized(db, cache, m, path)) && after == m.(tick := m.tick + 1)
    case Tried(at, c, own) =>
      && at == m.tick && admitted && Recognized(db, cache, m, path) && after.tick == m.tick + 2
      && var identity := Look(db.disk, path, m.tick).value;
         && IsFirst(m.messages, cache[(path, identity)], c)
         && (own.Some? <==> db.disk.SameAt(path, identity, m.tick + 1) && PathFree(Begun(db, m).tables, path))
         && (own.Some? ==> own.value.BoundCopy? && own.value.c == c && own.value.path == path)
         && Transacted(db, m, own, after)
  }

  ghost predicate PathFree(t: Tables, path: Path) {
    forall k | k in t.occ && t.occ[k].retiredAt.None? :: t.occ[k].path != path
  }

  function WriteOf(act: FileAct): Option<Change> {
    if act.Tried? then act.own else None
  }

  ghost predicate FileTurnOk(db: Database, pass: Pass, m: Moment, path: Path, held: set<Path>, act: FileAct,
                             after: Moment) {
    if path in held then act.Held? && after == m
    else FileOk(db, pass.cache, m, path, path in pass.admitted, act, after) && Writes(m, after, WriteOf(act))
  }

  lemma FileMeans(db: Database, cache: map<Key, Digest>, m: Moment, path: Path, admitted: bool)
    requires Sound(db, m)
    ensures var (act, after) := FileRun(db, cache, m, path, admitted);
      FileOk(db, cache, m, path, admitted, act, after) && Writes(m, after, WriteOf(act)) && Sound(db, after)
  {
    hide Sound, Writes, Look, IsFirst, BindRun, Transacted;
    var st, looked := Look(db.disk, path, m.tick), m.(tick := m.tick + 1);
    LooksOnly(db, m, m.tick + 1);
    if st.Some? && (path, st.value) in cache {
      var digest := cache[(path, st.value)];
      FirstExists(m.messages, digest);
      FirstHasIt(m.messages, digest);
      var c := ClaimantFor(m.messages, digest);
      if c.Some? {
        BindWrites(db, looked, c.value, path, st.value);
        BindIff(db, looked, c.value, path, st.value);
        var (own, after) := BindRun(db, looked, c.value, path, st.value);
        TransactedAnyTick(db, m, m.tick + 1, own, after);
        WritesThen(m, looked, after, own);
      }
    }
  }

  lemma BindIff(db: Database, m: Moment, c: Claimant, path: Path, identity: Identity)
    ensures BindRun(db, m, c, path, identity).0.Some? <==>
            db.disk.SameAt(path, identity, m.tick) && PathFree(Begun(db, m).tables, path)
    ensures forall tick: nat :: Begun(db, m.(tick := tick)).tables == Begun(db, m).tables
  {
    hide Disk.SameAt, NextId, ApplyChange;
    var t := Begun(db, m).tables;
    assert RowAt(t, path, None) <==> PathFree(t, path) by {
      assert forall k :: ActiveAt(t, path, k) <==> k in t.occ && t.occ[k].retiredAt.None? && t.occ[k].path == path;
    }
  }

  /** The turns of a whole scan, one after another: the occurrences', then the files'. */
  ghost predicate ScanOk(db: Database, pass: Pass, m: Moment, entries: Entries, occurrences: seq<Seen>,
                         turns: seq<Progress>, moments: seq<Moment>, fileActs: seq<FileAct>) {
    && TurnsOk(db, pass, occurrences, turns)
    && turns[0] == Progress([], m, entries, set o | o in occurrences :: o.path)
    && FileTurnsOk(db, pass, pass.files, turns[|occurrences|].held, moments, fileActs)
    && moments[0] == turns[|occurrences|].m
  }

  ghost predicate TurnsOk(db: Database, pass: Pass, occurrences: seq<Seen>, turns: seq<Progress>) {
    && |turns| == |occurrences| + 1
    && forall i: nat | i < |occurrences| :: TurnAt(db, pass, occurrences, turns, i)
  }

  ghost predicate TurnAt(db: Database, pass: Pass, occurrences: seq<Seen>, turns: seq<Progress>, i: nat)
    requires i < |occurrences| && |turns| == |occurrences| + 1
  {
    TurnOk(db, pass, turns[i], occurrences[i], turns[i + 1])
  }

  ghost predicate FileTurnsOk(db: Database, pass: Pass, files: seq<Path>, held: set<Path>, moments: seq<Moment>,
                              acts: seq<FileAct>) {
    && |moments| == |files| + 1 && |acts| == |files|
    && forall i: nat | i < |files| :: FileTurnAt(db, pass, files, held, moments, acts, i)
  }

  ghost predicate FileTurnAt(db: Database, pass: Pass, files: seq<Path>, held: set<Path>, moments: seq<Moment>,
                             acts: seq<FileAct>, i: nat)
    requires i < |files| == |acts| && |moments| == |files| + 1
  {
    FileTurnOk(db, pass, moments[i], files[i], held, acts[i], moments[i + 1])
  }

  lemma {:induction false} TurnsMean(db: Database, pass: Pass, m: Moment, entries: Entries, occurrences: seq<Seen>,
                                     held: set<Path>) returns (turns: seq<Progress>)
    requires Sound(db, m) && Distinct(pass.files)
    ensures TurnsOk(db, pass, occurrences, turns) && |turns| == |occurrences| + 1
    ensures turns[0] == Progress([], m, entries, held)
    ensures turns[|occurrences|] == OccurrencesRun(db, pass, m, entries, occurrences, held)
    ensures Sound(db, turns[|occurrences|].m)
  {
    hide Sound, TurnOk, OneOccurrence;
    if occurrences == [] {
      turns := [Progress([], m, entries, held)];
    } else {
      var n := |occurrences| - 1;
      var earlier := TurnsMean(db, pass, m, entries, occurrences[..n], held);
      TurnMeans(db, pass, earlier[n], occurrences[n]);
      turns := earlier + [OccurrencesRun(db, pass, m, entries, occurrences, held)];
      forall i: nat | i < |occurrences| ensures TurnAt(db, pass, occurrences, turns, i) {
        if i < n {
          assert TurnAt(db, pass, occurrences[..n], earlier, i);
        }
      }
    }
  }

  lemma {:induction false} FilesMean(db: Database, pass: Pass, m: Moment, files: seq<Path>, held: set<Path>)
    returns (moments: seq<Moment>)
    requires Sound(db, m)
    ensures var (acts, after) := FilesRun(db, pass, m, files, held);
      FileTurnsOk(db, pass, files, held, moments, acts) && moments[|files|] == after && Sound(db, after)
    ensures |moments| == |files| + 1 && moments[0] == m && forall i: nat | i <= |files| :: Sound(db, moments[i])
  {
    hide Sound, FileOk, Writes, FileRun;
    if files == [] {
      moments := [m];
    } else {
      var n := |files| - 1;
      var earlier := FilesMean(db, pass, m, files[..n], held);
      var (acts, after) := FilesRun(db, pass, m, files, held);
      var before := FilesRun(db, pass, m, files[..n], held).0;
      FileMeans(db, pass.cache, earlier[n], files[n], files[n] in pass.admitted);
      moments := earlier + [after];
      assert acts[..n] == before;
      forall i: nat | i < |files| ensures FileTurnAt(db, pass, files, held, moments, acts, i) {
        if i < n {
          assert FileTurnAt(db, pass, files[..n], held, earlier, before, i);
        }
      }
    }
  }

  /** Every occurrence and every file got its turn, and each was what was called for then. */
  lemma ScanMeans(db: Database, pass: Pass, m: Moment, entries: Entries, occurrences: seq<Seen>)
    returns (turns: seq<Progress>, moments: seq<Moment>)
    requires Sound(db, m) && Distinct(pass.files)
    ensures var (p, fileActs, after) := ScanRun(db, pass, m, entries, occurrences);
      && ScanOk(db, pass, m, entries, occurrences, turns, moments, fileActs)
      && turns[|occurrences|] == p && moments[|pass.files|] == after
  {
    hide Sound, TurnsOk, FileTurnsOk, OccurrencesRun, FilesRun;
    turns := TurnsMean(db, pass, m, entries, occurrences, PathsOf(occurrences));
    var p := turns[|occurrences|];
    moments := FilesMean(db, pass, p.m, pass.files, p.held);
  }

  // ----- a copy that nobody disturbs is bound -----------------------------------------------------------

  /** From that tick on the file is there with that identity, and no one else writes to the tables. */
  ghost predicate Alone(db: Database, path: Path, identity: Identity, from: nat) {
    && (forall n: nat, d: Db :: db.others(n, d) == d)
    && forall t: nat | from <= t :: !db.disk.fails(t) && StatAt(db.disk.worlds(t), path) == Some(identity)
  }

  /** With no one else writing, a file's turn binds the file or changes nothing. */
  lemma TurnBinds(db: Database, pass: Pass, m: Moment, path: Path, held: set<Path>, act: FileAct, after: Moment)
    requires FileTurnOk(db, pass, m, path, held, act, after) && forall n: nat, d: Db :: db.others(n, d) == d
    ensures after.messages == m.messages && m.tick <= after.tick
    ensures if WriteOf(act).None? then after.tables == m.tables
            else exists id: nat, now: Time, k: nat ::
                   id !in m.tables.occ && BoundTo(m.tables, after.tables, act.c, path, Scanned, None, id, now, k)
  {
    hide BoundTo, MovedTo, Recognized, IsFirst, Look, Disk.SameAt;
  }

  /** A bind of another path takes no row at this path. */
  lemma PathStaysFree(t: Tables, after: Tables, c: Claimant, other: Path, id: nat, now: Time, k: nat, path: Path)
    requires BoundTo(t, after, c, other, Scanned, None, id, now, k) && other != path && PathFree(t, path)
    ensures PathFree(after, path)
  {
    hide Locate, StateOf, IsTrashed, Taken;
  }

  /** Nor does one with another folder or uniq take the row from it. */
  lemma ArrivedStays(t: Tables, after: Tables, c: Claimant, other: Path, id: nat, now: Time, k: nat, d: Claimant,
                     path: Path, j: nat)
    requires BoundTo(t, after, c, other, Scanned, None, id, now, k) && Locate(other) != Locate(path)
    requires Arrived(t, j, d, path) && id !in t.occ
    ensures Arrived(after, j, d, path)
  {
    hide Locate, StateOf, IsTrashed;
    assert j != k;
  }

  /** Until a file's turn, no other file's takes its path. */
  lemma {:induction false} FreeUntil(db: Database, pass: Pass, files: seq<Path>, held: set<Path>, moments: seq<Moment>,
                                     acts: seq<FileAct>, i: nat, n: nat)
    requires FileTurnsOk(db, pass, files, held, moments, acts) && n <= i < |files| && Distinct(files)
    requires (forall n: nat, d: Db :: db.others(n, d) == d) && PathFree(moments[0].tables, files[i])
    ensures PathFree(moments[n].tables, files[i]) && moments[n].messages == moments[0].messages
    ensures moments[0].tick <= moments[n].tick
  {
    hide FileTurnOk, PathFree, BoundTo;
    if n > 0 {
      FreeUntil(db, pass, files, held, moments, acts, i, n - 1);
      assert FileTurnAt(db, pass, files, held, moments, acts, n - 1);
      TurnBinds(db, pass, moments[n-1], files[n-1], held, acts[n-1], moments[n]);
      if WriteOf(acts[n-1]).Some? {
        var id: nat, now: Time, k: nat :|
          BoundTo(moments[n-1].tables, moments[n].tables, acts[n-1].c, files[n-1], Scanned, None, id, now, k);
        PathStaysFree(moments[n-1].tables, moments[n].tables, acts[n-1].c, files[n-1], id, now, k, files[i]);
      }
    }
  }

  /** After it, files of other folders and uniqs leave its row. */
  lemma {:induction false} BoundFrom(db: Database, pass: Pass, files: seq<Path>, held: set<Path>, moments: seq<Moment>,
                                     acts: seq<FileAct>, i: nat, n: nat, c: Claimant, j: nat)
    requires FileTurnsOk(db, pass, files, held, moments, acts) && i < n <= |files|
    requires (forall n: nat, d: Db :: db.others(n, d) == d) && Arrived(moments[i+1].tables, j, c, files[i])
    requires forall k | i < k < |files| :: Locate(files[k]) != Locate(files[i])
    ensures Arrived(moments[n].tables, j, c, files[i])
  {
    hide FileTurnOk, Arrived, BoundTo, Locate;
    if n > i + 1 {
      BoundFrom(db, pass, files, held, moments, acts, i, n - 1, c, j);
      assert FileTurnAt(db, pass, files, held, moments, acts, n - 1);
      TurnBinds(db, pass, moments[n-1], files[n-1], held, acts[n-1], moments[n]);
      if WriteOf(acts[n-1]).Some? {
        var id: nat, now: Time, k: nat :|
          id !in moments[n-1].tables.occ
          && BoundTo(moments[n-1].tables, moments[n].tables, acts[n-1].c, files[n-1], Scanned, None, id, now, k);
        ArrivedStays(moments[n-1].tables, moments[n].tables, acts[n-1].c, files[n-1], id, now, k, c, files[i], j);
      }
    }
  }

  lemma FileTurnIsOk(db: Database, pass: Pass, m: Moment, path: Path, held: set<Path>, act: FileAct, after: Moment)
    requires FileTurnOk(db, pass, m, path, held, act, after) && path !in held
    ensures FileOk(db, pass.cache, m, path, path in pass.admitted, act, after)
  {
    hide FileOk, Writes;
  }

  lemma NoOthers(db: Database, path: Path, identity: Identity, from: nat)
    requires Alone(db, path, identity, from)
    ensures forall n: nat, d: Db :: db.others(n, d) == d
  {
    hide Look;
  }

  lemma ArrivesThere(t: Tables, after: Tables, c: Claimant, path: Path, id: nat, now: Time, k: nat)
    requires BoundTo(t, after, c, path, Scanned, None, id, now, k)
    ensures Arrived(after, k, c, path)
  {
    hide Arrived, OthersStay, Taken;
  }

  lemma TriedIsDue(db: Database, pass: Pass, m: Moment, path: Path, identity: Identity, act: FileAct, after: Moment)
    requires FileOk(db, pass.cache, m, path, true, act, after) && Alone(db, path, identity, m.tick)
    requires (path, identity) in pass.cache && PathFree(m.tables, path)
    requires exists c :: c in m.messages && m.messages[c].hash == Some(pass.cache[(path, identity)])
    ensures WriteOf(act).Some? && act.Tried? && IsFirst(m.messages, pass.cache[(path, identity)], act.c)
  {
    hide IsFirst, PathFree, Transacted;
    assert Look(db.disk, path, m.tick) == Some(identity) && Look(db.disk, path, m.tick + 1) == Some(identity);
    assert db.disk.SameAt(path, identity, m.tick + 1);
    assert Recognized(db, pass.cache, m, path);
    assert Begun(db, m).tables == m.tables;
  }

  /** The turn of an admitted, unheld file that is recognized and left alone, with its path free. */
  lemma TurnArrives(db: Database, pass: Pass, m: Moment, path: Path, held: set<Path>, identity: Identity, act: FileAct,
                    after: Moment) returns (j: nat)
    requires FileTurnOk(db, pass, m, path, held, act, after) && Alone(db, path, identity, m.tick)
    requires path !in held && path in pass.admitted && (path, identity) in pass.cache && PathFree(m.tables, path)
    requires exists c :: c in m.messages && m.messages[c].hash == Some(pass.cache[(path, identity)])
    ensures act.Tried? && IsFirst(m.messages, pass.cache[(path, identity)], act.c)
    ensures Arrived(after.tables, j, act.c, path)
  {
    hide *;
    FileTurnIsOk(db, pass, m, path, held, act, after);
    TriedIsDue(db, pass, m, path, identity, act, after);
    NoOthers(db, path, identity, m.tick);
    TurnBinds(db, pass, m, path, held, act, after);
    var id: nat, now: Time, k: nat :| BoundTo(m.tables, after.tables, act.c, path, Scanned, None, id, now, k);
    ArrivesThere(m.tables, after.tables, act.c, path, id, now, k);
    j := k;
  }

  /**
   * In a scan that nobody disturbs, an admitted file that no occurrence holds, with a known
   * digest of some message and a free path, ends with an active row at its path, bound to the
   * first such message, unless a later file of the same folder and uniq takes that row.
   */
  lemma CopyIsBound(db: Database, pass: Pass, m: Moment, entries: Entries, occurrences: seq<Seen>, i: nat,
                    identity: Identity) returns (j: nat, c: Claimant)
    requires Sound(db, m) && Distinct(pass.files) && i < |pass.files|
    requires var p, path := ScanRun(db, pass, m, entries, occurrences).0, pass.files[i];
      && Alone(db, path, identity, p.m.tick) && path !in p.held && PathFree(p.m.tables, path)
      && path in pass.admitted && (path, identity) in pass.cache
      && exists c :: c in p.m.messages && p.m.messages[c].hash == Some(pass.cache[(path, identity)])
    requires forall k | i < k < |pass.files| :: Locate(pass.files[k]) != Locate(pass.files[i])
    ensures var (p, fileActs, after) := ScanRun(db, pass, m, entries, occurrences);
      && IsFirst(p.m.messages, pass.cache[(pass.files[i], identity)], c)
      && Arrived(after.tables, j, c, pass.files[i])
  {
    hide Sound, TurnsOk, FileTurnOk, Arrived, IsFirst, PathFree, ScanRun, Locate;
    var (p, fileActs, after) := ScanRun(db, pass, m, entries, occurrences);
    var turns, moments := ScanMeans(db, pass, m, entries, occurrences);
    FreeUntil(db, pass, pass.files, p.held, moments, fileActs, i, i);
    assert FileTurnAt(db, pass, pass.files, p.held, moments, fileActs, i);
    j := TurnArrives(db, pass, moments[i], pass.files[i], p.held, identity, fileActs[i], moments[i+1]);
    c := fileActs[i].c;
    BoundFrom(db, pass, pass.files, p.held, moments, fileActs, i, |pass.files|, c, j);
  }

  // ----- a rename that nobody disturbs is followed ---------------------------------------------------------

  /**
   * In a turn that nobody disturbs, an occurrence whose file is gone follows it: it moves to
   * a candidate that holds its bytes, when there is one that no other occurrence holds.
   */
  lemma RenameIsFollowed(db: Database, pass: Pass, m: Moment, entries: Entries, o: Seen, held: set<Path>, i: nat,
                         identity: Identity)
    requires Sound(db, m) && Distinct(pass.files) && o.path !in pass.files
    requires var same := Namesakes(pass.files, o);
      && i < |same| && same[i] !in held && KnownMatch(o, identity, same[i], pass.cache)
      && Alone(db, same[i], identity, m.tick) && PathFree(m.tables, same[i])
    requires o.id in m.tables.occ && m.tables.occ[o.id].retiredAt.None? && m.tables.occ[o.id].path == o.path
    ensures OccurrenceRun(db, pass, m, entries, o, held).0.Followed?
  {
    hide Sound, TryRun, Namesakes, Verdict, Alone, RefuteRun, VanishRun, PathFree;
    var same := Namesakes(pass.files, o);
    VerdictTells(o, Some(identity), same[i], pass.cache);
    NoOthers(db, same[i], identity, m.tick);
    IdleTry(db, pass.cache, m, o, same[..i], held);
    if TryRun(db, pass.cache, m, o, same[..i], held).movedTo.None? {
      TryMoves(db, pass.cache, TryRun(db, pass.cache, m, o, same[..i], held), m, o, same[i], held, identity);
      OneMoreTried(db, pass.cache, m, o, same, held, i);
      TryStops(db, pass.cache, m, o, same, held, i + 1);
    } else {
      TryStops(db, pass.cache, m, o, same, held, i);
    }
  }

  lemma {:induction false} IdleTry(db: Database, cache: map<Key, Digest>, m: Moment, o: Seen, same: seq<Path>,
                                   held: set<Path>)
    requires forall n: nat, d: Db :: db.others(n, d) == d
    ensures var t := TryRun(db, cache, m, o, same, held);
      m.tick <= t.m.tick && (t.movedTo.None? ==> t.m.tables == m.tables)
  {
    hide Verdict, Look, MoveDue, NextId, ApplyChange, MoveTicks;
    if same != [] {
      IdleTry(db, cache, m, o, same[..|same|-1], held);
      NoLookNoVerdict(o, same[|same|-1], cache);
    }
  }

  lemma TryMoves(db: Database, cache: map<Key, Digest>, t: Trial, m: Moment, o: Seen, p: Path, held: set<Path>,
                 identity: Identity)
    requires t.m.tables == m.tables && m.tick <= t.m.tick && t.movedTo.None?
    requires p !in held && Verdict(o, Some(identity), p, cache) == Some(true)
    requires Alone(db, p, identity, m.tick) && PathFree(m.tables, p)
    requires o.id in m.tables.occ && m.tables.occ[o.id].retiredAt.None? && m.tables.occ[o.id].path == o.path
    ensures TryOne(db, cache, t, o, p, held).movedTo.Some?
  {
    hide Verdict, NextId, ApplyChange, MoveTicks;
    assert forall tick: nat | m.tick <= tick ::
        Look(db.disk, p, tick) == Some(identity) && db.disk.SameAt(p, identity, tick);
    var b := Begun(db, t.m.(tick := t.m.tick + 1));
    assert b.tables == m.tables && RowAt(b.tables, p, None);
  }

  // ----- what was listed before any transaction ------------------------------------------------------------

  /** Each occurrence's directory is listed before the first transaction, by looks in order that keep what is known. */
  lemma {:induction false} WarmsAll(c: Calls, i: Inventory, occurrences: seq<Seen>)
    ensures var warmed := WarmRun(c, i, occurrences);
      && i.tick <= warmed.tick
      && (forall d | d in i.entries :: d in warmed.entries && warmed.entries[d] == i.entries[d])
      && (forall o | o in occurrences :: o.path.dirs in warmed.entries)
    ensures occurrences != [] ==>
              var n := |occurrences| - 1;
              WarmRun(c, i, occurrences) == CandidatesLook(c, WarmRun(c, i, occurrences[..n]), occurrences[n].path).1
  {
    hide CandidatesLook;
    if occurrences != [] {
      var n := |occurrences| - 1;
      WarmsAll(c, i, occurrences[..n]);
      LookKeeps(c, WarmRun(c, i, occurrences[..n]), occurrences[n].path);
      assert forall o | o in occurrences :: o in occurrences[..n] || o == occurrences[n];
    }
  }

  lemma LookKeeps(c: Calls, i: Inventory, path: Path)
    ensures var looked := CandidatesLook(c, i, path).1;
      && i.tick <= looked.tick && path.dirs in looked.entries
      && forall d | d in i.entries :: d in looked.entries && looked.entries[d] == i.entries[d]
  {
    hide WithUniq, Children, Sibling;
  }
}
