/**
 * The reaper's check for files that are back on disk, and the reap it guards: digests are
 * prepared before the transaction, and inside it a message is spared unless every file of
 * its copies' folders is proved unlike it and unchanged.
 */
module Reaper {
  import opened Wrappers
  import opened Maildir
  import opened Mailbox
  import opened MailboxStore
  import opened FileEvidence

  /** A place where a reaped message's bytes once were, and what is recorded about them. */
  datatype Source = Source(path: Path, expected: Option<Digest>, size: Option<nat>)

  datatype Proof = Proof(identity: Identity, matches: Option<bool>)

  /** The proofs for one source, or `None` when its candidates could not be listed. */
  type Check = Option<map<Path, Proof>>

  /** Bytes that agree with everything recorded. */
  ghost predicate Like(facts: Facts, identity: Identity, s: Source) {
    && facts.regular(identity)
    && (s.size.Some? ==> |facts.bytes(identity)| == s.size.value)
    && (s.expected.Some? ==> facts.hash(facts.bytes(identity)) == s.expected.value)
  }

  ghost predicate LikeAt(facts: Facts, w: World, p: Path, s: Source) {
    StatAt(w, p).Some? && Like(facts, StatAt(w, p).value, s)
  }

  /** What a check's proofs are worth: each was seen before `tick`, and a recorded mismatch is one. */
  ghost predicate CheckOk(facts: Facts, worlds: nat -> World, s: Source, check: Check, seen: map<Path, nat>,
                          tick: nat) {
    check.Some? ==>
      && check.value.Keys <= seen.Keys
      && forall p | p in check.value ::
        && seen[p] < tick && StatAt(worlds(seen[p]), p) == Some(check.value[p].identity)
        && (check.value[p].matches == Some(false) ==> !Like(facts, check.value[p].identity, s))
  }

  /** No file with the source's uniq, but trashed ones, is like it, at the ticks its folder was checked. */
  ghost predicate NotRestored(facts: Facts, worlds: nat -> World, s: Source, t1: nat, t2: nat) {
    && t1 <= t2
    && (forall p | SameUniqIn(worlds(t1), s.path, s.path.dirs, p) && !IsTrashed(p) :: !LikeAt(facts, worlds(t1), p, s))
    && (Sibling(s.path.dirs).Some? ==>
          var sibling := Sibling(s.path.dirs).value;
          && (forall p | SameUniqIn(worlds(t2), s.path, sibling, p) && !IsTrashed(p) ::
                  !LikeAt(facts, worlds(t2), p, s))
          && (sibling in worlds(t2).dirs ==>
                forall p | SameUniqIn(worlds(t1), s.path, sibling, p) && !IsTrashed(p) ::
                    !LikeAt(facts, worlds(t1), p, s)))
  }

  function Untrashed(found: set<Path>): set<Path> {
    set p | p in found && !IsTrashed(p)
  }

  // ----- what a check rests on --------------------------------------------------------------

  /** An inventory with its digests and what it may still read. */
  datatype Standing = Standing(at: Inventory, hashes: map<Key, Digest>, attempted: set<Key>, files: nat, bytes: nat)

  ghost function StandingOf(inventory: FolderInventory): Standing
    reads inventory, inventory.disk
  {
    Standing(inventory.Now(), inventory.hashes, inventory.attempted, inventory.files, inventory.bytes)
  }

  predicate SizeFits(s: Source, identity: Identity) {
    s.size.None? || identity.size == s.size.value
  }

  /** A proof says mismatch by size, else what the digest says when it and the expected one are known. */
  predicate ProofOf(s: Source, p: Path, proof: Proof, hashes: map<Key, Digest>) {
    var key := (p, proof.identity);
    if !SizeFits(s, proof.identity) then proof.matches == Some(false)
    else if s.expected.None? || key !in hashes then proof.matches.None?
    else proof.matches == Some(hashes[key] == s.expected.value)
  }

  /**
   * A proof is right about the bytes: another size is a mismatch, and otherwise it says
   * whether they have the expected digest, when that and theirs are known, or nothing.
   */
  lemma ProofIsRight(facts: Facts, s: Source, p: Path, proof: Proof, hashes: map<Key, Digest>)
    requires ProofOf(s, p, proof, hashes) && Digests(facts, hashes)
    ensures proof.matches ==
            if s.size.Some? && proof.identity.size != s.size.value then Some(false)
            else if s.expected.Some? && (p, proof.identity) in hashes
            then Some(facts.hash(facts.bytes(proof.identity)) == s.expected.value) else None
  {
  }

  /**
   * The digest of a file of the right size is known, or reading it was tried, or it is beyond
   * the limits. A try at a file that nobody touches from `from` on succeeds.
   */
  ghost predicate Asked(disk: Disk, s: Source, p: Path, identity: Identity, before: Standing, after: Standing,
                        from: nat) {
    var key := (p, identity);
    SizeFits(s, identity) && key !in after.hashes ==>
      if key in before.attempted then true
      else if key in after.attempted then !Undisturbed(disk, p, identity, from)
      else after.files >= MAX_HASH_FILES || after.bytes + identity.size > MAX_HASH_BYTES
  }

  /** Digests stay, and no file but `p` gets one or is read. */
  ghost predicate Grows(before: Standing, after: Standing, asked: set<Path>) {
    && before.at.tick <= after.at.tick && before.files <= after.files && before.bytes <= after.bytes
    && (forall key | key in before.hashes :: key in after.hashes && after.hashes[key] == before.hashes[key])
    && (forall key | key in after.hashes && key !in before.hashes :: key.0 in asked)
    && before.attempted <= after.attempted
    && (forall key | key in after.attempted && key !in before.attempted :: key.0 in asked)
  }

  lemma GrowsOn(a: Standing, b: Standing, c: Standing, asked: set<Path>, p: Path)
    requires Grows(a, b, asked) && Grows(b, c, {p})
    ensures Grows(a, c, asked + {p})
  {
  }

  lemma StillAsked(disk: Disk, s: Source, p: Path, proof: Proof, a: Standing, b: Standing, c: Standing, from: nat,
                   q: Path)
    requires Grows(b, c, {q}) && p != q && Asked(disk, s, p, proof.identity, a, b, from)
    requires ProofOf(s, p, proof, b.hashes)
    ensures Asked(disk, s, p, proof.identity, a, c, from) && ProofOf(s, p, proof, c.hashes)
  {
    hide Undisturbed;
  }

  /** What asking says of the stretch since the inventory stood at `b` it says of the one since `a`. */
  lemma AskedSince(disk: Disk, s: Source, p: Path, identity: Identity, asked: set<Path>, a: Standing, b: Standing,
                   c: Standing, from: nat)
    requires Grows(a, b, asked) && p !in asked && Asked(disk, s, p, identity, b, c, from)
    ensures Asked(disk, s, p, identity, a, c, from)
  {
    hide Undisturbed;
  }

  /** The candidate was looked at when the inventory stood at `before`, and this is its proof. */
  ghost predicate ProvedAt(disk: Disk, s: Source, p: Path, proof: Option<Proof>, before: Standing, after: Standing) {
    && before.at.tick < after.at.tick && Grows(before, after, {p})
    && (proof.Some? <==> Look(disk, p, before.at.tick).Some?)
    && (proof.Some? ==>
          && Look(disk, p, before.at.tick) == Some(proof.value.identity)
          && ProofOf(s, p, proof.value, after.hashes)
          && Asked(disk, s, p, proof.value.identity, before, after, before.at.tick + 1)
          && (proof.value.matches == Some(false) ==> !Like(disk.facts, proof.value.identity, s)))
  }

  /** One candidate's proof: unlike by size, or by digest when both digests are known. */
  method Prove(inventory: FolderInventory, s: Source, p: Path) returns (proof: Option<Proof>)
    requires inventory.Valid()
    modifies inventory.disk, inventory`hashes, inventory`files, inventory`bytes
    modifies inventory`hashDeferred, inventory`attempted, inventory`deferred
    ensures inventory.Valid() && old(inventory.disk.tick) < inventory.disk.tick
    ensures ProvedAt(inventory.disk, s, p, proof, old(StandingOf(inventory)), StandingOf(inventory))
  {
    hide Honest, StatAt, Undisturbed, FolderInventory.Valid, Like, Digests;
    var disk := inventory.disk;
    ghost var at := disk.tick;
    ValidDisk(inventory);
    label start:
    var identity := disk.Stat(p);
    TickOnly@start(inventory);
    if identity.None? {
      return None;
    }
    LikeIsKnown(disk, s, p, identity.value, at);
    if s.size.Some? && identity.value.size != s.size.value {
      return Some(Proof(identity.value, Some(false)));
    }
    var digest := inventory.Digest(p, identity.value);
    var matches := if digest.Some? && s.expected.Some? then Some(digest == s.expected) else None;
    proof := Some(Proof(identity.value, matches));
  }

  lemma ValidDisk(inventory: FolderInventory)
    requires inventory.Valid()
    ensures inventory.disk.Valid()
  {
  }

  lemma LikeIsKnown(disk: Disk, s: Source, p: Path, identity: Identity, at: nat)
    requires disk.Valid() && StatAt(disk.worlds(at), p) == Some(identity)
    ensures Like(disk.facts, identity, s) ==>
              SizeFits(s, identity)
              && (s.expected.Some? ==> disk.facts.hash(disk.facts.bytes(identity)) == s.expected.value)
  {
    hide Honest, StatAt;
    IdentityIsOfItsNode(disk.facts, disk.worlds, at, p);
  }

  /**
   * A check prepared between the two: the candidates are what the looks at the folder come
   * to, every one that is not trashed was looked at after them, and its proof is what its
   * size and the digests settle.
   */
  ghost predicate Prepared(disk: Disk, s: Source, check: Check, seen: map<Path, nat>, before: Standing,
                           after: Standing) {
    var (found, looked) := CandidatesLook(disk.Meets(), before.at, s.path);
    && after.at.entries == looked.entries && looked.tick <= after.at.tick
    && (check.Some? <==> found.Some?)
    && (check.Some? ==>
          && seen.Keys == Untrashed(found.value)
          && ProvedAll(disk, s, check.value, seen, before, after, looked.tick))
  }

  ghost predicate ProvedAll(disk: Disk, s: Source, proofs: map<Path, Proof>, seen: map<Path, nat>, before: Standing,
                            after: Standing, from: nat) {
    && (forall p | p in seen :: from <= seen[p] < after.at.tick)
    && (forall p | p in seen :: p in proofs <==> Look(disk, p, seen[p]).Some?)
    && (forall p | p in proofs ::
          && p in seen && Look(disk, p, seen[p]) == Some(proofs[p].identity)
          && ProofOf(s, p, proofs[p], after.hashes)
          && Asked(disk, s, p, proofs[p].identity, before, after, seen[p] + 1))
  }

  /** One more candidate was looked at. */
  lemma ProvedOneMore(disk: Disk, s: Source, proofs: map<Path, Proof>, seen: map<Path, nat>, a: Standing, b: Standing,
                      c: Standing, from: nat, p: Path, proof: Option<Proof>, asked: set<Path>)
    requires ProvedAll(disk, s, proofs, seen, a, b, from) && p !in seen && p !in asked && Grows(a, b, asked)
    requires ProvedAt(disk, s, p, proof, b, c) && from <= b.at.tick
    ensures var more := if proof.Some? then proofs[p := proof.value] else proofs;
      ProvedAll(disk, s, more, seen[p := b.at.tick], a, c, from)
  {
    hide Asked, ProofOf, Look, Grows, Like;
    if proof.Some? {
      AskedSince(disk, s, p, proof.value.identity, asked, a, b, c, b.at.tick + 1);
    }
    forall q | q in proofs
      ensures ProofOf(s, q, proofs[q], c.hashes) && Asked(disk, s, q, proofs[q].identity, a, c, seen[q] + 1)
    {
      StillAsked(disk, s, q, proofs[q], a, b, c, seen[q] + 1, p);
    }
  }

  lemma IsPrepared(disk: Disk, s: Source, check: Check, seen: map<Path, nat>, before: Standing, after: Standing,
                   found: Option<set<Path>>, looked: Inventory)
    requires (found, looked) == CandidatesLook(disk.Meets(), before.at, s.path)
    requires after.at.entries == looked.entries && looked.tick <= after.at.tick && (check.Some? <==> found.Some?)
    requires check.Some? ==>
        seen.Keys == Untrashed(found.value) && ProvedAll(disk, s, check.value, seen, before, after, looked.tick)
    ensures Prepared(disk, s, check, seen, before, after)
  {
    hide CandidatesLook, Disk.Meets, ProvedAll, Untrashed;
  }

  lemma NothingToCheck(facts: Facts, worlds: nat -> World, s: Source, tick: nat)
    ensures CheckOk(facts, worlds, s, None, map[], tick) && CheckOk(facts, worlds, s, Some(map[]), map[], tick)
  {
  }

  lemma NothingProved(disk: Disk, s: Source, before: Standing, after: Standing, from: nat)
    requires before.at.tick <= after.at.tick && before == after.(at := before.at)
    ensures var seen := map[]; ProvedAll(disk, s, map[], seen, before, after, from) && Grows(before, after, seen.Keys)
  {
  }

  lemma CheckOneMore(disk: Disk, s: Source, proofs: map<Path, Proof>, seen: map<Path, nat>, p: Path,
                     proof: Option<Proof>, b: Standing, c: Standing)
    requires CheckOk(disk.facts, disk.worlds, s, Some(proofs), seen, b.at.tick) && p !in seen
    requires ProvedAt(disk, s, p, proof, b, c)
    ensures CheckOk(disk.facts, disk.worlds, s, Some(if proof.Some? then proofs[p := proof.value] else proofs),
                    seen[p := b.at.tick], c.at.tick)
  {
    hide Like, StatAt, Asked, ProofOf, Grows;
  }

  lemma ProvedGrows(disk: Disk, s: Source, p: Path, proof: Option<Proof>, a: Standing, b: Standing, c: Standing,
                    seen: map<Path, nat>, at: nat)
    requires Grows(a, b, seen.Keys) && ProvedAt(disk, s, p, proof, b, c)
    ensures Grows(a, c, seen[p := at].Keys)
  {
    hide Grows, ProofOf, Asked, Look, Like;
    GrowsOn(a, b, c, seen.Keys, p);
    assert seen[p := at].Keys == seen.Keys + {p};
  }

  /** The candidates that are not left and not trashed have been looked at. */
  ghost predicate SeenBut(all: set<Path>, rest: set<Path>, seen: map<Path, nat>) {
    rest <= all && seen.Keys == Untrashed(all - rest)
  }

  lemma SeenOneMore(all: set<Path>, rest: set<Path>, seen: map<Path, nat>, p: Path, at: nat)
    requires SeenBut(all, rest, seen) && p in rest
    ensures p !in seen && SeenBut(all, rest - {p}, if IsTrashed(p) then seen else seen[p := at])
  {
    hide IsTrashed;
  }

  lemma SeenEnds(all: set<Path>, seen: map<Path, nat>)
    ensures SeenBut(all, all, map[])
    ensures SeenBut(all, {}, seen) ==> seen.Keys == Untrashed(all)
  {
    hide IsTrashed;
    assert all - {} == all && all - all == {};
  }

  /** `_prepare_restore_evidence` for one source, before the write transaction. */
  method PrepareOne(inventory: FolderInventory, s: Source) returns (check: Check, ghost seen: map<Path, nat>)
    requires inventory.Valid()
    modifies inventory, inventory.disk
    ensures inventory.Valid() && inventory.disk.tick >= old(inventory.disk.tick)
    ensures old(inventory.entries.Keys) <= inventory.entries.Keys
    ensures check.Some? && Sibling(s.path.dirs).Some? ==> Sibling(s.path.dirs).value in inventory.entries
    ensures CheckOk(inventory.disk.facts, inventory.disk.worlds, s, check, seen, inventory.disk.tick)
    ensures Prepared(inventory.disk, s, check, seen, old(StandingOf(inventory)), StandingOf(inventory))
  {
    hide FolderInventory.Valid, CandidatesAt, CandidatesOnly, Sibling, StatAt, Like, IsTrashed, Look, Grows;
    hide ProofOf, Asked, Digests, ProvedAll, CandidatesLook, Disk.Meets, CheckOk, Untrashed, Sorted, Prepared;
    hide OwnLook, HasSibling, FolderInventory.Unsettled, Honest, ProvedAt, SeenBut;
    var disk := inventory.disk;
    seen := map[];
    var candidates, t1, t2 := inventory.Candidates(s.path);
    ghost var before, looked, known := old(StandingOf(inventory)), disk.tick, inventory.entries;
    NothingToCheck(disk.facts, disk.worlds, s, looked);
    ghost var inventoried := inventory.Now();
    if candidates.None? {
      IsPrepared(disk, s, None, seen, before, StandingOf(inventory), candidates, inventoried);
      return None, seen;
    }
    var proofs: map<Path, Proof> := map[];
    var rest := candidates.value;
    NothingProved(disk, s, before, StandingOf(inventory), looked);
    SeenEnds(candidates.value, seen);
    while rest != {}
      invariant inventory.Valid() && disk.tick >= looked && inventory.entries == known
      invariant SeenBut(candidates.value, rest, seen)
      invariant CheckOk(disk.facts, disk.worlds, s, Some(proofs), seen, disk.tick)
      invariant Grows(before, StandingOf(inventory), seen.Keys)
      invariant ProvedAll(disk, s, proofs, seen, before, StandingOf(inventory), looked)
      decreases rest
    {
      var p := NextPath(rest);
      SeenOneMore(candidates.value, rest, seen, p, disk.tick);
      rest := rest - {p};
      if !IsTrashed(p) {
        ghost var b := StandingOf(inventory);
        var proof := Prove(inventory, s, p);
        ghost var c := StandingOf(inventory);
        ProvedOneMore(disk, s, proofs, seen, before, b, c, looked, p, proof, seen.Keys);
        ProvedGrows(disk, s, p, proof, before, b, c, seen, b.at.tick);
        CheckOneMore(disk, s, proofs, seen, p, proof, b, c);
        seen := seen[p := b.at.tick];
        if proof.Some? {
          proofs := proofs[p := proof.value];
        }
      }
    }
    check := Some(proofs);
    SeenEnds(candidates.value, seen);
    IsPrepared(disk, s, check, seen, before, StandingOf(inventory), candidates, inventoried);
  }

  // ----- what the checks inside the transaction come to -----------------------------------------

  /**
   * The candidates in order, up to the first that is unproved, changed or a match; trashed
   * ones are passed over. Whether there is such a one, and the tick after its check.
   */
  ghost function BackRun(disk: Disk, order: seq<Path>, proofs: map<Path, Proof>, tick: nat): (bool, nat)
    decreases |order|
  {
    if order == [] then (false, tick)
    else
      var p := order[0];
      if IsTrashed(p) then BackRun(disk, order[1..], proofs, tick)
      else if p !in proofs || proofs[p].matches.None? then (true, tick)
      else if !disk.SameAt(p, proofs[p].identity, tick) || proofs[p].matches.value then (true, tick + 1)
      else BackRun(disk, order[1..], proofs, tick + 1)
  }

  /** One source: whether its message is kept, and where that leaves the inventory. */
  ghost function OneRun(disk: Disk, i: Inventory, s: Source, check: Check): (bool, Inventory) {
    var (found, looked) := CandidatesLook(disk.Meets(), i, s.path);
    if check.None? || found.None? then (true, looked)
    else
      var (back, ended) := BackRun(disk, Sorted(found.value), check.value, looked.tick);
      (back, looked.(tick := ended))
  }

  /** The sources in order, up to the first that keeps its message. */
  ghost function AllRun(disk: Disk, i: Inventory, sources: seq<Source>, checks: seq<Check>): (bool, Inventory)
    requires |checks| == |sources|
    decreases |sources|
  {
    if sources == [] then (false, i)
    else
      var (back, ended) := OneRun(disk, i, sources[0], checks[0]);
      if back then (true, ended) else AllRun(disk, ended, sources[1..], checks[1..])
  }

  /** The sources were gone through from one to the next, up to the first that keeps its message, or all. */
  ghost predicate WentThrough(disk: Disk, sources: seq<Source>, checks: seq<Check>, stood: seq<Inventory>, back: bool) {
    && |checks| == |sources| && 1 <= |stood| <= |sources| + 1
    && (if back then |stood| > 1 else |stood| == |sources| + 1)
    && forall k: nat | k < |stood| - 1 :: WentOn(disk, sources, checks, stood, back, k)
  }

  ghost predicate WentOn(disk: Disk, sources: seq<Source>, checks: seq<Check>, stood: seq<Inventory>, back: bool,
                         k: nat)
    requires |checks| == |sources| && k < |stood| - 1 <= |sources|
  {
    OneRun(disk, stood[k], sources[k], checks[k]) == (back && k == |stood| - 2, stood[k + 1])
  }

  lemma {:induction false} AllRunIs(disk: Disk, i: Inventory, sources: seq<Source>, checks: seq<Check>)
    returns (stood: seq<Inventory>)
    requires |checks| == |sources|
    ensures var (back, ended) := AllRun(disk, i, sources, checks);
      && WentThrough(disk, sources, checks, stood, back) && stood[0] == i && stood[|stood|-1] == ended
    decreases |sources|
  {
    hide OneRun;
    if sources == [] {
      stood := [i];
    } else {
      var (back, ended) := OneRun(disk, i, sources[0], checks[0]);
      if back {
        stood := [i, ended];
      } else {
        var rest := AllRunIs(disk, ended, sources[1..], checks[1..]);
        stood := [i] + rest;
        var all := AllRun(disk, i, sources, checks).0;
        forall k: nat | k < |stood| - 1 ensures WentOn(disk, sources, checks, stood, all, k) {
          if k > 0 {
            assert WentOn(disk, sources[1..], checks[1..], rest, all, k - 1);
          }
        }
      }
    }
  }

  /** How many of the files are checked when none is doubted. */
  function Checks(order: seq<Path>): nat {
    if order == [] then 0 else Checks(order[..|order|-1]) + if IsTrashed(order[|order|-1]) then 0 else 1
  }

  /** The `k`th file is not trashed, and it is unproved, may match, or is not the one that was proved. */
  predicate Doubted(disk: Disk, order: seq<Path>, proofs: map<Path, Proof>, tick: nat, k: nat) {
    k < |order| && !IsTrashed(order[k])
    && (order[k] !in proofs || proofs[order[k]].matches != Some(false)
        || !disk.SameAt(order[k], proofs[order[k]].identity, tick + Checks(order[..k])))
  }

  lemma {:induction false} ChecksFrom(order: seq<Path>)
    requires order != []
    ensures Checks(order) == (if IsTrashed(order[0]) then 0 else 1) + Checks(order[1..])
  {
    hide IsTrashed;
    if |order| == 1 {
      assert order[..0] == [] && order[1..] == [];
    } else {
      ChecksFrom(order[..|order|-1]);
      assert order[..|order|-1][1..] == order[1..][..|order|-2];
    }
  }

  lemma DoubtedLater(disk: Disk, order: seq<Path>, proofs: map<Path, Proof>, tick: nat, k: nat)
    requires 0 < k < |order|
    ensures Doubted(disk, order, proofs, tick, k) <==>
            Doubted(disk, order[1..], proofs, tick + (if IsTrashed(order[0]) then 0 else 1), k - 1)
  {
    hide IsTrashed, Disk.SameAt, Checks;
    ChecksFrom(order[..k]);
    assert order[..k][1..] == order[1..][..k - 1] && order[k] == order[1..][k - 1] && order[..k][0] == order[0];
  }

  lemma {:induction false} BackIff(disk: Disk, order: seq<Path>, proofs: map<Path, Proof>, tick: nat)
    ensures BackRun(disk, order, proofs, tick).0 <==> exists k: nat :: Doubted(disk, order, proofs, tick, k)
    ensures tick <= BackRun(disk, order, proofs, tick).1 <= tick + |order|
  {
    hide IsTrashed, Disk.SameAt, Doubted;
    if order == [] {
      forall k: nat ensures !Doubted(disk, order, proofs, tick, k) {
        NoneDoubted(disk, order, proofs, tick, k);
      }
    } else {
      FirstDoubted(disk, order, proofs, tick);
      var next := tick + if IsTrashed(order[0]) then 0 else 1;
      BackIff(disk, order[1..], proofs, next);
      if k: nat :| Doubted(disk, order[1..], proofs, next, k) {
        NoneDoubted(disk, order[1..], proofs, next, k);
        DoubtedLater(disk, order, proofs, tick, k + 1);
        assert Doubted(disk, order, proofs, tick, k + 1);
      }
      forall k: nat | Doubted(disk, order, proofs, tick, k) && k > 0
        ensures Doubted(disk, order[1..], proofs, next, k - 1)
      {
        NoneDoubted(disk, order, proofs, tick, k);
        DoubtedLater(disk, order, proofs, tick, k);
      }
    }
  }

  lemma NoneDoubted(disk: Disk, order: seq<Path>, proofs: map<Path, Proof>, tick: nat, k: nat)
    ensures Doubted(disk, order, proofs, tick, k) ==> k < |order|
  {
  }

  lemma FirstDoubted(disk: Disk, order: seq<Path>, proofs: map<Path, Proof>, tick: nat)
    requires order != []
    ensures Doubted(disk, order, proofs, tick, 0) <==>
              && !IsTrashed(order[0])
              && (order[0] !in proofs || proofs[order[0]].matches != Some(false)
                  || !disk.SameAt(order[0], proofs[order[0]].identity, tick))
  {
    hide IsTrashed, Disk.SameAt;
    assert order[..0] == [];
  }

  /**
   * A source keeps its message exactly when its candidates could not be listed, before the
   * transaction or in it, or one that is not trashed is doubted, each checked at its tick.
   */
  lemma KeptIff(disk: Disk, i: Inventory, s: Source, check: Check)
    ensures var (found, looked) := CandidatesLook(disk.Meets(), i, s.path);
      OneRun(disk, i, s, check).0 <==>
        || check.None? || found.None?
        || exists k: nat :: Doubted(disk, Sorted(found.value), check.value, looked.tick, k)
    ensures i.tick <= OneRun(disk, i, s, check).1.tick
  {
    hide CandidatesLook, BackRun, Disk.Meets, Sorted, Doubted;
    LookLater(disk, i, s.path);
    var (found, looked) := CandidatesLook(disk.Meets(), i, s.path);
    if check.Some? && found.Some? {
      var order := Sorted(found.value);
      BackIff(disk, order, check.value, looked.tick);
    }
    assert OneRun(disk, i, s, check).0 <==
              (check.None? || found.None?
               || exists k: nat :: Doubted(disk, Sorted(found.value), check.value, looked.tick, k));
    assert OneRun(disk, i, s, check).0 ==>
              (check.None? || found.None?
               || exists k: nat :: Doubted(disk, Sorted(found.value), check.value, looked.tick, k));
  }

  /** `_restored_on_disk` for one source, inside the write transaction. */
  method RestoredOne(inventory: FolderInventory, s: Source, check: Check, ghost seen: map<Path, nat>)
    returns (restored: bool, ghost t1: nat, ghost t2: nat)
    requires inventory.Valid() && inventory.disk.Valid()
    requires CheckOk(inventory.disk.facts, inventory.disk.worlds, s, check, seen, inventory.disk.tick)
    requires check.Some? && Sibling(s.path.dirs).Some? ==> Sibling(s.path.dirs).value in inventory.entries
    modifies inventory, inventory.disk
    ensures inventory.Valid() && inventory.disk.tick >= old(inventory.disk.tick)
    ensures old(inventory.entries.Keys) <= inventory.entries.Keys
    ensures (restored, inventory.Now()) == OneRun(inventory.disk, old(inventory.Now()), s, check)
    ensures !restored ==>
        old(inventory.disk.tick) <= t1 <= t2 < inventory.disk.tick
        && NotRestored(inventory.disk.facts, inventory.disk.worlds, s, t1, t2)
  {
    hide FolderInventory.Valid, CandidatesAt, CandidatesOnly, Sibling, StatAt, Like, Honest, Sorted, BackRun;
    hide NotRestored, CheckOk, AllRefuted, IsTrashed, CandidatesLook, Disk.Meets;
    ghost var tick := inventory.disk.tick;
    ghost var warm := HasSibling(s.path, inventory.entries);
    var candidates;
    candidates, t1, t2 := inventory.Candidates(s.path);
    restored := true;
    if check.None? || candidates.None? {
      return;
    }
    ghost var at;
    ghost var later := inventory.disk.tick;
    label checked:
    restored, at := AnyRestored(inventory.disk, candidates.value, check.value);
    TickOnly@checked(inventory);
    if !restored {
      RefutedLater(inventory.disk.worlds, candidates.value, check.value, at, t2, later);
      NoneRestored(inventory.disk.facts, inventory.disk.worlds, s, check, seen, candidates.value, at, tick, t1, t2,
                   warm);
    }
  }

  /** The loop over the candidates: a match, an unknown or a change counts as restored. */
  method AnyRestored(disk: Disk, candidates: set<Path>, proofs: map<Path, Proof>)
    returns (restored: bool, ghost at: map<Path, nat>)
    modifies disk
    ensures disk.tick >= old(disk.tick)
    ensures (restored, disk.tick) == BackRun(disk, Sorted(candidates), proofs, old(disk.tick))
    ensures !restored ==> AllRefuted(disk.worlds, candidates, proofs, at, old(disk.tick))
  {
    hide StatAt, Sorted, IsTrashed, AllRefuted, BackRun;
    at := map[];
    ghost var start := disk.tick;
    var rest := candidates;
    NoneRefuted(disk.worlds, proofs, start);
    assert candidates - rest == {};
    while rest != {}
      invariant rest <= candidates && disk.tick >= start
      invariant BackRun(disk, Sorted(candidates), proofs, start) == BackRun(disk, Sorted(rest), proofs, disk.tick)
      invariant AllRefuted(disk.worlds, candidates - rest, proofs, at, start)
      decreases rest
    {
      var p := NextPath(rest);
      assert candidates - (rest - {p}) == candidates - rest + {p}
             && candidates - (rest - {p}) - {p} == candidates - rest;
      BackStep(disk, Sorted(rest), p, Sorted(rest - {p}), proofs, disk.tick);
      rest := rest - {p};
      ghost var before := at;
      if !IsTrashed(p) {
        if p !in proofs || proofs[p].matches.None? {
          return true, at;
        }
        at := at[p := disk.tick];
        var same := disk.SameFile(p, proofs[p].identity);
        if !same || proofs[p].matches.value {
          return true, at;
        }
      }
      OneMoreRefuted(disk.worlds, candidates - rest - {p}, proofs, before, start, p, at);
    }
    restored := false;
    assert candidates - rest == candidates;
    NothingBack(disk, proofs, disk.tick);
  }

  lemma BackStep(disk: Disk, order: seq<Path>, p: Path, rest: seq<Path>, proofs: map<Path, Proof>, tick: nat)
    requires order == [p] + rest
    ensures IsTrashed(p) ==> BackRun(disk, order, proofs, tick) == BackRun(disk, rest, proofs, tick)
    ensures !IsTrashed(p) ==>
              BackRun(disk, order, proofs, tick) ==
              if p !in proofs || proofs[p].matches.None? then (true, tick)
              else if !disk.SameAt(p, proofs[p].identity, tick) || proofs[p].matches.value then (true, tick + 1)
              else BackRun(disk, rest, proofs, tick + 1)
  {
    hide IsTrashed, Disk.SameAt;
    assert order[0] == p && order[1..] == rest;
  }

  lemma NothingBack(disk: Disk, proofs: map<Path, Proof>, tick: nat)
    ensures BackRun(disk, Sorted({}), proofs, tick) == (false, tick)
  {
  }

  ghost predicate AllRefuted(worlds: nat -> World, candidates: set<Path>, proofs: map<Path, Proof>, at: map<Path, nat>,
                             since: nat) {
    forall p | p in candidates && !IsTrashed(p) ::
      && p in proofs && proofs[p].matches == Some(false)
      && p in at && since <= at[p] && StatAt(worlds(at[p]), p) == Some(proofs[p].identity)
  }

  lemma NoneRefuted(worlds: nat -> World, proofs: map<Path, Proof>, since: nat)
    ensures AllRefuted(worlds, {}, proofs, map[], since)
  {
  }

  lemma OneMoreRefuted(worlds: nat -> World, candidates: set<Path>, proofs: map<Path, Proof>, at: map<Path, nat>,
                       since: nat, p: Path, more: map<Path, nat>)
    requires AllRefuted(worlds, candidates, proofs, at, since) && p !in candidates
    requires if IsTrashed(p) then more == at
             else p in more && more == at[p := more[p]] && p in proofs && proofs[p].matches == Some(false)
                  && since <= more[p] && StatAt(worlds(more[p]), p) == Some(proofs[p].identity)
    ensures AllRefuted(worlds, candidates + {p}, proofs, more, since)
  {
    hide StatAt, IsTrashed;
  }

  lemma RefutedLater(worlds: nat -> World, candidates: set<Path>, proofs: map<Path, Proof>, at: map<Path, nat>,
                     since: nat, later: nat)
    requires since <= later && AllRefuted(worlds, candidates, proofs, at, later)
    ensures AllRefuted(worlds, candidates, proofs, at, since)
  {
  }

  lemma NoneRestored(facts: Facts, worlds: nat -> World, s: Source, check: Check, seen: map<Path, nat>,
                     candidates: set<Path>, at: map<Path, nat>,
                     tick: nat, t1: nat, t2: nat, warm: bool)
    requires Honest(facts, worlds) && check.Some? && CheckOk(facts, worlds, s, check, seen, tick) && tick <= t1 <= t2
    requires AllRefuted(worlds, candidates, check.value, at, t2)
    requires CandidatesAt(worlds, s.path, candidates, t1, t2, warm) && (Sibling(s.path.dirs).Some? ==> warm)
    ensures NotRestored(facts, worlds, s, t1, t2)
  {
    hide Honest, Sibling, Uniq, Like, IsTrashed;
    forall p, t | p in candidates && !IsTrashed(p) && (t == t1 || t == t2) ensures !LikeAt(facts, worlds(t), p, s) {
      PathUnchanged(facts, worlds, p, seen[p], t, at[p]);
    }
  }

  // ----- the whole reap -------------------------------------------------------------------------

  ghost predicate ReadyAt(facts: Facts, worlds: nat -> World, s: Source, check: Check, seen: map<Path, nat>,
                          entries: set<Dir>, tick: nat) {
    && CheckOk(facts, worlds, s, check, seen, tick)
    && (check.Some? && Sibling(s.path.dirs).Some? ==> Sibling(s.path.dirs).value in entries)
  }

  ghost predicate Ready(facts: Facts, worlds: nat -> World, sources: seq<Source>, checks: seq<Check>,
                        seen: seq<map<Path, nat>>, entries: set<Dir>, tick: nat)
  {
    |checks| == |seen| <= |sources|
    && forall i | 0 <= i < |checks| :: ReadyAt(facts, worlds, sources[i], checks[i], seen[i], entries, tick)
  }

  lemma ReadyLater(facts: Facts, worlds: nat -> World, sources: seq<Source>, checks: seq<Check>,
                   seen: seq<map<Path, nat>>,
                   entries: set<Dir>, tick: nat, moreEntries: set<Dir>, later: nat)
    requires Ready(facts, worlds, sources, checks, seen, entries, tick) && tick <= later && entries <= moreEntries
    ensures Ready(facts, worlds, sources, checks, seen, moreEntries, later)
  {
    hide Sibling;
    forall i | 0 <= i < |checks| ensures ReadyAt(facts, worlds, sources[i], checks[i], seen[i], moreEntries, later) {
    }
  }

  /** The checks of all the sources, when each was seen, and how the inventory stood before each and at the end. */
  datatype Preparation = Preparation(checks: seq<Check>, seen: seq<map<Path, nat>>, stood: seq<Standing>)

  /** Each source's check was prepared where the one before it left the inventory. */
  ghost predicate AllPrepared(disk: Disk, sources: seq<Source>, p: Preparation, before: Standing, after: Standing) {
    && |p.checks| == |p.seen| == |sources| && |p.stood| == |sources| + 1
    && p.stood[0] == before && p.stood[|sources|] == after
    && forall i | 0 <= i < |sources| :: PreparedAt(disk, sources, p, i)
  }

  ghost predicate PreparedAt(disk: Disk, sources: seq<Source>, p: Preparation, i: nat)
    requires i < |sources| == |p.checks| == |p.seen| && |p.stood| == |sources| + 1
  {
    Prepared(disk, sources[i], p.checks[i], p.seen[i], p.stood[i], p.stood[i + 1])
  }

  lemma PreparedOneMore(disk: Disk, sources: seq<Source>, p: Preparation, before: Standing, mid: Standing, s: Source,
                        check: Check, seen: map<Path, nat>, after: Standing)
    requires AllPrepared(disk, sources, p, before, mid) && Prepared(disk, s, check, seen, mid, after)
    ensures AllPrepared(disk, sources + [s], Preparation(p.checks + [check], p.seen + [seen], p.stood + [after]),
                        before, after)
  {
    hide Prepared;
    var more := Preparation(p.checks + [check], p.seen + [seen], p.stood + [after]);
    forall i | 0 <= i < |sources + [s]| ensures PreparedAt(disk, sources + [s], more, i) {
      if i < |sources| {
        assert PreparedAt(disk, sources, p, i);
      }
    }
  }

  /** `_prepare_restore_evidence`. */
  method Prepare(inventory: FolderInventory, sources: seq<Source>)
    returns (checks: seq<Check>, ghost p: Preparation)
    requires inventory.Valid()
    modifies inventory, inventory.disk
    ensures inventory.Valid() && inventory.disk.tick >= old(inventory.disk.tick) && checks == p.checks
    ensures AllPrepared(inventory.disk, sources, p, old(StandingOf(inventory)), StandingOf(inventory))
    ensures Ready(inventory.disk.facts, inventory.disk.worlds, sources, checks, p.seen, inventory.entries.Keys,
                  inventory.disk.tick)
  {
    hide FolderInventory.Valid, CheckOk, Sibling, Ready, Prepared, PreparedAt, AllPrepared, StandingOf;
    checks := [];
    ghost var before := StandingOf(inventory);
    p := Preparation([], [], [before]);
    NothingReady(inventory.disk.facts, inventory.disk.worlds, sources, inventory.entries.Keys, inventory.disk.tick);
    NothingPrepared(inventory.disk, before);
    assert sources[..0] == [];
    for i := 0 to |sources|
      invariant inventory.Valid() && inventory.disk.tick >= old(inventory.disk.tick)
      invariant checks == p.checks && |checks| == |p.seen| == i
      invariant AllPrepared(inventory.disk, sources[..i], p, before, StandingOf(inventory))
      invariant Ready(inventory.disk.facts, inventory.disk.worlds, sources, checks, p.seen, inventory.entries.Keys,
                      inventory.disk.tick)
    {
      ghost var entries, tick, mid := inventory.entries.Keys, inventory.disk.tick, StandingOf(inventory);
      var check, at := PrepareOne(inventory, sources[i]);
      ReadyLater(inventory.disk.facts, inventory.disk.worlds, sources, checks, p.seen, entries, tick,
                 inventory.entries.Keys, inventory.disk.tick);
      OneMoreReady(inventory.disk.facts, inventory.disk.worlds, sources, checks, p.seen, inventory.entries.Keys,
                   inventory.disk.tick, check, at);
      PreparedOneMore(inventory.disk, sources[..i], p, before, mid, sources[i], check, at, StandingOf(inventory));
      assert sources[..i+1] == sources[..i] + [sources[i]];
      checks := checks + [check];
      p := Preparation(p.checks + [check], p.seen + [at], p.stood + [StandingOf(inventory)]);
    }
    assert sources[..|sources|] == sources;
    PreparedSizes(inventory.disk, sources, p, before, StandingOf(inventory));
  }

  lemma NothingPrepared(disk: Disk, before: Standing)
    ensures AllPrepared(disk, [], Preparation([], [], [before]), before, before)
  {
  }

  lemma NothingReady(facts: Facts, worlds: nat -> World, sources: seq<Source>, entries: set<Dir>, tick: nat)
    ensures Ready(facts, worlds, sources, [], [], entries, tick)
  {
  }

  lemma OneMoreReady(facts: Facts, worlds: nat -> World, sources: seq<Source>, checks: seq<Check>,
                     seen: seq<map<Path, nat>>,
                     entries: set<Dir>, tick: nat, check: Check, at: map<Path, nat>)
    requires Ready(facts, worlds, sources, checks, seen, entries, tick) && |checks| < |sources|
    requires ReadyAt(facts, worlds, sources[|checks|], check, at, entries, tick)
    ensures Ready(facts, worlds, sources, checks + [check], seen + [at], entries, tick)
  {
    hide ReadyAt;
  }

  /** At some instants between, no source's bytes were back on disk. */
  ghost predicate NoneBack(facts: Facts, worlds: nat -> World, sources: seq<Source>, n: nat, since: nat, until: nat) {
    n <= |sources| && forall i | 0 <= i < n :: GoneBetween(facts, worlds, sources[i], since, until)
  }

  ghost predicate GoneBetween(facts: Facts, worlds: nat -> World, s: Source, since: nat, until: nat) {
    exists t1: nat, t2: nat :: since <= t1 <= t2 < until && NotRestored(facts, worlds, s, t1, t2)
  }

  lemma GoneOneMore(facts: Facts, worlds: nat -> World, sources: seq<Source>, i: nat, since: nat, until: nat, t1: nat,
                    t2: nat, later: nat)
    requires i < |sources| && NoneBack(facts, worlds, sources, i, since, until) && since <= until <= t1 <= t2 < later
    requires NotRestored(facts, worlds, sources[i], t1, t2)
    ensures NoneBack(facts, worlds, sources, i + 1, since, later)
  {
    hide NotRestored;
    forall j | 0 <= j <= i ensures GoneBetween(facts, worlds, sources[j], since, later) {
      if j < i {
        assert GoneBetween(facts, worlds, sources[j], since, until);
      }
    }
  }

  /** `_restored_on_disk`. */
  method RestoredOnDisk(inventory: FolderInventory, sources: seq<Source>, checks: seq<Check>,
                        ghost seen: seq<map<Path, nat>>) returns (restored: bool)
    requires inventory.Valid() && inventory.disk.Valid() && |checks| == |sources|
    requires Ready(inventory.disk.facts, inventory.disk.worlds, sources, checks, seen, inventory.entries.Keys,
                   inventory.disk.tick)
    modifies inventory, inventory.disk
    ensures inventory.Valid() && inventory.disk.tick >= old(inventory.disk.tick)
    ensures (restored, inventory.Now()) == AllRun(inventory.disk, old(inventory.Now()), sources, checks)
    ensures !restored ==> NoneBack(inventory.disk.facts, inventory.disk.worlds, sources, |sources|,
                                   old(inventory.disk.tick), inventory.disk.tick)
  {
    hide FolderInventory.Valid, CheckOk, Sibling, NotRestored, GoneBetween, Honest, OneRun, Ready;
    ghost var start := inventory.disk.tick;
    assert sources[0..] == sources && checks[0..] == checks;
    for i := 0 to |sources|
      invariant inventory.Valid() && inventory.disk.tick >= start
      invariant Ready(inventory.disk.facts, inventory.disk.worlds, sources, checks, seen, inventory.entries.Keys,
                      inventory.disk.tick)
      invariant AllRun(inventory.disk, old(inventory.Now()), sources, checks)
                == AllRun(inventory.disk, inventory.Now(), sources[i..], checks[i..])
      invariant NoneBack(inventory.disk.facts, inventory.disk.worlds, sources, i, start, inventory.disk.tick)
    {
      ghost var entries, tick := inventory.entries.Keys, inventory.disk.tick;
      assert ReadyAt(inventory.disk.facts, inventory.disk.worlds, sources[i], checks[i], seen[i], entries, tick) by {
        OneReady(inventory.disk.facts, inventory.disk.worlds, sources, checks, seen, entries, tick, i);
      }
      assert sources[i..][1..] == sources[i + 1..] && checks[i..][1..] == checks[i + 1..];
      var back, t1, t2 := RestoredOne(inventory, sources[i], checks[i], seen[i]);
      if back {
        return true;
      }
      GoneOneMore(inventory.disk.facts, inventory.disk.worlds, sources, i, start, tick, t1, t2, inventory.disk.tick);
      ReadyLater(inventory.disk.facts, inventory.disk.worlds, sources, checks, seen, entries, tick,
                 inventory.entries.Keys, inventory.disk.tick);
    }
    restored := false;
  }

  lemma OneReady(facts: Facts, worlds: nat -> World, sources: seq<Source>, checks: seq<Check>,
                 seen: seq<map<Path, nat>>, entries: set<Dir>, tick: nat, i: nat)
    requires Ready(facts, worlds, sources, checks, seen, entries, tick) && i < |checks|
    ensures |seen| == |checks| <= |sources|
    ensures ReadyAt(facts, worlds, sources[i], checks[i], seen[i], entries, tick)
  {
  }

  /** Where the messages' copies are or were, active or retired. */
  ghost predicate Covers(sources: seq<Source>, t: Tables, ids: seq<Claimant>, content: Claimant -> seq<byte>,
                         facts: Facts) {
    forall id | id in t.occ && t.occ[id].claimant in ids ::
      exists i ::
          0 <= i < |sources| && sources[i].path == t.occ[id].path
          && Records(sources[i], content(t.occ[id].claimant), facts)
  }

  ghost predicate Records(s: Source, content: seq<byte>, facts: Facts) {
    (s.expected.Some? ==> s.expected.value == facts.hash(content)) && (s.size.Some? ==> s.size.value == |content|)
  }

  /**
   * `reap_thread_messages` with its disk check. Between the preparation and the transaction
   * `others` may commit. A reap that goes ahead found, inside its transaction, none of the
   * messages' bytes under any of their copies' names, except in trashed files.
   */
  method Reap(store: Store, inventory: FolderInventory, thread: Thread, ids: seq<Claimant>, cutoff: Option<Time>,
              sources: seq<Source>,
              others: Tables -> Tables, ghost content: Claimant -> seq<byte>)
    returns (removed: Option<seq<Claimant>>, ghost began: Standing, ghost p: Preparation)
    requires inventory.Valid() && inventory.disk.Valid() && Valid(store.Tables())
    requires forall t | Valid(t) :: Valid(others(t))
    requires Covers(sources, store.Tables(), ids, content, inventory.disk.facts)
    modifies store, inventory, inventory.disk
    ensures inventory.Valid() && old(inventory.disk.tick) <= began.at.tick <= inventory.disk.tick
    ensures AllPrepared(inventory.disk, sources, p, old(StandingOf(inventory)), began)
    ensures var spared := Unreapable(others(old(store.Tables())), thread, Some(SetOf(ids)), cutoff);
      var (back, ended) := AllRun(inventory.disk, began.at, sources, p.checks);
      && (removed.None? <==> spared || back)
      && inventory.Now() == if spared then began.at else ended
    ensures removed.None? ==> store.Tables() == others(old(store.Tables()))
    ensures removed.Some? ==>
        ReapMessages(others(old(store.Tables())), thread, SetOf(ids), cutoff, false) == Some(store.Tables())
    ensures removed.Some? ==>
              forall id | id in old(store.occ) && old(store.occ)[id].claimant in ids ::
                CopyGone(inventory.disk.facts, inventory.disk.worlds, old(store.occ)[id].path,
                         content(old(store.occ)[id].claimant), began.at.tick, inventory.disk.tick)
  {
    hide FolderInventory.Valid, CheckOk, Sibling, NotRestored, GoneBetween, Honest, Ready, NoneBack, Valid;
    hide Unreapable, Covers, CopyGone, Remove, AllPrepared, AllRun;
    ghost var before := store.Tables();
    var checks;
    checks, p := Prepare(inventory, sources);
    PreparedSizes(inventory.disk, sources, p, old(StandingOf(inventory)), StandingOf(inventory));
    var t := others(store.Tables());
    store.occ, store.pending, store.threadOf := t.occ, t.pending, t.threadOf;
    began := StandingOf(inventory);
    var restored := false;
    if !Unreapable(t, thread, Some(SetOf(ids)), cutoff) {
      restored := RestoredOnDisk(inventory, sources, checks, p.seen);
      if !restored {
        CopiesGone(inventory.disk.facts, inventory.disk.worlds, sources, before, ids, content, began.at.tick,
                   inventory.disk.tick);
      }
    }
    removed := store.ReapThreadMessages(thread, ids, cutoff, restored);
  }

  lemma PreparedSizes(disk: Disk, sources: seq<Source>, p: Preparation, before: Standing, after: Standing)
    requires AllPrepared(disk, sources, p, before, after)
    ensures |p.checks| == |p.seen| == |sources|
  {
  }

  /** At some instants between, no untrashed file with the path's uniq held these bytes. */
  ghost predicate CopyGone(facts: Facts, worlds: nat -> World, path: Path, content: seq<byte>, since: nat, until: nat) {
    exists s: Source :: s.path == path && Records(s, content, facts) && GoneBetween(facts, worlds, s, since, until)
  }

  lemma CopiesGone(facts: Facts, worlds: nat -> World, sources: seq<Source>, t: Tables, ids: seq<Claimant>,
                   content: Claimant -> seq<byte>, since: nat, until: nat)
    requires Covers(sources, t, ids, content, facts) && NoneBack(facts, worlds, sources, |sources|, since, until)
    ensures forall id | id in t.occ && t.occ[id].claimant in ids ::
        CopyGone(facts, worlds, t.occ[id].path, content(t.occ[id].claimant), since, until)
  {
    hide GoneBetween, Records;
  }

  /** Bytes that agree with a source's records are like it, so a file not like it does not hold them. */
  lemma GoneMeansNotHeld(facts: Facts, worlds: nat -> World, s: Source, content: seq<byte>, t1: nat, t2: nat, p: Path)
    requires Records(s, content, facts) && NotRestored(facts, worlds, s, t1, t2)
    requires SameUniqIn(worlds(t1), s.path, s.path.dirs, p) && !IsTrashed(p)
    ensures !Holds(facts, worlds(t1), p, content)
  {
    hide Uniq, Sibling, IsTrashed;
  }
}
